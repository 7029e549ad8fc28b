/** ReserveComponents and SettleComponents: holding an upper bound for every
    priced basis before a request, and charging its usage afterwards. */
module PricingLedger {
  import opened Wrappers
  import opened Integers
  import opened PricingModel
  import opened PricingDigest
  import opened PricingNormalize
  import opened Orders
  import opened Sequences
  import opened Text

  datatype Usage = Usage(basis: Basis, quantity: int64)

  /** What a request declares before it is sent. */
  datatype Context = Context(inputTokens: int64, outputTokens: int64, declared: seq<Usage>)

  datatype Component = Component(basis: Basis, quantity: int64, price: int64, denominator: int64, micros: int64)

  datatype Actual = Actual(
    basis: Basis, quantity: int64, price: int64, denominator: int64, micros: int64,
    reservedQuantity: int64, exceeded: bool)

  datatype Settlement = Settlement(actual: seq<Actual>, missing: seq<Basis>)

  /** The zero time.Time. */
  const ZERO_TIME := 0

  // ---- arithmetic

  /** price * quantity / denominator rounded up, or an error when it does not fit. */
  function CeilingProduct(price: int64, quantity: int64, denominator: int64): Result<int64> {
    if price < 0 || quantity < 0 || denominator <= 0 then Err
    else
      ProductNonNegative(price, quantity);
      var n: nat := price * quantity;
      var up := n / denominator + (if n % denominator != 0 then 1 else 0);
      if up > MAX_INT64 then Err else Ok(up)
  }

  lemma ProductNonNegative(a: int, b: int)
    requires a >= 0 && b >= 0
    ensures a * b >= 0
  {}

  lemma RoundedUp(n: nat, d: nat)
    requires d > 0
    ensures var up := n / d + (if n % d != 0 then 1 else 0); d * (up - 1) < n <= d * up
  {
    assert n == d * (n / d) + n % d;
    assert d * (n / d + 1) == d * (n / d) + d;
  }

  lemma RoundedUpFits(n: nat, d: nat, up: int, most: int)
    requires d > 0 && d * (up - 1) < n <= d * up
    ensures up <= most <==> n <= d * most
  {
    if up <= most { Scale(d, up, most); } else { Scale(d, most, up - 1); }
  }

  /** The charge is the least whole number of micros that covers the exact price. */
  lemma CeilingProductIsLeast(price: int64, quantity: int64, denominator: int64)
    requires price >= 0 && quantity >= 0 && denominator > 0
    ensures var r := CeilingProduct(price, quantity, denominator);
      && (r.Ok? <==> price * quantity <= denominator * MAX_INT64)
      && (r.Ok? ==> denominator * (r.value - 1) < price * quantity <= denominator * r.value && r.value >= 0)
  {
    ProductNonNegative(price, quantity);
    var n: nat := price * quantity;
    var up := n / denominator + (if n % denominator != 0 then 1 else 0);
    RoundedUp(n, denominator);
    RoundedUpFits(n, denominator, up, MAX_INT64);
  }

  lemma Scale(d: int, a: int, b: int)
    requires d >= 0 && a <= b
    ensures d * a <= d * b
  {}

  /** Charging a smaller quantity costs no more, and cannot fail if the larger did not. */
  lemma CeilingProductMonotone(price: int64, small: int64, large: int64, denominator: int64)
    requires 0 <= small <= large && CeilingProduct(price, large, denominator).Ok?
    ensures var r := CeilingProduct(price, small, denominator);
      r.Ok? && 0 <= r.value <= CeilingProduct(price, large, denominator).value
  {
    CeilingProductIsLeast(price, large, denominator);
    CeilingProductIsLeast(price, small, denominator);
    Scale(price, small, large);
    var s, l := CeilingProduct(price, small, denominator), CeilingProduct(price, large, denominator).value;
    if s.value > l { Scale(denominator, l, s.value - 1); }
  }

  // ---- usage vectors

  function UsageBases(values: seq<Usage>): (bs: seq<Basis>)
    ensures |bs| == |values| && forall i | 0 <= i < |values| :: bs[i] == values[i].basis
  {
    seq(|values|, i requires 0 <= i < |values| => values[i].basis)
  }

  /** Known bases, none twice, no negative quantity. */
  ghost predicate CanonicalVector(values: seq<Usage>) {
    && (forall v | v in values :: IsBasis(v.basis) && v.quantity >= 0)
    && Distinct(UsageBases(values))
  }

  function UsageMap(values: seq<Usage>): map<Basis, int64> {
    if values == [] then map[]
    else var last := values[|values| - 1]; UsageMap(values[..|values| - 1])[last.basis := last.quantity]
  }

  lemma {:induction false} UsageMapKeys(values: seq<Usage>)
    ensures forall b :: b in UsageMap(values) <==> b in UsageBases(values)
  {
    if values != [] {
      var front := values[..|values| - 1];
      UsageMapKeys(front);
      assert UsageBases(values) == UsageBases(front) + [values[|values| - 1].basis];
    }
  }

  lemma {:induction false} UsageMapLookup(values: seq<Usage>, v: Usage)
    requires Distinct(UsageBases(values))
    ensures v in values <==> v.basis in UsageMap(values) && UsageMap(values)[v.basis] == v.quantity
  {
    if values != [] {
      var front, last := values[..|values| - 1], values[|values| - 1];
      assert values == front + [last];
      assert UsageBases(values) == UsageBases(front) + [last.basis];
      PrefixesDistinct(UsageBases(front), [last.basis]);
      UsageMapLookup(front, v);
      UsageMapKeys(front);
      forall i | 0 <= i < |front| ensures front[i].basis != last.basis {
        assert UsageBases(values)[i] != UsageBases(values)[|front|];
      }
    }
  }

  lemma CanonicalExtends(front: seq<Usage>, v: Usage)
    requires CanonicalVector(front)
    ensures UsageMap(front + [v]) == UsageMap(front)[v.basis := v.quantity]
    ensures CanonicalVector(front + [v]) <==> IsBasis(v.basis) && v.quantity >= 0 && v.basis !in UsageMap(front)
  {
    var longer := front + [v];
    assert longer[..|longer| - 1] == front;
    assert UsageBases(longer) == UsageBases(front) + [v.basis];
    assert v in longer;
    UsageMapKeys(front);
    if v.basis in UsageBases(front) {
      var k :| 0 <= k < |front| && UsageBases(front)[k] == v.basis;
      assert UsageBases(longer)[k] == UsageBases(longer)[|front|];
    }
  }

  lemma CanonicalPrefix(a: seq<Usage>, b: seq<Usage>)
    requires CanonicalVector(a + b)
    ensures CanonicalVector(a)
  {
    assert UsageBases(a + b) == UsageBases(a) + UsageBases(b);
    PrefixesDistinct(UsageBases(a), UsageBases(b));
    forall v | v in a ensures IsBasis(v.basis) && v.quantity >= 0 { assert v in a + b; }
  }

  method CanonicalUsage(values: seq<Usage>) returns (r: Result<map<Basis, int64>>)
    ensures r.Ok? <==> CanonicalVector(values)
    ensures r.Ok? ==> r.value == UsageMap(values)
  {
    var out: map<Basis, int64> := map[];
    for i := 0 to |values|
      invariant CanonicalVector(values[..i]) && out == UsageMap(values[..i])
    {
      var v := values[i];
      CanonicalExtends(values[..i], v);
      assert values[..i + 1] == values[..i] + [v];
      if !IsBasis(v.basis) || v.quantity < 0 || v.basis in out {
        assert values == values[..i + 1] + values[i + 1..];
        if CanonicalVector(values) { CanonicalPrefix(values[..i + 1], values[i + 1..]); }
        return Err;
      }
      out := out[v.basis := v.quantity];
    }
    assert values[..|values|] == values;
    return Ok(out);
  }

  // ---- reservation

  function RequestQuantity(row: Charge, ctx: Context, declared: map<Basis, int64>): Result<int64> {
    if row.applicability.Always? || row.applicability.ProviderResponse? then
      match row.maximum case Some(q) => Ok(q) case None => Err
    else if row.boundField == "input_tokens" then Ok(ctx.inputTokens)
    else if row.boundField == "max_output_tokens" then Ok(ctx.outputTokens)
    else if row.boundField in ["max_cached_input_tokens", "max_reasoning_tokens", "max_tool_calls", "max_media_units",
                               "timeout_seconds", "max_retry_attempts", "cancellation_possible"] then
      if row.basis in declared then Ok(declared[row.basis]) else Err
    else Err
  }

  /** The hold for one priced row. An enforced maximum replaces the declared bound. */
  function ReserveRow(row: Charge, ctx: Context, declared: map<Basis, int64>): Result<Component> {
    var requested :- RequestQuantity(row, ctx, declared);
    var q := match row.maximum case Some(m) => m case None => requested;
    var cost :- CeilingProduct(row.price, q, row.denominator);
    Ok(Component(row.basis, q, row.price, row.denominator, cost))
  }

  function ReserveRows(rows: seq<Charge>, ctx: Context, declared: map<Basis, int64>): Result<seq<Component>> {
    if rows == [] then Ok([])
    else if rows[0].includedIn.Some? then ReserveRows(rows[1..], ctx, declared)
    else
      var first :- ReserveRow(rows[0], ctx, declared);
      var rest :- ReserveRows(rows[1..], ctx, declared);
      Ok([first] + rest)
  }

  ghost predicate ValidAt(hash: string -> Digest, s: Snapshot, at: int) {
    && IntegrityOk(hash, s) && at != ZERO_TIME && s.validUntil > at && s.observedAt <= at + MINUTE
  }

  ghost function Reservation(hash: string -> Digest, s: Snapshot, ctx: Context, at: int): Result<seq<Component>> {
    if ValidAt(hash, s, at) && CanonicalVector(ctx.declared)
    then ReserveRows(s.charges, ctx, UsageMap(ctx.declared)) else Err
  }

  method ReserveAll(rows: seq<Charge>, ctx: Context, declared: map<Basis, int64>) returns (r: Result<seq<Component>>)
    ensures r == ReserveRows(rows, ctx, declared)
  {
    var out := [];
    assert rows[0..] == rows;
    ghost var all := ReserveRows(rows, ctx, declared);
    if all.Ok? { assert out + all.value == all.value; }
    for i := 0 to |rows|
      invariant match ReserveRows(rows[i..], ctx, declared)
                case Ok(rest) => ReserveRows(rows, ctx, declared) == Ok(out + rest)
                case Err => ReserveRows(rows, ctx, declared) == Err
    {
      assert rows[i..][0] == rows[i] && rows[i..][1..] == rows[i + 1..];
      if rows[i].includedIn.None? {
        var q :- RequestQuantity(rows[i], ctx, declared);
        if rows[i].maximum.Some? { q := rows[i].maximum.value; }
        if q < 0 { return Err; }
        var cost :- CeilingProduct(rows[i].price, q, rows[i].denominator);
        var component := Component(rows[i].basis, q, rows[i].price, rows[i].denominator, cost);
        ghost var rest := ReserveRows(rows[i + 1..], ctx, declared);
        if rest.Ok? { Regroup(out, [component], rest.value); }
        out := out + [component];
      }
    }
    assert out + [] == out;
    return Ok(out);
  }

  method ReserveComponents(hash: string -> Digest, s: Snapshot, ctx: Context, at: int) returns (r: Result<seq<Component>>)
    ensures r == Reservation(hash, s, ctx, at)
  {
    var intact := ValidateSnapshotIntegrity(hash, s);
    if !intact || at == ZERO_TIME || s.validUntil <= at || s.observedAt > at + MINUTE { return Err; }
    var declared :- CanonicalUsage(ctx.declared);
    r := ReserveAll(s.charges, ctx, declared);
  }

  // ---- settlement

  predicate ByActualBasis(a: Actual, b: Actual) { LexLe(BasisText(a.basis), BasisText(b.basis)) }

  function ComponentMap(components: seq<Component>): map<Basis, Component> {
    if components == [] then map[]
    else
      var last := components[|components| - 1];
      ComponentMap(components[..|components| - 1])[last.basis := last]
  }

  function ComponentBases(components: seq<Component>): (bs: seq<Basis>)
    ensures |bs| == |components| && forall i | 0 <= i < |components| :: bs[i] == components[i].basis
  {
    seq(|components|, i requires 0 <= i < |components| => components[i].basis)
  }

  /** The hold belongs to the frozen row. */
  predicate HoldMatches(row: Charge, held: map<Basis, Component>) {
    row.basis in held && held[row.basis].price == row.price && held[row.basis].denominator == row.denominator
  }

  function SettleRow(row: Charge, hold: Component, quantity: int64): Result<Actual> {
    var cost :- CeilingProduct(row.price, quantity, row.denominator);
    Ok(Actual(row.basis, quantity, row.price, row.denominator, cost, hold.quantity, quantity > hold.quantity))
  }

  function SettleRows(rows: seq<Charge>, held: map<Basis, Component>, quantities: map<Basis, int64>): Result<Settlement> {
    if rows == [] then Ok(Settlement([], []))
    else if rows[0].includedIn.Some? then SettleRows(rows[1..], held, quantities)
    else if !HoldMatches(rows[0], held) then Err
    else if rows[0].basis !in quantities then
      var rest :- SettleRows(rows[1..], held, quantities);
      Ok(rest.(missing := [rows[0].basis] + rest.missing))
    else
      var first :- SettleRow(rows[0], held[rows[0].basis], quantities[rows[0].basis]);
      var rest :- SettleRows(rows[1..], held, quantities);
      Ok(rest.(actual := [first] + rest.actual))
  }

  /** The bases that are charged for themselves. */
  function PricedBases(rows: seq<Charge>): set<Basis> {
    set row | row in rows && row.includedIn.None? :: row.basis
  }

  function AnyExceeded(actual: seq<Actual>): bool {
    exists a :: a in actual && a.exceeded
  }

  datatype Outcome = Outcome(actual: seq<Actual>, missing: seq<Basis>, exceeded: bool)

  ghost function Settled(hash: string -> Digest, s: Snapshot, reserved: seq<Component>, usage: seq<Usage>): Result<Outcome> {
    if IntegrityOk(hash, s) then SettledRows(s.charges, reserved, usage) else Err
  }

  ghost function SettledRows(rows: seq<Charge>, reserved: seq<Component>, usage: seq<Usage>): Result<Outcome> {
    if !CanonicalVector(usage) || !Distinct(ComponentBases(reserved)) then Err
    else
      var quantities := UsageMap(usage);
      var settlement :- SettleRows(rows, ComponentMap(reserved), quantities);
      if !(quantities.Keys <= PricedBases(rows)) then Err
      else Ok(Outcome(Sort(ByActualBasis, settlement.actual), Sort(ByText, settlement.missing), AnyExceeded(settlement.actual)))
  }

  lemma {:induction false} ComponentMapKeys(components: seq<Component>)
    ensures forall b :: b in ComponentMap(components) <==> b in ComponentBases(components)
  {
    if components != [] {
      var front := components[..|components| - 1];
      ComponentMapKeys(front);
      assert ComponentBases(components) == ComponentBases(front) + [components[|components| - 1].basis];
    }
  }

  method IndexReserved(reserved: seq<Component>) returns (r: Result<map<Basis, Component>>)
    ensures r.Ok? <==> Distinct(ComponentBases(reserved))
    ensures r.Ok? ==> r.value == ComponentMap(reserved)
  {
    var held: map<Basis, Component> := map[];
    for i := 0 to |reserved|
      invariant Distinct(ComponentBases(reserved[..i])) && held == ComponentMap(reserved[..i])
    {
      assert reserved[..i + 1] == reserved[..i] + [reserved[i]];
      assert ComponentBases(reserved[..i + 1]) == ComponentBases(reserved[..i]) + [reserved[i].basis];
      ComponentMapKeys(reserved[..i]);
      if reserved[i].basis in held {
        var k :| 0 <= k < i && ComponentBases(reserved[..i])[k] == reserved[i].basis;
        assert ComponentBases(reserved)[k] == ComponentBases(reserved)[i];
        return Err;
      }
      held := held[reserved[i].basis := reserved[i]];
    }
    assert reserved[..|reserved|] == reserved;
    return Ok(held);
  }

  /** One pass over the frozen rows, consuming each quantity it charges. */
  method SettleAll(rows: seq<Charge>, held: map<Basis, Component>, usage: map<Basis, int64>)
    returns (r: Result<Settlement>, exceeded: bool, left: map<Basis, int64>)
    requires UniqueBases(rows) && forall row | row in rows :: row.settlementField == row.basis
    ensures r == SettleRows(rows, held, usage)
    ensures r.Ok? ==> exceeded == AnyExceeded(r.value.actual) && left == usage - PricedBases(rows)
  {
    var actual: seq<Actual>, missing: seq<Basis> := [], [];
    exceeded, left := false, usage;
    assert rows[0..] == rows;
    ghost var all := SettleRows(rows, held, usage);
    if all.Ok? { assert actual + all.value.actual == all.value.actual && missing + all.value.missing == all.value.missing; }
    for i := 0 to |rows|
      invariant match SettleRows(rows[i..], held, usage)
                case Ok(rest) => SettleRows(rows, held, usage) == Ok(Settlement(actual + rest.actual, missing + rest.missing))
                case Err => SettleRows(rows, held, usage) == Err
      invariant exceeded == AnyExceeded(actual)
      invariant left == usage - PricedBases(rows[..i])
    {
      var row := rows[i];
      assert rows[i..][0] == row && rows[i..][1..] == rows[i + 1..];
      assert row.basis !in PricedBases(rows[..i]);
      PricedBasesExtend(rows, i);
      ghost var rest := SettleRows(rows[i + 1..], held, usage);
      if row.includedIn.Some? { continue; }
      if !HoldMatches(row, held) { return Err, false, left; }
      if row.settlementField !in left {
        if rest.Ok? { Regroup(missing, [row.basis], rest.value.missing); }
        missing := missing + [row.basis];
        assert left == left - {row.basis};
      } else {
        var first := SettleRow(row, held[row.basis], left[row.settlementField]);
        if first.Err? { return Err, false, left; }
        if rest.Ok? { Regroup(actual, [first.value], rest.value.actual); }
        ExceededExtends(actual, first.value);
        exceeded := exceeded || first.value.exceeded;
        actual := actual + [first.value];
        left := left - {row.settlementField};
      }
    }
    assert rows[..|rows|] == rows && actual + [] == actual && missing + [] == missing;
    r := Ok(Settlement(actual, missing));
  }

  lemma ExceededExtends(actual: seq<Actual>, a: Actual)
    ensures AnyExceeded(actual + [a]) == (AnyExceeded(actual) || a.exceeded)
  {
    assert a in actual + [a];
    if AnyExceeded(actual) {
      var x :| x in actual && x.exceeded;
      assert x in actual + [a];
    }
  }

  lemma PricedBasesExtend(rows: seq<Charge>, i: nat)
    requires i < |rows|
    ensures PricedBases(rows[..i + 1]) ==
      PricedBases(rows[..i]) + (if rows[i].includedIn.None? then {rows[i].basis} else {})
  {
    assert rows[..i + 1] == rows[..i] + [rows[i]];
  }

  method SettleFrozenRows(rows: seq<Charge>, reserved: seq<Component>, usage: seq<Usage>) returns (r: Result<Outcome>)
    requires UniqueBases(rows) && forall row | row in rows :: row.settlementField == row.basis
    ensures r == SettledRows(rows, reserved, usage)
  {
    var quantities :- CanonicalUsage(usage);
    var held :- IndexReserved(reserved);
    var settlement, exceeded, left := SettleAll(rows, held, quantities);
    if settlement.Err? { return Err; }
    assert left.Keys == quantities.Keys - PricedBases(rows);
    if left.Keys != {} { return Err; }
    forall b | b in quantities.Keys ensures b in PricedBases(rows) { assert b !in left.Keys; }
    return Ok(Outcome(Sort(ByActualBasis, settlement.value.actual), Sort(ByText, settlement.value.missing), exceeded));
  }

  method SettleComponents(hash: string -> Digest, s: Snapshot, reserved: seq<Component>, usage: seq<Usage>)
    returns (r: Result<Outcome>)
    ensures r == Settled(hash, s, reserved, usage)
  {
    var intact := ValidateSnapshotIntegrity(hash, s);
    if !intact { return Err; }
    IntactRows(s.charges, s.inapplicable);
    forall row | row in s.charges ensures row.settlementField == row.basis { assert RowIntact(row); }
    r := SettleFrozenRows(s.charges, reserved, usage);
  }

  // ---- sums

  ghost predicate NonNegative(micros: seq<int>) {
    forall i | 0 <= i < |micros| :: micros[i] >= 0
  }

  ghost predicate Summable(micros: seq<int>) {
    NonNegative(micros) && SumOf(micros) <= MAX_INT64
  }

  /** The running-sum overflow check of both sum functions fails exactly when a
      charge is negative or the whole sum does not fit. */
  method SumMicros(micros: seq<int>) returns (r: Result<int64>)
    requires forall i | 0 <= i < |micros| :: micros[i] <= MAX_INT64
    ensures r.Ok? <==> Summable(micros)
    ensures r.Ok? ==> r.value == SumOf(micros)
  {
    var sum: int64 := 0;
    for i := 0 to |micros|
      invariant forall k | 0 <= k < i :: micros[k] >= 0
      invariant sum >= 0 && sum == SumOf(micros[..i])
    {
      assert micros[..i + 1] == micros[..i] + [micros[i]];
      SumSplits(micros[..i], [micros[i]]);
      if micros[i] < 0 { return Err; }
      if sum > MAX_INT64 - micros[i] {
        assert micros == micros[..i + 1] + micros[i + 1..];
        SumSplits(micros[..i + 1], micros[i + 1..]);
        if NonNegative(micros) { SumNonNegative(micros[i + 1..]); }
        return Err;
      }
      sum := sum + micros[i];
    }
    assert micros[..|micros|] == micros;
    return Ok(sum);
  }

  function ComponentMicros(components: seq<Component>): seq<int> {
    MapSeq((c: Component) => c.micros as int, components)
  }

  function ActualMicros(actual: seq<Actual>): seq<int> {
    MapSeq((a: Actual) => a.micros as int, actual)
  }

  method SumComponents(components: seq<Component>) returns (r: Result<int64>)
    ensures r.Ok? <==> Summable(ComponentMicros(components))
    ensures r.Ok? ==> r.value == SumOf(ComponentMicros(components))
  {
    r := SumMicros(ComponentMicros(components));
  }

  method SumActualComponents(actual: seq<Actual>) returns (r: Result<int64>)
    ensures r.Ok? <==> Summable(ActualMicros(actual))
    ensures r.Ok? ==> r.value == SumOf(ActualMicros(actual))
  {
    r := SumMicros(ActualMicros(actual));
  }
}
