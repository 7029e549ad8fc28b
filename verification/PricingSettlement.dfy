/** What a reservation promises about the settlement that follows it. */
module PricingSettlement {
  import opened Wrappers
  import opened Integers
  import opened PricingModel
  import opened PricingDigest
  import opened PricingNormalize
  import opened PricingLedger
  import opened Orders
  import opened Text

  // ---- the shape of a reservation

  /** A hold at the price of its row that covers its quantity. */
  predicate HoldFits(row: Charge, c: Component) {
    && c.basis == row.basis && c.price == row.price && c.denominator == row.denominator
    && c.quantity >= 0 && CeilingProduct(row.price, c.quantity, row.denominator) == Ok(c.micros)
  }

  /** One fitting hold for each priced row, in row order. */
  predicate HoldsFor(rows: seq<Charge>, held: seq<Component>) {
    if rows == [] then held == []
    else if rows[0].includedIn.Some? then HoldsFor(rows[1..], held)
    else held != [] && HoldFits(rows[0], held[0]) && HoldsFor(rows[1..], held[1..])
  }

  lemma {:induction false} ReservationHolds(rows: seq<Charge>, ctx: Context, declared: map<Basis, int64>)
    requires ReserveRows(rows, ctx, declared).Ok?
    ensures HoldsFor(rows, ReserveRows(rows, ctx, declared).value)
  {
    if rows != [] {
      ReservationHolds(rows[1..], ctx, declared);
      if rows[0].includedIn.None? {
        var held := ReserveRows(rows, ctx, declared).value;
        assert held[1..] == ReserveRows(rows[1..], ctx, declared).value;
      }
    }
  }

  lemma {:induction false} HeldBases(rows: seq<Charge>, held: seq<Component>)
    requires HoldsFor(rows, held) && UniqueBases(rows)
    ensures Distinct(ComponentBases(held))
    ensures forall c | c in held :: exists row :: row in rows && row.includedIn.None? && HoldFits(row, c)
  {
    if rows != [] {
      if rows[0].includedIn.Some? {
        HeldBases(rows[1..], held);
      } else {
        HeldBases(rows[1..], held[1..]);
        forall i | 0 < i < |held| ensures held[i].basis != held[0].basis {
          assert held[1..][i - 1] == held[i];
          assert held[i] in held[1..];
        }
        forall c | c in held ensures exists row :: row in rows && row.includedIn.None? && HoldFits(row, c) {
          if c != held[0] { assert c in held[1..]; } else { assert HoldFits(rows[0], c); }
        }
      }
    }
  }

  lemma {:induction false} ComponentMapHolds(held: seq<Component>)
    requires Distinct(ComponentBases(held))
    ensures forall c | c in held :: c.basis in ComponentMap(held) && ComponentMap(held)[c.basis] == c
  {
    if held != [] {
      var front, last := held[..|held| - 1], held[|held| - 1];
      assert held == front + [last];
      assert ComponentBases(held) == ComponentBases(front) + [last.basis];
      PrefixesDistinct(ComponentBases(front), [last.basis]);
      ComponentMapHolds(front);
      forall i | 0 <= i < |front| ensures front[i].basis != last.basis {
        assert ComponentBases(held)[i] != ComponentBases(held)[|front|];
      }
    }
  }

  /** `index` finds every hold. */
  ghost predicate Indexes(index: map<Basis, Component>, held: seq<Component>) {
    forall c | c in held :: c.basis in index && index[c.basis] == c
  }

  /** What an intact priced row is held for: its enforced maximum, or the bound the
      request declares for its own basis. */
  function BoundOf(row: Charge, ctx: Context, declared: map<Basis, int64>): Option<int64> {
    if row.maximum.Some? then Some(row.maximum.value)
    else if row.basis.InputTokens? then Some(ctx.inputTokens)
    else if row.basis.OutputTokens? then Some(ctx.outputTokens)
    else if row.basis in declared then Some(declared[row.basis])
    else None
  }

  /** A request-declared charge of any other basis than the two token counts needs
      its declaration even when a maximum replaces it. */
  predicate DeclarationPresent(row: Charge, declared: map<Basis, int64>) {
    row.applicability.RequestDeclared? && !row.basis.InputTokens? && !row.basis.OutputTokens? ==> row.basis in declared
  }

  predicate Reservable(row: Charge, ctx: Context, declared: map<Basis, int64>) {
    var bound := BoundOf(row, ctx, declared);
    && DeclarationPresent(row, declared)
    && bound.Some? && bound.value >= 0 && row.price * bound.value <= row.denominator * MAX_INT64
  }

  lemma RequestedBound(row: Charge, ctx: Context, declared: map<Basis, int64>)
    requires RowIntact(row) && row.includedIn.None?
    ensures var q := RequestQuantity(row, ctx, declared);
      && (q.Ok? <==> DeclarationPresent(row, declared))
      && (q.Ok? ==> BoundOf(row, ctx, declared) == Some(match row.maximum case Some(m) => m case None => q.value))
  {
    if row.applicability.RequestDeclared? { BoundFieldsDiffer(row.basis); }
  }

  /** The two token fields bound only their own bases. */
  lemma BoundFieldsDiffer(basis: Basis)
    requires BoundFieldOf(basis).Some?
    ensures BoundFieldOf(basis).value == "input_tokens" <==> basis.InputTokens?
    ensures BoundFieldOf(basis).value == "max_output_tokens" <==> basis.OutputTokens?
  {
    var field := BoundFieldOf(basis).value;
    assert |field| == |"input_tokens"| ==> basis.InputTokens?;
    assert |field| == |"max_output_tokens"| ==> basis.OutputTokens?;
  }

  lemma ReserveRowExactly(row: Charge, ctx: Context, declared: map<Basis, int64>)
    requires RowIntact(row) && row.includedIn.None?
    ensures var r := ReserveRow(row, ctx, declared);
      && (r.Ok? <==> Reservable(row, ctx, declared))
      && (r.Ok? ==> HoldFits(row, r.value) && BoundOf(row, ctx, declared) == Some(r.value.quantity))
  {
    RequestedBound(row, ctx, declared);
    var bound := BoundOf(row, ctx, declared);
    if bound.Some? && bound.value >= 0 { CeilingProductIsLeast(row.price, bound.value, row.denominator); }
  }

  lemma {:induction false} RowsReserveExactly(rows: seq<Charge>, ctx: Context, declared: map<Basis, int64>)
    requires forall row | row in rows :: RowIntact(row)
    ensures ReserveRows(rows, ctx, declared).Ok? <==>
      forall row | row in rows && row.includedIn.None? :: Reservable(row, ctx, declared)
  {
    if rows != [] {
      assert rows == [rows[0]] + rows[1..];
      RowsReserveExactly(rows[1..], ctx, declared);
      if rows[0].includedIn.None? { ReserveRowExactly(rows[0], ctx, declared); }
    }
  }

  /** When a reservation succeeds. */
  lemma ReservationSucceedsExactlyWhen(hash: string -> Digest, s: Snapshot, ctx: Context, at: int)
    ensures Reservation(hash, s, ctx, at).Ok? <==>
      && ValidAt(hash, s, at) && CanonicalVector(ctx.declared)
      && forall row | row in s.charges && row.includedIn.None? :: Reservable(row, ctx, UsageMap(ctx.declared))
  {
    if ValidAt(hash, s, at) {
      RowsReserveExactly(s.charges, ctx, UsageMap(ctx.declared));
    }
  }

  // ---- settling row by row

  function HeldMicros(index: map<Basis, Component>, bases: seq<Basis>): seq<int> {
    MapSeq((b: Basis) => if b in index then index[b].micros as int else 0, bases)
  }

  lemma MicrosCons(a: Actual, rest: seq<Actual>)
    ensures SumOf(ActualMicros([a] + rest)) == a.micros + SumOf(ActualMicros(rest))
  {
    assert ActualMicros([a] + rest) == [a.micros] + ActualMicros(rest);
    SumSplits([a.micros], ActualMicros(rest));
  }

  lemma HoldsCons(held: seq<Component>)
    requires held != []
    ensures SumOf(ComponentMicros(held)) == held[0].micros + SumOf(ComponentMicros(held[1..]))
  {
    assert ComponentMicros(held)[1..] == ComponentMicros(held[1..]);
  }

  lemma HeldCons(index: map<Basis, Component>, b: Basis, rest: seq<Basis>)
    requires b in index
    ensures SumOf(HeldMicros(index, [b] + rest)) == index[b].micros + SumOf(HeldMicros(index, rest))
  {
    assert HeldMicros(index, [b] + rest) == [index[b].micros] + HeldMicros(index, rest);
    SumSplits([index[b].micros], HeldMicros(index, rest));
  }

  /** An actual charge stays within its hold. */
  predicate Within(index: map<Basis, Component>, a: Actual) {
    && a.basis in index && a.reservedQuantity == index[a.basis].quantity
    && 0 <= a.quantity <= index[a.basis].quantity && 0 <= a.micros <= index[a.basis].micros
  }

  lemma RowWithin(row: Charge, c: Component, quantity: int64)
    requires HoldFits(row, c) && SettleRow(row, c, quantity).Ok? && !SettleRow(row, c, quantity).value.exceeded
    ensures var a := SettleRow(row, c, quantity).value;
      0 <= a.quantity <= c.quantity && 0 <= a.micros <= c.micros
  {
    CeilingProductMonotone(row.price, quantity, c.quantity, row.denominator);
  }

  /** Charges within their holds, and the holds of the missing bases, add up to at
      most what was reserved. */
  lemma {:induction false} SettlementWithinHolds(rows: seq<Charge>, held: seq<Component>, index: map<Basis, Component>, quantities: map<Basis, int64>)
    requires HoldsFor(rows, held) && Indexes(index, held)
    requires SettleRows(rows, index, quantities).Ok? && !AnyExceeded(SettleRows(rows, index, quantities).value.actual)
    ensures var st := SettleRows(rows, index, quantities).value;
      && (forall a | a in st.actual :: Within(index, a))
      && (forall b | b in st.missing :: b in index)
      && SumOf(ActualMicros(st.actual)) + SumOf(HeldMicros(index, st.missing)) <= SumOf(ComponentMicros(held))
  {
    if rows != [] {
      var row, st := rows[0], SettleRows(rows, index, quantities).value;
      if row.includedIn.Some? {
        SettlementWithinHolds(rows[1..], held, index, quantities);
      } else {
        var rest := SettleRows(rows[1..], index, quantities).value;
        assert held[0] in held && Indexes(index, held[1..]);
        HoldsCons(held);
        if row.basis !in quantities {
          SettlementWithinHolds(rows[1..], held[1..], index, quantities);
          HeldCons(index, row.basis, rest.missing);
        } else {
          var first := SettleRow(row, held[0], quantities[row.basis]).value;
          assert st.actual == [first] + rest.actual;
          ExceededSplits(first, rest.actual);
          RowWithin(row, held[0], quantities[row.basis]);
          SettlementWithinHolds(rows[1..], held[1..], index, quantities);
          MicrosCons(first, rest.actual);
        }
      }
    }
  }

  lemma ExceededSplits(a: Actual, rest: seq<Actual>)
    requires !AnyExceeded([a] + rest)
    ensures !a.exceeded && !AnyExceeded(rest)
  {
    assert a in [a] + rest;
    forall x | x in rest ensures !x.exceeded { assert x in [a] + rest; }
  }

  /** The bases charged for themselves, in row order. */
  function PricedSeq(rows: seq<Charge>): seq<Basis> {
    if rows == [] then []
    else (if rows[0].includedIn.None? then [rows[0].basis] else []) + PricedSeq(rows[1..])
  }

  function ActualBases(actual: seq<Actual>): seq<Basis> { MapSeq((a: Actual) => a.basis, actual) }

  function ActualUsage(actual: seq<Actual>): seq<Usage> { MapSeq((a: Actual) => Usage(a.basis, a.quantity), actual) }

  lemma PricedBasesCons(row: Charge, rest: seq<Charge>)
    ensures PricedBases([row] + rest) == (if row.includedIn.None? then {row.basis} else {}) + PricedBases(rest)
  {}

  lemma {:induction false} PricedSeqSound(rows: seq<Charge>)
    requires UniqueBases(rows)
    ensures Distinct(PricedSeq(rows))
    ensures forall b :: b in PricedSeq(rows) <==> b in PricedBases(rows)
  {
    if rows != [] {
      var row, rest := rows[0], rows[1..];
      PricedSeqSound(rest);
      assert rows == [row] + rest;
      PricedBasesCons(row, rest);
      assert row.basis !in PricedBases(rest);
    }
  }

  lemma ActualBasesCons(a: Actual, rest: seq<Actual>)
    ensures multiset(ActualBases([a] + rest)) == multiset{a.basis} + multiset(ActualBases(rest))
  {
    assert ActualBases([a] + rest) == [a.basis] + ActualBases(rest);
  }

  /** Each priced basis is charged or missing, once. */
  lemma {:induction false} SettlementPartitions(rows: seq<Charge>, index: map<Basis, Component>, quantities: map<Basis, int64>)
    requires SettleRows(rows, index, quantities).Ok?
    ensures var st := SettleRows(rows, index, quantities).value;
      multiset(ActualBases(st.actual)) + multiset(st.missing) == multiset(PricedSeq(rows))
  {
    if rows != [] {
      SettlementPartitions(rows[1..], index, quantities);
      var st, rest := SettleRows(rows, index, quantities).value, SettleRows(rows[1..], index, quantities).value;
      if rows[0].includedIn.Some? {
        assert PricedSeq(rows) == PricedSeq(rows[1..]);
      } else {
        assert PricedSeq(rows) == [rows[0].basis] + PricedSeq(rows[1..]);
        if rows[0].basis in quantities {
          ActualBasesCons(st.actual[0], rest.actual);
        }
      }
    }
  }

  /** Charged quantities are the reported ones; nothing reported is missing. */
  lemma {:induction false} SettlementReports(rows: seq<Charge>, index: map<Basis, Component>, quantities: map<Basis, int64>)
    requires SettleRows(rows, index, quantities).Ok?
    ensures var st := SettleRows(rows, index, quantities).value;
      && (forall a | a in st.actual :: a.basis in quantities && quantities[a.basis] == a.quantity)
      && (forall b | b in st.missing :: b !in quantities)
  {
    if rows != [] {
      SettlementReports(rows[1..], index, quantities);
    }
  }

  /** The charge of a reported quantity at the row's price fits an int64. */
  predicate Chargeable(row: Charge, quantities: map<Basis, int64>) {
    row.includedIn.None? && row.basis in quantities ==>
      CeilingProduct(row.price, quantities[row.basis], row.denominator).Ok?
  }

  lemma SettleStep(rows: seq<Charge>, index: map<Basis, Component>, quantities: map<Basis, int64>)
    requires rows != [] && (rows[0].includedIn.Some? || HoldMatches(rows[0], index))
    ensures SettleRows(rows, index, quantities).Ok? <==>
      Chargeable(rows[0], quantities) && SettleRows(rows[1..], index, quantities).Ok?
  {}

  lemma {:induction false} HoldsMatch(rows: seq<Charge>, held: seq<Component>, index: map<Basis, Component>)
    requires HoldsFor(rows, held) && Indexes(index, held)
    ensures forall i | 0 <= i < |rows| :: rows[i].includedIn.Some? || HoldMatches(rows[i], index)
  {
    if rows != [] {
      if rows[0].includedIn.Some? {
        HoldsMatch(rows[1..], held, index);
      } else {
        assert held[0] in held;
        HoldsMatch(rows[1..], held[1..], index);
      }
    }
  }

  lemma {:induction false} SettlesIffChargeable(rows: seq<Charge>, index: map<Basis, Component>, quantities: map<Basis, int64>)
    requires forall i | 0 <= i < |rows| :: rows[i].includedIn.Some? || HoldMatches(rows[i], index)
    ensures SettleRows(rows, index, quantities).Ok? <==> forall row | row in rows :: Chargeable(row, quantities)
  {
    if rows != [] {
      SettleStep(rows, index, quantities);
      SettlesIffChargeable(rows[1..], index, quantities);
      assert forall row :: row in rows <==> row == rows[0] || row in rows[1..];
    }
  }

  // ---- the ledger's promises

  lemma FrozenReservation(hash: string -> Digest, s: Snapshot, ctx: Context, at: int)
    requires Reservation(hash, s, ctx, at).Ok?
    ensures var reserved := Reservation(hash, s, ctx, at).value;
      && StructureIntact(s.charges, s.inapplicable) && UniqueBases(s.charges)
      && HoldsFor(s.charges, reserved) && Distinct(ComponentBases(reserved))
      && Indexes(ComponentMap(reserved), reserved)
  {
    IntactRows(s.charges, s.inapplicable);
    ReservationHolds(s.charges, ctx, UsageMap(ctx.declared));
    HeldBases(s.charges, Reservation(hash, s, ctx, at).value);
    ComponentMapHolds(Reservation(hash, s, ctx, at).value);
  }

  lemma SortedSettlement(st: Settlement, index: map<Basis, Component>)
    ensures var actual, missing := Sort(ByActualBasis, st.actual), Sort(ByText, st.missing);
      && SumOf(ActualMicros(actual)) == SumOf(ActualMicros(st.actual))
      && SumOf(HeldMicros(index, missing)) == SumOf(HeldMicros(index, st.missing))
      && multiset(ActualBases(actual)) == multiset(ActualBases(st.actual))
      && multiset(missing) == multiset(st.missing)
      && (forall a :: a in actual <==> a in st.actual)
  {
    var actual, missing := Sort(ByActualBasis, st.actual), Sort(ByText, st.missing);
    SortPermutes(ByActualBasis, st.actual);
    SortPermutes(ByText, st.missing);
    var micros, basis := (a: Actual) => a.micros as int, (a: Actual) => a.basis;
    var holds := (b: Basis) => if b in index then index[b].micros as int else 0;
    SortKeepsImage(micros, ByActualBasis, st.actual);
    SortKeepsImage(basis, ByActualBasis, st.actual);
    SortKeepsImage(holds, ByText, st.missing);
    assert ActualMicros(actual) == MapSeq(micros, actual) && ActualMicros(st.actual) == MapSeq(micros, st.actual);
    assert ActualBases(actual) == MapSeq(basis, actual) && ActualBases(st.actual) == MapSeq(basis, st.actual);
    assert HeldMicros(index, missing) == MapSeq(holds, missing);
    assert HeldMicros(index, st.missing) == MapSeq(holds, st.missing);
    SumPermutes(ActualMicros(actual), ActualMicros(st.actual));
    SumPermutes(HeldMicros(index, missing), HeldMicros(index, st.missing));
  }

  /** Usage settled against its own reservation without exceeding a bound costs at
      most its hold, basis by basis; in total it leaves room for the holds of the
      bases not reported yet, and its sum cannot overflow if the holds' did not. */
  lemma ReservationCoversSettlement(hash: string -> Digest, s: Snapshot, ctx: Context, at: int, usage: seq<Usage>)
    requires Reservation(hash, s, ctx, at).Ok?
    requires var outcome := Settled(hash, s, Reservation(hash, s, ctx, at).value, usage); outcome.Ok? && !outcome.value.exceeded
    ensures var reserved := Reservation(hash, s, ctx, at).value;
      var outcome := Settled(hash, s, reserved, usage).value;
      && (forall a | a in outcome.actual :: Within(ComponentMap(reserved), a))
      && SumOf(ActualMicros(outcome.actual)) + SumOf(HeldMicros(ComponentMap(reserved), outcome.missing))
         <= SumOf(ComponentMicros(reserved))
      && (Summable(ComponentMicros(reserved)) ==> Summable(ActualMicros(outcome.actual)))
  {
    FrozenReservation(hash, s, ctx, at);
    var reserved := Reservation(hash, s, ctx, at).value;
    RowsCoverSettlement(s.charges, reserved, usage);
  }

  lemma RowsCoverSettlement(rows: seq<Charge>, reserved: seq<Component>, usage: seq<Usage>)
    requires HoldsFor(rows, reserved) && Indexes(ComponentMap(reserved), reserved) && UniqueBases(rows)
    requires var outcome := SettledRows(rows, reserved, usage); outcome.Ok? && !outcome.value.exceeded
    ensures var outcome := SettledRows(rows, reserved, usage).value;
      && (forall a | a in outcome.actual :: Within(ComponentMap(reserved), a))
      && SumOf(ActualMicros(outcome.actual)) + SumOf(HeldMicros(ComponentMap(reserved), outcome.missing))
         <= SumOf(ComponentMicros(reserved))
      && (Summable(ComponentMicros(reserved)) ==> Summable(ActualMicros(outcome.actual)))
  {
    var index, quantities := ComponentMap(reserved), UsageMap(usage);
    var outcome, st := SettledRows(rows, reserved, usage).value, SettleRows(rows, index, quantities).value;
    SettlementWithinHolds(rows, reserved, index, quantities);
    SortedSettlement(st, index);
    HeldBases(rows, reserved);
    CoveredIsSummable(index, reserved, outcome.actual, outcome.missing);
  }

  lemma CoveredIsSummable(index: map<Basis, Component>, reserved: seq<Component>, actual: seq<Actual>, missing: seq<Basis>)
    requires index == ComponentMap(reserved) && Indexes(index, reserved)
    requires forall c | c in reserved :: exists row :: HoldFits(row, c)
    requires forall a | a in actual :: Within(index, a)
    requires SumOf(ActualMicros(actual)) + SumOf(HeldMicros(index, missing)) <= SumOf(ComponentMicros(reserved))
    ensures Summable(ComponentMicros(reserved)) ==> Summable(ActualMicros(actual))
  {
    HoldsNonNegative(index, reserved, missing);
    SumNonNegative(HeldMicros(index, missing));
    forall i | 0 <= i < |actual| ensures ActualMicros(actual)[i] >= 0 { assert Within(index, actual[i]); }
  }

  lemma HoldsNonNegative(index: map<Basis, Component>, reserved: seq<Component>, bases: seq<Basis>)
    requires index == ComponentMap(reserved) && Indexes(index, reserved)
    requires forall c | c in reserved :: exists row :: HoldFits(row, c)
    ensures forall i | 0 <= i < |HeldMicros(index, bases)| :: HeldMicros(index, bases)[i] >= 0
  {
    ComponentMapKeys(reserved);
    forall i | 0 <= i < |bases| ensures HeldMicros(index, bases)[i] >= 0 {
      if bases[i] in index {
        var k :| 0 <= k < |reserved| && ComponentBases(reserved)[k] == bases[i];
        var row :| HoldFits(row, reserved[k]);
        CeilingProductMonotone(row.price, reserved[k].quantity, reserved[k].quantity, row.denominator);
      }
    }
  }

  /** Whatever was reserved: a successful settlement charges exactly the reported
      usage, each basis once, and every priced basis is either charged or missing. */
  lemma SettlementAccountsForUsage(hash: string -> Digest, s: Snapshot, reserved: seq<Component>, usage: seq<Usage>)
    requires Settled(hash, s, reserved, usage).Ok?
    ensures var outcome := Settled(hash, s, reserved, usage).value;
      && multiset(ActualUsage(outcome.actual)) == multiset(usage)
      && multiset(ActualBases(outcome.actual)) + multiset(outcome.missing) == multiset(PricedSeq(s.charges))
      && (outcome.exceeded <==> exists a :: a in outcome.actual && a.exceeded)
  {
    IntactRows(s.charges, s.inapplicable);
    RowsAccountForUsage(s.charges, reserved, usage);
  }

  lemma RowsAccountForUsage(rows: seq<Charge>, reserved: seq<Component>, usage: seq<Usage>)
    requires UniqueBases(rows) && SettledRows(rows, reserved, usage).Ok?
    ensures var outcome := SettledRows(rows, reserved, usage).value;
      && multiset(ActualUsage(outcome.actual)) == multiset(usage)
      && multiset(ActualBases(outcome.actual)) + multiset(outcome.missing) == multiset(PricedSeq(rows))
      && (outcome.exceeded <==> exists a :: a in outcome.actual && a.exceeded)
  {
    var index, quantities := ComponentMap(reserved), UsageMap(usage);
    var outcome, st := SettledRows(rows, reserved, usage).value, SettleRows(rows, index, quantities).value;
    SettlementPartitions(rows, index, quantities);
    SettlementReports(rows, index, quantities);
    SortedSettlement(st, index);
    PricedSeqSound(rows);
    forall b | b in quantities ensures b in ActualBases(outcome.actual) {
      assert b in PricedSeq(rows) && b in multiset(PricedSeq(rows));
      assert b !in st.missing && b !in multiset(outcome.missing);
      assert b in multiset(ActualBases(outcome.actual));
    }
    forall x ensures multiset(ActualBases(outcome.actual))[x] <= 1 {
      DistinctOccurOnce(PricedSeq(rows), x);
    }
    UsageIsCharged(outcome.actual, usage);
  }

  lemma OccurOnceDistinct<T>(s: seq<T>)
    requires forall x :: multiset(s)[x] <= 1
    ensures Distinct(s)
  {
    forall i, j | 0 <= i < j < |s| ensures s[i] != s[j] {
      assert s == s[..i] + [s[i]] + s[i + 1..j] + [s[j]] + s[j + 1..];
      assert multiset(s)[s[i]] <= 1;
    }
  }

  lemma UsageIsCharged(actual: seq<Actual>, usage: seq<Usage>)
    requires CanonicalVector(usage)
    requires forall x :: multiset(ActualBases(actual))[x] <= 1
    requires forall a | a in actual :: a.basis in UsageMap(usage) && UsageMap(usage)[a.basis] == a.quantity
    requires forall b | b in UsageMap(usage) :: b in ActualBases(actual)
    ensures multiset(ActualUsage(actual)) == multiset(usage)
  {
    OccurOnceDistinct(ActualBases(actual));
    forall i, j | 0 <= i < j < |actual| ensures ActualUsage(actual)[i] != ActualUsage(actual)[j] {
      assert ActualBases(actual)[i] != ActualBases(actual)[j];
    }
    forall i, j | 0 <= i < j < |usage| ensures usage[i] != usage[j] {
      assert UsageBases(usage)[i] != UsageBases(usage)[j];
    }
    forall u ensures u in ActualUsage(actual) <==> u in usage {
      UsageMapLookup(usage, u);
      if u in ActualUsage(actual) {
        var i :| 0 <= i < |actual| && ActualUsage(actual)[i] == u;
        assert actual[i] in actual;
      }
      if u in usage {
        var i :| 0 <= i < |actual| && ActualBases(actual)[i] == u.basis;
        assert actual[i] in actual && ActualUsage(actual)[i] == u;
      }
    }
    DistinctSameElements(ActualUsage(actual), usage);
  }

  /** Settling against a reservation of the same snapshot fails only for malformed
      usage, usage of a basis that is not priced, or a charge beyond int64. It
      depends on no clock: an expired snapshot settles like a fresh one. */
  lemma SettlementSucceedsExactlyWhen(hash: string -> Digest, s: Snapshot, ctx: Context, at: int, usage: seq<Usage>)
    requires Reservation(hash, s, ctx, at).Ok?
    ensures Settled(hash, s, Reservation(hash, s, ctx, at).value, usage).Ok? <==>
      && CanonicalVector(usage)
      && (forall u | u in usage :: u.basis in PricedBases(s.charges))
      && (forall row | row in s.charges :: Chargeable(row, UsageMap(usage)))
  {
    FrozenReservation(hash, s, ctx, at);
    RowsSettleExactlyWhen(s.charges, Reservation(hash, s, ctx, at).value, usage);
  }

  lemma RowsSettleExactlyWhen(rows: seq<Charge>, reserved: seq<Component>, usage: seq<Usage>)
    requires HoldsFor(rows, reserved) && Distinct(ComponentBases(reserved)) && Indexes(ComponentMap(reserved), reserved)
    ensures SettledRows(rows, reserved, usage).Ok? <==>
      && CanonicalVector(usage)
      && (forall u | u in usage :: u.basis in PricedBases(rows))
      && (forall row | row in rows :: Chargeable(row, UsageMap(usage)))
  {
    HoldsMatch(rows, reserved, ComponentMap(reserved));
    SettlesIffChargeable(rows, ComponentMap(reserved), UsageMap(usage));
    UsageMapKeys(usage);
    KeysPriced(usage, PricedBases(rows));
  }

  lemma KeysPriced(usage: seq<Usage>, priced: set<Basis>)
    ensures UsageMap(usage).Keys <= priced <==> forall u | u in usage :: u.basis in priced
  {
    UsageMapKeys(usage);
    if UsageMap(usage).Keys <= priced {
      forall u | u in usage ensures u.basis in priced {
        var i :| 0 <= i < |usage| && usage[i] == u;
        assert UsageBases(usage)[i] == u.basis;
      }
    }
    if forall u | u in usage :: u.basis in priced {
      forall b | b in UsageMap(usage) ensures b in priced {
        var i :| 0 <= i < |usage| && UsageBases(usage)[i] == b;
        assert usage[i] in usage;
      }
    }
  }

  /** Reported usage stays within what was held for it. */
  predicate WithinHolds(index: map<Basis, Component>, usage: seq<Usage>) {
    forall u | u in usage :: u.basis in index && u.quantity <= index[u.basis].quantity
  }

  /** Canonical usage within its holds always settles, and never exceeds a bound. */
  lemma UsageWithinHoldsSettles(hash: string -> Digest, s: Snapshot, ctx: Context, at: int, usage: seq<Usage>)
    requires Reservation(hash, s, ctx, at).Ok? && CanonicalVector(usage)
    requires WithinHolds(ComponentMap(Reservation(hash, s, ctx, at).value), usage)
    ensures var outcome := Settled(hash, s, Reservation(hash, s, ctx, at).value, usage);
      outcome.Ok? && !outcome.value.exceeded
  {
    FrozenReservation(hash, s, ctx, at);
    var reserved := Reservation(hash, s, ctx, at).value;
    RowsWithinHoldsSettle(s.charges, reserved, usage);
  }

  lemma RowsWithinHoldsSettle(rows: seq<Charge>, reserved: seq<Component>, usage: seq<Usage>)
    requires HoldsFor(rows, reserved) && Distinct(ComponentBases(reserved)) && Indexes(ComponentMap(reserved), reserved)
    requires UniqueBases(rows) && CanonicalVector(usage) && WithinHolds(ComponentMap(reserved), usage)
    ensures var outcome := SettledRows(rows, reserved, usage); outcome.Ok? && !outcome.value.exceeded
  {
    forall u | u in usage ensures u.basis in PricedBases(rows) { var row := HeldIsPriced(rows, reserved, u.basis); }
    forall row | row in rows ensures Chargeable(row, UsageMap(usage)) { RowSettles(rows, reserved, usage, row); }
    RowsSettleExactlyWhen(rows, reserved, usage);
    NothingExceeded(rows, ComponentMap(reserved), usage);
  }

  lemma RowSettles(rows: seq<Charge>, reserved: seq<Component>, usage: seq<Usage>, row: Charge)
    requires HoldsFor(rows, reserved) && Indexes(ComponentMap(reserved), reserved)
    requires UniqueBases(rows) && CanonicalVector(usage) && WithinHolds(ComponentMap(reserved), usage) && row in rows
    ensures Chargeable(row, UsageMap(usage))
  {
    UsageMapKeys(usage);
    if row.includedIn.None? && row.basis in UsageMap(usage) {
      var i :| 0 <= i < |usage| && UsageBases(usage)[i] == row.basis;
      var same := HeldIsPriced(rows, reserved, row.basis);
      OneRowEach(rows, row, same);
      WithinHoldIsChargeable(row, ComponentMap(reserved)[row.basis], usage, usage[i]);
    }
  }

  lemma OneRowEach(rows: seq<Charge>, a: Charge, b: Charge)
    requires UniqueBases(rows) && a in rows && b in rows && a.basis == b.basis
    ensures a == b
  {
    var i :| 0 <= i < |rows| && rows[i] == a;
    var j :| 0 <= j < |rows| && rows[j] == b;
  }

  lemma WithinHoldIsChargeable(row: Charge, hold: Component, usage: seq<Usage>, u: Usage)
    requires HoldFits(row, hold) && CanonicalVector(usage) && u in usage && u.basis == row.basis
    requires u.quantity <= hold.quantity
    ensures Chargeable(row, UsageMap(usage))
  {
    UsageMapLookup(usage, u);
    CeilingProductMonotone(row.price, u.quantity, hold.quantity, row.denominator);
  }

  lemma HeldIsPriced(rows: seq<Charge>, reserved: seq<Component>, b: Basis) returns (row: Charge)
    requires HoldsFor(rows, reserved) && UniqueBases(rows) && Indexes(ComponentMap(reserved), reserved)
    requires b in ComponentMap(reserved)
    ensures b in PricedBases(rows) && row in rows && row.basis == b && HoldFits(row, ComponentMap(reserved)[b])
  {
    HeldBases(rows, reserved);
    ComponentMapKeys(reserved);
    var i :| 0 <= i < |reserved| && ComponentBases(reserved)[i] == b;
    assert reserved[i] in reserved;
    row :| row in rows && row.includedIn.None? && HoldFits(row, reserved[i]);
  }

  lemma {:induction false} ExceededMeansOver(rows: seq<Charge>, index: map<Basis, Component>, quantities: map<Basis, int64>)
    requires SettleRows(rows, index, quantities).Ok?
    ensures forall a | a in SettleRows(rows, index, quantities).value.actual ::
      a.basis in index && a.basis in quantities && (a.exceeded <==> quantities[a.basis] > index[a.basis].quantity)
  {
    if rows != [] { ExceededMeansOver(rows[1..], index, quantities); }
  }

  lemma NothingExceeded(rows: seq<Charge>, index: map<Basis, Component>, usage: seq<Usage>)
    requires SettleRows(rows, index, UsageMap(usage)).Ok? && CanonicalVector(usage) && WithinHolds(index, usage)
    ensures !AnyExceeded(SettleRows(rows, index, UsageMap(usage)).value.actual)
  {
    ExceededMeansOver(rows, index, UsageMap(usage));
    UsageMapKeys(usage);
    forall a | a in SettleRows(rows, index, UsageMap(usage)).value.actual ensures !a.exceeded {
      var i :| 0 <= i < |usage| && UsageBases(usage)[i] == a.basis;
      assert usage[i] in usage;
      UsageMapLookup(usage, usage[i]);
    }
  }
}
