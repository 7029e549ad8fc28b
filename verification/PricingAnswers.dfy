/** What the ledger answers: which prices a snapshot freezes, what a request is held
    for, and what its usage costs. */
module PricingAnswers {
  import opened Wrappers
  import opened Integers
  import opened PricingModel
  import opened PricingGraph
  import opened PricingDigest
  import opened PricingNormalize
  import opened PricingFreeze
  import opened PricingLedger
  import opened PricingSettlement
  import opened Orders
  import opened Text

  /** `micros` is the least whole number that covers `quantity` units at this price. */
  predicate Costs(micros: int, price: int, quantity: int, denominator: int) {
    && price >= 0 && quantity >= 0 && denominator > 0
    && micros >= 0 && denominator * (micros - 1) < price * quantity <= denominator * micros
  }

  lemma CeilingCosts(price: int64, quantity: int64, denominator: int64)
    requires CeilingProduct(price, quantity, denominator).Ok?
    ensures Costs(CeilingProduct(price, quantity, denominator).value, price, quantity, denominator)
  {
    CeilingProductIsLeast(price, quantity, denominator);
  }

  // ---- settlement

  /** `a` is what a quantity of this row costs, beside what was held for it. */
  predicate ChargedAt(row: Charge, hold: Component, a: Actual) {
    && row.includedIn.None? && a.basis == row.basis == hold.basis
    && a.price == row.price == hold.price && a.denominator == row.denominator == hold.denominator
    && Costs(a.micros, row.price, a.quantity, row.denominator)
    && a.reservedQuantity == hold.quantity && (a.exceeded <==> a.quantity > hold.quantity)
  }

  ghost predicate ChargedFrom(rows: seq<Charge>, reserved: seq<Component>, a: Actual) {
    exists row, hold :: row in rows && hold in reserved && ChargedAt(row, hold, a)
  }

  lemma {:induction false} MapFinds(reserved: seq<Component>, b: Basis)
    requires b in ComponentMap(reserved)
    ensures ComponentMap(reserved)[b] in reserved && ComponentMap(reserved)[b].basis == b
  {
    var front, last := reserved[..|reserved| - 1], reserved[|reserved| - 1];
    if b != last.basis {
      MapFinds(front, b);
      assert ComponentMap(front)[b] in reserved;
    }
  }

  lemma RowCharges(row: Charge, hold: Component, quantity: int64)
    requires row.includedIn.None? && hold.basis == row.basis && hold.price == row.price && hold.denominator == row.denominator
    requires SettleRow(row, hold, quantity).Ok?
    ensures ChargedAt(row, hold, SettleRow(row, hold, quantity).value)
  {
    CeilingCosts(row.price, quantity, row.denominator);
  }

  lemma {:induction false} RowsCharge(rows: seq<Charge>, reserved: seq<Component>, quantities: map<Basis, int64>)
    requires SettleRows(rows, ComponentMap(reserved), quantities).Ok?
    ensures forall a | a in SettleRows(rows, ComponentMap(reserved), quantities).value.actual :: ChargedFrom(rows, reserved, a)
  {
    var held := ComponentMap(reserved);
    if rows != [] {
      RowsCharge(rows[1..], reserved, quantities);
      forall a | ChargedFrom(rows[1..], reserved, a) ensures ChargedFrom(rows, reserved, a) {
        var row, hold :| row in rows[1..] && hold in reserved && ChargedAt(row, hold, a);
        assert row in rows;
      }
      if rows[0].includedIn.None? && rows[0].basis in quantities {
        MapFinds(reserved, rows[0].basis);
        RowCharges(rows[0], held[rows[0].basis], quantities[rows[0].basis]);
        assert ChargedFrom(rows, reserved, SettleRow(rows[0], held[rows[0].basis], quantities[rows[0].basis]).value);
      }
    }
  }

  /** Whatever was reserved: each charge of a settlement is the least whole number of
      micros that covers its quantity at the frozen price of its basis, and stands
      beside the quantity that was held for that basis. */
  lemma SettlementCharges(hash: string -> Digest, s: Snapshot, reserved: seq<Component>, usage: seq<Usage>)
    requires Settled(hash, s, reserved, usage).Ok?
    ensures forall a | a in Settled(hash, s, reserved, usage).value.actual :: ChargedFrom(s.charges, reserved, a)
  {
    var st := SettleRows(s.charges, ComponentMap(reserved), UsageMap(usage)).value;
    RowsCharge(s.charges, reserved, UsageMap(usage));
    SortedSettlement(st, ComponentMap(reserved));
  }

  /** The row's hold is at its own price, and its reported quantity, if any, costs an int64. */
  ghost predicate Settleable(row: Charge, reserved: seq<Component>, usage: seq<Usage>) {
    && (exists hold :: hold in reserved && hold.basis == row.basis && hold.price == row.price && hold.denominator == row.denominator)
    && (forall u | u in usage && u.basis == row.basis :: row.price * u.quantity <= row.denominator * MAX_INT64)
  }

  lemma {:induction false} RowsSettleExactly(rows: seq<Charge>, held: map<Basis, Component>, quantities: map<Basis, int64>)
    ensures SettleRows(rows, held, quantities).Ok? <==>
      forall row | row in rows && row.includedIn.None? :: HoldMatches(row, held) && Chargeable(row, quantities)
  {
    if rows != [] {
      RowsSettleExactly(rows[1..], held, quantities);
      assert forall row :: row in rows <==> row == rows[0] || row in rows[1..];
    }
  }

  lemma HoldMatchesExactly(reserved: seq<Component>, row: Charge)
    requires Distinct(ComponentBases(reserved))
    ensures HoldMatches(row, ComponentMap(reserved)) <==>
      exists hold :: hold in reserved && hold.basis == row.basis && hold.price == row.price && hold.denominator == row.denominator
  {
    ComponentMapHolds(reserved);
    if HoldMatches(row, ComponentMap(reserved)) { MapFinds(reserved, row.basis); }
  }

  lemma ChargeableExactly(row: Charge, usage: seq<Usage>)
    requires RowIntact(row) && row.includedIn.None? && CanonicalVector(usage)
    ensures Chargeable(row, UsageMap(usage)) <==>
      forall u | u in usage && u.basis == row.basis :: row.price * u.quantity <= row.denominator * MAX_INT64
  {
    var quantities := UsageMap(usage);
    forall u | u in usage && u.basis == row.basis ensures u.basis in quantities && quantities[u.basis] == u.quantity && u.quantity >= 0 {
      UsageMapLookup(usage, u);
    }
    if row.basis in quantities {
      var u := Usage(row.basis, quantities[row.basis]);
      UsageMapLookup(usage, u);
      CeilingProductIsLeast(row.price, u.quantity, row.denominator);
    }
  }

  /** Against anything at all that was reserved: settlement succeeds exactly when snapshot
      and usage are sound, no hold is repeated, each priced row has its hold and a cost
      that fits, and nothing unpriced is reported. */
  lemma SettlesExactlyWhen(hash: string -> Digest, s: Snapshot, reserved: seq<Component>, usage: seq<Usage>)
    ensures Settled(hash, s, reserved, usage).Ok? <==>
      && IntegrityOk(hash, s) && Distinct(ComponentBases(reserved))
      && (forall u | u in usage :: IsBasis(u.basis) && u.quantity >= 0) && Distinct(UsageBases(usage))
      && (forall row | row in s.charges && row.includedIn.None? :: Settleable(row, reserved, usage))
      && (forall u | u in usage :: exists row :: row in s.charges && row.includedIn.None? && row.basis == u.basis)
  {
    if IntegrityOk(hash, s) && Distinct(ComponentBases(reserved)) && CanonicalVector(usage) {
      RowsSettleExactly(s.charges, ComponentMap(reserved), UsageMap(usage));
      forall row | row in s.charges && row.includedIn.None?
        ensures HoldMatches(row, ComponentMap(reserved)) && Chargeable(row, UsageMap(usage)) <==> Settleable(row, reserved, usage)
      {
        HoldMatchesExactly(reserved, row);
        ChargeableExactly(row, usage);
      }
      KeysPriced(usage, PricedBases(s.charges));
    }
  }

  /** Charges and missing bases are listed in the order of their names. */
  lemma SettlementIsSorted(hash: string -> Digest, s: Snapshot, reserved: seq<Component>, usage: seq<Usage>)
    requires Settled(hash, s, reserved, usage).Ok?
    ensures var outcome := Settled(hash, s, reserved, usage).value;
      && (forall i, j | 0 <= i < j < |outcome.actual| :: LexLe(BasisText(outcome.actual[i].basis), BasisText(outcome.actual[j].basis)))
      && (forall i, j | 0 <= i < j < |outcome.missing| :: LexLe(BasisText(outcome.missing[i]), BasisText(outcome.missing[j])))
  {
    var st := SettleRows(s.charges, ComponentMap(reserved), UsageMap(usage)).value;
    LexOrders();
    SortSorts(ByActualBasis, st.actual);
    SortSorts(ByText, st.missing);
  }

  // ---- reservation

  /** The bound of a row: its enforced maximum, or else what the request says of its basis. */
  predicate Bounds(row: Charge, ctx: Context, quantity: int) {
    match row.maximum
    case Some(most) => quantity == most
    case None =>
      if row.basis == InputTokens then quantity == ctx.inputTokens
      else if row.basis == OutputTokens then quantity == ctx.outputTokens
      else exists u :: u in ctx.declared && u.basis == row.basis && u.quantity == quantity
  }

  predicate HeldAt(row: Charge, ctx: Context, c: Component) {
    && c.basis == row.basis && c.price == row.price && c.denominator == row.denominator
    && Bounds(row, ctx, c.quantity) && Costs(c.micros, row.price, c.quantity, row.denominator)
  }

  /** The rows that are charged for themselves. */
  function PricedRows(rows: seq<Charge>): seq<Charge> {
    if rows == [] then [] else (if rows[0].includedIn.None? then [rows[0]] else []) + PricedRows(rows[1..])
  }

  ghost predicate HeldInOrder(rows: seq<Charge>, ctx: Context, held: seq<Component>) {
    |held| == |rows| && forall i | 0 <= i < |rows| :: HeldAt(rows[i], ctx, held[i])
  }

  lemma DeclaredBound(row: Charge, ctx: Context)
    requires CanonicalVector(ctx.declared)
    requires BoundOf(row, ctx, UsageMap(ctx.declared)).Some?
    ensures Bounds(row, ctx, BoundOf(row, ctx, UsageMap(ctx.declared)).value)
  {
    var declared := UsageMap(ctx.declared);
    if row.maximum.None? && row.basis != InputTokens && row.basis != OutputTokens {
      UsageMapLookup(ctx.declared, Usage(row.basis, declared[row.basis]));
    }
  }

  lemma RowIsHeld(row: Charge, ctx: Context)
    requires RowIntact(row) && row.includedIn.None? && CanonicalVector(ctx.declared)
    requires ReserveRow(row, ctx, UsageMap(ctx.declared)).Ok?
    ensures HeldAt(row, ctx, ReserveRow(row, ctx, UsageMap(ctx.declared)).value)
  {
    var c := ReserveRow(row, ctx, UsageMap(ctx.declared)).value;
    ReserveRowExactly(row, ctx, UsageMap(ctx.declared));
    DeclaredBound(row, ctx);
    CeilingCosts(row.price, c.quantity, row.denominator);
  }

  lemma {:induction false} RowsAreHeld(rows: seq<Charge>, ctx: Context)
    requires (forall row | row in rows :: RowIntact(row)) && CanonicalVector(ctx.declared)
    requires ReserveRows(rows, ctx, UsageMap(ctx.declared)).Ok?
    ensures HeldInOrder(PricedRows(rows), ctx, ReserveRows(rows, ctx, UsageMap(ctx.declared)).value)
  {
    if rows != [] {
      RowsAreHeld(rows[1..], ctx);
      if rows[0].includedIn.None? { RowIsHeld(rows[0], ctx); }
    }
  }

  /** A reservation holds each priced row once, in snapshot order, for its own bound at
      its own price. */
  lemma ReservationHoldsBounds(hash: string -> Digest, s: Snapshot, ctx: Context, at: int)
    requires Reservation(hash, s, ctx, at).Ok?
    ensures HeldInOrder(PricedRows(s.charges), ctx, Reservation(hash, s, ctx, at).value)
  {
    RowsAreHeld(s.charges, ctx);
  }

  // ---- frozen prices

  /** The row of one of the two token counts, priced per million. */
  predicate TokenRow(row: Charge, basis: Basis, price: real, field: string) {
    && row.basis == basis == row.settlementField && row.price as real == price * 1_000_000.0 && row.denominator == 1_000_000
    && row.applicability == RequestDeclared && row.boundField == field
    && row.includedIn.None? && row.maximum.None? && !row.disjoint
  }

  /** The row of a specified charge: its price in micros, all else as specified. */
  predicate ChargeRow(row: Charge, c: ChargeSpec) {
    && row.basis == c.basis == row.settlementField && row.price as real == c.price * 1_000_000.0 && row.denominator == c.denominator
    && row.applicability == c.applicability && row.boundField == c.boundField
    && row.includedIn == c.includedIn && row.maximum == c.maximum && row.disjoint == c.disjoint
  }

  /** The row is the input price, the output price, or a specified charge. */
  ghost predicate Specified(p: Provider, row: Charge)
    requires p.pricing.Some?
  {
    || TokenRow(row, InputTokens, p.inputPrice, "input_tokens")
    || TokenRow(row, OutputTokens, p.outputPrice, "max_output_tokens")
    || exists c :: c in p.pricing.value.charges && ChargeRow(row, c)
  }

  ghost predicate PricesOf(p: Provider, rows: seq<Charge>)
    requires p.pricing.Some?
  {
    && (exists row :: row in rows && TokenRow(row, InputTokens, p.inputPrice, "input_tokens"))
    && (exists row :: row in rows && TokenRow(row, OutputTokens, p.outputPrice, "max_output_tokens"))
    && (forall c | c in p.pricing.value.charges :: exists row :: row in rows && ChargeRow(row, c))
    && (forall row | row in rows :: Specified(p, row))
  }

  lemma ExactMicrosIsExact(price: real)
    requires ExactMicros(price).Some?
    ensures ExactMicros(price).value as real == price * 1_000_000.0
  {}

  lemma NormalizedIsChargeRow(c: ChargeSpec)
    requires ChargeAdmissible(c)
    ensures ChargeRow(NormalizedRow(c), c)
  {
    ExactMicrosIsExact(c.price);
  }

  lemma RowsHoldPrices(p: Provider)
    requires Freezable(p)
    ensures PricesOf(p, Rows(p))
  {
    var rows, charges := Rows(p), p.pricing.value.charges;
    ExactMicrosIsExact(p.inputPrice); ExactMicrosIsExact(p.outputPrice);
    assert rows[0] in rows && TokenRow(rows[0], InputTokens, p.inputPrice, "input_tokens");
    assert rows[1] in rows && TokenRow(rows[1], OutputTokens, p.outputPrice, "max_output_tokens");
    forall i | 0 <= i < |charges| ensures rows[i + 2] in rows && ChargeRow(rows[i + 2], charges[i]) {
      NormalizedIsChargeRow(charges[i]);
    }
    forall j | 0 <= j < |rows| ensures Specified(p, rows[j]) {
      if j >= 2 { assert ChargeRow(rows[j], charges[j - 2]); }
    }
  }

  lemma SameRowsSamePrices(p: Provider, a: seq<Charge>, b: seq<Charge>)
    requires p.pricing.Some? && PricesOf(p, a) && forall row :: row in a <==> row in b
    ensures PricesOf(p, b)
  {
    forall c | c in p.pricing.value.charges ensures exists row :: row in b && ChargeRow(row, c) {
      var row :| row in a && ChargeRow(row, c);
      assert row in b;
    }
  }

  /** The snapshot of an admissible provider has one row for each basis it prices: the
      two token prices and the specified charges, each at its exact price in micros,
      and no other. */
  lemma FrozenPrices(hash: string -> Digest, p: Provider, now: int)
    requires Admissible(p, now)
    ensures UniqueBases(Frozen(hash, p).charges) && PricesOf(p, Frozen(hash, p).charges)
    ensures multiset(Frozen(hash, p).inapplicable) == multiset(p.pricing.value.inapplicable)
  {
    var rows := Rows(p);
    RowsHoldPrices(p);
    SortPermutes(ByBasis, rows); SortPermutes(ByText, p.pricing.value.inapplicable);
    SameElements(rows, Sort(ByBasis, rows));
    SameRowsSamePrices(p, rows, Sort(ByBasis, rows));
    SortingKeepsStructure(rows, p.pricing.value.inapplicable);
    PartitionIsDisjoint(Sort(ByBasis, rows), Sort(ByText, p.pricing.value.inapplicable));
  }

  /** What else a snapshot records of its provider. */
  lemma FrozenHeader(hash: string -> Digest, p: Provider, now: int)
    requires Admissible(p, now)
    ensures var s, evidence := Frozen(hash, p), p.pricing.value.evidence;
      && s.generation == p.generation > 0 && s.version == Trim(p.version) != "" && s.currency == "EUR"
      && p.observedAt == Some(s.observedAt) && now - 86_400_000_000_000 <= s.observedAt <= now + 60_000_000_000
      && s.validUntil == evidence.validUntil > now
      && s.evidenceMode == evidence.mode == "admin_attested" && s.evidenceSHA256 == evidence.sha256
      && s.sourceVersion == evidence.sourceVersion && Trim(s.sourceVersion) != ""
      && s.adapterVersion == evidence.adapterVersion && s.completeness == p.completeness
      && s.sha256 == SnapshotDigest(hash, s)
  {
    FrozenSeal(hash, p);
  }

  // ---- what is admitted

  /** Nine bases are bounded by a request field, each by its own. */
  predicate FieldBounds(basis: Basis, field: string) {
    || (basis == InputTokens && field == "input_tokens") || (basis == OutputTokens && field == "max_output_tokens")
    || (basis == CachedInputTokens && field == "max_cached_input_tokens")
    || (basis == ReasoningTokens && field == "max_reasoning_tokens")
    || (basis == ToolCall && field == "max_tool_calls") || (basis == MediaUnit && field == "max_media_units")
    || (basis == BillableSecond && field == "timeout_seconds") || (basis == RetryAttempt && field == "max_retry_attempts")
    || (basis == Cancellation && field == "cancellation_possible")
  }

  lemma FieldBoundsIsValid(basis: Basis, field: string)
    ensures ValidRequestBound(basis, field) <==> FieldBounds(basis, field)
  {}

  predicate IsMicros(price: real, n: int) { n as real == price * 1_000_000.0 }

  /** A price that is a whole, non-negative number of micros within int64. */
  ghost predicate WholeMicros(price: real) {
    exists n: int :: IsMicros(price, n) && 0 <= n <= MAX_INT64
  }

  lemma ExactMicrosExactlyWhen(price: real)
    ensures ExactMicros(price).Some? <==> WholeMicros(price)
  {
    if ExactMicros(price).Some? { assert IsMicros(price, ExactMicros(price).value); }
    if WholeMicros(price) {
      var n: int :| IsMicros(price, n) && 0 <= n <= MAX_INT64;
      assert (price * 1_000_000.0).Floor == n;
    }
  }

  /** A charge the adapter can price: cached input may be included in input and
      reasoning in output, for nothing; any other charge needs a bound. */
  ghost predicate Chargeworthy(c: ChargeSpec) {
    && c.applicability in {Always, RequestDeclared, ProviderResponse} && c.settlementField == c.basis && c.denominator > 0
    && WholeMicros(c.price) && (c.boundField != "" ==> FieldBounds(c.basis, c.boundField))
    && (c.applicability == ProviderResponse ==> c.maximum.Some?)
    && match c.includedIn
       case Some(parent) =>
         c.price == 0.0 && ((c.basis == CachedInputTokens && parent == InputTokens) || (c.basis == ReasoningTokens && parent == OutputTokens))
       case None =>
         && (c.maximum.Some? || c.boundField != "")
         && (c.basis in {CachedInputTokens, ReasoningTokens} ==> c.disjoint)
         && (c.applicability == RequestDeclared ==> c.boundField != "")
  }

  /** Evidence attested by an administrator, fresh now, for a provider priced in euros. */
  ghost predicate Attested(p: Provider, now: int) {
    && ToLower(Trim(p.kind)) in {"openai", "azure-openai"} && p.legacyCategories == 0
    && p.generation > 0 && Trim(p.version) != "" && p.completeness == "complete" && ToUpper(Trim(p.currency)) == "EUR"
    && p.pricing.Some? && p.observedAt.Some?
    && now - 86_400_000_000_000 <= p.observedAt.value <= now + 60_000_000_000
    && var evidence := p.pricing.value.evidence;
    && evidence.mode == "admin_attested" && evidence.adapterVersion == "govar-pricing-v1"
    && IsSHA256(evidence.sha256) && Trim(evidence.sourceVersion) != "" && evidence.validUntil > now
    && WholeMicros(p.inputPrice) && WholeMicros(p.outputPrice)
  }

  function SpecBases(p: Provider): seq<Basis>
    requires p.pricing.Some?
  {
    [InputTokens, OutputTokens] + MapSeq((c: ChargeSpec) => c.basis, p.pricing.value.charges) + p.pricing.value.inapplicable
  }

  lemma AttestedIsHeader(p: Provider, now: int)
    ensures HeaderAdmissible(p, now) <==> Attested(p, now)
  {
    ExactMicrosExactlyWhen(p.inputPrice); ExactMicrosExactlyWhen(p.outputPrice);
  }

  lemma ZeroMicros(price: real)
    requires ExactMicros(price).Some?
    ensures ExactMicros(price).value == 0 <==> price == 0.0
  {
    ExactMicrosIsExact(price);
  }

  /** Normalize succeeds exactly on attested specifications whose charges are each
      priceable and which place every basis once. */
  lemma AdmissibleExactlyWhen(p: Provider, now: int)
    ensures Admissible(p, now) <==>
      && Attested(p, now)
      && (forall c | c in p.pricing.value.charges :: Chargeworthy(c))
      && Distinct(SpecBases(p)) && forall b :: b in SpecBases(p) <==> IsBasis(b)
  {
    AttestedIsHeader(p, now);
    if Attested(p, now) {
      if forall c | c in p.pricing.value.charges :: ChargeAdmissible(c) {
        RowsAdmissibleExactlyWhen(p);
      }
      if forall c | c in p.pricing.value.charges :: Chargeworthy(c) {
        forall c | c in p.pricing.value.charges && IsBasis(c.basis) ensures ChargeAdmissible(c) { ChargeworthyIs(c); }
        forall c | c in p.pricing.value.charges && (forall b :: b in SpecBases(p) <==> IsBasis(b)) ensures IsBasis(c.basis) {
          InSpecBases(p, c);
        }
      }
    }
  }

  lemma InSpecBases(p: Provider, c: ChargeSpec)
    requires p.pricing.Some? && c in p.pricing.value.charges
    ensures c.basis in SpecBases(p)
  {
    var charges := p.pricing.value.charges;
    var i :| 0 <= i < |charges| && charges[i] == c;
    assert SpecBases(p)[i + 2] == c.basis;
  }

  lemma ChargeworthyIs(c: ChargeSpec)
    requires IsBasis(c.basis)
    ensures Chargeworthy(c) ==> ChargeAdmissible(c) && BoundMapped(NormalizedRow(c)) && (c.includedIn.Some? ==> LegalIncludedPair(c.basis, c.includedIn.value))
    ensures ChargeAdmissible(c) && BoundMapped(NormalizedRow(c)) && (c.includedIn.Some? ==> LegalIncludedPair(c.basis, c.includedIn.value)) ==> Chargeworthy(c)
  {
    ExactMicrosExactlyWhen(c.price);
    FieldBoundsIsValid(c.basis, c.boundField);
    if ExactMicros(c.price).Some? { ZeroMicros(c.price); }
  }

  lemma RowsAdmissibleExactlyWhen(p: Provider)
    requires Freezable(p)
    ensures var inapplicable := p.pricing.value.inapplicable;
      (Partition(Bases(Rows(p)) + inapplicable) && GraphAccepts(Rows(p), inapplicable) && forall row | row in Rows(p) :: BoundMapped(row))
      <==> ((forall c | c in p.pricing.value.charges :: Chargeworthy(c)) && Distinct(SpecBases(p)) && forall b :: b in SpecBases(p) <==> IsBasis(b))
  {
    var inapplicable := p.pricing.value.inapplicable;
    assert Bases(Rows(p)) + inapplicable == SpecBases(p);
    if Partition(SpecBases(p)) {
      PartitionIsDisjoint(Rows(p), inapplicable);
      GraphAcceptsDirectInclusions(Rows(p), inapplicable);
      RowsWorthyExactlyWhen(p);
    }
  }

  lemma RowsWorthyExactlyWhen(p: Provider)
    requires Freezable(p) && UniqueBases(Rows(p))
    ensures (DirectInclusions(Rows(p)) && forall row | row in Rows(p) :: BoundMapped(row))
      <==> forall c | c in p.pricing.value.charges :: Chargeworthy(c)
  {
    var rows, charges := Rows(p), p.pricing.value.charges;
    FieldBoundsIsValid(InputTokens, "input_tokens"); FieldBoundsIsValid(OutputTokens, "max_output_tokens");
    assert rows[0] in rows && rows[1] in rows;
    assert DirectlyIncluded(rows, rows[0]) && DirectlyIncluded(rows, rows[1]) && BoundMapped(rows[0]) && BoundMapped(rows[1]);
    forall i | 0 <= i < |charges|
      ensures DirectlyIncluded(rows, rows[i + 2]) && BoundMapped(rows[i + 2]) <==> Chargeworthy(charges[i])
    {
      assert ChargeAdmissible(charges[i]);
      IncludedLegally(rows, rows[i + 2]);
      ChargeworthyIs(charges[i]);
    }
    forall j | 0 <= j < |rows| && (forall c | c in charges :: Chargeworthy(c)) ensures DirectlyIncluded(rows, rows[j]) && BoundMapped(rows[j]) {
      if j >= 2 { assert Chargeworthy(charges[j - 2]); }
    }
    forall i | 0 <= i < |charges| && DirectInclusions(rows) && (forall row | row in rows :: BoundMapped(row)) ensures Chargeworthy(charges[i]) {
      assert DirectlyIncluded(rows, rows[i + 2]) && BoundMapped(rows[i + 2]);
    }
  }

  /** Beside the two token rows a legal pair is all an inclusion needs. */
  lemma IncludedLegally(rows: seq<Charge>, row: Charge)
    requires |rows| >= 2 && rows[0].basis == InputTokens && rows[1].basis == OutputTokens
    requires rows[0].includedIn.None? && rows[1].includedIn.None?
    ensures DirectlyIncluded(rows, row) <==> (row.includedIn.Some? ==> LegalIncludedPair(row.basis, row.includedIn.value))
  {
    assert rows[0] in rows && rows[1] in rows;
  }

  // ---- what is intact

  /** A frozen row money may be computed from: free inside a row that is charged, or
      bounded on its own. */
  ghost predicate Frozenworthy(rows: seq<Charge>, row: Charge) {
    && row.applicability in {Always, RequestDeclared, ProviderResponse} && row.settlementField == row.basis
    && row.price >= 0 && row.denominator > 0
    && match row.includedIn
       case Some(parent) =>
         && row.price == 0 && ((row.basis == CachedInputTokens && parent == InputTokens) || (row.basis == ReasoningTokens && parent == OutputTokens))
         && exists root :: root in rows && root.basis == parent && root.includedIn.None?
       case None =>
         && (row.basis in {CachedInputTokens, ReasoningTokens} ==> row.disjoint)
         && (if row.applicability == RequestDeclared then FieldBounds(row.basis, row.boundField) else row.maximum.Some?)
  }

  predicate Headed(s: Snapshot) {
    && s.generation > 0 && Trim(s.version) != "" && s.completeness == "complete" && ToUpper(s.currency) == "EUR"
    && s.adapterVersion == "govar-pricing-v1" && s.evidenceMode in {"provider_catalog", "provider_api", "admin_attested"}
    && IsSHA256(s.evidenceSHA256) && Trim(s.sourceVersion) != ""
  }

  lemma HeadedIsIntact(s: Snapshot)
    ensures HeaderIntact(s) <==> Headed(s)
  {}

  lemma FrozenworthyExactlyWhen(rows: seq<Charge>, row: Charge)
    requires IsBasis(row.basis)
    ensures RowIntact(row) && DirectlyIncluded(rows, row) <==> Frozenworthy(rows, row)
  {
    FieldBoundsIsValid(row.basis, row.boundField);
  }

  /** A snapshot passes integrity exactly when its header is complete, its evidence ends
      after its observation, its digest is its own, each basis is placed once, and each
      row is charged within bounds or included for nothing in one that is. */
  lemma IntactExactlyWhen(hash: string -> Digest, s: Snapshot)
    ensures IntegrityOk(hash, s) <==>
      && Headed(s) && s.observedAt < s.validUntil && s.sha256 == SnapshotDigest(hash, s)
      && Distinct(Bases(s.charges) + s.inapplicable) && (forall b :: b in Bases(s.charges) + s.inapplicable <==> IsBasis(b))
      && (forall row | row in s.charges :: Frozenworthy(s.charges, row))
  {
    HeadedIsIntact(s);
    if Partition(Bases(s.charges) + s.inapplicable) {
      PartitionIsDisjoint(s.charges, s.inapplicable);
      GraphAcceptsDirectInclusions(s.charges, s.inapplicable);
      forall row | row in s.charges ensures RowIntact(row) && DirectlyIncluded(s.charges, row) <==> Frozenworthy(s.charges, row) {
        RowHasBasis(s.charges, s.inapplicable, row);
        FrozenworthyExactlyWhen(s.charges, row);
      }
    }
  }

  lemma RowHasBasis(rows: seq<Charge>, inapplicable: seq<Basis>, row: Charge)
    requires row in rows && forall b :: b in Bases(rows) + inapplicable <==> IsBasis(b)
    ensures IsBasis(row.basis)
  {
    var i :| 0 <= i < |rows| && rows[i] == row;
    assert (Bases(rows) + inapplicable)[i] == row.basis;
  }

  /** When a hold is possible: now lies between a minute before the observation and the
      end of the evidence, no basis is declared twice or negatively, and each priced row
      has a bound, declared where it must be, whose cost fits. */
  lemma ReservesExactlyWhen(hash: string -> Digest, s: Snapshot, ctx: Context, at: int)
    ensures Reservation(hash, s, ctx, at).Ok? <==>
      && IntegrityOk(hash, s) && at != 0 && s.observedAt - 60_000_000_000 <= at < s.validUntil
      && (forall u | u in ctx.declared :: IsBasis(u.basis) && u.quantity >= 0) && Distinct(UsageBases(ctx.declared))
      && forall row | row in s.charges && row.includedIn.None? :: Holdable(row, ctx)
  {
    ReservationSucceedsExactlyWhen(hash, s, ctx, at);
    if ValidAt(hash, s, at) && CanonicalVector(ctx.declared) {
      forall row | row in s.charges && row.includedIn.None? ensures Reservable(row, ctx, UsageMap(ctx.declared)) <==> Holdable(row, ctx) {
        HoldableIsReservable(row, ctx);
      }
    }
  }

  ghost predicate Declared(ctx: Context, basis: Basis) { exists u :: u in ctx.declared && u.basis == basis }

  /** The row has a bound within which its cost fits, and its declaration if it takes one. */
  ghost predicate Holdable(row: Charge, ctx: Context) {
    && (row.applicability == RequestDeclared && row.basis !in {InputTokens, OutputTokens} ==> Declared(ctx, row.basis))
    && exists q: int64 :: Bounds(row, ctx, q) && q >= 0 && row.price * q <= row.denominator * MAX_INT64
  }

  lemma DeclaredIsMapped(ctx: Context, basis: Basis)
    requires CanonicalVector(ctx.declared)
    ensures Declared(ctx, basis) <==> basis in UsageMap(ctx.declared)
  {
    UsageMapKeys(ctx.declared);
    if Declared(ctx, basis) {
      var u :| u in ctx.declared && u.basis == basis;
      UsageMapLookup(ctx.declared, u);
    }
    if basis in UsageMap(ctx.declared) { UsageMapLookup(ctx.declared, Usage(basis, UsageMap(ctx.declared)[basis])); }
  }

  lemma OnlyBound(row: Charge, ctx: Context, q: int64)
    requires CanonicalVector(ctx.declared)
    ensures Bounds(row, ctx, q) <==> BoundOf(row, ctx, UsageMap(ctx.declared)) == Some(q)
  {
    UsageMapLookup(ctx.declared, Usage(row.basis, q));
    if u :| u in ctx.declared && u.basis == row.basis && u.quantity == q { assert u == Usage(row.basis, q); }
  }

  lemma HoldableIsReservable(row: Charge, ctx: Context)
    requires CanonicalVector(ctx.declared)
    ensures Reservable(row, ctx, UsageMap(ctx.declared)) <==> Holdable(row, ctx)
  {
    DeclaredIsMapped(ctx, row.basis);
    forall q: int64 ensures Bounds(row, ctx, q) <==> BoundOf(row, ctx, UsageMap(ctx.declared)) == Some(q) { OnlyBound(row, ctx, q); }
  }
}
