/** Normalize against ValidateSnapshotIntegrity: which admissible specifications
    freeze into snapshots that the ledger will accept. */
module PricingFreeze {
  import opened Wrappers
  import opened Integers
  import opened PricingModel
  import opened PricingGraph
  import opened PricingDigest
  import opened PricingNormalize
  import opened Orders
  import opened Text

  /** Every charge that may occur without the request asking for it has a maximum. */
  predicate AlwaysBounded(p: Provider)
    requires p.pricing.Some?
  {
    forall c | c in p.pricing.value.charges :: ChargeBounded(c)
  }

  lemma NormalizedRowIntact(c: ChargeSpec)
    requires ChargeAdmissible(c) && BoundMapped(NormalizedRow(c))
    ensures RowIntact(NormalizedRow(c)) <==> ChargeBounded(c)
  {}

  lemma BaseRowIntact(basis: Basis, price: int64, field: string)
    requires price >= 0 && IsBasis(basis) && !IsDetail(basis) && ValidRequestBound(basis, field)
    ensures RowIntact(BaseRow(basis, price, field))
  {}

  lemma BaseRowsIntact(p: Provider)
    requires Freezable(p)
    ensures RowIntact(Rows(p)[0]) && RowIntact(Rows(p)[1])
  {
    BaseRowIntact(InputTokens, Rows(p)[0].price, "input_tokens");
    BaseRowIntact(OutputTokens, Rows(p)[1].price, "max_output_tokens");
  }

  predicate ChargeBounded(c: ChargeSpec) {
    c.includedIn.None? && c.applicability.Always? ==> c.maximum.Some?
  }

  lemma RowsIntact(p: Provider)
    requires Freezable(p) && forall row | row in Rows(p) :: BoundMapped(row)
    ensures (forall row | row in Rows(p) :: RowIntact(row)) <==> AlwaysBounded(p)
  {
    var rows, charges := Rows(p), p.pricing.value.charges;
    BaseRowsIntact(p);
    forall i | 0 <= i < |charges| ensures RowIntact(rows[i + 2]) <==> ChargeBounded(charges[i]) {
      assert BoundMapped(rows[i + 2]);
      NormalizedRowIntact(charges[i]);
    }
    if AlwaysBounded(p) {
      forall j | 0 <= j < |rows| ensures RowIntact(rows[j]) {
        if j >= 2 { assert ChargeBounded(charges[j - 2]); }
      }
    } else {
      var i :| 0 <= i < |charges| && !ChargeBounded(charges[i]);
      assert !RowIntact(rows[i + 2]);
    }
  }

  lemma SortKeepsBases(rows: seq<Charge>)
    ensures multiset(Bases(Sort(ByBasis, rows))) == multiset(Bases(rows))
  {
    var f := (r: Charge) => r.basis;
    SortKeepsImage(f, ByBasis, rows);
    assert Bases(rows) == MapSeq(f, rows);
    assert Bases(Sort(ByBasis, rows)) == MapSeq(f, Sort(ByBasis, rows));
  }

  /** Sorting the frozen rows keeps the partition and the inclusion graph. */
  lemma SortingKeepsStructure(rows: seq<Charge>, inapplicable: seq<Basis>)
    requires Partition(Bases(rows) + inapplicable) && GraphAccepts(rows, inapplicable)
    ensures Partition(Bases(Sort(ByBasis, rows)) + Sort(ByText, inapplicable))
    ensures GraphAccepts(Sort(ByBasis, rows), Sort(ByText, inapplicable))
  {
    var rows', inapplicable' := Sort(ByBasis, rows), Sort(ByText, inapplicable);
    SortPermutes(ByBasis, rows); SortPermutes(ByText, inapplicable);
    SortKeepsBases(rows);
    var all, all' := Bases(rows) + inapplicable, Bases(rows') + inapplicable';
    assert multiset(all) == multiset(all');
    DistinctPermutes(all, all');
    SameElements(all, all');
    PartitionIsDisjoint(rows, inapplicable); PartitionIsDisjoint(rows', inapplicable');
    GraphAcceptsDirectInclusions(rows, inapplicable); GraphAcceptsDirectInclusions(rows', inapplicable');
    forall row | row in rows' ensures DirectlyIncluded(rows', row) {
      assert DirectlyIncluded(rows, row);
    }
  }

  lemma FrozenHeaderIntact(hash: string -> Digest, p: Provider, now: int)
    requires HeaderAdmissible(p, now) && Freezable(p)
    ensures HeaderIntact(Frozen(hash, p))
  {
    TrimIdempotent(p.version);
    assert ToUpper("EUR") == "EUR";
  }

  lemma FrozenSeal(hash: string -> Digest, p: Provider)
    requires Freezable(p)
    ensures Frozen(hash, p).sha256 == SnapshotDigest(hash, Frozen(hash, p))
  {
    assert Parts(Frozen(hash, p)) == Parts(Unsealed(p));
  }

  lemma FrozenStructure(hash: string -> Digest, p: Provider)
    requires Freezable(p) && forall row | row in Rows(p) :: BoundMapped(row)
    requires Partition(Bases(Rows(p)) + p.pricing.value.inapplicable) && GraphAccepts(Rows(p), p.pricing.value.inapplicable)
    ensures var s := Frozen(hash, p);
      && Partition(Bases(s.charges) + s.inapplicable) && GraphAccepts(s.charges, s.inapplicable)
      && (StructureIntact(s.charges, s.inapplicable) <==> AlwaysBounded(p))
  {
    var rows := Rows(p);
    SortingKeepsStructure(rows, p.pricing.value.inapplicable);
    SortPermutes(ByBasis, rows);
    RowsIntact(p);
    SameRowsIntact(rows, Sort(ByBasis, rows));
  }

  lemma SameRowsIntact(a: seq<Charge>, b: seq<Charge>)
    requires forall r :: r in a <==> r in b
    ensures (forall r | r in a :: RowIntact(r)) <==> (forall r | r in b :: RowIntact(r))
  {}

  /** All but two integrity clauses hold of every normalized snapshot; those two
      hold exactly when the specification bounds its "always" charges and was
      observed before its evidence runs out. */
  lemma NormalizedSnapshotIntegrity(hash: string -> Digest, p: Provider, now: int)
    requires Admissible(p, now)
    ensures var s := Frozen(hash, p);
      && HeaderIntact(s) && s.sha256 == SnapshotDigest(hash, s)
      && Partition(Bases(s.charges) + s.inapplicable) && GraphAccepts(s.charges, s.inapplicable)
    ensures IntegrityOk(hash, Frozen(hash, p)) <==>
      AlwaysBounded(p) && p.observedAt.value < p.pricing.value.evidence.validUntil
  {
    FrozenHeaderIntact(hash, p, now);
    FrozenSeal(hash, p);
    FrozenStructure(hash, p);
  }

  // ---- the gap between the two validators

  /** A provider that charges for tool calls and declares everything else inapplicable. */
  function ToolProvider(charge: ChargeSpec, observedAt: int, source: Digest): Provider {
    Provider("openai", 1, "v1", COMPLETE, "EUR", Some(observedAt), 0.0, 0.0, 0,
             Some(PricingSpec(EvidenceSpec(ADMIN_ATTESTED, "invoice", source, 30 * SECOND, ADAPTER_VERSION), [charge],
               [CachedInputTokens, ReasoningTokens, PerRequest, MediaUnit, BillableSecond, Cancellation, RetryAttempt])))
  }

  const BOUNDED_TOOL := ChargeSpec(ToolCall, Always, 0.0, 1, ToolCall, None, Some(5), "", false)
  const UNBOUNDED_TOOL := ChargeSpec(ToolCall, Always, 0.0, 1, ToolCall, None, None, "max_tool_calls", false)

  lemma AllOnce(all: seq<Basis>)
    requires all == [InputTokens, OutputTokens, ToolCall, CachedInputTokens, ReasoningTokens, PerRequest, MediaUnit,
                     BillableSecond, Cancellation, RetryAttempt]
    ensures Partition(all)
  {
    forall b ensures b in all <==> IsBasis(b) { AllBasesAreTheBases(b); }
  }

  lemma ToolHeaderAdmissible(charge: ChargeSpec, observedAt: int, source: Digest)
    requires -SECOND <= observedAt <= MINUTE
    ensures HeaderAdmissible(ToolProvider(charge, observedAt, source), 0)
  {
    assert Trim("openai") == "openai" && ToLower("openai") == "openai";
    assert Trim("EUR") == "EUR" && ToUpper("EUR") == "EUR";
    assert ExactMicros(0.0) == Some(0);
  }

  predicate IsToolProvider(p: Provider, charge: ChargeSpec) {
    && p.pricing.Some? && p.observedAt.Some? && p.inputPrice == 0.0 && p.outputPrice == 0.0
    && p.pricing.value.charges == [charge]
    && p.pricing.value.inapplicable
       == [CachedInputTokens, ReasoningTokens, PerRequest, MediaUnit, BillableSecond, Cancellation, RetryAttempt]
  }

  lemma ToolChargesAdmissible(p: Provider, charge: ChargeSpec)
    requires IsToolProvider(p, charge) && (charge == BOUNDED_TOOL || charge == UNBOUNDED_TOOL)
    ensures Freezable(p) && |Rows(p)| == 3 && Rows(p)[2] == NormalizedRow(charge)
    ensures Rows(p)[0] == BaseRow(InputTokens, 0, "input_tokens")
    ensures Rows(p)[1] == BaseRow(OutputTokens, 0, "max_output_tokens")
    ensures forall i | 0 <= i < 3 :: BoundMapped(Rows(p)[i])
  {
    assert ExactMicros(0.0) == Some(0);
  }

  lemma ToolRowsAdmissible(p: Provider, charge: ChargeSpec)
    requires IsToolProvider(p, charge) && (charge == BOUNDED_TOOL || charge == UNBOUNDED_TOOL)
    ensures Freezable(p) && forall row | row in Rows(p) :: BoundMapped(row)
    ensures Partition(Bases(Rows(p)) + p.pricing.value.inapplicable) && DirectInclusions(Rows(p))
  {
    ToolChargesAdmissible(p, charge);
    AllOnce(Bases(Rows(p)) + p.pricing.value.inapplicable);
  }

  /** A provider with the given charge that Normalize accepts. */
  lemma AdmissibleToolProvider(charge: ChargeSpec, observedAt: int, source: Digest) returns (p: Provider)
    requires charge == BOUNDED_TOOL || charge == UNBOUNDED_TOOL
    requires -SECOND <= observedAt <= MINUTE
    ensures Admissible(p, 0) && p.pricing.value.charges == [charge]
    ensures p.observedAt == Some(observedAt) && p.pricing.value.evidence.validUntil == 30 * SECOND
  {
    p := ToolProvider(charge, observedAt, source);
    ToolHeaderAdmissible(charge, observedAt, source);
    assert IsToolProvider(p, charge);
    RowsMakeAdmissible(p, charge);
  }

  lemma RowsMakeAdmissible(p: Provider, charge: ChargeSpec)
    requires IsToolProvider(p, charge) && (charge == BOUNDED_TOOL || charge == UNBOUNDED_TOOL)
    requires HeaderAdmissible(p, 0)
    ensures Admissible(p, 0)
  {
    ToolRowsAdmissible(p, charge);
    PartitionIsDisjoint(Rows(p), p.pricing.value.inapplicable);
    GraphAcceptsDirectInclusions(Rows(p), p.pricing.value.inapplicable);
  }

  /** Normalize accepts an "always" charge with only a request bound; every later
      validation refuses the frozen snapshot. */
  lemma NormalizeAdmitsUnboundedCharge(hash: string -> Digest, source: Digest) returns (p: Provider)
    ensures Admissible(p, 0) && !AlwaysBounded(p) && !IntegrityOk(hash, Frozen(hash, p))
  {
    p := AdmissibleToolProvider(UNBOUNDED_TOOL, 0, source);
    assert !ChargeBounded(p.pricing.value.charges[0]);
    NormalizedSnapshotIntegrity(hash, p, 0);
  }

  /** Normalize accepts an observation later than the end of its evidence. */
  lemma NormalizeAdmitsLateObservation(hash: string -> Digest, source: Digest) returns (p: Provider)
    ensures Admissible(p, 0) && p.observedAt.value > p.pricing.value.evidence.validUntil
    ensures !IntegrityOk(hash, Frozen(hash, p))
  {
    p := AdmissibleToolProvider(BOUNDED_TOOL, 40 * SECOND, source);
    NormalizedSnapshotIntegrity(hash, p, 0);
  }
}
