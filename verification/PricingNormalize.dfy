/** Normalize and ValidateSnapshotIntegrity: freezing a price specification, and
    the checks a frozen snapshot has to pass before money is computed from it. */
module PricingNormalize {
  import opened Wrappers
  import opened Integers
  import opened PricingModel
  import opened PricingGraph
  import opened PricingDigest
  import opened Orders
  import opened Text

  /** Every billable basis exactly once, and nothing else. */
  ghost predicate Partition(bases: seq<Basis>) {
    Distinct(bases) && forall b :: b in bases <==> IsBasis(b)
  }

  // ---- integrity of a frozen snapshot

  predicate HeaderIntact(s: Snapshot) {
    && s.generation > 0 && Trim(s.version) != "" && s.completeness == COMPLETE
    && ToUpper(s.currency) == "EUR" && s.adapterVersion == ADAPTER_VERSION
    && ValidEvidenceMode(s.evidenceMode) && IsSHA256(s.evidenceSHA256) && Trim(s.sourceVersion) != ""
  }

  predicate RowIntact(row: Charge) {
    && IsBasis(row.basis) && ValidApplicability(row.applicability) && row.settlementField == row.basis
    && row.price >= 0 && row.denominator > 0
    && match row.includedIn
       case Some(parent) => IsBasis(parent) && parent != row.basis && row.price == 0
       case None =>
         && (IsDetail(row.basis) ==> row.disjoint)
         && (if row.applicability.RequestDeclared? then ValidRequestBound(row.basis, row.boundField)
             else row.maximum.Some?)
  }

  ghost predicate StructureIntact(rows: seq<Charge>, inapplicable: seq<Basis>) {
    && (forall row | row in rows :: RowIntact(row))
    && Partition(Bases(rows) + inapplicable)
    && GraphAccepts(rows, inapplicable)
  }

  ghost predicate IntegrityOk(hash: string -> Digest, s: Snapshot) {
    && HeaderIntact(s)
    && s.validUntil > s.observedAt
    && s.sha256 == SnapshotDigest(hash, s)
    && StructureIntact(s.charges, s.inapplicable)
  }

  /** What StructureIntact says about the row set, in the terms the ledger uses. */
  lemma IntactRows(rows: seq<Charge>, inapplicable: seq<Basis>)
    requires StructureIntact(rows, inapplicable)
    ensures UniqueBases(rows) && Disjoint(rows, inapplicable) && DirectInclusions(rows)
    ensures Readable(rows) && ReadableBases(inapplicable)
  {
    PartitionIsDisjoint(rows, inapplicable);
    GraphAcceptsDirectInclusions(rows, inapplicable);
    forall r | r in rows ensures ReadableRow(r) { assert RowIntact(r); }
    forall b | b in inapplicable ensures IsBasis(b) { assert b in Bases(rows) + inapplicable; }
  }

  lemma PartitionIsDisjoint(rows: seq<Charge>, inapplicable: seq<Basis>)
    requires Distinct(Bases(rows) + inapplicable)
    ensures UniqueBases(rows) && Disjoint(rows, inapplicable)
  {
    var all := Bases(rows) + inapplicable;
    forall i, j | 0 <= i < j < |rows| ensures rows[i].basis != rows[j].basis {
      assert all[i] == rows[i].basis && all[j] == rows[j].basis;
    }
    forall b, row | b in inapplicable && row in rows ensures row.basis != b {
      var i :| 0 <= i < |rows| && rows[i] == row;
      var j :| 0 <= j < |inapplicable| && inapplicable[j] == b;
      assert all[i] == row.basis && all[|rows| + j] == b;
    }
  }

  /** The loop every validator runs: each basis known and not seen before, and at
      the end every basis seen. */
  ghost predicate SeenOnce(bases: seq<Basis>, seen: set<Basis>) {
    && Distinct(bases) && (forall b | b in bases :: IsBasis(b))
    && seen == set b | b in bases
  }

  lemma PrefixesDistinct<T>(a: seq<T>, b: seq<T>)
    requires Distinct(a + b)
    ensures Distinct(a)
  {
    forall i, j | 0 <= i < j < |a| ensures a[i] != a[j] {
      assert (a + b)[i] == a[i] && (a + b)[j] == a[j];
    }
  }

  lemma SeenOnceExtends(bases: seq<Basis>, seen: set<Basis>, b: Basis)
    requires SeenOnce(bases, seen)
    ensures IsBasis(b) && b !in seen ==> SeenOnce(bases + [b], seen + {b})
    ensures !IsBasis(b) || b in seen ==> !OnceOnly(bases + [b])
  {
    var longer := bases + [b];
    assert longer[|bases|] == b && b in longer;
    if b in bases {
      var i :| 0 <= i < |bases| && bases[i] == b;
      assert longer[i] == longer[|bases|];
    }
  }

  ghost predicate OnceOnly(bases: seq<Basis>) {
    Distinct(bases) && forall b | b in bases :: IsBasis(b)
  }

  lemma OnceOnlyPrefix(a: seq<Basis>, b: seq<Basis>)
    requires OnceOnly(a + b)
    ensures OnceOnly(a)
  {
    PrefixesDistinct(a, b);
    forall x | x in a ensures IsBasis(x) { assert x in a + b; }
  }

  method SeeBases(bases: seq<Basis>, seen: set<Basis>, ghost before: seq<Basis>) returns (ok: bool, now: set<Basis>)
    requires SeenOnce(before, seen)
    ensures ok <==> OnceOnly(before + bases)
    ensures ok ==> SeenOnce(before + bases, now)
  {
    now := seen;
    assert before + bases[..0] == before;
    for i := 0 to |bases|
      invariant SeenOnce(before + bases[..i], now)
    {
      ghost var so := before + bases[..i];
      SeenOnceExtends(so, now, bases[i]);
      assert before + bases[..i + 1] == so + [bases[i]];
      if !IsBasis(bases[i]) || bases[i] in now {
        assert before + bases == (so + [bases[i]]) + bases[i + 1..];
        if OnceOnly(before + bases) { OnceOnlyPrefix(so + [bases[i]], bases[i + 1..]); }
        return false, now;
      }
      now := now + {bases[i]};
    }
    assert bases[..|bases|] == bases;
    return true, now;
  }

  method CheckPartition(rows: seq<Charge>, inapplicable: seq<Basis>) returns (ok: bool)
    ensures ok <==> Partition(Bases(rows) + inapplicable)
  {
    ghost var all := Bases(rows) + inapplicable;
    var once, seen := SeeBases(Bases(rows), {}, []);
    assert [] + Bases(rows) == Bases(rows);
    if !once {
      if OnceOnly(all) { OnceOnlyPrefix(Bases(rows), inapplicable); }
      return false;
    }
    once, seen := SeeBases(inapplicable, seen, Bases(rows));
    if !once { return false; }
    for k := 0 to |ALL_BASES|
      invariant forall m | 0 <= m < k :: ALL_BASES[m] in seen
    {
      if ALL_BASES[k] !in seen {
        AllBasesAreTheBases(ALL_BASES[k]);
        return false;
      }
    }
    forall b | IsBasis(b) ensures b in all { AllBasesAreTheBases(b); }
    return true;
  }

  method CheckStructure(rows: seq<Charge>, inapplicable: seq<Basis>) returns (ok: bool)
    ensures ok <==> StructureIntact(rows, inapplicable)
  {
    for i := 0 to |rows|
      invariant forall k | 0 <= k < i :: RowIntact(rows[k])
    {
      if !RowIntact(rows[i]) { return false; }
    }
    var partitioned := CheckPartition(rows, inapplicable);
    if !partitioned { return false; }
    ok := ValidateIncludedChargeGraph(rows, inapplicable);
  }

  method ValidateSnapshotIntegrity(hash: string -> Digest, s: Snapshot) returns (ok: bool)
    ensures ok <==> IntegrityOk(hash, s)
  {
    var digest := ComputeSnapshotDigest(hash, s);
    if !HeaderIntact(s) || s.validUntil <= s.observedAt || !IsSHA256(s.sha256) || s.sha256 != digest { return false; }
    ok := CheckStructure(s.charges, s.inapplicable);
  }

  /** Two intact snapshots hashed from the same bytes are the same snapshot, up to
      the order of their rows. */
  lemma IntactSnapshotsAgree(hash: string -> Digest, s: Snapshot, t: Snapshot)
    requires IntegrityOk(hash, s) && IntegrityOk(hash, t)
    requires Addressable(Parts(s)) && Addressable(Parts(t)) && FixedAll(Parts(s)) == FixedAll(Parts(t))
    ensures Normal(s) == Normal(t) && s.sha256 == t.sha256
    ensures multiset(s.charges) == multiset(t.charges) && multiset(s.inapplicable) == multiset(t.inapplicable)
  {
    IntactRows(s.charges, s.inapplicable);
    IntactRows(t.charges, t.inapplicable);
    PreimageDeterminesSnapshot(s, t);
  }

  // ---- normalization of a price specification

  datatype ChargeSpec = ChargeSpec(
    basis: Basis, applicability: Applicability, price: real, denominator: int64, settlementField: Basis,
    includedIn: Option<Basis>, maximum: Option<int64>, boundField: string, disjoint: bool)

  datatype EvidenceSpec = EvidenceSpec(
    mode: string, sourceVersion: string, sha256: string, validUntil: int, adapterVersion: string)

  datatype PricingSpec = PricingSpec(evidence: EvidenceSpec, charges: seq<ChargeSpec>, inapplicable: seq<Basis>)

  datatype Provider = Provider(
    kind: string, generation: int64, version: string, completeness: string, currency: string,
    observedAt: Option<int>, inputPrice: real, outputPrice: real, legacyCategories: nat,
    pricing: Option<PricingSpec>)

  const SECOND := 1_000_000_000
  const MINUTE := 60 * SECOND
  const DAY := 24 * 60 * MINUTE

  /** A non-negative decimal that is a whole number of micros and fits an int64. */
  function ExactMicros(price: real): Option<int64> {
    var micros := price * 1_000_000.0;
    if price < 0.0 || micros.Floor as real != micros || micros.Floor > MAX_INT64 then None
    else Some(micros.Floor)
  }

  predicate KnownAdapter(kind: string) {
    var k := ToLower(Trim(kind));
    k == "openai" || k == "azure-openai"
  }

  predicate HeaderAdmissible(p: Provider, now: int) {
    && KnownAdapter(p.kind)
    && p.pricing.Some?
    && p.legacyCategories == 0
    && p.generation > 0 && Trim(p.version) != "" && p.completeness == COMPLETE
    && ToUpper(Trim(p.currency)) == "EUR"
    && var evidence := p.pricing.value.evidence;
    && evidence.adapterVersion == ADAPTER_VERSION && IsSHA256(evidence.sha256) && Trim(evidence.sourceVersion) != ""
    && evidence.mode == ADMIN_ATTESTED
    && evidence.validUntil > now
    && p.observedAt.Some? && p.observedAt.value <= now + MINUTE && now - p.observedAt.value <= DAY
    && ExactMicros(p.inputPrice).Some? && ExactMicros(p.outputPrice).Some?
  }

  /** The per-charge checks of the normalization loop, but for the repeated basis. */
  predicate ChargeAdmissible(c: ChargeSpec) {
    && IsBasis(c.basis) && ValidApplicability(c.applicability) && c.settlementField == c.basis && c.denominator > 0
    && ExactMicros(c.price).Some?
    && (match c.includedIn
        case Some(parent) => IsBasis(parent) && parent != c.basis && ExactMicros(c.price).value == 0
        case None => c.maximum.Some? || c.boundField != "")
    && (c.applicability.ProviderResponse? ==> c.maximum.Some?)
    && (IsDetail(c.basis) && c.includedIn.None? ==> c.disjoint)
    && (c.applicability.RequestDeclared? && c.includedIn.None? ==> c.boundField != "")
  }

  predicate BoundMapped(row: Charge) {
    row.boundField != "" ==> ValidRequestBound(row.basis, row.boundField)
  }

  function BaseRow(basis: Basis, price: int64, boundField: string): Charge {
    Charge(basis, RequestDeclared, price, 1_000_000, basis, None, None, boundField, false)
  }

  function NormalizedRow(c: ChargeSpec): Charge
    requires ChargeAdmissible(c)
  {
    Charge(c.basis, c.applicability, ExactMicros(c.price).value, c.denominator, c.settlementField,
           c.includedIn, c.maximum, c.boundField, c.disjoint)
  }

  /** Every value the snapshot is built from is there and in range. */
  ghost predicate Freezable(p: Provider) {
    && p.pricing.Some? && p.observedAt.Some?
    && ExactMicros(p.inputPrice).Some? && ExactMicros(p.outputPrice).Some?
    && forall c | c in p.pricing.value.charges :: ChargeAdmissible(c)
  }

  /** The price rows in specification order: the two token prices, then the charges. */
  function Rows(p: Provider): (rows: seq<Charge>)
    requires Freezable(p)
  {
    var charges := p.pricing.value.charges;
    [BaseRow(InputTokens, ExactMicros(p.inputPrice).value, "input_tokens"),
     BaseRow(OutputTokens, ExactMicros(p.outputPrice).value, "max_output_tokens")]
    + seq(|charges|, i requires 0 <= i < |charges| => NormalizedRow(charges[i]))
  }

  ghost predicate Admissible(p: Provider, now: int) {
    && HeaderAdmissible(p, now)
    && (forall c | c in p.pricing.value.charges :: ChargeAdmissible(c))
    && var inapplicable := p.pricing.value.inapplicable;
    && Partition(Bases(Rows(p)) + inapplicable)
    && GraphAccepts(Rows(p), inapplicable)
    && (forall row | row in Rows(p) :: BoundMapped(row))
  }

  function Unsealed(p: Provider): Snapshot
    requires Freezable(p)
  {
    var evidence := p.pricing.value.evidence;
    Snapshot(p.generation, Trim(p.version), p.observedAt.value, evidence.validUntil, "EUR", COMPLETE,
             ADAPTER_VERSION, evidence.mode, evidence.sha256, evidence.sourceVersion,
             Sort(ByBasis, Rows(p)), Sort(ByText, p.pricing.value.inapplicable), "")
  }

  /** The frozen snapshot of an admissible provider. */
  function Frozen(hash: string -> Digest, p: Provider): Snapshot
    requires Freezable(p)
  {
    Unsealed(p).(sha256 := SnapshotDigest(hash, Unsealed(p)))
  }

  method NormalizeRows(p: Provider) returns (r: Result<seq<Charge>>)
    requires p.pricing.Some? && p.observedAt.Some?
    requires ExactMicros(p.inputPrice).Some? && ExactMicros(p.outputPrice).Some?
    ensures r.Ok? <==> Freezable(p)
    ensures r.Ok? ==> r.value == Rows(p)
  {
    var charges := p.pricing.value.charges;
    var input := BaseRow(InputTokens, ExactMicros(p.inputPrice).value, "input_tokens");
    var output := BaseRow(OutputTokens, ExactMicros(p.outputPrice).value, "max_output_tokens");
    var rows := [];
    for i := 0 to |charges|
      invariant forall k | 0 <= k < i :: ChargeAdmissible(charges[k])
      invariant |rows| == i && forall k | 0 <= k < i :: rows[k] == NormalizedRow(charges[k])
    {
      if !ChargeAdmissible(charges[i]) { return Err; }
      rows := rows + [NormalizedRow(charges[i])];
    }
    assert rows == seq(|charges|, i requires 0 <= i < |charges| => NormalizedRow(charges[i]));
    return Ok([input, output] + rows);
  }

  method CheckBoundFields(rows: seq<Charge>) returns (ok: bool)
    ensures ok <==> forall row | row in rows :: BoundMapped(row)
  {
    for i := 0 to |rows|
      invariant forall k | 0 <= k < i :: BoundMapped(rows[k])
    {
      if !BoundMapped(rows[i]) { return false; }
    }
    return true;
  }

  method Normalize(hash: string -> Digest, p: Provider, now: int) returns (r: Result<Snapshot>)
    ensures r.Ok? <==> Admissible(p, now)
    ensures r.Ok? ==> r.value == Frozen(hash, p)
  {
    if !HeaderAdmissible(p, now) { return Err; }
    var inapplicable := p.pricing.value.inapplicable;
    var rows :- NormalizeRows(p);
    var partitioned := CheckPartition(rows, inapplicable);
    if !partitioned { return Err; }
    var accepted := ValidateIncludedChargeGraph(rows, inapplicable);
    if !accepted { return Err; }
    var mapped := CheckBoundFields(rows);
    if !mapped { return Err; }
    var evidence := p.pricing.value.evidence;
    var snapshot := Snapshot(
      p.generation, Trim(p.version), p.observedAt.value, evidence.validUntil, "EUR", COMPLETE,
      ADAPTER_VERSION, evidence.mode, evidence.sha256, evidence.sourceVersion,
      Sort(ByBasis, rows), Sort(ByText, inapplicable), "");
    var digest := ComputeSnapshotDigest(hash, snapshot);
    r := Ok(snapshot.(sha256 := digest));
  }
}
