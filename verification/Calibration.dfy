/** Building split-conformal calibration artifacts and detecting coverage drift:
    the diagnostic builder over self-declared rows and the authoritative builder
    over ledger rows, which share their order statistic and their drift rule. */
module Calibration {
  import opened Wrappers
  import opened Orders
  import opened Text
  import opened Conformal

  /** The zero time.Time. */
  const ZERO_TIME := 0

  datatype Identity = Identity(request: string, attempt: string)

  datatype Regimes = Regimes(feature: string, price: string, cap: string, split: string, cohort: string, producer: string)

  datatype Observation = Observation(
    id: Identity, split: string, selected: bool, final: bool, excluded: bool, tokens: int,
    schema: string, price: string, cap: string, settledAt: int)

  datatype LedgerObservation = LedgerObservation(
    id: Identity, opportunity: string, split: string, tokens: int, settledAt: int, regimes: Regimes)

  datatype Config = Config(
    ref: string, version: string, schema: string, price: string, cap: string, producer: string, target: int)

  datatype LedgerConfig = LedgerConfig(
    ref: string, version: string, schema: string, target: int, minimumSupport: int, regimes: Regimes)

  /** What the builders compute from the token counts. */
  datatype Statistics = Statistics(rank: int, support: int, upper: int, empirical: int, lower: int)

  datatype Artifact = Artifact(
    format: string, ref: string, version: string, schema: string, regimes: Regimes, target: int,
    minimumSupport: int, stats: Statistics, windowStart: int, windowEnd: int, source: string, sha256: string)

  datatype Drift = Drift(
    threshold: int, source: string, support: int, covered: int, empirical: int, gap: int, detected: bool,
    windowStart: int, windowEnd: int)

  /** SHA-256 of the JSON encodings. */
  datatype Codec = Codec(
    rows: seq<Observation> -> Digest, ledgerRows: seq<LedgerObservation> -> Digest, artifact: Artifact -> Digest)

  const DIAGNOSTIC_FORMAT := "govar-calibration-v2"
  const LEDGER_FORMAT := "govar-calibration-authoritative-v1"
  const CALIBRATION := "calibration"
  const MONITORING := "monitoring"

  // ---- identities

  predicate IdLe(a: Identity, b: Identity) {
    if a.request != b.request then LexLe(a.request, b.request) else LexLe(a.attempt, b.attempt)
  }

  lemma IdOrders()
    ensures TotalPreorder(IdLe)
    ensures forall a, b :: IdLe(a, b) && IdLe(b, a) ==> a == b
  {
    LexOrders();
  }

  ghost predicate NeighboursDiffer<T>(s: seq<T>) {
    forall i | 0 <= i < |s| - 1 :: s[i] != s[i + 1]
  }

  function RequestsOf(ids: seq<Identity>): seq<string> { MapSeq((id: Identity) => id.request, ids) }

  /** Sorted identities: a repetition is next to its original. */
  lemma RepetitionIsAdjacent(ids: seq<Identity>, i: int, j: int)
    requires SortedBy(IdLe, ids) && 0 <= i < j < |ids|
    ensures ids[i] == ids[j] ==> ids[i] == ids[i + 1]
    ensures ids[i].request == ids[j].request ==> ids[i].request == ids[i + 1].request
  {
    assert IdLe(ids[i], ids[i + 1]);
    if i + 1 < j {
      assert IdLe(ids[i + 1], ids[j]);
      LexTotal(ids[i].request, ids[i + 1].request);
      LexTotal(ids[i].attempt, ids[i + 1].attempt);
    }
  }

  lemma AdjacentIdentities(ids: seq<Identity>)
    requires SortedBy(IdLe, ids)
    ensures NeighboursDiffer(ids) <==> Distinct(ids)
  {
    if NeighboursDiffer(ids) {
      forall i, j | 0 <= i < j < |ids| ensures ids[i] != ids[j] { RepetitionIsAdjacent(ids, i, j); }
    }
  }

  lemma AdjacentRequests(ids: seq<Identity>)
    requires SortedBy(IdLe, ids)
    ensures NeighboursDiffer(RequestsOf(ids)) <==> Distinct(RequestsOf(ids))
  {
    var requests := RequestsOf(ids);
    if NeighboursDiffer(requests) {
      forall i, j | 0 <= i < j < |requests| ensures requests[i] != requests[j] {
        RepetitionIsAdjacent(ids, i, j);
        assert requests[i] != requests[i + 1];
      }
    }
  }

  // ---- digests of the source rows

  predicate RowLe(a: Observation, b: Observation) { IdLe(a.id, b.id) }

  predicate LedgerLe(a: LedgerObservation, b: LedgerObservation) { IdLe(a.id, b.id) }

  function Split(s: string): string { ToLower(Trim(s)) }

  function Normalized(row: Observation): Observation { row.(split := Split(row.split)) }

  function LedgerNormalized(row: LedgerObservation): LedgerObservation { row.(split := Split(row.split)) }

  function Ids(rows: seq<Observation>): seq<Identity> { MapSeq((r: Observation) => r.id, rows) }

  function LedgerIds(rows: seq<LedgerObservation>): seq<Identity> { MapSeq((r: LedgerObservation) => r.id, rows) }

  function Requests(rows: seq<LedgerObservation>): seq<string> { RequestsOf(LedgerIds(rows)) }

  predicate Named(id: Identity) { id.request != "" && id.attempt != "" }

  ghost predicate Identified(rows: seq<Observation>) {
    && (forall id | id in Ids(rows) :: Named(id))
    && Distinct(Ids(rows))
  }

  ghost function SourceDigest(codec: Codec, rows: seq<Observation>): Result<string> {
    if Identified(rows) then Ok(codec.rows(Sort(RowLe, MapSeq(Normalized, rows)))) else Err
  }

  ghost predicate LedgerIdentified(rows: seq<LedgerObservation>) {
    && (forall r | r in MapSeq(LedgerNormalized, rows) :: ValidLedgerRow(r))
    && Distinct(Requests(rows))
  }

  ghost function LedgerDigest(codec: Codec, rows: seq<LedgerObservation>): Result<string> {
    if LedgerIdentified(rows) then Ok(codec.ledgerRows(MapSeq(LedgerNormalized, Sort(LedgerLe, rows)))) else Err
  }

  lemma SortedIds(rows: seq<Observation>)
    ensures SortedBy(IdLe, Ids(Sort(RowLe, rows))) && multiset(Ids(Sort(RowLe, rows))) == multiset(Ids(rows))
  {
    IdOrders();
    SortSorts(RowLe, rows);
    var f := (r: Observation) => r.id;
    SortKeepsImage(f, RowLe, rows);
    assert Ids(rows) == MapSeq(f, rows) && Ids(Sort(RowLe, rows)) == MapSeq(f, Sort(RowLe, rows));
  }

  /** The sorted rows of ObservationDigest. */
  function SortedRows(rows: seq<Observation>): seq<Observation> { Sort(RowLe, MapSeq(Normalized, rows)) }

  lemma IdentifiedBySorting(rows: seq<Observation>)
    ensures var sorted := SortedRows(rows);
      Identified(rows) <==>
        (forall r | r in sorted :: NamedRow(r)) && NoRepeats(SameIdentity, sorted)
  {
    var normal := MapSeq(Normalized, rows);
    var ids := Ids(SortedRows(rows));
    assert Ids(normal) == Ids(rows);
    SortedIds(normal);
    SameElements(ids, Ids(rows));
    AdjacentIdentities(ids);
    if Distinct(ids) { DistinctPermutes(ids, Ids(rows)); }
    if Distinct(Ids(rows)) { DistinctPermutes(Ids(rows), ids); }
    IdentityNeighbours(SortedRows(rows));
  }

  lemma IdentityNeighbours(rows: seq<Observation>)
    ensures NeighboursDiffer(Ids(rows)) <==> NoRepeats(SameIdentity, rows)
    ensures (forall id | id in Ids(rows) :: Named(id)) <==> forall r | r in rows :: NamedRow(r)
  {
    var ids := Ids(rows);
    if NeighboursDiffer(ids) {
      forall k | 0 <= k < |rows| - 1 ensures !SameIdentity(rows[k], rows[k + 1]) { assert ids[k] != ids[k + 1]; }
    }
    if NoRepeats(SameIdentity, rows) {
      forall k | 0 <= k < |ids| - 1 ensures ids[k] != ids[k + 1] { assert !SameIdentity(rows[k], rows[k + 1]); }
    }
    if forall id | id in ids :: Named(id) {
      forall i | 0 <= i < |rows| ensures NamedRow(rows[i]) { assert ids[i] in ids; }
    }
    if forall r | r in rows :: NamedRow(r) {
      forall i | 0 <= i < |ids| ensures Named(ids[i]) { assert NamedRow(rows[i]); }
    }
  }

  predicate NamedRow(row: Observation) { Named(row.id) }

  predicate SameIdentity(a: Observation, b: Observation) { a.id == b.id }

  predicate SameRequest(a: LedgerObservation, b: LedgerObservation) { a.id.request == b.id.request }

  ghost predicate NoRepeats<T>(repeats: (T, T) -> bool, rows: seq<T>) {
    forall k | 0 <= k < |rows| - 1 :: !repeats(rows[k], rows[k + 1])
  }

  /** Every row valid, no row repeating the one before it. */
  method CheckRows<T>(rows: seq<T>, valid: T -> bool, repeats: (T, T) -> bool) returns (ok: bool)
    ensures ok <==> (forall r | r in rows :: valid(r)) && NoRepeats(repeats, rows)
  {
    for i := 0 to |rows|
      invariant forall k | 0 <= k < i :: valid(rows[k])
      invariant forall k | 0 <= k < i - 1 :: !repeats(rows[k], rows[k + 1])
    {
      if !valid(rows[i]) { return false; }
      if i > 0 && repeats(rows[i - 1], rows[i]) {
        assert repeats(rows[i - 1], rows[(i - 1) + 1]);
        return false;
      }
    }
    return true;
  }

  method ObservationDigest(codec: Codec, rows: seq<Observation>) returns (r: Result<string>)
    ensures r == SourceDigest(codec, rows)
  {
    var normalized := [];
    for i := 0 to |rows|
      invariant |normalized| == i && forall k | 0 <= k < i :: normalized[k] == Normalized(rows[k])
    {
      normalized := normalized + [rows[i].(split := ToLower(Trim(rows[i].split)))];
    }
    assert normalized == MapSeq(Normalized, rows);
    var sorted := Sort(RowLe, normalized);
    IdentifiedBySorting(rows);
    var ok := CheckRows(sorted, NamedRow, SameIdentity);
    if !ok { return Err; }
    return Ok(codec.rows(sorted));
  }

  lemma SortedRequests(rows: seq<LedgerObservation>)
    ensures var ids := LedgerIds(Sort(LedgerLe, rows));
      SortedBy(IdLe, ids) && multiset(RequestsOf(ids)) == multiset(Requests(rows))
  {
    IdOrders();
    SortSorts(LedgerLe, rows);
    var f := (r: LedgerObservation) => r.id.request;
    SortKeepsImage(f, LedgerLe, rows);
    assert Requests(rows) == MapSeq(f, rows);
    assert Requests(Sort(LedgerLe, rows)) == MapSeq(f, Sort(LedgerLe, rows));
  }

  lemma LedgerIdentifiedBySorting(rows: seq<LedgerObservation>)
    ensures var normalized := MapSeq(LedgerNormalized, Sort(LedgerLe, rows));
      LedgerIdentified(rows) <==>
        && (forall r | r in normalized :: ValidLedgerRow(r))
        && NoRepeats(SameRequest, normalized)
  {
    var sorted := Sort(LedgerLe, rows);
    var normalized := MapSeq(LedgerNormalized, sorted);
    SortedRequests(rows);
    AdjacentRequests(LedgerIds(sorted));
    RequestNeighbours(normalized);
    assert Requests(normalized) == Requests(sorted);
    if Distinct(Requests(rows)) { DistinctPermutes(Requests(rows), Requests(sorted)); }
    if Distinct(Requests(sorted)) { DistinctPermutes(Requests(sorted), Requests(rows)); }
    SortKeepsImage(LedgerNormalized, LedgerLe, rows);
    SameElements(normalized, MapSeq(LedgerNormalized, rows));
  }

  lemma RequestNeighbours(rows: seq<LedgerObservation>)
    ensures NeighboursDiffer(Requests(rows)) <==> NoRepeats(SameRequest, rows)
  {
    var requests := Requests(rows);
    if NeighboursDiffer(requests) {
      forall k | 0 <= k < |rows| - 1 ensures !SameRequest(rows[k], rows[k + 1]) { assert requests[k] != requests[k + 1]; }
    }
    if NoRepeats(SameRequest, rows) {
      forall k | 0 <= k < |requests| - 1 ensures requests[k] != requests[k + 1] { assert !SameRequest(rows[k], rows[k + 1]); }
    }
  }

  method LedgerObservationDigest(codec: Codec, rows: seq<LedgerObservation>) returns (r: Result<string>)
    ensures r == LedgerDigest(codec, rows)
  {
    var normalized := MapSeq(LedgerNormalized, Sort(LedgerLe, rows));
    LedgerIdentifiedBySorting(rows);
    var ok := CheckRows(normalized, ValidLedgerRow, SameRequest);
    if !ok { return Err; }
    return Ok(codec.ledgerRows(normalized));
  }

  // ---- validation

  predicate ValidConfig(cfg: Config) {
    && Trim(cfg.ref) != "" && Trim(cfg.version) != "" && Trim(cfg.schema) != ""
    && IsSHA256(cfg.price) && IsSHA256(cfg.cap) && IsSHA256(cfg.producer)
    && ValidTarget(cfg.target)
  }

  predicate ValidRow(row: Observation, schema: string, price: string, cap: string, split: string) {
    && row.id.request != "" && row.id.attempt != "" && row.tokens >= 0 && row.settledAt != ZERO_TIME
    && row.selected && row.final && !row.excluded
    && Split(row.split) == split
    && row.schema == schema && row.price == price && row.cap == cap
  }

  predicate ValidRegimes(r: Regimes) {
    && IsSHA256(r.feature) && IsSHA256(r.price) && IsSHA256(r.cap) && IsSHA256(r.split) && IsSHA256(r.cohort)
    && IsSHA256(r.producer)
  }

  predicate ValidSplit(split: string) {
    var s := Split(split);
    s == "train" || s == "development" || s == CALIBRATION || s == MONITORING || s == "frozen_test"
  }

  predicate ValidLedgerRow(row: LedgerObservation) {
    && Trim(row.id.request) != "" && Trim(row.id.attempt) != "" && Trim(row.opportunity) != ""
    && row.tokens >= 0 && row.settledAt != ZERO_TIME && ValidSplit(row.split) && ValidRegimes(row.regimes)
  }

  // ---- the order statistic

  ghost function StatisticsOf(tokens: seq<int>, target: int): Result<Statistics>
    requires |tokens| > 0 && ValidTarget(target)
  {
    var n := |tokens|;
    var rank := Rank(target, n);
    RankIsLeast(target, n);
    if rank > n then Err
    else
      var upper := Kth(tokens, rank);
      Ok(Statistics(rank, n, upper, CoveragePPB(CountLe(tokens, upper), n), MarginalLowerPPB(rank, n)))
  }

  method CountCovered(tokens: seq<int>, upper: int) returns (covered: int)
    ensures covered == CountLe(tokens, upper)
  {
    covered := 0;
    for i := 0 to |tokens|
      invariant covered == CountLe(tokens[..i], upper)
    {
      assert tokens[..i + 1] == tokens[..i] + [tokens[i]];
      CountSplits(tokens[..i], [tokens[i]], upper);
      if tokens[i] <= upper { covered := covered + 1; }
    }
    assert tokens[..|tokens|] == tokens;
  }

  method RankTokens(tokens: seq<int>, target: int) returns (r: Result<Statistics>)
    requires |tokens| > 0 && ValidTarget(target)
    ensures r == StatisticsOf(tokens, target)
  {
    var sorted, n := Sort(IntLe, tokens), |tokens|;
    var rank := Rank(target, n);
    RankIsLeast(target, n);
    if rank > n { return Err; }
    SortPermutes(IntLe, tokens);
    var upper := sorted[rank - 1];
    var covered := CountCovered(sorted, upper);
    CountPermutes(sorted, tokens, upper);
    return Ok(Statistics(rank, n, upper, CoveragePPB(covered, n), MarginalLowerPPB(rank, n)));
  }

  ghost predicate IsEarliest(times: seq<int>, t: int) {
    t in times && forall i | 0 <= i < |times| :: t <= times[i]
  }

  ghost predicate IsLatest(times: seq<int>, t: int) {
    t in times && forall i | 0 <= i < |times| :: times[i] <= t
  }

  ghost function Earliest(times: seq<int>): (t: int)
    requires times != []
    ensures IsEarliest(times, t)
  {
    if |times| == 1 then times[0]
    else var t := Earliest(times[1..]); assert times == [times[0]] + times[1..]; if times[0] <= t then times[0] else t
  }

  ghost function Latest(times: seq<int>): (t: int)
    requires times != []
    ensures IsLatest(times, t)
  {
    if |times| == 1 then times[0]
    else var t := Latest(times[1..]); assert times == [times[0]] + times[1..]; if times[0] >= t then times[0] else t
  }

  method Window(times: seq<int>) returns (start: int, end: int)
    requires times != []
    ensures start == Earliest(times) && end == Latest(times)
  {
    start, end := times[0], times[0];
    for i := 0 to |times|
      invariant start in times && end in times && start <= times[0] <= end
      invariant forall k | 0 <= k < i :: start <= times[k] <= end
    {
      if times[i] < start { start := times[i]; }
      if times[i] > end { end := times[i]; }
    }
    assert IsEarliest(times, start) && IsLatest(times, end);
  }

  // ---- the diagnostic builder

  function Tokens(rows: seq<Observation>): seq<int> { MapSeq((r: Observation) => r.tokens, rows) }

  function Times(rows: seq<Observation>): seq<int> { MapSeq((r: Observation) => r.settledAt, rows) }

  function ConfigRegimes(cfg: Config): Regimes { Regimes("", cfg.price, cfg.cap, "", "", cfg.producer) }

  function Seal(codec: Codec, a: Artifact): Artifact { a.(sha256 := codec.artifact(a)) }

  ghost predicate Buildable(cfg: Config, rows: seq<Observation>) {
    && ValidConfig(cfg) && 0 < |rows| <= MAX_SUPPORT
    && (forall r | r in rows :: ValidRow(r, cfg.schema, cfg.price, cfg.cap, CALIBRATION))
  }

  ghost function Built(codec: Codec, cfg: Config, rows: seq<Observation>): Result<Artifact> {
    if !Buildable(cfg, rows) then Err
    else
      var source :- SourceDigest(codec, rows);
      var stats :- StatisticsOf(Tokens(rows), cfg.target);
      Ok(Seal(codec, Artifact(DIAGNOSTIC_FORMAT, cfg.ref, cfg.version, cfg.schema, ConfigRegimes(cfg), cfg.target, 0,
                              stats, Earliest(Times(rows)), Latest(Times(rows)), source, "")))
  }

  method BuildArtifact(codec: Codec, cfg: Config, rows: seq<Observation>) returns (r: Result<Artifact>)
    ensures r == Built(codec, cfg, rows)
  {
    if !ValidConfig(cfg) || |rows| == 0 || |rows| > MAX_SUPPORT { return Err; }
    for i := 0 to |rows|
      invariant forall k | 0 <= k < i :: ValidRow(rows[k], cfg.schema, cfg.price, cfg.cap, CALIBRATION)
    {
      if !ValidRow(rows[i], cfg.schema, cfg.price, cfg.cap, CALIBRATION) { return Err; }
    }
    var source :- ObservationDigest(codec, rows);
    var start, end := Window(Times(rows));
    var stats :- RankTokens(Tokens(rows), cfg.target);
    return Ok(Seal(codec, Artifact(DIAGNOSTIC_FORMAT, cfg.ref, cfg.version, cfg.schema, ConfigRegimes(cfg), cfg.target,
                                   0, stats, start, end, source, "")));
  }

  // ---- the authoritative builder

  function LedgerTokens(rows: seq<LedgerObservation>): seq<int> { MapSeq((r: LedgerObservation) => r.tokens, rows) }

  function LedgerTimes(rows: seq<LedgerObservation>): seq<int> { MapSeq((r: LedgerObservation) => r.settledAt, rows) }

  predicate LedgerRowFits(row: LedgerObservation, cfg: LedgerConfig) {
    ValidLedgerRow(row) && row.split == CALIBRATION && row.regimes == cfg.regimes
  }

  predicate ValidLedgerConfig(cfg: LedgerConfig) {
    && Trim(cfg.ref) != "" && Trim(cfg.version) != "" && Trim(cfg.schema) != ""
    && ValidRegimes(cfg.regimes) && cfg.minimumSupport > 0 && ValidTarget(cfg.target)
  }

  ghost predicate LedgerBuildable(cfg: LedgerConfig, rows: seq<LedgerObservation>) {
    && ValidLedgerConfig(cfg) && cfg.minimumSupport <= |rows| <= MAX_SUPPORT
    && (forall r | r in rows :: LedgerRowFits(r, cfg))
  }

  ghost function LedgerBuilt(codec: Codec, cfg: LedgerConfig, rows: seq<LedgerObservation>): Result<Artifact> {
    if !LedgerBuildable(cfg, rows) then Err
    else
      var source :- LedgerDigest(codec, rows);
      var stats :- StatisticsOf(LedgerTokens(rows), cfg.target);
      Ok(Seal(codec, Artifact(LEDGER_FORMAT, cfg.ref, cfg.version, cfg.schema, cfg.regimes, cfg.target,
                              cfg.minimumSupport, stats, Earliest(LedgerTimes(rows)), Latest(LedgerTimes(rows)), source, "")))
  }

  method AllRowsFit(rows: seq<LedgerObservation>, cfg: LedgerConfig) returns (ok: bool)
    ensures ok <==> forall r | r in rows :: LedgerRowFits(r, cfg)
  {
    for i := 0 to |rows|
      invariant forall k | 0 <= k < i :: LedgerRowFits(rows[k], cfg)
    {
      var fits := LedgerRowFits(rows[i], cfg);
      if !fits { return false; }
    }
    return true;
  }

  method BuildAuthoritativeArtifact(codec: Codec, cfg: LedgerConfig, rows: seq<LedgerObservation>) returns (r: Result<Artifact>)
    ensures r == LedgerBuilt(codec, cfg, rows)
  {
    if !ValidLedgerConfig(cfg) || |rows| < cfg.minimumSupport || |rows| > MAX_SUPPORT { return Err; }
    var fit := AllRowsFit(rows, cfg);
    if !fit { return Err; }
    var start, end := Window(LedgerTimes(rows));
    var source :- LedgerObservationDigest(codec, rows);
    var stats :- RankTokens(LedgerTokens(rows), cfg.target);
    return Ok(Seal(codec, Artifact(LEDGER_FORMAT, cfg.ref, cfg.version, cfg.schema, cfg.regimes, cfg.target,
                                   cfg.minimumSupport, stats, start, end, source, "")));
  }

  // ---- drift

  predicate ValidThreshold(threshold: int) { 0 <= threshold <= PPB }

  ghost function DriftOf(target: int, upper: int, threshold: int, source: string, tokens: seq<int>, times: seq<int>): Drift
    requires |tokens| == |times| > 0
  {
    var covered, support := CountLe(tokens, upper), |tokens|;
    Drift(threshold, source, support, covered, CoveragePPB(covered, support), GapPPB(target, covered, support),
          GapPPB(target, covered, support) > threshold, Earliest(times), Latest(times))
  }

  ghost predicate Monitorable(a: Artifact, threshold: int, rows: seq<Observation>) {
    && ValidThreshold(threshold) && rows != []
    && (forall r | r in rows :: ValidRow(r, a.schema, a.regimes.price, a.regimes.cap, MONITORING))
  }

  ghost function Detection(codec: Codec, a: Artifact, threshold: int, rows: seq<Observation>): Result<Drift> {
    if !Monitorable(a, threshold, rows) then Err
    else
      var source :- SourceDigest(codec, rows);
      Ok(DriftOf(a.target, a.stats.upper, threshold, source, Tokens(rows), Times(rows)))
  }

  method MeasureDrift(target: int, upper: int, threshold: int, source: string, tokens: seq<int>, times: seq<int>)
    returns (d: Drift)
    requires |tokens| == |times| > 0
    ensures d == DriftOf(target, upper, threshold, source, tokens, times)
  {
    var start, end := Window(times);
    var covered := CountCovered(tokens, upper);
    var support := |tokens|;
    var coverage := covered * PPB / support;
    var gap := target - coverage;
    if gap < 0 { gap := 0; }
    d := Drift(threshold, source, support, covered, coverage, gap, gap > threshold, start, end);
  }

  method DetectCoverageGap(codec: Codec, a: Artifact, threshold: int, rows: seq<Observation>) returns (r: Result<Drift>)
    ensures r == Detection(codec, a, threshold, rows)
  {
    if !ValidThreshold(threshold) || |rows| == 0 { return Err; }
    for i := 0 to |rows|
      invariant forall k | 0 <= k < i :: ValidRow(rows[k], a.schema, a.regimes.price, a.regimes.cap, MONITORING)
    {
      if !ValidRow(rows[i], a.schema, a.regimes.price, a.regimes.cap, MONITORING) { return Err; }
    }
    var source :- ObservationDigest(codec, rows);
    var d := MeasureDrift(a.target, a.stats.upper, threshold, source, Tokens(rows), Times(rows));
    return Ok(d);
  }

  /** The artifact was calibrated in the regime that is monitored; the split regime
      is not compared, because monitoring rows come from another split. */
  predicate SameRegime(a: Artifact, regimes: Regimes) {
    a.regimes.(split := "") == regimes.(split := "")
  }

  predicate Monitored(row: LedgerObservation, regimes: Regimes) {
    ValidLedgerRow(row) && row.split == MONITORING && row.regimes == regimes
  }

  method AllRowsMonitored(rows: seq<LedgerObservation>, regimes: Regimes) returns (ok: bool)
    ensures ok <==> forall r | r in rows :: Monitored(r, regimes)
  {
    for i := 0 to |rows|
      invariant forall k | 0 <= k < i :: Monitored(rows[k], regimes)
    {
      var monitored := Monitored(rows[i], regimes);
      if !monitored { return false; }
    }
    return true;
  }

  ghost predicate LedgerMonitorable(a: Artifact, regimes: Regimes, threshold: int, rows: seq<LedgerObservation>) {
    && a.format == LEDGER_FORMAT && IsSHA256(a.sha256) && ValidThreshold(threshold) && rows != []
    && ValidRegimes(regimes) && SameRegime(a, regimes)
    && (forall r | r in rows :: Monitored(r, regimes))
  }

  ghost function LedgerDetection(codec: Codec, a: Artifact, regimes: Regimes, threshold: int, rows: seq<LedgerObservation>): Result<Drift> {
    if !LedgerMonitorable(a, regimes, threshold, rows) then Err
    else
      var source :- LedgerDigest(codec, rows);
      Ok(DriftOf(a.target, a.stats.upper, threshold, source, LedgerTokens(rows), LedgerTimes(rows)))
  }

  method BuildAuthoritativeDriftWindow(codec: Codec, a: Artifact, regimes: Regimes, threshold: int, rows: seq<LedgerObservation>)
    returns (r: Result<Drift>)
    ensures r == LedgerDetection(codec, a, regimes, threshold, rows)
  {
    if a.format != LEDGER_FORMAT || !IsSHA256(a.sha256) || !ValidThreshold(threshold) || |rows| == 0 { return Err; }
    if !ValidRegimes(regimes) || !SameRegime(a, regimes) { return Err; }
    var monitored := AllRowsMonitored(rows, regimes);
    if !monitored { return Err; }
    var source :- LedgerObservationDigest(codec, rows);
    var d := MeasureDrift(a.target, a.stats.upper, threshold, source, LedgerTokens(rows), LedgerTimes(rows));
    return Ok(d);
  }
}
