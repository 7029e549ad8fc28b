/** What a built artifact guarantees, and how drift detection composes. */
module CalibrationGuarantees {
  import opened Wrappers
  import opened Orders
  import opened Conformal
  import opened Calibration
  import opened Text

  // ---- the published statistics

  /** The numbers of an artifact mean what they claim about the token counts. */
  ghost predicate Sound(st: Statistics, tokens: seq<int>, target: int) {
    var n := |tokens|;
    && st.support == n && 1 <= st.rank <= n
    && (st.rank - 1) * PPB < target * (n + 1) <= st.rank * PPB
    && IsKth(tokens, st.rank, st.upper)
    && (forall v | CountLe(tokens, v) >= st.rank :: st.upper <= v)
    && st.empirical == CoveragePPB(CountLe(tokens, st.upper), n)
    && st.lower == MarginalLowerPPB(st.rank, n)
    && target <= st.empirical <= PPB && target <= st.lower <= PPB
  }

  lemma StatisticsSound(tokens: seq<int>, target: int)
    requires |tokens| > 0 && ValidTarget(target)
    ensures StatisticsOf(tokens, target).Ok? <==> target * (|tokens| + 1) <= |tokens| * PPB
    ensures StatisticsOf(tokens, target).Ok? ==> Sound(StatisticsOf(tokens, target).value, tokens, target)
  {
    var n, rank := |tokens|, Rank(target, |tokens|);
    RankIsLeast(target, n);
    if rank <= n {
      var upper := Kth(tokens, rank);
      KthIsOrderStatistic(tokens, rank);
      PublishedBoundsMeetTarget(target, n, CountLe(tokens, upper));
      CountMonotone(tokens, upper, upper);
      AtMostWhole(CountLe(tokens, upper), n);
      AtMostWhole(rank, n + 1);
    }
  }

  lemma AtMostWhole(part: int, whole: int)
    requires part <= whole && whole > 0
    ensures part * PPB / whole <= PPB
  {
    FloorAtLeast(part * PPB, whole, PPB + 1);
    assert part * PPB <= whole * PPB < (PPB + 1) * whole;
  }

  /** The counts depend on the multiset of values alone. */
  lemma StatisticsForgetOrder(a: seq<int>, b: seq<int>, target: int)
    requires |a| > 0 && |b| > 0 && ValidTarget(target) && multiset(a) == multiset(b)
    ensures StatisticsOf(a, target) == StatisticsOf(b, target)
  {
    SameElements(a, b);
    RankIsLeast(target, |a|);
    if Rank(target, |a|) <= |a| {
      IntLeOrders();
      SortForgetsOrder(IntLe, a, b);
      CountPermutes(a, b, Kth(a, Rank(target, |a|)));
    }
  }

  lemma WindowForgetsOrder(a: seq<int>, b: seq<int>)
    requires a != [] && b != [] && multiset(a) == multiset(b)
    ensures Earliest(a) == Earliest(b) && Latest(a) == Latest(b)
  {
    SameElements(a, b);
  }

  /** When the diagnostic builder succeeds. */
  lemma ArtifactBuiltExactlyWhen(codec: Codec, cfg: Config, rows: seq<Observation>)
    ensures Built(codec, cfg, rows).Ok? <==>
      Buildable(cfg, rows) && Identified(rows) && cfg.target * (|rows| + 1) <= |rows| * PPB
  {
    if Buildable(cfg, rows) { StatisticsSound(Tokens(rows), cfg.target); }
  }

  /** What the diagnostic artifact says about its rows. */
  lemma ArtifactIsSound(codec: Codec, cfg: Config, rows: seq<Observation>)
    requires Built(codec, cfg, rows).Ok?
    ensures var a := Built(codec, cfg, rows).value;
      && a.target == cfg.target && Sound(a.stats, Tokens(rows), cfg.target)
      && IsEarliest(Times(rows), a.windowStart) && IsLatest(Times(rows), a.windowEnd)
      && a.sha256 == codec.artifact(a.(sha256 := ""))
  {
    StatisticsSound(Tokens(rows), cfg.target);
  }

  /** No number of rows supports a target of certainty. */
  lemma CertaintyIsNeverSupported(codec: Codec, cfg: Config, rows: seq<Observation>)
    requires cfg.target == PPB
    ensures Built(codec, cfg, rows).Err?
  {
    ArtifactBuiltExactlyWhen(codec, cfg, rows);
    assert PPB * (|rows| + 1) == |rows| * PPB + PPB;
  }

  /** When the authoritative builder succeeds. */
  lemma LedgerArtifactBuiltExactlyWhen(codec: Codec, cfg: LedgerConfig, rows: seq<LedgerObservation>)
    ensures LedgerBuilt(codec, cfg, rows).Ok? <==>
      LedgerBuildable(cfg, rows) && LedgerIdentified(rows) && cfg.target * (|rows| + 1) <= |rows| * PPB
  {
    if LedgerBuildable(cfg, rows) { StatisticsSound(LedgerTokens(rows), cfg.target); }
  }

  /** Nor does it in the authoritative builder. */
  lemma LedgerCertaintyIsNeverSupported(codec: Codec, cfg: LedgerConfig, rows: seq<LedgerObservation>)
    requires cfg.target == PPB
    ensures LedgerBuilt(codec, cfg, rows).Err?
  {
    LedgerArtifactBuiltExactlyWhen(codec, cfg, rows);
    assert PPB * (|rows| + 1) == |rows| * PPB + PPB;
  }

  /** What the authoritative artifact says about its rows. */
  lemma LedgerArtifactIsSound(codec: Codec, cfg: LedgerConfig, rows: seq<LedgerObservation>)
    requires LedgerBuilt(codec, cfg, rows).Ok?
    ensures var a := LedgerBuilt(codec, cfg, rows).value;
      && a.format == LEDGER_FORMAT && a.target == cfg.target && Sound(a.stats, LedgerTokens(rows), cfg.target)
      && a.stats.support >= a.minimumSupport == cfg.minimumSupport
      && IsEarliest(LedgerTimes(rows), a.windowStart) && IsLatest(LedgerTimes(rows), a.windowEnd)
      && a.sha256 == codec.artifact(a.(sha256 := ""))
  {
    StatisticsSound(LedgerTokens(rows), cfg.target);
  }

  // ---- what is recorded

  /** What a diagnostic artifact records of its configuration: each regime under its own
      name, and no more. */
  lemma ArtifactRecords(codec: Codec, cfg: Config, rows: seq<Observation>)
    requires Built(codec, cfg, rows).Ok?
    ensures var a := Built(codec, cfg, rows).value;
      && a.format == "govar-calibration-v2" && a.ref == cfg.ref && a.version == cfg.version && a.schema == cfg.schema
      && a.regimes.price == cfg.price && a.regimes.cap == cfg.cap && a.regimes.producer == cfg.producer
      && a.regimes.feature == a.regimes.split == a.regimes.cohort == "" && a.minimumSupport == 0
      && SourceDigest(codec, rows) == Ok(a.source)
  {}

  /** An authoritative artifact records its configuration, regimes and all. */
  lemma LedgerArtifactRecords(codec: Codec, cfg: LedgerConfig, rows: seq<LedgerObservation>)
    requires LedgerBuilt(codec, cfg, rows).Ok?
    ensures var a := LedgerBuilt(codec, cfg, rows).value;
      && a.format == "govar-calibration-authoritative-v1" && a.ref == cfg.ref && a.version == cfg.version && a.schema == cfg.schema
      && a.regimes == cfg.regimes && a.minimumSupport == cfg.minimumSupport
      && LedgerDigest(codec, rows) == Ok(a.source)
  {}

  /** A finished row of the split, selected and not excluded, under these digests. */
  predicate Eligible(row: Observation, split: string, schema: string, price: string, cap: string) {
    && row.id.request != "" && row.id.attempt != "" && row.tokens >= 0 && row.settledAt != 0
    && row.selected && row.final && !row.excluded && ToLower(Trim(row.split)) == split
    && row.schema == schema && row.price == price && row.cap == cap
  }

  lemma RowsNamed(rows: seq<Observation>)
    requires forall r | r in rows :: r.id.request != "" && r.id.attempt != ""
    ensures forall id | id in Ids(rows) :: Named(id)
  {
    forall i | 0 <= i < |rows| ensures Named(Ids(rows)[i]) { assert rows[i] in rows; }
  }

  /** The diagnostic builder accepts exactly a complete configuration with eligible rows,
      no identity twice, few enough for its arithmetic and enough for its target. */
  lemma DiagnosticBuildsExactlyWhen(codec: Codec, cfg: Config, rows: seq<Observation>)
    ensures Built(codec, cfg, rows).Ok? <==>
      && Trim(cfg.ref) != "" && Trim(cfg.version) != "" && Trim(cfg.schema) != ""
      && IsSHA256(cfg.price) && IsSHA256(cfg.cap) && IsSHA256(cfg.producer) && 1 <= cfg.target <= 1_000_000_000
      && 0 < |rows| <= 10_000_000 && (forall r | r in rows :: Eligible(r, "calibration", cfg.schema, cfg.price, cfg.cap))
      && Distinct(Ids(rows)) && cfg.target * (|rows| + 1) <= |rows| * 1_000_000_000
  {
    ArtifactBuiltExactlyWhen(codec, cfg, rows);
    if forall r | r in rows :: Eligible(r, "calibration", cfg.schema, cfg.price, cfg.cap) { RowsNamed(rows); }
  }

  /** The diagnostic monitor accepts exactly eligible monitoring rows, no identity twice. */
  lemma DiagnosticMonitorsExactlyWhen(codec: Codec, a: Artifact, threshold: int, rows: seq<Observation>)
    ensures Detection(codec, a, threshold, rows).Ok? <==>
      && 0 <= threshold <= 1_000_000_000 && rows != []
      && (forall r | r in rows :: Eligible(r, "monitoring", a.schema, a.regimes.price, a.regimes.cap))
      && Distinct(Ids(rows))
  {
    if forall r | r in rows :: Eligible(r, "monitoring", a.schema, a.regimes.price, a.regimes.cap) { RowsNamed(rows); }
  }

  predicate AllDigests(r: Regimes) {
    forall d | d in [r.feature, r.price, r.cap, r.split, r.cohort, r.producer] :: IsSHA256(d)
  }

  lemma AllDigestsAreValid(r: Regimes)
    ensures AllDigests(r) <==> ValidRegimes(r)
  {
    var all := [r.feature, r.price, r.cap, r.split, r.cohort, r.producer];
    assert all[0] == r.feature && all[1] == r.price && all[2] == r.cap && all[3] == r.split && all[4] == r.cohort && all[5] == r.producer;
  }

  /** A complete ledger row of the split, in these regimes. */
  predicate LedgerEligible(row: LedgerObservation, split: string, regimes: Regimes) {
    && Trim(row.id.request) != "" && Trim(row.id.attempt) != "" && Trim(row.opportunity) != ""
    && row.tokens >= 0 && row.settledAt != 0 && row.split == split && row.regimes == regimes
  }

  lemma CanonicalSplits()
    ensures Split("calibration") == "calibration" && Split("monitoring") == "monitoring"
    ensures ValidSplit("calibration") && ValidSplit("monitoring")
  {}

  lemma LedgerEligibleIsValid(row: LedgerObservation, split: string, regimes: Regimes)
    requires AllDigests(regimes) && split in {"calibration", "monitoring"} && LedgerEligible(row, split, regimes)
    ensures ValidLedgerRow(row) && ValidLedgerRow(LedgerNormalized(row))
  {
    CanonicalSplits();
    AllDigestsAreValid(regimes);
  }

  lemma EligibleRowsAreIdentified(rows: seq<LedgerObservation>, split: string, regimes: Regimes)
    requires AllDigests(regimes) && split in {"calibration", "monitoring"}
    requires forall r | r in rows :: LedgerEligible(r, split, regimes)
    ensures LedgerIdentified(rows) <==> Distinct(Requests(rows))
  {
    forall i | 0 <= i < |rows| ensures ValidLedgerRow(MapSeq(LedgerNormalized, rows)[i]) {
      LedgerEligibleIsValid(rows[i], split, regimes);
    }
  }

  /** The authoritative builder accepts exactly a complete configuration with eligible
      ledger rows of its regimes, no request twice, as many as it asks for, few enough
      for its arithmetic and enough for its target. */
  lemma LedgerBuildsExactlyWhen(codec: Codec, cfg: LedgerConfig, rows: seq<LedgerObservation>)
    ensures LedgerBuilt(codec, cfg, rows).Ok? <==>
      && Trim(cfg.ref) != "" && Trim(cfg.version) != "" && Trim(cfg.schema) != ""
      && AllDigests(cfg.regimes) && 1 <= cfg.target <= 1_000_000_000 && 0 < cfg.minimumSupport <= |rows| <= 10_000_000
      && (forall r | r in rows :: LedgerEligible(r, "calibration", cfg.regimes))
      && Distinct(Requests(rows)) && cfg.target * (|rows| + 1) <= |rows| * 1_000_000_000
  {
    LedgerArtifactBuiltExactlyWhen(codec, cfg, rows);
    AllDigestsAreValid(cfg.regimes);
    forall r | AllDigests(cfg.regimes) && LedgerEligible(r, "calibration", cfg.regimes) ensures LedgerRowFits(r, cfg) {
      LedgerEligibleIsValid(r, "calibration", cfg.regimes);
    }
    if AllDigests(cfg.regimes) && forall r | r in rows :: LedgerEligible(r, "calibration", cfg.regimes) {
      EligibleRowsAreIdentified(rows, "calibration", cfg.regimes);
    }
  }

  /** The authoritative monitor accepts exactly an authoritative artifact of the same
      regimes, the split's aside, and eligible monitoring rows, no request twice. */
  lemma LedgerMonitorsExactlyWhen(codec: Codec, a: Artifact, regimes: Regimes, threshold: int, rows: seq<LedgerObservation>)
    ensures LedgerDetection(codec, a, regimes, threshold, rows).Ok? <==>
      && a.format == "govar-calibration-authoritative-v1" && IsSHA256(a.sha256) && 0 <= threshold <= 1_000_000_000 && rows != []
      && AllDigests(regimes) && a.regimes.feature == regimes.feature && a.regimes.price == regimes.price
      && a.regimes.cap == regimes.cap && a.regimes.cohort == regimes.cohort && a.regimes.producer == regimes.producer
      && (forall r | r in rows :: LedgerEligible(r, "monitoring", regimes)) && Distinct(Requests(rows))
  {
    AllDigestsAreValid(regimes);
    forall r | AllDigests(regimes) && LedgerEligible(r, "monitoring", regimes) ensures Monitored(r, regimes) {
      LedgerEligibleIsValid(r, "monitoring", regimes);
    }
    if AllDigests(regimes) && forall r | r in rows :: LedgerEligible(r, "monitoring", regimes) {
      EligibleRowsAreIdentified(rows, "monitoring", regimes);
    }
  }

  predicate KnownSplit(split: string) {
    ToLower(Trim(split)) in {"train", "development", "calibration", "monitoring", "frozen_test"}
  }

  /** The identity of a ledger row and its regimes are complete, and its split is known. */
  predicate CompleteRow(row: LedgerObservation) {
    && Trim(row.id.request) != "" && Trim(row.id.attempt) != "" && Trim(row.opportunity) != ""
    && row.tokens >= 0 && row.settledAt != 0 && KnownSplit(row.split) && AllDigests(row.regimes)
  }

  /** Canonical split names are their own canonical form. */
  lemma SplitStays(split: string)
    ensures Split(Split(split)) == Split(split)
  {
    var left, right := TrimIs(split);
    var s := Trim(split);
    assert ToLower(s) == [] || (!IsSpace(ToLower(s)[0]) && !IsSpace(ToLower(s)[|s| - 1]));
    assert Trim(ToLower(s)) == ToLower(s);
  }

  /** Rows can be hashed exactly when every identity is named, and none occurs twice. */
  lemma HashedExactlyWhen(codec: Codec, rows: seq<Observation>)
    ensures SourceDigest(codec, rows).Ok? <==>
      (forall r | r in rows :: r.id.request != "" && r.id.attempt != "") && Distinct(Ids(rows))
  {
    if forall r | r in rows :: r.id.request != "" && r.id.attempt != "" { RowsNamed(rows); }
    if Identified(rows) {
      forall i | 0 <= i < |rows| ensures Named(rows[i].id) { assert Ids(rows)[i] in Ids(rows); }
    }
  }

  /** Ledger rows exactly when each is complete, and no request occurs twice. */
  lemma LedgerHashedExactlyWhen(codec: Codec, rows: seq<LedgerObservation>)
    ensures LedgerDigest(codec, rows).Ok? <==> (forall r | r in rows :: CompleteRow(r)) && Distinct(Requests(rows))
  {
    var normalized := MapSeq(LedgerNormalized, rows);
    forall i | 0 <= i < |rows| ensures ValidLedgerRow(normalized[i]) <==> CompleteRow(rows[i]) {
      AllDigestsAreValid(rows[i].regimes);
      SplitStays(rows[i].split);
    }
    if LedgerIdentified(rows) {
      forall i | 0 <= i < |rows| ensures CompleteRow(rows[i]) { assert normalized[i] in normalized; }
    }
  }

  /** The source digest is taken over exactly the rows, with their splits in canonical
      form, in the order of their identities. */
  lemma SourceIsTheRows(codec: Codec, rows: seq<Observation>) returns (hashed: seq<Observation>)
    requires SourceDigest(codec, rows).Ok?
    ensures SourceDigest(codec, rows) == Ok(codec.rows(hashed)) && SortedBy(IdLe, Ids(hashed))
    ensures multiset(hashed) == multiset(MapSeq((r: Observation) => r.(split := Split(r.split)), rows))
  {
    hashed := SortedRows(rows);
    SortedIds(MapSeq(Normalized, rows));
    SortPermutes(RowLe, MapSeq(Normalized, rows));
    assert MapSeq((r: Observation) => r.(split := Split(r.split)), rows) == MapSeq(Normalized, rows);
  }

  lemma LedgerSourceIsTheRows(codec: Codec, rows: seq<LedgerObservation>) returns (hashed: seq<LedgerObservation>)
    requires LedgerDigest(codec, rows).Ok?
    ensures LedgerDigest(codec, rows) == Ok(codec.ledgerRows(hashed)) && SortedBy(IdLe, LedgerIds(hashed))
    ensures multiset(hashed) == multiset(MapSeq((r: LedgerObservation) => r.(split := Split(r.split)), rows))
  {
    var sorted := Sort(LedgerLe, rows);
    hashed := MapSeq(LedgerNormalized, sorted);
    SortedRequests(rows);
    assert LedgerIds(hashed) == LedgerIds(sorted);
    SortKeepsImage(LedgerNormalized, LedgerLe, rows);
    assert MapSeq((r: LedgerObservation) => r.(split := Split(r.split)), rows) == MapSeq(LedgerNormalized, rows);
  }

  /** What a drift result measures: how many of the values stay within the bound, their
      share rounded down, how far it is below the target, and whether that is too far. */
  ghost predicate Measures(d: Drift, target: int, upper: int, threshold: int, tokens: seq<int>, times: seq<int>) {
    && d.threshold == threshold && d.support == |tokens| && d.covered == |set i | 0 <= i < |tokens| && tokens[i] <= upper|
    && d.empirical * d.support <= d.covered * PPB < (d.empirical + 1) * d.support
    && d.gap == (if d.empirical >= target then 0 else target - d.empirical)
    && (d.detected <==> d.gap > threshold)
    && IsEarliest(times, d.windowStart) && IsLatest(times, d.windowEnd)
  }

  lemma {:induction false} CountIsNumber(tokens: seq<int>, upper: int)
    ensures CountLe(tokens, upper) == |set i | 0 <= i < |tokens| && tokens[i] <= upper|
  {
    var within := set i | 0 <= i < |tokens| && tokens[i] <= upper;
    if tokens == [] {
      assert within == {};
    } else {
      var front, n := tokens[..|tokens| - 1], |tokens| - 1;
      CountIsNumber(front, upper);
      assert tokens == front + [tokens[n]];
      CountSplits(front, [tokens[n]], upper);
      var before := set i | 0 <= i < |front| && front[i] <= upper;
      assert within == before + (if tokens[n] <= upper then {n} else {});
    }
  }

  lemma DriftMeasures(target: int, upper: int, threshold: int, source: string, tokens: seq<int>, times: seq<int>)
    requires |tokens| == |times| > 0
    ensures Measures(DriftOf(target, upper, threshold, source, tokens, times), target, upper, threshold, tokens, times)
  {
    var n, covered := |tokens|, CountLe(tokens, upper);
    CountIsNumber(tokens, upper);
    FloorAtLeast(covered * PPB, n, CoveragePPB(covered, n));
    FloorAtLeast(covered * PPB, n, CoveragePPB(covered, n) + 1);
  }

  /** The diagnostic monitor measures its rows against the artifact's bound and target. */
  lemma WindowMeasures(codec: Codec, a: Artifact, threshold: int, rows: seq<Observation>)
    requires Detection(codec, a, threshold, rows).Ok?
    ensures var d := Detection(codec, a, threshold, rows).value;
      Measures(d, a.target, a.stats.upper, threshold, Tokens(rows), Times(rows)) && SourceDigest(codec, rows) == Ok(d.source)
  {
    DriftMeasures(a.target, a.stats.upper, threshold, SourceDigest(codec, rows).value, Tokens(rows), Times(rows));
  }

  lemma LedgerWindowMeasures(codec: Codec, a: Artifact, regimes: Regimes, threshold: int, rows: seq<LedgerObservation>)
    requires LedgerDetection(codec, a, regimes, threshold, rows).Ok?
    ensures var d := LedgerDetection(codec, a, regimes, threshold, rows).value;
      Measures(d, a.target, a.stats.upper, threshold, LedgerTokens(rows), LedgerTimes(rows)) && LedgerDigest(codec, rows) == Ok(d.source)
  {
    DriftMeasures(a.target, a.stats.upper, threshold, LedgerDigest(codec, rows).value, LedgerTokens(rows), LedgerTimes(rows));
  }

  // ---- independence of row order

  lemma ImagesPermute<T, U>(f: T -> U, le: (T, T) -> bool, a: seq<T>, b: seq<T>)
    requires Sort(le, a) == Sort(le, b)
    ensures multiset(MapSeq(f, a)) == multiset(MapSeq(f, b))
  {
    SortKeepsImage(f, le, a); SortKeepsImage(f, le, b);
  }

  lemma RowsSortAlike(a: seq<Observation>, b: seq<Observation>)
    requires multiset(a) == multiset(b) && Distinct(Ids(a))
    ensures Sort(RowLe, a) == Sort(RowLe, b)
  {
    IdOrders();
    forall x, y | x in a && y in a && RowLe(x, y) && RowLe(y, x) ensures x == y {
      var i :| 0 <= i < |a| && a[i] == x;
      var j :| 0 <= j < |a| && a[j] == y;
      assert Ids(a)[i] == Ids(a)[j];
    }
    SortForgetsOrder(RowLe, a, b);
  }

  lemma SourceDigestForgetsOrder(codec: Codec, a: seq<Observation>, b: seq<Observation>)
    requires multiset(a) == multiset(b) && Identified(a)
    ensures SourceDigest(codec, a) == SourceDigest(codec, b)
  {
    RowsSortAlike(a, b);
    ImagesPermute((r: Observation) => r.id, RowLe, a, b);
    ImagesPermute(Normalized, RowLe, a, b);
    IdsPermute(a, b);
    SameElements(Ids(a), Ids(b));
    DistinctPermutes(Ids(a), Ids(b));
    assert Ids(MapSeq(Normalized, a)) == Ids(a);
    RowsSortAlike(MapSeq(Normalized, a), MapSeq(Normalized, b));
  }

  lemma IdsPermute(a: seq<Observation>, b: seq<Observation>)
    requires Sort(RowLe, a) == Sort(RowLe, b)
    ensures multiset(Ids(a)) == multiset(Ids(b))
  {
    var f := (r: Observation) => r.id;
    ImagesPermute(f, RowLe, a, b);
    assert Ids(a) == MapSeq(f, a) && Ids(b) == MapSeq(f, b);
  }

  lemma MeasurementsPermute(a: seq<Observation>, b: seq<Observation>)
    requires Sort(RowLe, a) == Sort(RowLe, b)
    ensures multiset(Tokens(a)) == multiset(Tokens(b)) && multiset(Times(a)) == multiset(Times(b))
  {
    var tokens, times := (r: Observation) => r.tokens, (r: Observation) => r.settledAt;
    ImagesPermute(tokens, RowLe, a, b);
    ImagesPermute(times, RowLe, a, b);
    assert Tokens(a) == MapSeq(tokens, a) && Tokens(b) == MapSeq(tokens, b);
    assert Times(a) == MapSeq(times, a) && Times(b) == MapSeq(times, b);
  }

  /** Two producers given the same rows in any order publish the same artifact. */
  lemma ArtifactForgetsRowOrder(codec: Codec, cfg: Config, a: seq<Observation>, b: seq<Observation>)
    requires multiset(a) == multiset(b) && Built(codec, cfg, a).Ok?
    ensures Built(codec, cfg, b) == Built(codec, cfg, a)
  {
    SameElements(a, b);
    SourceDigestForgetsOrder(codec, a, b);
    RowsSortAlike(a, b);
    MeasurementsPermute(a, b);
    StatisticsForgetOrder(Tokens(a), Tokens(b), cfg.target);
    WindowForgetsOrder(Times(a), Times(b));
  }

  lemma LedgerRowsSortAlike(a: seq<LedgerObservation>, b: seq<LedgerObservation>)
    requires multiset(a) == multiset(b) && Distinct(Requests(a))
    ensures Sort(LedgerLe, a) == Sort(LedgerLe, b)
  {
    IdOrders();
    forall x, y | x in a && y in a && LedgerLe(x, y) && LedgerLe(y, x) ensures x == y {
      var i :| 0 <= i < |a| && a[i] == x;
      var j :| 0 <= j < |a| && a[j] == y;
      assert Requests(a)[i] == Requests(a)[j];
    }
    SortForgetsOrder(LedgerLe, a, b);
  }

  lemma LedgerMeasurementsPermute(a: seq<LedgerObservation>, b: seq<LedgerObservation>)
    requires Sort(LedgerLe, a) == Sort(LedgerLe, b)
    ensures multiset(LedgerTokens(a)) == multiset(LedgerTokens(b))
    ensures multiset(LedgerTimes(a)) == multiset(LedgerTimes(b))
    ensures multiset(Requests(a)) == multiset(Requests(b))
    ensures multiset(MapSeq(LedgerNormalized, a)) == multiset(MapSeq(LedgerNormalized, b))
  {
    var tokens, times := (r: LedgerObservation) => r.tokens, (r: LedgerObservation) => r.settledAt;
    var request := (r: LedgerObservation) => r.id.request;
    ImagesPermute(tokens, LedgerLe, a, b);
    ImagesPermute(times, LedgerLe, a, b);
    ImagesPermute(request, LedgerLe, a, b);
    ImagesPermute(LedgerNormalized, LedgerLe, a, b);
    assert LedgerTokens(a) == MapSeq(tokens, a) && LedgerTokens(b) == MapSeq(tokens, b);
    assert LedgerTimes(a) == MapSeq(times, a) && LedgerTimes(b) == MapSeq(times, b);
    assert Requests(a) == MapSeq(request, a) && Requests(b) == MapSeq(request, b);
  }

  lemma LedgerArtifactForgetsRowOrder(codec: Codec, cfg: LedgerConfig, a: seq<LedgerObservation>, b: seq<LedgerObservation>)
    requires multiset(a) == multiset(b) && LedgerBuilt(codec, cfg, a).Ok?
    ensures LedgerBuilt(codec, cfg, b) == LedgerBuilt(codec, cfg, a)
  {
    SameElements(a, b);
    LedgerRowsSortAlike(a, b);
    LedgerMeasurementsPermute(a, b);
    SameElements(MapSeq(LedgerNormalized, a), MapSeq(LedgerNormalized, b));
    DistinctPermutes(Requests(a), Requests(b));
    StatisticsForgetOrder(LedgerTokens(a), LedgerTokens(b), cfg.target);
    WindowForgetsOrder(LedgerTimes(a), LedgerTimes(b));
  }

  // ---- the advertised coverage

  /** The held-out outcomes, among the first `n`, within the bounds computed without them. */
  function WithinCount(tokens: seq<int>, stats: seq<Statistics>, n: nat): nat
    requires n <= |tokens| == |stats|
  {
    if n == 0 then 0 else WithinCount(tokens, stats, n - 1) + (if tokens[n - 1] <= stats[n - 1].upper then 1 else 0)
  }

  /** `stats[i]` is computed from all the outcomes but the i-th. */
  ghost predicate LeaveOneOut(tokens: seq<int>, target: int, stats: seq<Statistics>)
    requires |tokens| >= 2 && ValidTarget(target)
  {
    |stats| == |tokens| && forall i: nat | i < |tokens| :: StatisticsOf(Without(tokens, i), target) == Ok(stats[i])
  }

  lemma HeldOutIsCovered(tokens: seq<int>, target: int, stats: seq<Statistics>, i: nat)
    requires |tokens| >= 2 && ValidTarget(target) && LeaveOneOut(tokens, target, stats) && i < |tokens|
    ensures var k := Rank(target, |tokens| - 1);
      && 1 <= k < |tokens| && stats[i].lower == MarginalLowerPPB(k, |tokens| - 1)
      && (tokens[i] <= stats[i].upper <==> Covered(tokens, k, i))
  {
    RankIsLeast(target, |tokens| - 1);
    assert StatisticsOf(Without(tokens, i), target) == Ok(stats[i]);
  }

  lemma {:induction false} HeldOutCounts(tokens: seq<int>, stats: seq<Statistics>, n: nat, k: int)
    requires n <= |tokens| == |stats| && 1 <= k < |tokens|
    requires forall i: nat | i < |tokens| :: tokens[i] <= stats[i].upper <==> Covered(tokens, k, i)
    ensures WithinCount(tokens, stats, n) == CoveredChoices(tokens, k, n)
  {
    if n > 0 { HeldOutCounts(tokens, stats, n - 1, k); }
  }

  /** The share of held-out outcomes within bounds is at least every published lower
      bound, which is at least the target; the count is at least the rank, and exactly
      the rank when the outcomes are distinct. */
  ghost predicate Justified(tokens: seq<int>, target: int, stats: seq<Statistics>)
    requires |tokens| == |stats|
  {
    var k, within := Rank(target, |tokens| - 1), WithinCount(tokens, stats, |tokens|);
    && within >= k && (Distinct(tokens) ==> within == k)
    && forall i: nat | i < |tokens| :: target <= stats[i].lower && stats[i].lower * |tokens| <= within * PPB
  }

  lemma LeaveOneOutIsJustified(tokens: seq<int>, target: int, stats: seq<Statistics>)
    requires |tokens| >= 2 && ValidTarget(target) && LeaveOneOut(tokens, target, stats)
    ensures Justified(tokens, target, stats)
  {
    var k := Rank(target, |tokens| - 1);
    forall i: nat | i < |tokens| ensures 1 <= k < |tokens| && (tokens[i] <= stats[i].upper <==> Covered(tokens, k, i)) {
      HeldOutIsCovered(tokens, target, stats, i);
    }
    HeldOutIsCovered(tokens, target, stats, 0);
    HeldOutCounts(tokens, stats, |tokens|, k);
    ConformalCoverage(tokens, k);
    forall i: nat | i < |tokens|
      ensures target <= stats[i].lower && stats[i].lower * |tokens| <= WithinCount(tokens, stats, |tokens|) * PPB
    {
      HeldOutIsCovered(tokens, target, stats, i);
      StatisticsSound(Without(tokens, i), target);
      FloorAtLeast(k * PPB, |tokens|, MarginalLowerPPB(k, |tokens| - 1));
    }
  }

  /** What the artifacts built without each row in turn publish. */
  ghost function LedgerHeldOut(codec: Codec, cfg: LedgerConfig, rows: seq<LedgerObservation>): (stats: seq<Statistics>)
    requires forall i: nat | i < |rows| :: LedgerBuilt(codec, cfg, Without(rows, i)).Ok?
    ensures |stats| == |rows| && forall i: nat | i < |rows| :: stats[i] == LedgerBuilt(codec, cfg, Without(rows, i)).value.stats
  {
    seq(|rows|, i requires 0 <= i < |rows| => LedgerBuilt(codec, cfg, Without(rows, i)).value.stats)
  }

  ghost function HeldOut(codec: Codec, cfg: Config, rows: seq<Observation>): (stats: seq<Statistics>)
    requires forall i: nat | i < |rows| :: Built(codec, cfg, Without(rows, i)).Ok?
    ensures |stats| == |rows| && forall i: nat | i < |rows| :: stats[i] == Built(codec, cfg, Without(rows, i)).value.stats
  {
    seq(|rows|, i requires 0 <= i < |rows| => Built(codec, cfg, Without(rows, i)).value.stats)
  }

  lemma LedgerHeldOutStatistics(codec: Codec, cfg: LedgerConfig, rows: seq<LedgerObservation>, i: nat)
    requires i < |rows| && |rows| >= 2 && LedgerBuilt(codec, cfg, Without(rows, i)).Ok?
    ensures ValidTarget(cfg.target)
    ensures StatisticsOf(Without(LedgerTokens(rows), i), cfg.target) == Ok(LedgerBuilt(codec, cfg, Without(rows, i)).value.stats)
  {
    assert LedgerTokens(Without(rows, i)) == Without(LedgerTokens(rows), i);
  }

  /** The published lower bound is justified. Take any n+1 outcomes that support a
      build whichever one is held out: the share of held-out outcomes within the
      bound built from the others is at least rank/(n+1), hence at least what every
      one of those artifacts publishes, hence at least the target. */
  lemma PublishedCoverageIsJustified(codec: Codec, cfg: LedgerConfig, rows: seq<LedgerObservation>)
    requires |rows| >= 2 && forall i: nat | i < |rows| :: LedgerBuilt(codec, cfg, Without(rows, i)).Ok?
    ensures Justified(LedgerTokens(rows), cfg.target, LedgerHeldOut(codec, cfg, rows))
  {
    var tokens, stats := LedgerTokens(rows), LedgerHeldOut(codec, cfg, rows);
    forall i: nat | i < |rows| ensures ValidTarget(cfg.target) && StatisticsOf(Without(tokens, i), cfg.target) == Ok(stats[i]) {
      LedgerHeldOutStatistics(codec, cfg, rows, i);
    }
    LedgerHeldOutStatistics(codec, cfg, rows, 0);
    LeaveOneOutIsJustified(tokens, cfg.target, stats);
  }

  lemma BuiltStatistics(codec: Codec, cfg: Config, rows: seq<Observation>)
    requires Built(codec, cfg, rows).Ok?
    ensures ValidTarget(cfg.target) && |rows| > 0 && StatisticsOf(Tokens(rows), cfg.target) == Ok(Built(codec, cfg, rows).value.stats)
  {}

  lemma TokensWithout(rows: seq<Observation>, i: nat)
    requires i < |rows|
    ensures Tokens(Without(rows, i)) == Without(Tokens(rows), i)
  {}

  lemma HeldOutStatistics(codec: Codec, cfg: Config, rows: seq<Observation>, i: nat)
    requires i < |rows| && |rows| >= 2 && Built(codec, cfg, Without(rows, i)).Ok?
    ensures ValidTarget(cfg.target)
    ensures StatisticsOf(Without(Tokens(rows), i), cfg.target) == Ok(Built(codec, cfg, Without(rows, i)).value.stats)
  {
    BuiltStatistics(codec, cfg, Without(rows, i));
    TokensWithout(rows, i);
  }

  /** The same for the diagnostic builder. */
  lemma DiagnosticCoverageIsJustified(codec: Codec, cfg: Config, rows: seq<Observation>)
    requires |rows| >= 2 && forall i: nat | i < |rows| :: Built(codec, cfg, Without(rows, i)).Ok?
    ensures Justified(Tokens(rows), cfg.target, HeldOut(codec, cfg, rows))
  {
    var tokens, stats := Tokens(rows), HeldOut(codec, cfg, rows);
    forall i: nat | i < |rows| ensures ValidTarget(cfg.target) && StatisticsOf(Without(tokens, i), cfg.target) == Ok(stats[i]) {
      HeldOutStatistics(codec, cfg, rows, i);
    }
    HeldOutStatistics(codec, cfg, rows, 0);
    LeaveOneOutIsJustified(tokens, cfg.target, stats);
  }

  // ---- drift

  /** Monitoring the calibration values themselves shows no gap at any threshold. */
  lemma CalibrationShowsNoDrift(codec: Codec, cfg: Config, rows: seq<Observation>, threshold: int, monitoring: seq<Observation>)
    requires Built(codec, cfg, rows).Ok? && Detection(codec, Built(codec, cfg, rows).value, threshold, monitoring).Ok?
    requires multiset(Tokens(monitoring)) == multiset(Tokens(rows))
    ensures var d := Detection(codec, Built(codec, cfg, rows).value, threshold, monitoring).value; d.gap == 0 && !d.detected
  {
    var a := Built(codec, cfg, rows).value;
    ArtifactIsSound(codec, cfg, rows);
    SameElements(Tokens(rows), Tokens(monitoring));
    CountPermutes(Tokens(monitoring), Tokens(rows), a.stats.upper);
  }

  lemma LedgerCalibrationShowsNoDrift(codec: Codec, cfg: LedgerConfig, rows: seq<LedgerObservation>, regimes: Regimes,
      threshold: int, monitoring: seq<LedgerObservation>)
    requires LedgerBuilt(codec, cfg, rows).Ok?
    requires LedgerDetection(codec, LedgerBuilt(codec, cfg, rows).value, regimes, threshold, monitoring).Ok?
    requires multiset(LedgerTokens(monitoring)) == multiset(LedgerTokens(rows))
    ensures var d := LedgerDetection(codec, LedgerBuilt(codec, cfg, rows).value, regimes, threshold, monitoring).value;
      d.gap == 0 && !d.detected
  {
    var a := LedgerBuilt(codec, cfg, rows).value;
    LedgerArtifactIsSound(codec, cfg, rows);
    SameElements(LedgerTokens(rows), LedgerTokens(monitoring));
    CountPermutes(LedgerTokens(monitoring), LedgerTokens(rows), a.stats.upper);
  }

  lemma DistinctParts<T>(a: seq<T>, b: seq<T>)
    ensures Distinct(a + b) <==> Distinct(a) && Distinct(b) && forall i, j | 0 <= i < |a| && 0 <= j < |b| :: a[i] != b[j]
  {
    var whole := a + b;
    assert forall i | 0 <= i < |a| :: whole[i] == a[i];
    assert forall j | 0 <= j < |b| :: whole[|a| + j] == b[j];
    if Distinct(whole) {
      forall i, j | 0 <= i < j < |a| ensures a[i] != a[j] { assert whole[i] != whole[j]; }
      forall i, j | 0 <= i < j < |b| ensures b[i] != b[j] { assert whole[|a| + i] != whole[|a| + j]; }
      forall i, j | 0 <= i < |a| && 0 <= j < |b| ensures a[i] != b[j] { assert whole[i] != whole[|a| + j]; }
    }
  }

  /** The windows have no observation in common. */
  ghost predicate SeparateWindows(first: seq<Observation>, second: seq<Observation>) {
    forall i, j | 0 <= i < |first| && 0 <= j < |second| :: Ids(first)[i] != Ids(second)[j]
  }

  lemma PooledIdentities(first: seq<Observation>, second: seq<Observation>)
    ensures Identified(first + second) <==> Identified(first) && Identified(second) && SeparateWindows(first, second)
  {
    assert Ids(first + second) == Ids(first) + Ids(second);
    DistinctParts(Ids(first), Ids(second));
    AllOfConcat(Ids(first), Ids(second), Named);
  }

  lemma AllOfConcat<T>(a: seq<T>, b: seq<T>, p: T -> bool)
    ensures (forall x | x in a + b :: p(x)) <==> (forall x | x in a :: p(x)) && (forall x | x in b :: p(x))
  {}

  lemma PooledRowsMonitorable(a: Artifact, threshold: int, first: seq<Observation>, second: seq<Observation>)
    requires first != [] && second != []
    ensures Monitorable(a, threshold, first + second) <==> Monitorable(a, threshold, first) && Monitorable(a, threshold, second)
  {
    AllOfConcat(first, second, r => ValidRow(r, a.schema, a.regimes.price, a.regimes.cap, MONITORING));
  }

  /** Two windows can be pooled exactly when each is admissible and they share no
      observation. */
  lemma PoolableExactlyWhen(codec: Codec, a: Artifact, threshold: int, first: seq<Observation>, second: seq<Observation>)
    requires first != [] && second != []
    ensures Detection(codec, a, threshold, first + second).Ok? <==>
      && Detection(codec, a, threshold, first).Ok? && Detection(codec, a, threshold, second).Ok?
      && SeparateWindows(first, second)
  {
    PooledIdentities(first, second);
    PooledRowsMonitorable(a, threshold, first, second);
  }

  /** The windows have no request in common. */
  ghost predicate SeparateRequests(first: seq<LedgerObservation>, second: seq<LedgerObservation>) {
    forall i, j | 0 <= i < |first| && 0 <= j < |second| :: Requests(first)[i] != Requests(second)[j]
  }

  lemma PooledRequests(first: seq<LedgerObservation>, second: seq<LedgerObservation>)
    ensures LedgerIdentified(first + second) <==>
      LedgerIdentified(first) && LedgerIdentified(second) && SeparateRequests(first, second)
  {
    assert Requests(first + second) == Requests(first) + Requests(second);
    DistinctParts(Requests(first), Requests(second));
    MapJoin(LedgerNormalized, first, second);
    AllOfConcat(MapSeq(LedgerNormalized, first), MapSeq(LedgerNormalized, second), ValidLedgerRow);
  }

  lemma PooledLedgerRowsMonitorable(a: Artifact, regimes: Regimes, threshold: int, first: seq<LedgerObservation>,
      second: seq<LedgerObservation>)
    requires first != [] && second != []
    ensures LedgerMonitorable(a, regimes, threshold, first + second) <==>
      LedgerMonitorable(a, regimes, threshold, first) && LedgerMonitorable(a, regimes, threshold, second)
  {
    AllOfConcat(first, second, r => Monitored(r, regimes));
  }

  /** Two authoritative windows can be pooled exactly when each is admissible and they
      share no request. */
  lemma LedgerPoolableExactlyWhen(codec: Codec, a: Artifact, regimes: Regimes, threshold: int, first: seq<LedgerObservation>,
      second: seq<LedgerObservation>)
    requires first != [] && second != []
    ensures LedgerDetection(codec, a, regimes, threshold, first + second).Ok? <==>
      && LedgerDetection(codec, a, regimes, threshold, first).Ok? && LedgerDetection(codec, a, regimes, threshold, second).Ok?
      && SeparateRequests(first, second)
  {
    PooledRequests(first, second);
    PooledLedgerRowsMonitorable(a, regimes, threshold, first, second);
  }

  lemma TokensSplit(a: seq<Observation>, b: seq<Observation>)
    ensures Tokens(a + b) == Tokens(a) + Tokens(b)
  {}

  lemma LedgerTokensSplit(a: seq<LedgerObservation>, b: seq<LedgerObservation>)
    ensures LedgerTokens(a + b) == LedgerTokens(a) + LedgerTokens(b)
  {}

  lemma PooledDrift(target: int, upper: int, threshold: int, tokens1: seq<int>, tokens2: seq<int>)
    requires |tokens1| > 0 && |tokens2| > 0 && threshold >= 0
    requires GapPPB(target, CountLe(tokens1, upper), |tokens1|) <= threshold
    requires GapPPB(target, CountLe(tokens2, upper), |tokens2|) <= threshold
    ensures GapPPB(target, CountLe(tokens1 + tokens2, upper), |tokens1 + tokens2|) <= threshold
  {
    CountSplits(tokens1, tokens2, upper);
    PooledWindowsStayUndetected(target, threshold, CountLe(tokens1, upper), |tokens1|, CountLe(tokens2, upper), |tokens2|);
  }

  lemma DetectionMeasures(codec: Codec, a: Artifact, threshold: int, rows: seq<Observation>)
    requires Detection(codec, a, threshold, rows).Ok?
    ensures |rows| > 0 && threshold >= 0
    ensures Detection(codec, a, threshold, rows).value.detected <==>
      GapPPB(a.target, CountLe(Tokens(rows), a.stats.upper), |rows|) > threshold
  {}

  /** Pooled windows stay undetected if neither was detected. */
  lemma PooledMonitoringStaysUndetected(codec: Codec, a: Artifact, threshold: int, first: seq<Observation>, second: seq<Observation>)
    requires Detection(codec, a, threshold, first).Ok? && Detection(codec, a, threshold, second).Ok?
    requires Detection(codec, a, threshold, first + second).Ok?
    requires !Detection(codec, a, threshold, first).value.detected && !Detection(codec, a, threshold, second).value.detected
    ensures !Detection(codec, a, threshold, first + second).value.detected
  {
    DetectionMeasures(codec, a, threshold, first);
    DetectionMeasures(codec, a, threshold, second);
    DetectionMeasures(codec, a, threshold, first + second);
    TokensSplit(first, second);
    PooledDrift(a.target, a.stats.upper, threshold, Tokens(first), Tokens(second));
  }

  lemma LedgerDetectionMeasures(codec: Codec, a: Artifact, regimes: Regimes, threshold: int, rows: seq<LedgerObservation>)
    requires LedgerDetection(codec, a, regimes, threshold, rows).Ok?
    ensures |rows| > 0 && threshold >= 0
    ensures LedgerDetection(codec, a, regimes, threshold, rows).value.detected <==>
      GapPPB(a.target, CountLe(LedgerTokens(rows), a.stats.upper), |rows|) > threshold
  {}

  /** The same for the authoritative windows. */
  lemma PooledLedgerMonitoringStaysUndetected(codec: Codec, a: Artifact, regimes: Regimes, threshold: int,
                                              first: seq<LedgerObservation>, second: seq<LedgerObservation>)
    requires LedgerDetection(codec, a, regimes, threshold, first).Ok?
    requires LedgerDetection(codec, a, regimes, threshold, second).Ok?
    requires LedgerDetection(codec, a, regimes, threshold, first + second).Ok?
    requires !LedgerDetection(codec, a, regimes, threshold, first).value.detected
    requires !LedgerDetection(codec, a, regimes, threshold, second).value.detected
    ensures !LedgerDetection(codec, a, regimes, threshold, first + second).value.detected
  {
    LedgerDetectionMeasures(codec, a, regimes, threshold, first);
    LedgerDetectionMeasures(codec, a, regimes, threshold, second);
    LedgerDetectionMeasures(codec, a, regimes, threshold, first + second);
    LedgerTokensSplit(first, second);
    PooledDrift(a.target, a.stats.upper, threshold, LedgerTokens(first), LedgerTokens(second));
  }

  /** A larger bound never widens the gap. */
  lemma RaisingTheBoundNarrowsTheGap(codec: Codec, a: Artifact, threshold: int, rows: seq<Observation>, upper: int)
    requires Detection(codec, a, threshold, rows).Ok? && a.stats.upper <= upper
    ensures var raised := Detection(codec, a.(stats := a.stats.(upper := upper)), threshold, rows);
      && raised.Ok? && raised.value.gap <= Detection(codec, a, threshold, rows).value.gap
      && (raised.value.detected ==> Detection(codec, a, threshold, rows).value.detected)
  {
    CountMonotone(Tokens(rows), a.stats.upper, upper);
    MoreCoveredSmallerGap(a.target, CountLe(Tokens(rows), a.stats.upper), CountLe(Tokens(rows), upper), |rows|);
  }

  lemma LedgerRaisingTheBoundNarrowsTheGap(codec: Codec, a: Artifact, regimes: Regimes, threshold: int,
      rows: seq<LedgerObservation>, upper: int)
    requires LedgerDetection(codec, a, regimes, threshold, rows).Ok? && a.stats.upper <= upper
    ensures var raised := LedgerDetection(codec, a.(stats := a.stats.(upper := upper)), regimes, threshold, rows);
      && raised.Ok? && raised.value.gap <= LedgerDetection(codec, a, regimes, threshold, rows).value.gap
      && (raised.value.detected ==> LedgerDetection(codec, a, regimes, threshold, rows).value.detected)
  {
    CountMonotone(LedgerTokens(rows), a.stats.upper, upper);
    MoreCoveredSmallerGap(a.target, CountLe(LedgerTokens(rows), a.stats.upper), CountLe(LedgerTokens(rows), upper), |rows|);
  }
}
