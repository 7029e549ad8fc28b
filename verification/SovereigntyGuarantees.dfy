/** What the sovereignty report says about the flows it was computed from. */
module SovereigntyGuarantees {
  import opened FindingTally
  import opened Integers
  import opened Orders
  import opened Sequences
  import opened Sovereignty

  // ---- keys

  lemma KeyFacts()
    ensures IgnoresRequests(Key) && TellsSeverity(Key)
  {
    forall f: Finding, g: Finding | Key(f) == Key(g) ensures f.severity == g.severity {
      assert Key(f)[0] == SeverityText(f.severity)[0] && Key(g)[0] == SeverityText(g.severity)[0];
    }
  }

  predicate NoSeparator(s: string) { SEPARATOR !in s }

  lemma FieldEndsAtSeparator(a: string, x: string, b: string, y: string)
    requires NoSeparator(a) && NoSeparator(b)
    requires a + [SEPARATOR] + x == b + [SEPARATOR] + y
    ensures a == b && x == y
  {
    var l, r := a + [SEPARATOR] + x, b + [SEPARATOR] + y;
    assert l[|a|] == SEPARATOR && forall i | 0 <= i < |a| :: l[i] == a[i] != SEPARATOR;
    assert r[|b|] == SEPARATOR && forall i | 0 <= i < |b| :: r[i] == b[i] != SEPARATOR;
    assert |a| == |b|;
    assert a == l[..|a|] && b == r[..|b|] && x == l[|a| + 1..] && y == r[|b| + 1..];
  }

  predicate PlainNames(f: Finding) {
    NoSeparator(f.namespace) && NoSeparator(f.application) && NoSeparator(f.model) && NoSeparator(f.provider)
  }

  lemma SeverityHasNoSeparator(s: Severity)
    ensures NoSeparator(SeverityText(s))
  {}

  /** Only findings that agree on everything but zone and count are merged, as long
      as names do not contain the separator. */
  lemma OnlyIdenticalFindingsMerge(f: Finding, g: Finding)
    requires PlainNames(f) && PlainNames(g) && Key(f) == Key(g)
    ensures g == f.(zone := g.zone, requests := g.requests)
  {
    SeverityHasNoSeparator(f.severity); SeverityHasNoSeparator(g.severity);
    var f4, g4 := f.provider + [SEPARATOR] + f.message, g.provider + [SEPARATOR] + g.message;
    var f3, g3 := f.model + [SEPARATOR] + f4, g.model + [SEPARATOR] + g4;
    var f2, g2 := f.application + [SEPARATOR] + f3, g.application + [SEPARATOR] + g3;
    var f1, g1 := f.namespace + [SEPARATOR] + f2, g.namespace + [SEPARATOR] + g2;
    KeyFacts();
    FieldEndsAtSeparator(SeverityText(f.severity), f1, SeverityText(g.severity), g1);
    FieldEndsAtSeparator(f.namespace, f2, g.namespace, g2);
    FieldEndsAtSeparator(f.application, f3, g.application, g3);
    FieldEndsAtSeparator(f.model, f4, g.model, g4);
    FieldEndsAtSeparator(f.provider, f.message, g.provider, g.message);
  }

  // ---- order of the report

  lemma {:induction false} FieldsTotal(a: seq<string>, b: seq<string>)
    ensures FieldsLe(a, b) || FieldsLe(b, a)
  {
    if a != [] && b != [] {
      LexTotal(a[0], b[0]);
      FieldsTotal(a[1..], b[1..]);
    }
  }

  lemma {:induction false} FieldsTransitive(a: seq<string>, b: seq<string>, c: seq<string>)
    requires FieldsLe(a, b) && FieldsLe(b, c)
    ensures FieldsLe(a, c)
  {
    if a != [] {
      if a[0] == b[0] == c[0] {
        FieldsTransitive(a[1..], b[1..], c[1..]);
      } else if a[0] != b[0] && b[0] != c[0] {
        LexTransitive(a[0], b[0], c[0]);
        if a[0] == c[0] { LexTotal(a[0], b[0]); }
      }
    }
  }

  lemma FindingLeOrders()
    ensures TotalPreorder(FindingLe)
  {
    forall a, b ensures FindingLe(a, b) || FindingLe(b, a) { FieldsTotal(Place(a), Place(b)); }
    forall a, b, c | FindingLe(a, b) && FindingLe(b, c) ensures FindingLe(a, c) {
      if a.severity == b.severity == c.severity { FieldsTransitive(Place(a), Place(b), Place(c)); }
    }
  }

  /** The report lists each violation once, sorted, and in order of first occurrence
      where the order ties. */
  lemma ReportIsSortedSummary(rules: Rules, texts: Texts, flows: seq<Flow>, x: Finding)
    ensures var merged := Summary(Key, Violations(rules, texts, flows)) + Reminders(rules, texts);
      var report := Report(rules, texts, flows);
      && multiset(report) == multiset(merged) && SortedBy(FindingLe, report)
      && Ties(FindingLe, x, report) == Ties(FindingLe, x, merged)
  {
    var merged := Summary(Key, Violations(rules, texts, flows)) + Reminders(rules, texts);
    FindingLeOrders();
    SortPermutes(FindingLe, merged); SortSorts(FindingLe, merged); SortIsStable(FindingLe, x, merged);
  }

  // ---- who is reported

  /** A flow draws a residency finding exactly when its zone is not allowed, and a
      critical one exactly when the zone is forbidden. */
  lemma ResidencyFindingExactlyWhen(rules: Rules, texts: Texts, f: Flow)
    ensures |ResidencyFindings(rules, texts, f)| == if IsZoneAllowed(rules, f.zone) then 0 else 1
    ensures (exists v :: v in FlowFindings(rules, texts, f) && v.severity.Critical?) <==> rules.zoneOf(f.zone) in rules.forbidden
    ensures FlowFindings(rules, texts, f) == [] <==> IsZoneAllowed(rules, f.zone) && !Exposed(rules, f)
  {
    if rules.zoneOf(f.zone) in rules.forbidden {
      assert FlowFindings(rules, texts, f)[0].severity.Critical?;
    }
  }

  lemma {:induction false} ViolationsFrom(rules: Rules, texts: Texts, flows: seq<Flow>, v: Finding)
    ensures v in Violations(rules, texts, flows) <==> exists f :: f in flows && v in FlowFindings(rules, texts, f)
    decreases |flows|
  {
    if flows != [] {
      ViolationsFrom(rules, texts, Front(flows), v);
      FrontLast(flows);
    }
  }

  lemma FlowFindingsAreSerious(rules: Rules, texts: Texts, f: Flow, v: Finding)
    requires v in FlowFindings(rules, texts, f)
    ensures !v.severity.Info? && v.namespace == f.namespace && v.application == f.application && v.model == f.model
    ensures v.provider == f.provider && v.zone == rules.zoneOf(f.zone) && v.requests == f.requests
  {}

  lemma InReport(rules: Rules, texts: Texts, flows: seq<Flow>, r: Finding)
    ensures r in Report(rules, texts, flows)
      <==> r in Summary(Key, Violations(rules, texts, flows)) || r in Reminders(rules, texts)
  {
    SortPermutes(FindingLe, Summary(Key, Violations(rules, texts, flows)) + Reminders(rules, texts));
  }

  /** Every violation is reported under its key, with all the requests of that key. */
  lemma ViolationIsReported(rules: Rules, texts: Texts, flows: seq<Flow>, v: Finding) returns (r: Finding)
    requires v in Violations(rules, texts, flows)
    ensures r in Report(rules, texts, flows) && Key(r) == Key(v) && r.severity == v.severity
    ensures r.requests == Wrap(Total(Key, Violations(rules, texts, flows), Key(v)))
  {
    KeyFacts();
    r := StandsFor(Key, Violations(rules, texts, flows), v);
    InReport(rules, texts, flows, r);
  }

  /** Whatever is reported, reminders aside, stands for a violation by some flow. */
  lemma ReportedIsViolation(rules: Rules, texts: Texts, flows: seq<Flow>, r: Finding) returns (v: Finding)
    requires r in Report(rules, texts, flows) && r !in Reminders(rules, texts)
    ensures v in Violations(rules, texts, flows) && Key(r) == Key(v)
    ensures r == v.(requests := Wrap(Total(Key, Violations(rules, texts, flows), Key(v))))
  {
    KeyFacts();
    InReport(rules, texts, flows, r);
    v := StoodFor(Key, Violations(rules, texts, flows), r);
  }

  /** The report is clean exactly when every flow complies. */
  lemma CleanExactlyWhenCompliant(rules: Rules, texts: Texts, flows: seq<Flow>)
    ensures (forall r :: r in Report(rules, texts, flows) ==> r.severity.Info?)
      <==> (forall f :: f in flows ==> IsZoneAllowed(rules, f.zone) && !Exposed(rules, f))
  {
    forall f | f in flows && FlowFindings(rules, texts, f) != []
      ensures exists r :: r in Report(rules, texts, flows) && !r.severity.Info?
    {
      var v := FlowFindings(rules, texts, f)[0];
      ViolationsFrom(rules, texts, flows, v);
      var r := ViolationIsReported(rules, texts, flows, v);
      FlowFindingsAreSerious(rules, texts, f, v);
    }
    forall f ensures FlowFindings(rules, texts, f) == [] <==> IsZoneAllowed(rules, f.zone) && !Exposed(rules, f) {
      ResidencyFindingExactlyWhen(rules, texts, f);
    }
    forall r | r in Report(rules, texts, flows) && !r.severity.Info?
      ensures exists f :: f in flows && FlowFindings(rules, texts, f) != []
    {
      var v := ReportedIsViolation(rules, texts, flows, r);
      ViolationsFrom(rules, texts, flows, v);
    }
  }

  // ---- conservation

  /** The requests a flow contributes at a severity. */
  function FlowAmount(rules: Rules, severity: Severity): Flow -> int {
    (f: Flow) =>
      match severity
      case Critical => if rules.zoneOf(f.zone) in rules.forbidden then f.requests else 0
      case Warning =>
        (if rules.zoneOf(f.zone) !in rules.forbidden && !IsZoneAllowed(rules, f.zone) then f.requests else 0)
        + (if Exposed(rules, f) then f.requests else 0)
      case Info => 0
  }

  /** The requests of the flows in forbidden zones (critical), or of those outside the
      allowed zones plus those exposing sensitive data (warning). */
  function FlowVolume(rules: Rules, severity: Severity, flows: seq<Flow>): int {
    SumOf(MapSeq(FlowAmount(rules, severity), flows))
  }

  lemma FlowFindingsVolume(rules: Rules, texts: Texts, f: Flow, severity: Severity)
    ensures Volume(severity, FlowFindings(rules, texts, f)) == FlowAmount(rules, severity)(f)
  {
    var a, b := ResidencyFindings(rules, texts, f), SensitiveFindings(rules, texts, f);
    VolumeSplits(severity, a, b);
    if a != [] { VolumeOfOne(severity, a[0]); assert a == [a[0]]; }
    if b != [] { VolumeOfOne(severity, b[0]); assert b == [b[0]]; }
  }

  lemma {:induction false} ViolationsVolume(rules: Rules, texts: Texts, flows: seq<Flow>, severity: Severity)
    ensures Volume(severity, Violations(rules, texts, flows)) == FlowVolume(rules, severity, flows)
    decreases |flows|
  {
    if flows != [] {
      ViolationsVolume(rules, texts, Front(flows), severity);
      VolumeSplits(severity, Violations(rules, texts, Front(flows)), FlowFindings(rules, texts, Last(flows)));
      FlowFindingsVolume(rules, texts, Last(flows), severity);
      FrontLast(flows);
      SumImageOneMore(FlowAmount(rules, severity), Front(flows), Last(flows));
    }
  }

  /** Deduplication conserves volume: at each severity the report's requests are those
      of the flows that violate, modulo 2^64, and exactly when no merged total leaves
      int64. */
  lemma ReportConservesVolume(rules: Rules, texts: Texts, flows: seq<Flow>, severity: Severity)
    ensures Congruent(Volume(severity, Report(rules, texts, flows)), FlowVolume(rules, severity, flows))
    ensures TotalsFit(Key, Violations(rules, texts, flows)) ==>
      Volume(severity, Report(rules, texts, flows)) == FlowVolume(rules, severity, flows)
  {
    KeyFacts();
    SummaryConserves(Key, Violations(rules, texts, flows), severity);
    ViolationsVolume(rules, texts, flows, severity);
    ReportVolume(rules, texts, flows, severity);
  }

  lemma ReportVolume(rules: Rules, texts: Texts, flows: seq<Flow>, severity: Severity)
    ensures Volume(severity, Report(rules, texts, flows)) == Volume(severity, Summary(Key, Violations(rules, texts, flows)))
  {
    var vs, tail := Violations(rules, texts, flows), Reminders(rules, texts);
    VolumeSplits(severity, Summary(Key, vs), tail);
    if tail != [] { VolumeOfOne(severity, tail[0]); assert tail == [tail[0]]; }
    VolumeSorted(severity, FindingLe, Summary(Key, vs) + tail);
  }

  /** With no negative count the report is exact at every severity exactly when no
      merged total leaves int64. */
  lemma ReportExactlyWhenFits(rules: Rules, texts: Texts, flows: seq<Flow>)
    requires forall f | f in flows :: f.requests >= 0
    ensures (forall severity :: Volume(severity, Report(rules, texts, flows)) == FlowVolume(rules, severity, flows))
      <==> TotalsFit(Key, Violations(rules, texts, flows))
  {
    var vs := Violations(rules, texts, flows);
    KeyFacts();
    forall v | v in vs ensures v.requests >= 0 {
      ViolationsFrom(rules, texts, flows, v);
      var f :| f in flows && v in FlowFindings(rules, texts, f);
      FlowFindingsAreSerious(rules, texts, f, v);
    }
    SummaryExactlyWhen(Key, vs);
    forall severity
      ensures Volume(severity, Report(rules, texts, flows)) == Volume(severity, Summary(Key, vs))
      ensures Volume(severity, vs) == FlowVolume(rules, severity, flows)
    {
      ReportVolume(rules, texts, flows, severity);
      ViolationsVolume(rules, texts, flows, severity);
    }
  }

  /** The same flow seen twice at the largest count: the report loses volume. */
  lemma OverflowLosesVolume(texts: Texts, zone: string)
    ensures var rules := RulesOf(Policy([], [zone], true, false));
      var f := Flow("ns", "app", "model", "provider", zone, false, true, true, MAX_INT64);
      Volume(Critical, Report(rules, texts, [f, f])) != FlowVolume(rules, Critical, [f, f]) == 2 * MAX_INT64
  {
    var f := Flow("ns", "app", "model", "provider", zone, false, true, true, MAX_INT64);
    ForbiddenTwice(RulesOf(Policy([], [zone], true, false)), texts, f);
  }

  lemma ForbiddenTwice(rules: Rules, texts: Texts, f: Flow)
    requires rules.zoneOf(f.zone) in rules.forbidden && rules.externalAllowed && f.requests == MAX_INT64
    ensures Volume(Critical, Report(rules, texts, [f, f])) != FlowVolume(rules, Critical, [f, f]) == 2 * MAX_INT64
  {
    var v := FlowFindings(rules, texts, f)[0];
    assert FlowFindings(rules, texts, f) == [v];
    ViolationsTwice(rules, texts, f, v);
    FlowVolumeTwice(rules, f);
    TwiceTheSame(v);
    ReportVolume(rules, texts, [f, f], Critical);
  }

  lemma ViolationsTwice(rules: Rules, texts: Texts, f: Flow, v: Finding)
    requires FlowFindings(rules, texts, f) == [v]
    ensures Violations(rules, texts, [f, f]) == [v, v]
  {
    assert Front([f]) == [] && Front([f, f]) == [f];
    assert Violations(rules, texts, []) == [] && Violations(rules, texts, [f]) == [] + [v];
  }

  lemma FlowVolumeTwice(rules: Rules, f: Flow)
    requires rules.zoneOf(f.zone) in rules.forbidden
    ensures FlowVolume(rules, Critical, [f, f]) == 2 * f.requests
  {
    var amount := FlowAmount(rules, Critical);
    assert MapSeq(amount, []) == [] && [] + [f] == [f] && [f] + [f] == [f, f];
    SumImageOneMore(amount, [], f); SumImageOneMore(amount, [f], f);
  }

  lemma TwiceTheSame(v: Finding)
    requires v.severity.Critical? && v.requests == MAX_INT64
    ensures Volume(Critical, Summary(Key, [v, v])) < 2 * MAX_INT64
  {
    var k := Key(v);
    assert [] + [v] == [v] && [v] + [v] == [v, v];
    OneMoreKey(Key, [], v); OneMoreKey(Key, [v], v);
    assert FirstKeys(Key, [v, v]) == [k];
    var m := Merged(Key, [v, v], k);
    assert Summary(Key, [v, v]) == [m];
    VolumeOfOne(Critical, m);
  }

  // ---- order of arrival

  function KeyAmount(rules: Rules, texts: Texts, k: string): Flow -> int {
    (f: Flow) => Total(Key, FlowFindings(rules, texts, f), k)
  }

  lemma TotalSplits(a: seq<Finding>, b: seq<Finding>, k: string)
    ensures Total(Key, a + b, k) == Total(Key, a, k) + Total(Key, b, k)
  {
    var amount := AmountWith(Key, k);
    TotalIsSum(Key, a, k); TotalIsSum(Key, b, k); TotalIsSum(Key, a + b, k);
    MapJoin(amount, a, b);
    SumSplits(MapSeq(amount, a), MapSeq(amount, b));
  }

  lemma {:induction false} TotalByFlow(rules: Rules, texts: Texts, flows: seq<Flow>, k: string)
    ensures Total(Key, Violations(rules, texts, flows), k) == SumOf(MapSeq(KeyAmount(rules, texts, k), flows))
    decreases |flows|
  {
    if flows != [] {
      TotalByFlow(rules, texts, Front(flows), k);
      TotalSplits(Violations(rules, texts, Front(flows)), FlowFindings(rules, texts, Last(flows)), k);
      FrontLast(flows);
      SumImageOneMore(KeyAmount(rules, texts, k), Front(flows), Last(flows));
    }
  }

  /** The violations reported and their request counts do not depend on the order in
      which the flows were observed. */
  lemma ReportForgetsFlowOrder(rules: Rules, texts: Texts, a: seq<Flow>, b: seq<Flow>, r: Finding)
    requires multiset(a) == multiset(b) && r in Report(rules, texts, a)
    ensures exists s :: s in Report(rules, texts, b) && Key(s) == Key(r) && s.requests == r.requests
  {
    if r in Reminders(rules, texts) {
      InReport(rules, texts, b, r);
    } else {
      var v := ReportedIsViolation(rules, texts, a, r);
      ViolationsFrom(rules, texts, a, v);
      SameElements(a, b);
      ViolationsFrom(rules, texts, b, v);
      var s := ViolationIsReported(rules, texts, b, v);
      TotalForgetsFlowOrder(rules, texts, a, b, Key(v));
    }
  }

  lemma TotalForgetsFlowOrder(rules: Rules, texts: Texts, a: seq<Flow>, b: seq<Flow>, k: string)
    requires multiset(a) == multiset(b)
    ensures Total(Key, Violations(rules, texts, a), k) == Total(Key, Violations(rules, texts, b), k)
  {
    var amount := KeyAmount(rules, texts, k);
    TotalByFlow(rules, texts, a, k); TotalByFlow(rules, texts, b, k);
    ImagePermutes(amount, a, b);
    SumPermutes(MapSeq(amount, a), MapSeq(amount, b));
  }

  // ---- counts that fit

  function Requests(f: Flow): int { f.requests }

  function TwiceRequests(f: Flow): int { 2 * f.requests }

  lemma {:induction false} SumTwice(flows: seq<Flow>)
    ensures SumOf(MapSeq(TwiceRequests, flows)) == 2 * SumOf(MapSeq(Requests, flows))
    decreases |flows|
  {
    if flows != [] {
      SumTwice(Front(flows));
      FrontLast(flows);
      SumImageOneMore(Requests, Front(flows), Last(flows)); SumImageOneMore(TwiceRequests, Front(flows), Last(flows));
    }
  }

  lemma KeyAmountBounded(rules: Rules, texts: Texts, k: string, f: Flow)
    requires f.requests >= 0
    ensures 0 <= KeyAmount(rules, texts, k)(f) <= TwiceRequests(f)
  {
    var a, b := ResidencyFindings(rules, texts, f), SensitiveFindings(rules, texts, f);
    TotalSplits(a, b, k);
    AtMostOne(a, f.requests, k); AtMostOne(b, f.requests, k);
  }

  lemma AtMostOne(fs: seq<Finding>, n: int, k: string)
    requires n >= 0 && |fs| <= 1 && forall f | f in fs :: f.requests == n
    ensures 0 <= Total(Key, fs, k) <= n
  {
    if fs != [] {
      assert Front(fs) == [] && Total(Key, Front(fs), k) == 0;
      assert Last(fs) in fs;
    }
  }

  /** Half the range of int64 is room enough for the report to be exact. */
  lemma ReportIsExact(rules: Rules, texts: Texts, flows: seq<Flow>, severity: Severity)
    requires (forall f | f in flows :: f.requests >= 0) && 2 * SumOf(MapSeq(Requests, flows)) <= MAX_INT64
    ensures Volume(severity, Report(rules, texts, flows)) == FlowVolume(rules, severity, flows)
  {
    forall k ensures 0 <= Total(Key, Violations(rules, texts, flows), k) <= MAX_INT64 {
      TotalByFlow(rules, texts, flows, k);
      forall f | f in flows ensures 0 <= KeyAmount(rules, texts, k)(f) <= TwiceRequests(f) {
        KeyAmountBounded(rules, texts, k, f);
      }
      SumImageBounded(KeyAmount(rules, texts, k), TwiceRequests, flows);
      SumTwice(flows);
    }
    ReportConservesVolume(rules, texts, flows, severity);
  }
}
