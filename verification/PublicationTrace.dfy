/** Where a valid claim comes from, and exactly when it still fits the specification it
    stands over. */
module PublicationTrace {
  import opened Wrappers
  import opened Sequences
  import opened Publication
  import opened PublicationSafety
  import opened Text
  import Calibration

  /** Publish, asked `r` over `p` at `now`, decided on this evidence. */
  predicate PlannedAs(producer: Producer, r: Request, p: Policy, now: int, ev: Evidence) {
    var plan := Planned(producer, r, p, now);
    plan.Ok? && plan.value.evidence == ev
  }

  ghost predicate Computed(producer: Producer, p: Policy, ev: Evidence) {
    exists r, now :: PlannedAs(producer, r, p, now, ev)
  }

  /** Only an edit changes a specification, and it starts a new generation. */
  ghost predicate Generational(versions: seq<Policy>) {
    forall i, j | 0 <= i < j < |versions| ::
      versions[i].generation <= versions[j].generation
      && (versions[i].generation == versions[j].generation ==> versions[i].spec == versions[j].spec)
  }

  ghost predicate TaskTraced(producer: Producer, t: Task) {
    t.Publishing? ==> Computed(producer, t.read, t.plan.evidence)
  }

  ghost predicate WriteTraced(producer: Producer, versions: seq<Policy>, w: Write) {
    w.published ==> w.replaced in versions && w.evidence.Some? && Computed(producer, w.replaced, w.evidence.value)
  }

  ghost predicate Traced(producer: Producer, s: System) {
    && Generational(s.versions)
    && (forall id | id in s.tasks :: TaskTraced(producer, s.tasks[id]))
    && (forall i | 0 <= i < |s.writes| :: WriteTraced(producer, s.versions, s.writes[i]))
  }

  // ---- every run is traced

  lemma GenerationsGrow(versions: seq<Policy>, p: Policy)
    requires versions != [] && Generational(versions) && p.generation >= Last(versions).generation
    requires p.generation == Last(versions).generation ==> p.spec == Last(versions).spec
    ensures Generational(versions + [p])
  {
    forall i | 0 <= i < |versions|
      ensures versions[i].generation <= p.generation && (versions[i].generation == p.generation ==> versions[i].spec == p.spec)
    {
      if i < |versions| - 1 { assert versions[i].generation <= versions[|versions| - 1].generation; }
    }
  }

  lemma HistoryStaysTraced(producer: Producer, s: System, t: System)
    requires Traced(producer, s) && s.versions <= t.versions
    ensures forall i | 0 <= i < |s.writes| :: WriteTraced(producer, t.versions, s.writes[i])
  {
    forall i | 0 <= i < |s.writes| ensures WriteTraced(producer, t.versions, s.writes[i]) {
      assert WriteTraced(producer, s.versions, s.writes[i]);
      assert forall v | v in s.versions :: v in t.versions;
    }
  }

  lemma VersionTraced(producer: Producer, s: System, t: System, p: Policy)
    requires Traced(producer, s) && s.versions != [] && t.versions == s.versions + [p] && p.generation >= Last(s.versions).generation
    requires p.generation == Last(s.versions).generation ==> p.spec == Last(s.versions).spec
    requires forall id | id in t.tasks :: id in s.tasks && t.tasks[id] == s.tasks[id]
    requires s.writes <= t.writes && forall i | |s.writes| <= i < |t.writes| :: WriteTraced(producer, t.versions, t.writes[i])
    ensures Traced(producer, t)
  {
    GenerationsGrow(s.versions, p);
    HistoryStaysTraced(producer, s, t);
    forall i | 0 <= i < |t.writes| ensures WriteTraced(producer, t.versions, t.writes[i]) {
      if i < |s.writes| { assert t.writes[i] == s.writes[i]; }
    }
  }

  lemma WriteKeepsTrace(producer: Producer, s: System, t: System, task: Task, ev: Option<Evidence>)
    requires Traced(producer, s) && s.versions != [] && TaskTraced(producer, task) && task.read == Last(s.versions)
    requires task.Publishing? ==> ev == Some(task.plan.evidence)
    requires t.versions == s.versions + [Rewritten(task.read, task.read, ev)]
    requires t.writes == s.writes + [Write(task.Publishing?, task.read, ev)]
    requires forall id | id in t.tasks :: id in s.tasks && t.tasks[id] == s.tasks[id]
    ensures Traced(producer, t)
  {
    assert t.versions[|s.versions| - 1] == task.read;
    assert WriteTraced(producer, t.versions, t.writes[|s.writes|]);
    VersionTraced(producer, s, t, Rewritten(task.read, task.read, ev));
  }

  /** What a write that goes through does to the system. */
  lemma WriteShape(producer: Producer, s: System, id: nat, task: Task) returns (ev: Option<Evidence>)
    requires s.versions != [] && id in s.tasks && s.tasks[id] == task && Ready(task) && task.read == Last(s.versions)
    ensures task.Publishing? ==> ev == Some(task.plan.evidence)
    ensures Next(producer, s, WriteStatus(id)) ==
      System(s.versions + [Rewritten(task.read, task.read, ev)], s.ledger, s.tasks - {id},
             s.writes + [Write(task.Publishing?, task.read, ev)])
  {
    ev := TaskEvidence(task);
  }

  lemma StatusWriteTraced(producer: Producer, s: System, id: nat, task: Task)
    requires Traced(producer, s) && s.versions != [] && id in s.tasks && s.tasks[id] == task && Ready(task)
    requires task.read == Last(s.versions)
    ensures Traced(producer, Next(producer, s, WriteStatus(id)))
  {
    var ev := WriteShape(producer, s, id, task);
    var t := System(s.versions + [Rewritten(task.read, task.read, ev)], s.ledger, s.tasks - {id},
                    s.writes + [Write(task.Publishing?, task.read, ev)]);
    WriteKeepsTrace(producer, s, t, task, ev);
  }

  lemma TaskStartTraced(producer: Producer, s: System, id: nat, task: Task)
    requires Traced(producer, s) && TaskTraced(producer, task)
    ensures Traced(producer, s.(tasks := s.tasks[id := task]))
  {}

  lemma PublishStartTraced(producer: Producer, s: System, id: nat, r: Request, p: Policy, now: int)
    requires Traced(producer, s) && Planned(producer, r, p, now).Ok?
    ensures Traced(producer, s.(tasks := s.tasks[id := Publishing(p, Planned(producer, r, p, now).value, false)]))
  {
    var task := Publishing(p, Planned(producer, r, p, now).value, false);
    assert PlannedAs(producer, r, p, now, task.plan.evidence);
    TaskStartTraced(producer, s, id, task);
  }

  lemma StoreTraced(producer: Producer, s: System, id: nat)
    requires Traced(producer, s) && s.versions != [] && id in s.tasks && s.tasks[id].Publishing?
    ensures Traced(producer, Next(producer, s, StoreEntry(id)))
  {
    var task := s.tasks[id];
    assert TaskTraced(producer, task);
    TaskStartTraced(producer, s, id, task.(stored := true));
  }

  lemma EditTraced(producer: Producer, s: System, spec: Option<Spec>)
    requires Traced(producer, s) && s.versions != []
    ensures Traced(producer, Next(producer, s, EditSpec(spec)))
  {
    var current := Last(s.versions);
    VersionTraced(producer, s, Next(producer, s, EditSpec(spec)),
                  current.(spec := spec, generation := current.generation + 1, version := current.version + 1));
  }

  lemma StepKeepsTrace(producer: Producer, s: System, step: Step)
    requires Invariant(producer, s) && Traced(producer, s)
    ensures Traced(producer, Next(producer, s, step))
  {
    match step {
      case StartPublish(id, request, seen, now) =>
        if id !in s.tasks && seen < |s.versions| && Planned(producer, request, s.versions[seen], now).Ok? {
          PublishStartTraced(producer, s, id, request, s.versions[seen], now);
        }
      case StoreEntry(id) =>
        if id in s.tasks && s.tasks[id].Publishing? { StoreTraced(producer, s, id); }
      case StartRouting(id, seen, mode, now) =>
        if id !in s.tasks && seen < |s.versions| { TaskStartTraced(producer, s, id, Routing(s.versions[seen], mode, now)); }
      case WriteStatus(id) =>
        if id in s.tasks && Ready(s.tasks[id]) && s.tasks[id].read.version == Last(s.versions).version {
          WritesReplaceWhatTheyRead(producer, s, id);
          StatusWriteTraced(producer, s, id, s.tasks[id]);
        }
      case Abandon(id) =>
      case EditSpec(spec) => EditTraced(producer, s, spec);
    }
  }

  lemma {:induction false} RunTraced(producer: Producer, p: Policy, steps: seq<Step>)
    ensures Traced(producer, Run(producer, Begin(p), steps))
  {
    if steps != [] {
      RunTraced(producer, p, Front(steps));
      RunKeepsInvariant(producer, p, Front(steps));
      StepKeepsTrace(producer, Run(producer, Begin(p), Front(steps)), Last(steps));
    }
  }

  // ---- what the claim was computed from

  /** What the evidence reports of the request it was computed from. */
  predicate Reports(r: Request, spec: Spec, ev: Evidence) {
    && ev.calibration.Some? && ev.calibration.value.ids == ArtifactIds(r.artifact)
    && ev.calibration.value.stats == Some(r.artifact.stats)
    && (ev.calibration.value.valid ==> r.drift.Some?)
    && (r.drift.Some? ==>
          && ev.drift.detector == spec.detector && ev.drift.threshold == r.drift.value.result.threshold
          && ev.drift.window == Some(r.drift.value.result))
  }

  lemma PlanReports(producer: Producer, r: Request, p: Policy, now: int, ev: Evidence)
    requires PlannedAs(producer, r, p, now, ev)
    ensures p.spec.Some? && Accepts(r, p.spec.value) && Reports(r, p.spec.value, ev)
  {
    assert ev.drift == Unpublished(r, p, now).drift;
    assert ev.calibration.value.(publicationSHA256 := "") == Unpublished(r, p, now).calibration.value;
  }

  /** The tests read off a status with a window are the tests Publish makes. */
  lemma TestsAreAcceptance(r: Request, before: Spec, ev: Evidence, spec: Spec)
    requires Accepts(r, before) && Reports(r, before, ev) && r.drift.Some?
    ensures PassesTests(spec, ev) <==> Accepts(r, spec)
  {}

  lemma SameTests(before: Spec, now: Spec, ev: Evidence)
    requires ev.calibration.Some? && PassesTests(before, ev)
    ensures PassesTests(now, ev) <==> StillPasses(before, now, ev)
  {}

  /** In every version of every run, a valid ledger claim was computed by some publisher
      from a request it accepted over a version it then replaced. The claim fitted that
      version. It fits the version it stands over exactly when the specification there
      still passes the publisher's tests on the same artifact and window: when the edits
      since kept the calibration, the detector and the threshold, and raised no minimum
      above the recorded support. Without an edit it always fits. */
  lemma ValidClaimFitsExactlyWhen(producer: Producer, p: Policy, steps: seq<Step>, i: int) returns (k: int, r: Request, now: int)
    requires 0 <= i < |Run(producer, Begin(p), steps).versions|
    requires var ev := Run(producer, Begin(p), steps).versions[i].evidence; FromLedger(ev) && ClaimsValid(ev)
    ensures var s := Run(producer, Begin(p), steps);
      && 0 <= k < |s.writes| && s.writes[k].published && s.writes[k].replaced in s.versions
      && FitTraced(producer, s.versions[i], s.writes[k].replaced, r, now)
  {
    var s := Run(producer, Begin(p), steps);
    var v := s.versions[i];
    PublishedStatusIsBacked(producer, p, steps, i);
    RunTraced(producer, p, steps);
    k :| 0 <= k < |s.writes| && Origin(s.writes[k], v.evidence.value);
    var w := s.writes[k];
    assert WriteTraced(producer, s.versions, w);
    r, now :| PlannedAs(producer, r, w.replaced, now, v.evidence.value);
    if v.generation == w.replaced.generation { SameGenerationSameSpec(s.versions, v, w.replaced); }
    ClaimIsTraced(producer, v, w.replaced, r, now);
  }

  /** A valid claim of `v`, computed for `r` over `from`, and when it fits. */
  ghost predicate FitTraced(producer: Producer, v: Policy, from: Policy, r: Request, now: int)
    requires FromLedger(v.evidence) && ClaimsValid(v.evidence)
  {
    var ev := v.evidence.value;
    && PlannedAs(producer, r, from, now, ev) && from.spec.Some? && PassesTests(from.spec.value, ev)
    && (ClaimFitsSpec(v) <==> v.spec.Some? && Accepts(r, v.spec.value))
    && (ClaimFitsSpec(v) <==> v.spec.Some? && StillPasses(from.spec.value, v.spec.value, ev))
    && (v.generation == from.generation ==> ClaimFitsSpec(v))
  }

  lemma SameGenerationSameSpec(versions: seq<Policy>, a: Policy, b: Policy)
    requires Generational(versions) && a in versions && b in versions && a.generation == b.generation
    ensures a.spec == b.spec
  {
    var i :| 0 <= i < |versions| && versions[i] == a;
    var j :| 0 <= j < |versions| && versions[j] == b;
  }

  lemma ClaimIsTraced(producer: Producer, v: Policy, from: Policy, r: Request, now: int)
    requires FromLedger(v.evidence) && ClaimsValid(v.evidence) && PlannedAs(producer, r, from, now, v.evidence.value)
    requires v.generation == from.generation ==> v.spec == from.spec
    ensures FitTraced(producer, v, from, r, now)
  {
    var ev := v.evidence.value;
    PlanReports(producer, r, from, now, ev);
    TestsAreAcceptance(r, from.spec.value, ev, from.spec.value);
    if v.spec.Some? {
      TestsAreAcceptance(r, from.spec.value, ev, v.spec.value);
      SameTests(from.spec.value, v.spec.value, ev);
    }
  }

  // ---- a claim made and outlived

  lemma ThreeSteps(producer: Producer, s: System, a: Step, b: Step, c: Step)
    requires s.versions != []
    ensures Run(producer, s, [a] + [b] + [c]) == Next(producer, Next(producer, Next(producer, s, a), b), c)
  {
    RunLast(producer, s, [], a);
    RunLast(producer, s, [a], b);
    RunLast(producer, s, [a] + [b], c);
    assert [] + [a] == [a];
  }

  lemma PublicationStarted(producer: Producer, p: Policy, r: Request, now: int)
    requires Planned(producer, r, p.(evidence := None), now).Ok?
    ensures var read := p.(evidence := None);
      Next(producer, Begin(p), StartPublish(0, r, 0, now))
        == System([read], {}, map[0 := Publishing(read, Planned(producer, r, read, now).value, false)], [])
  {}

  /** A publication nobody interferes with. */
  lemma PublishedAlone(producer: Producer, p: Policy, r: Request, now: int) returns (steps: seq<Step>)
    requires Planned(producer, r, p.(evidence := None), now).Ok?
    ensures var read := p.(evidence := None);
      var plan := Planned(producer, r, read, now).value;
      Run(producer, Begin(p), steps)
        == System([read, Rewritten(read, read, Some(plan.evidence))], {plan.entry}, map[], [Write(true, read, Some(plan.evidence))])
  {
    var read := p.(evidence := None);
    var plan := Planned(producer, r, read, now).value;
    steps := [StartPublish(0, r, 0, now)] + [StoreEntry(0)] + [WriteStatus(0)];
    ThreeSteps(producer, Begin(p), StartPublish(0, r, 0, now), StoreEntry(0), WriteStatus(0));
    PublicationStarted(producer, p, r, now);
    StoredAndWritten(producer, System([read], {}, map[0 := Publishing(read, plan, false)], []), read, plan);
  }

  lemma StoredAndWritten(producer: Producer, s: System, read: Policy, plan: Plan)
    requires s == System([read], {}, map[0 := Publishing(read, plan, false)], [])
    ensures Next(producer, Next(producer, s, StoreEntry(0)), WriteStatus(0))
      == System([read, Rewritten(read, read, Some(plan.evidence))], {plan.entry}, map[], [Write(true, read, Some(plan.evidence))])
  {
    var stored := System([read], {plan.entry}, map[0 := Publishing(read, plan, true)], []);
    assert Next(producer, s, StoreEntry(0)) == stored by {
      assert s.tasks[0 := Publishing(read, plan, true)] == stored.tasks;
    }
    assert stored.tasks - {0} == map[];
  }

  /** A valid claim from the ledger that passes the tests of its specification. */
  predicate Standing(p: Policy) { FromLedger(p.evidence) && ClaimsValid(p.evidence) && ClaimFitsSpec(p) }

  /** A valid, observed claim from the ledger that fails them. */
  predicate Outlived(p: Policy) {
    FromLedger(p.evidence) && ClaimsValid(p.evidence) && p.observedGeneration == p.generation && !ClaimFitsSpec(p)
  }

  predicate RecordsSupport(p: Policy, support: int) {
    && p.evidence.Some? && p.evidence.value.calibration.Some? && p.evidence.value.calibration.value.stats.Some?
    && p.evidence.value.calibration.value.stats.value.support == support
  }

  /** The second version, with nobody at work: a standing claim over `spec`. */
  predicate ClaimIn(s: System, spec: Spec, support: int) {
    && |s.versions| == 2 && s.tasks == map[] && Last(s.versions).spec == Some(spec)
    && Standing(Last(s.versions)) && RecordsSupport(Last(s.versions), support)
  }

  /** An accepted request with an undetected window becomes a valid claim that fits. */
  lemma AcceptedIsClaimed(producer: Producer, p: Policy, r: Request, now: int) returns (steps: seq<Step>)
    requires Planned(producer, r, p.(evidence := None), now).Ok? && r.drift.Some? && !r.drift.value.result.detected
    ensures p.spec.Some? && ClaimIn(Run(producer, Begin(p), steps), p.spec.value, r.artifact.stats.support)
  {
    var read := p.(evidence := None);
    var ev := Planned(producer, r, read, now).value.evidence;
    steps := PublishedAlone(producer, p, r, now);
    PlanReports(producer, r, read, now, ev);
    TestsAreAcceptance(r, read.spec.value, ev, read.spec.value);
  }

  lemma StandingIsOutlived(producer: Producer, s: System, spec: Spec, support: int, now: int)
    requires ClaimIn(s, spec, support) && spec.adaptive && spec.valid
    ensures Outlived(Last(Run(producer, s, EditThenReconcile(spec.(minimumSupport := support + 1), 0, 2, now)).versions))
  {
    RaisedSupportLeavesClaim(producer, s, 0, now);
  }

  lemma OutlivedAfter(producer: Producer, s: System, steps: seq<Step>, spec: Spec, support: int, now: int) returns (more: seq<Step>)
    requires s.versions != [] && ClaimIn(Run(producer, s, steps), spec, support) && spec.adaptive && spec.valid
    ensures Outlived(Last(Run(producer, s, steps + more).versions))
  {
    more := EditThenReconcile(spec.(minimumSupport := support + 1), 0, 2, now);
    StandingIsOutlived(producer, Run(producer, s, steps), spec, support, now);
    RunJoin(producer, s, steps, more);
  }

  /** From the start: an accepted request can be published, so that its claim stands and
      fits; the specification then asks for one more row, and the claim is still valid
      and observed while Publish would refuse it. */
  lemma ClaimOutlivesItsSpec(producer: Producer, p: Policy, r: Request, now: int) returns (steps: seq<Step>, more: seq<Step>)
    requires Planned(producer, r, p.(evidence := None), now).Ok? && r.drift.Some? && !r.drift.value.result.detected
    requires p.spec.Some? && p.spec.value.adaptive && p.spec.value.valid
    ensures Standing(Last(Run(producer, Begin(p), steps).versions))
    ensures Outlived(Last(Run(producer, Begin(p), steps + more).versions))
  {
    steps := AcceptedIsClaimed(producer, p, r, now);
    more := OutlivedAfter(producer, Begin(p), steps, p.spec.value, r.artifact.stats.support, now);
  }

  /** Ten rows, ten of ten covered, for a target of nine tenths. */
  function SampleArtifact(): Calibration.Artifact {
    Calibration.Artifact(Calibration.LEDGER_FORMAT, "chat", "1", "v1", Calibration.Regimes("f", "p", "c", "s", "k", "w"),
                         900_000_000, 10, Calibration.Statistics(10, 10, 512, 1_000_000_000, 909_090_909), 1, 2, "rows", "sum")
  }

  function SampleRequest(): Request {
    Request("tenant", "uid", 1, 1, SampleArtifact(),
            Some(DriftWindow("sum", "win", "gap", Calibration.Drift(0, "later", 10, 10, 1_000_000_000, 0, false, 3, 4))))
  }

  function SampleSpec(): Spec { Spec(true, true, Some(ArtifactIds(SampleArtifact())), 10, "gap", 0, 10) }

  function SamplePolicy(): Policy { Policy("ns", "policy", "uid", 1, 1, Some(SampleSpec()), None, 0) }

  lemma SampleAccepted()
    ensures Accepts(SampleRequest(), SampleSpec())
  {}

  lemma DomainIsTrimmed()
    ensures Trim(DOMAIN) == DOMAIN != []
  {
    assert DOMAIN[0] == 'g' && DOMAIN[|DOMAIN| - 1] == '1';
  }

  lemma ShortFieldsHash(producer: Producer, fields: seq<string>)
    requires forall k | 0 <= k < |fields| :: |fields[k]| <= MAX_FIELD
    ensures Canonical(producer.hash, DOMAIN, fields).Ok?
  {
    DomainIsTrimmed();
    assert |DOMAIN| <= MAX_FIELD;
    forall v | v in [Trim(DOMAIN)] + fields ensures |v| <= MAX_FIELD {
      if v != Trim(DOMAIN) { assert v in fields; }
    }
  }

  /** The artifact is authoritative, the one the specification names field by field, and
      good enough; its window, if there is one, is of this artifact and as specified. */
  predicate Publishable(r: Request, spec: Spec) {
    && r.artifact.format == "govar-calibration-authoritative-v1"
    && spec.calibration == Some(Ids(r.artifact.ref, r.artifact.version, r.artifact.sha256, r.artifact.source, r.artifact.schema,
                                    r.artifact.regimes.price, r.artifact.regimes.cap, r.artifact.regimes.producer, r.artifact.target))
    && r.artifact.stats.support >= spec.minimumSupport && r.artifact.stats.lower >= r.artifact.target
    && match r.drift
       case None => true
       case Some(d) =>
         && d.artifactSHA256 == r.artifact.sha256 && d.detector == spec.detector && d.result.threshold == spec.threshold
         && d.result.support >= spec.monitoringMinimum
  }

  function EntryOf(producer: Producer, r: Request, p: Policy, ev: Evidence): Entry {
    var drift := match r.drift case Some(d) => d.sha256 case None => "";
    Entry("", r.tenant, p.namespace, p.name, p.uid, p.generation, p.version, r.artifact.sha256, drift,
          producer.payload(ev), producer.software)
  }

  lemma PublishableIsAccepted(r: Request, spec: Spec)
    ensures Accepts(r, spec) <==> Publishable(r, spec)
  {}

  /** Publish goes on exactly when the request names this very version of the policy, its
      artifact and window are publishable under it, and its entry can be hashed. */
  lemma PlannedExactlyWhen(producer: Producer, r: Request, p: Policy, now: int)
    ensures Planned(producer, r, p, now).Ok? <==>
      && r.uid == p.uid != "" && r.generation == p.generation != 0 && r.version == p.version
      && p.spec.Some? && Publishable(r, p.spec.value)
      && Canonical(producer.hash, DOMAIN, EntryFields(EntryOf(producer, r, p, Unpublished(r, p, now)))).Ok?
  {
    if p.spec.Some? { PublishableIsAccepted(r, p.spec.value); }
  }

  lemma SampleHashes(producer: Producer, ev: Evidence)
    requires |producer.software| <= MAX_FIELD
    ensures Canonical(producer.hash, DOMAIN, EntryFields(EntryOf(producer, SampleRequest(), SamplePolicy(), ev))).Ok?
  {
    assert |DecimalInt(1)| == 1;
    ShortFieldsHash(producer, EntryFields(EntryOf(producer, SampleRequest(), SamplePolicy(), ev)));
  }

  /** For instance, whatever the digests: a policy that asks for ten rows, a request
      with ten, and then a policy that asks for eleven. */
  lemma SampleOutlivesItsSpec(producer: Producer, now: int) returns (steps: seq<Step>, more: seq<Step>)
    requires |producer.software| <= MAX_FIELD
    ensures Standing(Last(Run(producer, Begin(SamplePolicy()), steps).versions))
    ensures Outlived(Last(Run(producer, Begin(SamplePolicy()), steps + more).versions))
  {
    SampleIsPlanned(producer, now);
    steps, more := ClaimOutlivesItsSpec(producer, SamplePolicy(), SampleRequest(), now);
  }

  lemma SampleIsPlanned(producer: Producer, now: int)
    requires |producer.software| <= MAX_FIELD
    ensures Planned(producer, SampleRequest(), SamplePolicy(), now).Ok?
  {
    SampleAccepted();
    SampleHashes(producer, Unpublished(SampleRequest(), SamplePolicy(), now));
    PlannedExactlyWhen(producer, SampleRequest(), SamplePolicy(), now);
    PublishableIsAccepted(SampleRequest(), SampleSpec());
  }
}
