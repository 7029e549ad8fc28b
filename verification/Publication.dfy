/** Publishing calibration evidence: the ledger publisher and the routing reconciler
    write one status concurrently, each by compare-and-swap on the resource version
    it read. */
module Publication {
  import opened Wrappers
  import opened Sequences
  import opened Text
  import Calibration

  // ---- the policy object

  /** What identifies a calibration: the fields a policy expects of its artifact. */
  datatype Ids = Ids(
    ref: string, version: string, sha256: string, source: string, schema: string, price: string, cap: string,
    producer: string, target: int)

  function ArtifactIds(a: Calibration.Artifact): Ids {
    Ids(a.ref, a.version, a.sha256, a.source, a.schema, a.regimes.price, a.regimes.cap, a.regimes.producer, a.target)
  }

  datatype Spec = Spec(
    adaptive: bool, valid: bool, calibration: Option<Ids>, minimumSupport: int, detector: string, threshold: int,
    monitoringMinimum: int)

  datatype CalibrationStatus = CalibrationStatus(
    source: string, sourceVersion: string, ids: Ids, stats: Option<Calibration.Statistics>, valid: bool, reason: string,
    publicationSHA256: string, observedAt: int)

  datatype DriftStatus = DriftStatus(
    sha256: string, detected: bool, conservative: bool, detector: string, threshold: int,
    window: Option<Calibration.Drift>, reason: string, observedAt: int)

  datatype Evidence = Evidence(calibration: Option<CalibrationStatus>, drift: DriftStatus)

  datatype Policy = Policy(
    namespace: string, name: string, uid: string, generation: nat, version: nat, spec: Option<Spec>,
    evidence: Option<Evidence>, observedGeneration: nat)

  const LEDGER := "postgresql-v8"
  const DIAGNOSTIC := "diagnostic-configmap-nonauthoritative"

  /** The status claims to come from the ledger. */
  predicate FromLedger(ev: Option<Evidence>) {
    ev.Some? && ev.value.calibration.Some? && ev.value.calibration.value.source == LEDGER
  }

  predicate ClaimsValid(ev: Option<Evidence>) {
    ev.Some? && ev.value.calibration.Some? && ev.value.calibration.value.valid
  }

  // ---- the publisher

  datatype DriftWindow = DriftWindow(artifactSHA256: string, sha256: string, detector: string, result: Calibration.Drift)

  datatype Request = Request(
    tenant: string, uid: string, generation: nat, version: nat, artifact: Calibration.Artifact, drift: Option<DriftWindow>)

  /** A row of the publication ledger. */
  datatype Entry = Entry(
    sha256: string, tenant: string, namespace: string, name: string, uid: string, generation: nat, version: nat,
    artifactSHA256: string, driftSHA256: string, payloadSHA256: string, softwareSHA256: string)

  /** Hashing of digest preimages and of the JSON of a status; the producer's build. */
  datatype Producer = Producer(hash: string -> Digest, payload: Evidence -> Digest, software: string)

  /** The artifact is the one the policy asks for, and meets its target. */
  predicate ArtifactFits(a: Calibration.Artifact, spec: Spec) {
    && a.format == Calibration.LEDGER_FORMAT && spec.calibration == Some(ArtifactIds(a))
    && a.stats.support >= spec.minimumSupport && a.stats.lower >= a.target
  }

  predicate DriftFits(d: DriftWindow, a: Calibration.Artifact, spec: Spec) {
    && d.artifactSHA256 == a.sha256 && d.detector == spec.detector && d.result.threshold == spec.threshold
    && d.result.support >= spec.monitoringMinimum
  }

  /** What Publish asks of a request's artifact and window under a specification. */
  predicate Accepts(r: Request, spec: Spec) {
    && spec.calibration.Some? && ArtifactFits(r.artifact, spec)
    && (r.drift.Some? ==> DriftFits(r.drift.value, r.artifact, spec))
  }

  /** The same tests, read off a status that reports its window. */
  predicate PassesTests(spec: Spec, ev: Evidence)
    requires ev.calibration.Some?
  {
    var c, d := ev.calibration.value, ev.drift;
    && spec.calibration == Some(c.ids)
    && c.stats.Some? && c.stats.value.support >= spec.minimumSupport && c.stats.value.lower >= c.ids.target
    && d.detector == spec.detector && d.threshold == spec.threshold
    && d.window.Some? && d.window.value.support >= spec.monitoringMinimum
  }

  /** The evidence before its publication digest is filled in. */
  function Unpublished(r: Request, p: Policy, now: int): Evidence
    requires p.spec.Some?
  {
    var a, spec := r.artifact, p.spec.value;
    var sound := r.drift.Some? && !r.drift.value.result.detected;
    var reason := if r.drift.None? then "MonitoringEvidenceMissing" else if sound then "CalibrationValid" else "DriftDetected";
    Evidence(
      Some(CalibrationStatus(LEDGER, DecimalInt(r.version), ArtifactIds(a), Some(a.stats), sound, reason, "", now)),
      match r.drift
      case None => DriftStatus("", false, true, spec.detector, spec.threshold, None, reason, now)
      case Some(d) =>
        DriftStatus(d.sha256, d.result.detected, d.result.detected, spec.detector, d.result.threshold, Some(d.result), reason, now))
  }

  function WithPublication(ev: Evidence, sha256: string): Evidence
    requires ev.calibration.Some?
  {
    ev.(calibration := Some(ev.calibration.value.(publicationSHA256 := sha256)))
  }

  function EntryFields(e: Entry): seq<string> {
    [e.tenant, e.namespace, e.name, e.uid, DecimalInt(e.generation), DecimalInt(e.version), e.artifactSHA256,
     e.driftSHA256, e.payloadSHA256, e.softwareSHA256]
  }

  const DOMAIN := "govar-policy-evidence-publication-v1"

  datatype Plan = Plan(evidence: Evidence, entry: Entry)

  /** What Publish decides from the policy it read, before it writes anything. */
  function Planned(producer: Producer, r: Request, p: Policy, now: int): Result<Plan> {
    if r.uid == "" || r.generation == 0 || p.uid != r.uid || p.generation != r.generation || p.version != r.version then Err
    else if p.spec.None? || p.spec.value.calibration.None? then Err
    else if !ArtifactFits(r.artifact, p.spec.value) then Err
    else if r.drift.Some? && !DriftFits(r.drift.value, r.artifact, p.spec.value) then Err
    else
      var ev := Unpublished(r, p, now);
      var driftSHA := match r.drift case Some(d) => d.sha256 case None => "";
      var entry := Entry("", r.tenant, p.namespace, p.name, p.uid, p.generation, p.version, r.artifact.sha256, driftSHA,
                         producer.payload(ev), producer.software);
      var sha :- Canonical(producer.hash, DOMAIN, EntryFields(entry));
      Ok(Plan(WithPublication(ev, sha), entry.(sha256 := sha)))
  }

  /** The decision step by step: the status is built for a sound calibration and then
      amended for missing or drifting monitoring evidence. */
  method PlanPublication(producer: Producer, r: Request, p: Policy, now: int) returns (res: Result<Plan>)
    ensures res == Planned(producer, r, p, now)
  {
    if r.uid == "" || r.generation == 0 { return Err; }
    if p.uid != r.uid || p.generation != r.generation || p.version != r.version { return Err; }
    if p.spec.None? || p.spec.value.calibration.None? { return Err; }
    var spec, a := p.spec.value, r.artifact;
    if !ArtifactFits(a, spec) { return Err; }
    var calibration := CalibrationStatus(
      LEDGER, DecimalInt(r.version), ArtifactIds(a), Some(a.stats), true, "CalibrationValid", "", now);
    var drift: DriftStatus;
    var driftSHA := "";
    match r.drift {
      case None =>
        calibration := calibration.(valid := false, reason := "MonitoringEvidenceMissing");
        drift := DriftStatus("", false, true, spec.detector, spec.threshold, None, "MonitoringEvidenceMissing", now);
      case Some(d) =>
        if !DriftFits(d, a, spec) { return Err; }
        drift := DriftStatus(d.sha256, d.result.detected, d.result.detected, spec.detector, d.result.threshold,
                             Some(d.result), "CalibrationValid", now);
        if d.result.detected {
          calibration := calibration.(valid := false, reason := "DriftDetected");
          drift := drift.(reason := "DriftDetected");
        }
        driftSHA := d.sha256;
    }
    var status := Evidence(Some(calibration), drift);
    var entry := Entry("", r.tenant, p.namespace, p.name, p.uid, p.generation, p.version, a.sha256, driftSHA,
                       producer.payload(status), producer.software);
    var sha :- CanonicalDigest(producer.hash, DOMAIN, EntryFields(entry));
    return Ok(Plan(WithPublication(status, sha), entry.(sha256 := sha)));
  }

  // ---- the routing reconciler

  /** How the reconciler may judge config-map evidence; production never does. */
  datatype Mode = Production | Diagnostic(reading: Option<Reading>, reason: string)

  datatype Reading = Reading(ids: Ids, stats: Calibration.Statistics, drift: Calibration.Drift)

  function Conservative(spec: Spec, reason: string, now: int): Evidence {
    Evidence(
      match spec.calibration
      case Some(ids) => Some(CalibrationStatus("", "", ids, None, false, reason, "", now))
      case None => None,
      DriftStatus("", false, true, spec.detector, spec.threshold, None, reason, now))
  }

  function DiagnosticEvidence(spec: Spec, reading: Reading, now: int): Evidence {
    var d := reading.drift;
    var reason := if d.detected then "DriftDetected" else "CalibrationValid";
    Evidence(
      Some(CalibrationStatus(DIAGNOSTIC, "", reading.ids, Some(reading.stats), !d.detected, reason, "", now)),
      DriftStatus("", d.detected, d.detected, spec.detector, spec.threshold, Some(d), reason, d.windowEnd))
  }

  /** The evidence the reconciler writes over the policy it read. */
  function Reconciled(p: Policy, mode: Mode, now: int): Option<Evidence> {
    if p.spec.None? || !p.spec.value.adaptive then None
    else
      var spec := p.spec.value;
      if !spec.valid || spec.calibration.None? then Some(Conservative(spec, "CalibrationSpecInvalid", now))
      else
        match mode
        case Production =>
          if FromLedger(p.evidence) then p.evidence
          else Some(Conservative(spec, "CalibrationSourceNotLedgerAuthoritative", now))
        case Diagnostic(reading, reason) =>
          match reading
          case Some(found) => Some(DiagnosticEvidence(spec, found, now))
          case None => Some(Conservative(spec, reason, now))
  }

  method ReconcileEvidence(p: Policy, mode: Mode, now: int) returns (ev: Option<Evidence>)
    ensures ev == Reconciled(p, mode, now)
  {
    if p.spec.None? { return None; }
    var spec := p.spec.value;
    if !spec.adaptive { return None; }
    if !spec.valid || spec.calibration.None? { return Some(Conservative(spec, "CalibrationSpecInvalid", now)); }
    if mode.Production? {
      if FromLedger(p.evidence) { return p.evidence; }
      return Some(Conservative(spec, "CalibrationSourceNotLedgerAuthoritative", now));
    }
    if mode.reading.None? { return Some(Conservative(spec, mode.reason, now)); }
    var found := mode.reading.value;
    var calibration := CalibrationStatus(DIAGNOSTIC, "", found.ids, Some(found.stats), true, "", "", now);
    var drift := DriftStatus("", found.drift.detected, found.drift.detected, spec.detector, spec.threshold,
                             Some(found.drift), "", found.drift.windowEnd);
    if found.drift.detected {
      calibration := calibration.(valid := false, reason := "DriftDetected");
      drift := drift.(reason := "DriftDetected");
      return Some(Evidence(Some(calibration), drift));
    }
    calibration := calibration.(valid := true, reason := "CalibrationValid");
    drift := drift.(reason := "CalibrationValid");
    return Some(Evidence(Some(calibration), drift));
  }

  // ---- the system

  /** Work in flight. */
  datatype Task =
    | Publishing(read: Policy, plan: Plan, stored: bool)
    | Routing(read: Policy, mode: Mode, now: int)

  /** A status write that went through: who made it, what it replaced, what it wrote. */
  datatype Write = Write(published: bool, replaced: Policy, evidence: Option<Evidence>)

  /** Every version the policy has had, the publication ledger, the work in flight,
      and the writes so far. */
  datatype System = System(versions: seq<Policy>, ledger: set<Entry>, tasks: map<nat, Task>, writes: seq<Write>)

  /** Reads may be served from a cache: `seen` picks any version the policy has had. */
  datatype Step =
    | StartPublish(id: nat, request: Request, seen: nat, now: int)
    | StoreEntry(id: nat)
    | StartRouting(id: nat, seen: nat, mode: Mode, now: int)
    | WriteStatus(id: nat)
    | Abandon(id: nat)
    | EditSpec(spec: Option<Spec>)

  function Begin(p: Policy): System { System([p.(evidence := None)], {}, map[], []) }

  function Rewritten(current: Policy, read: Policy, ev: Option<Evidence>): Policy {
    current.(evidence := ev, observedGeneration := read.generation, version := current.version + 1)
  }

  function TaskEvidence(t: Task): Option<Evidence> {
    match t case Publishing(_, plan, _) => Some(plan.evidence) case Routing(read, mode, now) => Reconciled(read, mode, now)
  }

  /** A task may write once its ledger entry is stored. */
  predicate Ready(t: Task) { t.Routing? || t.stored }

  function Next(producer: Producer, s: System, step: Step): System
    requires s.versions != []
    ensures Next(producer, s, step).versions != []
  {
    match step
    case StartPublish(id, request, seen, now) =>
      if id in s.tasks || seen >= |s.versions| then s
      else
        (match Planned(producer, request, s.versions[seen], now)
         case Ok(plan) => s.(tasks := s.tasks[id := Publishing(s.versions[seen], plan, false)])
         case Err => s)
    case StoreEntry(id) =>
      if id in s.tasks && s.tasks[id].Publishing? then
        s.(ledger := s.ledger + {s.tasks[id].plan.entry}, tasks := s.tasks[id := s.tasks[id].(stored := true)])
      else s
    case StartRouting(id, seen, mode, now) =>
      if id in s.tasks || seen >= |s.versions| then s
      else s.(tasks := s.tasks[id := Routing(s.versions[seen], mode, now)])
    case WriteStatus(id) =>
      if id !in s.tasks || !Ready(s.tasks[id]) then s
      else
        var t, current := s.tasks[id], Last(s.versions);
        if t.read.version != current.version then s.(tasks := s.tasks - {id})
        else
          System(s.versions + [Rewritten(current, t.read, TaskEvidence(t))], s.ledger, s.tasks - {id},
                 s.writes + [Write(t.Publishing?, current, TaskEvidence(t))])
    case Abandon(id) => s.(tasks := s.tasks - {id})
    case EditSpec(spec) =>
      var current := Last(s.versions);
      s.(versions := s.versions + [current.(spec := spec, generation := current.generation + 1, version := current.version + 1)])
  }

  function Run(producer: Producer, s: System, steps: seq<Step>): (t: System)
    requires s.versions != []
    ensures t.versions != []
    decreases |steps|
  {
    if steps == [] then s else Next(producer, Run(producer, s, Front(steps)), Last(steps))
  }

  /** A whole publication, with the steps others take in between: the ledger entry is
      stored before the status is written. */
  function PublishSteps(id: nat, r: Request, seen: nat, now: int, whilePlanning: seq<Step>, whileStoring: seq<Step>): seq<Step> {
    [StartPublish(id, r, seen, now)] + whilePlanning + [StoreEntry(id)] + whileStoring + [WriteStatus(id)]
  }

  /** The API server and the publication ledger, with everyone who writes to them. */
  class Cluster {
    var system: System

    constructor (p: Policy)
      ensures system == Begin(p)
    {
      system := Begin(p);
    }

    /** One call of Publish, from its read to its status update, while others take the
        steps `whilePlanning` and `whileStoring` in between. */
    method Publish(producer: Producer, id: nat, r: Request, seen: nat, now: int, whilePlanning: seq<Step>, whileStoring: seq<Step>)
      returns (ok: bool)
      requires system.versions != [] && seen < |system.versions| && id !in system.tasks
      modifies this
      ensures ok <==> Planned(producer, r, old(system).versions[seen], now).Ok?
      ensures !ok ==> system == old(system)
      ensures ok ==> system == Run(producer, old(system), PublishSteps(id, r, seen, now, whilePlanning, whileStoring))
    {
      var read := system.versions[seen];
      var plan := PlanPublication(producer, r, read, now);
      if plan.Err? { return false; }
      ghost var started := system;
      system := system.(tasks := system.tasks[id := Publishing(read, plan.value, false)]);
      RunOne(producer, started, StartPublish(id, r, seen, now));
      RunJoin(producer, started, [StartPublish(id, r, seen, now)], whilePlanning);
      system := Run(producer, system, whilePlanning);
      RunLast(producer, started, [StartPublish(id, r, seen, now)] + whilePlanning, StoreEntry(id));
      system := Next(producer, system, StoreEntry(id));
      RunJoin(producer, started, [StartPublish(id, r, seen, now)] + whilePlanning + [StoreEntry(id)], whileStoring);
      system := Run(producer, system, whileStoring);
      RunLast(producer, started, [StartPublish(id, r, seen, now)] + whilePlanning + [StoreEntry(id)] + whileStoring, WriteStatus(id));
      system := Next(producer, system, WriteStatus(id));
      return true;
    }
  }

  lemma RunLast(producer: Producer, s: System, steps: seq<Step>, step: Step)
    requires s.versions != []
    ensures Run(producer, s, steps + [step]) == Next(producer, Run(producer, s, steps), step)
  {
    assert Front(steps + [step]) == steps;
  }

  lemma RunOne(producer: Producer, s: System, step: Step)
    requires s.versions != []
    ensures Run(producer, s, [step]) == Next(producer, s, step)
  {
    assert Front([step]) == [] && Run(producer, s, []) == s;
  }

  lemma {:induction false} RunJoin(producer: Producer, s: System, a: seq<Step>, b: seq<Step>)
    requires s.versions != []
    ensures Run(producer, s, a + b) == Run(producer, Run(producer, s, a), b)
  {
    if b == [] {
      assert a + b == a;
    } else {
      RunJoin(producer, s, a, Front(b));
      assert Front(a + b) == a + Front(b) && Last(a + b) == Last(b);
    }
  }

  // ---- the invariant

  /** The ledger holds the publication this evidence names, and that publication
      commits to the evidence itself. */
  ghost predicate Backed(producer: Producer, ledger: set<Entry>, ev: Evidence)
    requires ev.calibration.Some?
  {
    var c := ev.calibration.value;
    exists e :: e in ledger && e.sha256 == c.publicationSHA256 && Commits(producer, e, ev)
  }

  predicate Commits(producer: Producer, e: Entry, ev: Evidence)
    requires ev.calibration.Some?
  {
    var c := ev.calibration.value;
    && Canonical(producer.hash, DOMAIN, EntryFields(e)) == Ok(e.sha256)
    && e.payloadSHA256 == producer.payload(WithPublication(ev, ""))
    && DecimalInt(e.version) == c.sourceVersion && e.artifactSHA256 == c.ids.sha256
  }

  /** A publisher wrote this very evidence, over the version it names. */
  ghost predicate Published(writes: seq<Write>, ev: Evidence)
    requires ev.calibration.Some?
  {
    exists i :: 0 <= i < |writes| && Origin(writes[i], ev)
  }

  predicate Origin(w: Write, ev: Evidence)
    requires ev.calibration.Some?
  {
    w.published && w.evidence == Some(ev) && DecimalInt(w.replaced.version) == ev.calibration.value.sourceVersion
  }

  /** Conservative mode is on exactly when the calibration is not valid: when its window
      shows drift, or there is none. */
  predicate ModeFollows(ev: Evidence) {
    && (ev.drift.conservative <==> !ClaimsValid(Some(ev)))
    && match ev.drift.window
       case Some(window) => ev.drift.detected == window.detected == ev.drift.conservative
       case None => ev.drift.conservative && !ev.drift.detected
  }

  /** The mode follows the evidence, and a valid claim from the ledger has a published
      bound that meets its target. */
  predicate Consistent(ev: Option<Evidence>) {
    && (ev.Some? ==> ModeFollows(ev.value))
    && (ClaimsValid(ev) && FromLedger(ev) ==> BoundMeetsTarget(ev.value.calibration.value))
  }

  predicate BoundMeetsTarget(c: CalibrationStatus) {
    c.stats.Some? && c.stats.value.lower >= c.ids.target
  }

  ghost predicate Good(producer: Producer, s: System, ev: Option<Evidence>) {
    && Consistent(ev)
    && (FromLedger(ev) ==> Backed(producer, s.ledger, ev.value) && Published(s.writes, ev.value))
  }

  /** What Publish may still write is consistent, names the version it read and
      the entry it will store first. */
  predicate PlanGood(producer: Producer, read: Policy, plan: Plan) {
    && Consistent(Some(plan.evidence)) && FromLedger(Some(plan.evidence))
    && plan.evidence.calibration.value.publicationSHA256 == plan.entry.sha256
    && plan.evidence.calibration.value.sourceVersion == DecimalInt(read.version)
    && Commits(producer, plan.entry, plan.evidence)
    && read.spec.Some? && read.spec.value.calibration == Some(plan.evidence.calibration.value.ids)
  }

  ghost predicate TaskGood(producer: Producer, s: System, t: Task) {
    && t.read in s.versions
    && (t.Publishing? ==> PlanGood(producer, t.read, t.plan) && (t.stored ==> t.plan.entry in s.ledger))
  }

  /** Versions are numbered in order, so a version number names one policy. */
  ghost predicate Numbered(versions: seq<Policy>) {
    forall i, j | 0 <= i < j < |versions| :: versions[i].version < versions[j].version
  }

  ghost predicate Invariant(producer: Producer, s: System) {
    && s.versions != [] && Numbered(s.versions)
    && (forall i | 0 <= i < |s.versions| :: Good(producer, s, s.versions[i].evidence))
    && (forall id | id in s.tasks :: TaskGood(producer, s, s.tasks[id]))
    && (forall i | 0 <= i < |s.writes| :: WriteGood(producer, s, s.writes[i]))
  }

  /** A publisher's write names the version it replaced and has its entry stored. */
  ghost predicate WriteGood(producer: Producer, s: System, w: Write) {
    w.published ==>
      && FromLedger(w.evidence) && Origin(w, w.evidence.value) && Backed(producer, s.ledger, w.evidence.value)
      && w.replaced.spec.Some? && w.replaced.spec.value.calibration == Some(w.evidence.value.calibration.value.ids)
  }
}
