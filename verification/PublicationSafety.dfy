/** What holds of every published status, whatever the two writers do. */
module PublicationSafety {
  import opened Wrappers
  import opened Sequences
  import opened Text
  import opened Publication
  import Calibration
  import CalibrationGuarantees

  // ---- the pieces

  lemma PlanIsGood(producer: Producer, r: Request, p: Policy, now: int)
    requires Planned(producer, r, p, now).Ok?
    ensures PlanGood(producer, p, Planned(producer, r, p, now).value)
  {
    var plan, ev := Planned(producer, r, p, now).value, Unpublished(r, p, now);
    assert WithPublication(plan.evidence, "") == ev;
    assert EntryFields(plan.entry) == EntryFields(plan.entry.(sha256 := ""));
  }

  lemma ConservativeIsConsistent(spec: Spec, reason: string, now: int)
    ensures Consistent(Some(Conservative(spec, reason, now))) && !FromLedger(Some(Conservative(spec, reason, now)))
  {}

  lemma DiagnosticIsConsistent(spec: Spec, reading: Reading, now: int)
    ensures Consistent(Some(DiagnosticEvidence(spec, reading, now))) && !FromLedger(Some(DiagnosticEvidence(spec, reading, now)))
  {
    assert |LEDGER| != |DIAGNOSTIC|;
  }

  /** The reconciler writes nothing, what it found, or fresh evidence of its own. */
  lemma ReconciledIsGood(producer: Producer, s: System, p: Policy, mode: Mode, now: int)
    requires Good(producer, s, p.evidence)
    ensures Good(producer, s, Reconciled(p, mode, now))
  {
    if p.spec.Some? && Reconciled(p, mode, now) != p.evidence {
      ConservativeIsConsistent(p.spec.value, "CalibrationSpecInvalid", now);
      ConservativeIsConsistent(p.spec.value, "CalibrationSourceNotLedgerAuthoritative", now);
      if mode.Diagnostic? {
        ConservativeIsConsistent(p.spec.value, mode.reason, now);
        if mode.reading.Some? { DiagnosticIsConsistent(p.spec.value, mode.reading.value, now); }
      }
    }
  }

  /** Ledger and history only grow, so what was backed stays backed. */
  lemma GoodGrows(producer: Producer, s: System, t: System, ev: Option<Evidence>)
    requires Good(producer, s, ev) && s.ledger <= t.ledger && s.writes <= t.writes
    ensures Good(producer, t, ev)
  {
    if FromLedger(ev) {
      var i :| 0 <= i < |s.writes| && Origin(s.writes[i], ev.value);
      assert Origin(t.writes[i], ev.value);
    }
  }

  lemma WriteGrows(producer: Producer, s: System, t: System, w: Write)
    requires WriteGood(producer, s, w) && s.ledger <= t.ledger
    ensures WriteGood(producer, t, w)
  {}

  lemma OneVersionEach(versions: seq<Policy>, a: Policy, b: Policy)
    requires Numbered(versions) && a in versions && b in versions && a.version == b.version
    ensures a == b
  {
    var i :| 0 <= i < |versions| && versions[i] == a;
    var j :| 0 <= j < |versions| && versions[j] == b;
  }

  /** A write that goes through was computed from the very policy it replaces. */
  lemma WritesReplaceWhatTheyRead(producer: Producer, s: System, id: nat)
    requires Invariant(producer, s) && id in s.tasks && s.tasks[id].read.version == Last(s.versions).version
    ensures s.tasks[id].read == Last(s.versions)
  {
    assert TaskGood(producer, s, s.tasks[id]);
    assert s.versions[|s.versions| - 1] in s.versions;
    OneVersionEach(s.versions, s.tasks[id].read, Last(s.versions));
  }

  // ---- one step at a time

  lemma Grown(producer: Producer, s: System, t: System)
    requires Invariant(producer, s) && s.ledger <= t.ledger && s.writes <= t.writes && s.versions <= t.versions
    ensures forall i | 0 <= i < |s.versions| :: Good(producer, t, s.versions[i].evidence)
    ensures forall i | 0 <= i < |s.writes| :: WriteGood(producer, t, s.writes[i])
    ensures forall id | id in s.tasks :: TaskGood(producer, t, s.tasks[id])
  {
    forall i | 0 <= i < |s.versions| ensures Good(producer, t, s.versions[i].evidence) {
      GoodGrows(producer, s, t, s.versions[i].evidence);
    }
    forall i | 0 <= i < |s.writes| ensures WriteGood(producer, t, s.writes[i]) {
      WriteGrows(producer, s, t, s.writes[i]);
    }
    forall id | id in s.tasks ensures TaskGood(producer, t, s.tasks[id]) {
      assert TaskGood(producer, s, s.tasks[id]);
      assert forall v | v in s.versions :: v in t.versions;
    }
  }

  lemma TaskStarted(producer: Producer, s: System, id: nat, task: Task)
    requires Invariant(producer, s) && TaskGood(producer, s, task)
    ensures Invariant(producer, s.(tasks := s.tasks[id := task]))
  {
    Grown(producer, s, s.(tasks := s.tasks[id := task]));
  }

  lemma TaskEnded(producer: Producer, s: System, id: nat)
    requires Invariant(producer, s)
    ensures Invariant(producer, s.(tasks := s.tasks - {id}))
  {
    Grown(producer, s, s.(tasks := s.tasks - {id}));
  }

  lemma EntryStored(producer: Producer, s: System, id: nat)
    requires Invariant(producer, s) && id in s.tasks && s.tasks[id].Publishing?
    ensures Invariant(producer, Next(producer, s, StoreEntry(id)))
  {
    assert TaskGood(producer, s, s.tasks[id]);
    Grown(producer, s, Next(producer, s, StoreEntry(id)));
  }

  lemma VersionAppended(producer: Producer, s: System, t: System, p: Policy)
    requires Invariant(producer, s) && t.versions == s.versions + [p] && p.version == Last(s.versions).version + 1
    requires s.ledger == t.ledger && s.writes <= t.writes && Good(producer, t, p.evidence)
    requires forall id | id in t.tasks :: id in s.tasks && t.tasks[id] == s.tasks[id]
    requires forall i | |s.writes| <= i < |t.writes| :: WriteGood(producer, t, t.writes[i])
    ensures Invariant(producer, t)
  {
    Grown(producer, s, t);
    assert forall i | 0 <= i < |s.writes| :: t.writes[i] == s.writes[i];
  }

  lemma SpecEdited(producer: Producer, s: System, spec: Option<Spec>)
    requires Invariant(producer, s)
    ensures Invariant(producer, Next(producer, s, EditSpec(spec)))
  {
    var t := Next(producer, s, EditSpec(spec));
    assert Good(producer, s, s.versions[|s.versions| - 1].evidence);
    VersionAppended(producer, s, t, t.versions[|s.versions|]);
  }

  /** The status a publisher writes: over the version it read, with its entry stored. */
  lemma PublisherWrote(producer: Producer, s: System, t: System, read: Policy, plan: Plan)
    requires PlanGood(producer, read, plan) && plan.entry in t.ledger
    requires t.writes == s.writes + [Write(true, read, Some(plan.evidence))]
    ensures Good(producer, t, Some(plan.evidence)) && WriteGood(producer, t, t.writes[|s.writes|])
  {
    assert Backed(producer, t.ledger, plan.evidence);
    assert Origin(t.writes[|s.writes|], plan.evidence);
  }

  lemma ReconcilerWrote(producer: Producer, s: System, t: System, read: Policy, mode: Mode, now: int)
    requires Good(producer, s, read.evidence) && s.ledger <= t.ledger
    requires t.writes == s.writes + [Write(false, read, Reconciled(read, mode, now))]
    ensures Good(producer, t, Reconciled(read, mode, now)) && WriteGood(producer, t, t.writes[|s.writes|])
  {
    ReconciledIsGood(producer, s, read, mode, now);
    GoodGrows(producer, s, t, Reconciled(read, mode, now));
  }

  /** What a write that goes through leaves, whoever made it. */
  lemma WriteKeepsInvariant(producer: Producer, s: System, t: System, task: Task, current: Policy)
    requires Invariant(producer, s) && TaskGood(producer, s, task) && Ready(task)
    requires current == Last(s.versions) && task.read == current
    requires t.versions == s.versions + [Rewritten(current, current, TaskEvidence(task))] && t.ledger == s.ledger
    requires t.writes == s.writes + [Write(task.Publishing?, current, TaskEvidence(task))]
    requires forall id | id in t.tasks :: id in s.tasks && t.tasks[id] == s.tasks[id]
    ensures Invariant(producer, t)
  {
    if task.Publishing? {
      PublisherWrote(producer, s, t, current, task.plan);
    } else {
      assert Good(producer, s, s.versions[|s.versions| - 1].evidence);
      ReconcilerWrote(producer, s, t, current, task.mode, task.now);
    }
    VersionAppended(producer, s, t, Rewritten(current, current, TaskEvidence(task)));
  }

  lemma StatusWritten(producer: Producer, s: System, id: nat)
    requires Invariant(producer, s) && id in s.tasks && Ready(s.tasks[id])
    requires s.tasks[id].read.version == Last(s.versions).version
    ensures Invariant(producer, Next(producer, s, WriteStatus(id)))
  {
    WritesReplaceWhatTheyRead(producer, s, id);
    assert TaskGood(producer, s, s.tasks[id]);
    WriteKeepsInvariant(producer, s, Next(producer, s, WriteStatus(id)), s.tasks[id], Last(s.versions));
  }

  lemma StepKeepsInvariant(producer: Producer, s: System, step: Step)
    requires Invariant(producer, s)
    ensures Invariant(producer, Next(producer, s, step))
  {
    match step {
      case StartPublish(id, request, seen, now) =>
        if id !in s.tasks && seen < |s.versions| && Planned(producer, request, s.versions[seen], now).Ok? {
          PlanIsGood(producer, request, s.versions[seen], now);
          TaskStarted(producer, s, id, Publishing(s.versions[seen], Planned(producer, request, s.versions[seen], now).value, false));
        }
      case StoreEntry(id) =>
        if id in s.tasks && s.tasks[id].Publishing? { EntryStored(producer, s, id); }
      case StartRouting(id, seen, mode, now) =>
        if id !in s.tasks && seen < |s.versions| { TaskStarted(producer, s, id, Routing(s.versions[seen], mode, now)); }
      case WriteStatus(id) =>
        if id in s.tasks && Ready(s.tasks[id]) {
          if s.tasks[id].read.version == Last(s.versions).version {
            StatusWritten(producer, s, id);
          } else {
            TaskEnded(producer, s, id);
          }
        }
      case Abandon(id) => TaskEnded(producer, s, id);
      case EditSpec(spec) => SpecEdited(producer, s, spec);
    }
  }

  lemma {:induction false} RunKeepsInvariant(producer: Producer, p: Policy, steps: seq<Step>)
    ensures Invariant(producer, Run(producer, Begin(p), steps))
  {
    if steps != [] {
      RunKeepsInvariant(producer, p, Front(steps));
      StepKeepsInvariant(producer, Run(producer, Begin(p), Front(steps)), Last(steps));
    }
  }

  // ---- the guarantees

  /** Write-ahead, for every interleaving of publishers, reconcilers, spec edits, stale
      reads and crashes: a status that claims the ledger names an entry the ledger
      holds, which commits to that very status; it was first written by a publisher,
      over exactly the version it names; and a valid claim is never made in
      conservative mode, over drift, or with a bound below its target. */
  lemma PublishedStatusIsBacked(producer: Producer, p: Policy, steps: seq<Step>, i: int)
    requires 0 <= i < |Run(producer, Begin(p), steps).versions|
    ensures var s := Run(producer, Begin(p), steps);
      var ev := s.versions[i].evidence;
      && (FromLedger(ev) ==> Backed(producer, s.ledger, ev.value) && Published(s.writes, ev.value))
      && Consistent(ev)
  {
    RunKeepsInvariant(producer, p, steps);
    assert Good(producer, Run(producer, Begin(p), steps), Run(producer, Begin(p), steps).versions[i].evidence);
  }

  /** In every version of every run the router is conservative exactly when the
      calibration is not valid, and that is when drift was detected or no window seen. */
  lemma ConservativeExactlyWhenInvalid(producer: Producer, p: Policy, steps: seq<Step>, i: int)
    requires 0 <= i < |Run(producer, Begin(p), steps).versions|
    ensures var ev := Run(producer, Begin(p), steps).versions[i].evidence;
      ev.Some? ==>
        && (ev.value.drift.conservative <==> !ClaimsValid(ev))
        && (ev.value.drift.conservative <==> ev.value.drift.window.None? || ev.value.drift.window.value.detected)
        && (ev.value.drift.detected <==> ev.value.drift.window.Some? && ev.value.drift.window.value.detected)
  {
    PublishedStatusIsBacked(producer, p, steps, i);
  }

  /** What an accepted publication says: validity, mode and reason follow its window;
      identity, numbers and times are those of the request. */
  lemma PublicationSays(producer: Producer, r: Request, p: Policy, now: int)
    requires Planned(producer, r, p, now).Ok?
    ensures var ev := Planned(producer, r, p, now).value.evidence;
      && ev.calibration.Some?
      && var c, d, detected := ev.calibration.value, ev.drift, r.drift.Some? && r.drift.value.result.detected;
      && c.valid == (r.drift.Some? && !detected) && d.detected == detected && d.conservative == (r.drift.None? || detected)
      && c.reason == d.reason
      && c.reason == (if r.drift.None? then "MonitoringEvidenceMissing" else if detected then "DriftDetected" else "CalibrationValid")
      && c.source == "postgresql-v8" && c.sourceVersion == DecimalInt(p.version) && c.ids == ArtifactIds(r.artifact)
      && c.stats == Some(r.artifact.stats) && c.observedAt == d.observedAt == now
      && d.window == (if r.drift.Some? then Some(r.drift.value.result) else None)
      && d.sha256 == (if r.drift.Some? then r.drift.value.sha256 else "")
      && p.spec.Some? && d.detector == p.spec.value.detector && d.threshold == p.spec.value.threshold
  {
    assert WithPublication(Planned(producer, r, p, now).value.evidence, "") == Unpublished(r, p, now);
  }

  /** The ledger entry of a publication names the policy, the artifact and the window. */
  lemma PublicationEntryNames(producer: Producer, r: Request, p: Policy, now: int)
    requires Planned(producer, r, p, now).Ok?
    ensures var e := Planned(producer, r, p, now).value.entry;
      && e.tenant == r.tenant && e.namespace == p.namespace && e.name == p.name && e.uid == p.uid == r.uid
      && e.generation == p.generation == r.generation && e.version == p.version == r.version
      && e.artifactSHA256 == r.artifact.sha256 && e.driftSHA256 == (if r.drift.Some? then r.drift.value.sha256 else "")
      && e.softwareSHA256 == producer.software
      && e.payloadSHA256 == producer.payload(WithPublication(Planned(producer, r, p, now).value.evidence, ""))
  {
    assert WithPublication(Planned(producer, r, p, now).value.evidence, "") == Unpublished(r, p, now);
  }

  /** What the reconciler writes: nothing unless the policy is adaptive; what it finds,
      if production finds ledger evidence under a valid specification; otherwise an
      invalid, conservative status that says why. */
  lemma ReconcilerSays(p: Policy, mode: Mode, now: int)
    ensures var ev := Reconciled(p, mode, now);
      var usable := p.spec.Some? && p.spec.value.valid && p.spec.value.calibration.Some?;
      && (ev.None? <==> p.spec.None? || !p.spec.value.adaptive)
      && (ev.Some? && !usable ==> !ClaimsValid(ev) && ev.value.drift.conservative && ev.value.drift.reason == "CalibrationSpecInvalid")
      && (ev.Some? && usable && mode.Production? ==>
            if FromLedger(p.evidence) then ev == p.evidence
            else !ClaimsValid(ev) && ev.value.drift.conservative && ev.value.drift.reason == "CalibrationSourceNotLedgerAuthoritative")
      && (ev.Some? && usable && mode.Diagnostic? ==>
            match mode.reading
            case Some(found) =>
              && !FromLedger(ev) && (ClaimsValid(ev) <==> !found.drift.detected) && ev.value.drift.conservative == found.drift.detected
              && ev.value.drift.detected == found.drift.detected && ev.value.drift.window == Some(found.drift)
              && ev.value.calibration.value.ids == found.ids && ev.value.calibration.value.stats == Some(found.stats)
            case None => !ClaimsValid(ev) && ev.value.drift.conservative && ev.value.drift.reason == mode.reason)
  {
    assert |LEDGER| != |DIAGNOSTIC|;
  }

  /** Every write of a publisher names the version it replaced, and describes the
      calibration that version asked for. */
  lemma PublisherWritesMatchWhatTheyReplace(producer: Producer, p: Policy, steps: seq<Step>, i: int)
    requires 0 <= i < |Run(producer, Begin(p), steps).writes| && Run(producer, Begin(p), steps).writes[i].published
    ensures var w := Run(producer, Begin(p), steps).writes[i];
      && FromLedger(w.evidence) && w.evidence.value.calibration.value.sourceVersion == DecimalInt(w.replaced.version)
      && w.replaced.spec.Some? && w.replaced.spec.value.calibration == Some(w.evidence.value.calibration.value.ids)
  {
    RunKeepsInvariant(producer, p, steps);
    assert WriteGood(producer, Run(producer, Begin(p), steps), Run(producer, Begin(p), steps).writes[i]);
  }

  /** A production reconciler never replaces ledger evidence: over an adaptive policy
      with a valid calibration specification it writes back what it finds. */
  lemma ReconcilerKeepsLedgerEvidence(producer: Producer, s: System, id: nat)
    requires Invariant(producer, s) && id in s.tasks && s.tasks[id].Routing? && s.tasks[id].mode.Production?
    requires s.tasks[id].read.version == Last(s.versions).version
    requires var p := Last(s.versions);
      FromLedger(p.evidence) && p.spec.Some? && p.spec.value.adaptive && p.spec.value.valid && p.spec.value.calibration.Some?
    ensures Last(Next(producer, s, WriteStatus(id)).versions).evidence == Last(s.versions).evidence
  {
    WritesReplaceWhatTheyRead(producer, s, id);
    RoutingWrites(producer, s, id, Last(s.versions), s.tasks[id].now);
    assert Reconciled(Last(s.versions), Production, s.tasks[id].now) == Last(s.versions).evidence;
  }

  lemma RoutingWrites(producer: Producer, s: System, id: nat, p: Policy, now: int)
    requires s.versions != [] && p == Last(s.versions) && id in s.tasks && s.tasks[id] == Routing(p, Production, now)
    ensures Last(Next(producer, s, WriteStatus(id)).versions).evidence == Reconciled(p, Production, now)
  {
    LastAppended(s.versions, Rewritten(p, p, Reconciled(p, Production, now)));
  }

  lemma LastAppended(versions: seq<Policy>, p: Policy)
    ensures Last(versions + [p]) == p
  {}

  /** The valid claim of a policy would be accepted again under its specification. */
  predicate ClaimFitsSpec(p: Policy) {
    ClaimsValid(p.evidence) ==> p.spec.Some? && PassesTests(p.spec.value, p.evidence.value)
  }

  /** An edit of `before` to `now` keeps what was tested: the calibration, the detector and
      the threshold, with no minimum raised above the support recorded in the status. */
  predicate StillPasses(before: Spec, now: Spec, ev: Evidence)
    requires ev.calibration.Some? && ev.calibration.value.stats.Some? && ev.drift.window.Some?
  {
    && now.calibration == before.calibration && now.detector == before.detector && now.threshold == before.threshold
    && now.minimumSupport <= ev.calibration.value.stats.value.support && now.monitoringMinimum <= ev.drift.window.value.support
  }

  function EditThenReconcile(spec: Spec, id: nat, seen: nat, now: int): seq<Step> {
    [EditSpec(Some(spec))] + [StartRouting(id, seen, Production, now)] + [WriteStatus(id)]
  }

  /** After an edit the reconciler marks the new generation observed and keeps the
      old valid claim; if the claim fitted before, it fits now exactly when the edit
      kept what was tested. */
  lemma EditKeepsOldClaim(producer: Producer, s: System, spec: Spec, id: nat, now: int)
    requires s.versions != [] && id !in s.tasks && FromLedger(Last(s.versions).evidence) && ClaimsValid(Last(s.versions).evidence)
    requires spec.adaptive && spec.valid && spec.calibration.Some? && ClaimFitsSpec(Last(s.versions))
    ensures var before := Last(s.versions);
      var after := Last(Run(producer, s, EditThenReconcile(spec, id, |s.versions|, now)).versions);
      && after.evidence == before.evidence && ClaimsValid(after.evidence)
      && after.observedGeneration == after.generation == before.generation + 1
      && (ClaimFitsSpec(after) <==> StillPasses(before.spec.value, spec, before.evidence.value))
  {
    EditThenReconcileKeeps(producer, s, spec, id, now);
  }

  lemma EditThenReconcileKeeps(producer: Producer, s: System, spec: Spec, id: nat, now: int)
    requires s.versions != [] && id !in s.tasks && FromLedger(Last(s.versions).evidence)
    requires spec.adaptive && spec.valid && spec.calibration.Some?
    ensures var before := Last(s.versions);
      var after := Last(Run(producer, s, EditThenReconcile(spec, id, |s.versions|, now)).versions);
      && after.evidence == before.evidence && after.spec == Some(spec)
      && after.observedGeneration == after.generation == before.generation + 1
  {
    var edit, start := EditSpec(Some(spec)), StartRouting(id, |s.versions|, Production, now);
    var s1 := Next(producer, s, edit);
    RunLast(producer, s, [], edit);
    RunLast(producer, s, [edit], start);
    RunLast(producer, s, [edit] + [start], WriteStatus(id));
    assert [] + [edit] == [edit];
    assert Run(producer, s, []) == s;
    var edited := Last(s.versions).(spec := Some(spec), generation := Last(s.versions).generation + 1, version := Last(s.versions).version + 1);
    LastAppended(s.versions, edited);
    assert s1.versions == s.versions + [edited] && s1.versions[|s.versions|] == edited;
    var s2 := Next(producer, s1, start);
    assert s2.versions == s1.versions && s2.tasks[id] == Routing(edited, Production, now);
    assert Reconciled(edited, Production, now) == Last(s.versions).evidence;
    var s3 := Next(producer, s2, WriteStatus(id));
    LastAppended(s2.versions, Rewritten(edited, edited, Last(s.versions).evidence));
    assert s3.versions == s2.versions + [Rewritten(edited, edited, Last(s.versions).evidence)];
  }

  /** For example, asking for one more row than the artifact has: the claim stays valid
      and observed, and Publish would refuse the artifact it is about. */
  lemma RaisedSupportLeavesClaim(producer: Producer, s: System, id: nat, now: int)
    requires s.versions != [] && id !in s.tasks && FromLedger(Last(s.versions).evidence) && ClaimsValid(Last(s.versions).evidence)
    requires ClaimFitsSpec(Last(s.versions)) && Last(s.versions).spec.value.adaptive && Last(s.versions).spec.value.valid
    ensures var before := Last(s.versions);
      var spec := before.spec.value.(minimumSupport := before.evidence.value.calibration.value.stats.value.support + 1);
      var after := Last(Run(producer, s, EditThenReconcile(spec, id, |s.versions|, now)).versions);
      && FromLedger(after.evidence) && ClaimsValid(after.evidence)
      && after.observedGeneration == after.generation && !ClaimFitsSpec(after)
  {
    var before := Last(s.versions);
    EditKeepsOldClaim(producer, s, before.spec.value.(minimumSupport := before.evidence.value.calibration.value.stats.value.support + 1), id, now);
  }

  // ---- the ledger and the artifacts

  lemma EntryFieldsDetermine(a: Entry, b: Entry)
    requires EntryFields(a) == EntryFields(b)
    ensures a.(sha256 := "") == b.(sha256 := "")
  {
    var x, y := EntryFields(a), EntryFields(b);
    assert x[0] == y[0] && x[1] == y[1] && x[2] == y[2] && x[3] == y[3] && x[4] == y[4];
    assert x[5] == y[5] && x[6] == y[6] && x[7] == y[7] && x[8] == y[8] && x[9] == y[9];
    DecimalIntInjective(a.generation, b.generation);
    DecimalIntInjective(a.version, b.version);
  }

  /** Publications hashed from the same bytes are the same publication. */
  lemma PublicationDigestIsUnambiguous(a: Entry, b: Entry)
    requires FrameAll([Trim(DOMAIN)] + EntryFields(a)) == FrameAll([Trim(DOMAIN)] + EntryFields(b))
    ensures a.(sha256 := "") == b.(sha256 := "")
  {
    CanonicalUnambiguous(DOMAIN, EntryFields(a), DOMAIN, EntryFields(b));
    EntryFieldsDetermine(a, b);
  }

  /** Whatever the authoritative builder builds is accepted for publication by a
      policy that names it and asks for no more support than it has. */
  lemma BuiltArtifactFits(codec: Calibration.Codec, cfg: Calibration.LedgerConfig, rows: seq<Calibration.LedgerObservation>, spec: Spec)
    requires Calibration.LedgerBuilt(codec, cfg, rows).Ok?
    requires spec.calibration == Some(ArtifactIds(Calibration.LedgerBuilt(codec, cfg, rows).value))
    ensures ArtifactFits(Calibration.LedgerBuilt(codec, cfg, rows).value, spec) <==> spec.minimumSupport <= |rows|
  {
    CalibrationGuarantees.LedgerArtifactIsSound(codec, cfg, rows);
  }
}
