/** Change requests over whole runs of edits and reconciles. */
module ChangeRequestRuns {
  import opened Wrappers
  import opened Sequences
  import opened Text
  import opened ChangeRequest

  datatype Stored = Stored(meta: Meta, generation: int, spec: Spec, status: Status)

  /** An edit admitted by the API server, or a reconcile with whatever came of its
      attempt on the gateway. */
  datatype Event = Edit(spec: Spec) | Reconcile(env: Env, attempt: Attempt)

  // ---- the immutability rules of the API server

  predicate Admitted(s: Spec) {
    && (s.action.Reroute? ==> s.source != "" && s.target != "")
    && (s.action.AuthorizeRoute? ==> s.scope.Some?)
    && (s.action.AuthorizeRoute? && s.approval.Undecided? ==> s.decision.None?)
    && (s.action.AuthorizeRoute? && !s.approval.Undecided? ==>
          || (s.requestedBy == "" && s.proposalDigest == "" && s.decision.None?)
          || (s.requestedBy != "" && s.proposalDigest != "" && s.decision.Some?
              && s.decision.value.outcome == s.approval && s.decision.value.proposalDigest == s.proposalDigest
              && s.decision.value.scopeDigest == s.scope.value.scopeDigest
              && s.decision.value.validUntil == s.scope.value.validUntil && s.decision.value.reviewer != s.requestedBy))
  }

  predicate Allowed(old': Spec, s: Spec) {
    && s.action == old'.action
    && (old'.scope.Some? ==> s.scope == old'.scope)
    && (old'.requestedBy != "" ==> s.requestedBy == old'.requestedBy)
    && (old'.proposalDigest != "" ==> s.proposalDigest == old'.proposalDigest)
    && (old'.decision.Some? ==> s.decision == old'.decision)
    && (old'.approval.Undecided? || s.approval == old'.approval)
  }

  // ---- runs

  function Next(h: Hashes, o: Stored, ev: Event): Stored {
    match ev
    case Edit(spec) => o.(spec := spec, generation := o.generation + 1)
    case Reconcile(e, attempt) => o.(status := Reconciled(h, e, o.meta, o.generation, o.spec, o.status, attempt))
  }

  function After(h: Hashes, o: Stored, run: seq<Event>): Stored
    decreases |run|
  {
    if run == [] then o else Next(h, After(h, o, Front(run)), Last(run))
  }

  predicate Possible(o: Stored, ev: Event) {
    match ev
    case Edit(spec) => Admitted(spec) && Allowed(o.spec, spec)
    case Reconcile(e, _) => ClockRuns(e)
  }

  predicate PossibleRun(h: Hashes, o: Stored, run: seq<Event>)
    decreases |run|
  {
    run == [] || (PossibleRun(h, o, Front(run)) && Possible(After(h, o, Front(run)), Last(run)))
  }

  function Created(meta: Meta, spec: Spec): Stored { Stored(meta, 1, spec, EMPTY_STATUS) }

  // ---- the invariant

  predicate NoEvidence(st: Status) {
    st.approvedAt.None? && st.approvedScope == "" && st.approvedDecision == "" && st.approvedBy == ""
  }

  predicate FullEvidence(st: Status) {
    st.approvedAt.Some? && st.approvedScope != "" && st.approvedDecision != "" && st.approvedBy != ""
  }

  /** The recorded approval is a reviewer's decision on exactly this scope, bound to
      this object, by someone other than the requester. */
  predicate Endorsed(h: Hashes, o: Stored) {
    && o.spec.action.AuthorizeRoute? && o.spec.approval.Approve? && o.spec.scope.Some? && o.spec.decision.Some?
    && o.spec.requestedBy != ""
    && var scope, d, st := o.spec.scope.value, o.spec.decision.value, o.status;
    && st.approvedAt.Some?
    && st.approvedScope == scope.scopeDigest == ScopeHash(h, scope)
    && st.approvedDecision == d.decisionDigest == DecisionHash(h, o.meta, o.spec.requestedBy, d)
    && st.approvedBy == d.reviewer != o.spec.requestedBy && Trim(d.reviewer) != ""
    && d.group == REVIEWERS && d.requestUID == o.meta.uid && d.scopeDigest == scope.scopeDigest
    && d.validUntil == scope.validUntil
  }

  predicate Sound(h: Hashes, o: Stored) {
    if o.status.phase.Approved? then Endorsed(h, o) else NoEvidence(o.status)
  }

  lemma TrimEmpty()
    ensures Trim("") == ""
  {}

  lemma EndorsedHasEvidence(h: Hashes, o: Stored)
    requires Endorsed(h, o)
    ensures FullEvidence(o.status)
  {
    TrimEmpty();
    assert IsSHA256(ScopeHash(h, o.spec.scope.value));
    assert IsSHA256(DecisionHash(h, o.meta, o.spec.requestedBy, o.spec.decision.value));
  }

  lemma ApprovalSound(h: Hashes, e: Env, o: Stored, st: Status)
    requires o.spec.action.AuthorizeRoute? && o.spec.approval.Approve?
    ensures Sound(h, o.(status := ApprovalOutcome(h, e, o.meta, o.spec, st)))
  {
    TrimEmpty();
  }

  lemma OutcomeSound(h: Hashes, e: Env, o: Stored, st: Status, attempt: Attempt)
    requires Sound(h, o.(status := st)) && Outcome(h, e, o.meta, o.spec, st, attempt).Some?
    ensures Sound(h, o.(status := Outcome(h, e, o.meta, o.spec, st, attempt).value))
  {
    if o.spec.action.AuthorizeRoute? && o.spec.approval.Approve? { ApprovalSound(h, e, o, st); }
  }

  lemma StepSound(h: Hashes, o: Stored, ev: Event)
    requires Sound(h, o) && Possible(o, ev)
    ensures Sound(h, Next(h, o, ev))
  {
    match ev {
      case Edit(spec) =>
      case Reconcile(e, attempt) =>
        var observed := Observed(o.meta, o.generation, o.spec, o.status);
        assert Sound(h, o.(status := observed));
        if Outcome(h, e, o.meta, o.spec, observed, attempt).Some? { OutcomeSound(h, e, o, observed, attempt); }
    }
  }

  lemma {:induction false} RunSound(h: Hashes, meta: Meta, spec: Spec, run: seq<Event>)
    requires PossibleRun(h, Created(meta, spec), run)
    ensures Sound(h, After(h, Created(meta, spec), run))
  {
    if run != [] {
      RunSound(h, meta, spec, Front(run));
      StepSound(h, After(h, Created(meta, spec), Front(run)), Last(run));
    }
  }

  /** In every reachable state the four evidence fields are all set, and endorse the
      present scope and decision, if the phase is Approved; otherwise all are empty. */
  lemma EvidenceExactlyWhenApproved(h: Hashes, meta: Meta, spec: Spec, run: seq<Event>)
    requires PossibleRun(h, Created(meta, spec), run)
    ensures var o := After(h, Created(meta, spec), run);
      if o.status.phase.Approved? then FullEvidence(o.status) && Endorsed(h, o) else NoEvidence(o.status)
  {
    RunSound(h, meta, spec, run);
    var o := After(h, Created(meta, spec), run);
    if o.status.phase.Approved? { EndorsedHasEvidence(h, o); }
  }

  // ---- terminal phases

  /** What a consumer reads of a finished request. */
  predicate SameResult(a: Status, b: Status) {
    a.(observedGeneration := 0, expiresAt := None) == b.(observedGeneration := 0, expiresAt := None)
  }

  /** Actuated, Rejected and Expired are absorbing: nothing that happens later changes
      the phase, the evidence or the actuation time. */
  lemma {:induction false} TerminalIsForever(h: Hashes, o: Stored, run: seq<Event>)
    requires Terminal(o.status.phase)
    ensures SameResult(After(h, o, run).status, o.status)
  {
    if run != [] { TerminalIsForever(h, o, Front(run)); }
  }

  /** The reconcile's writes all go through. */
  predicate Writes(e: Env, o: Stored) {
    e.lastWrite && (o.status.expiresAt == Some(Expiry(o.meta, o.spec)) || e.firstWrite)
  }

  /** A reconcile at or after expiry ends the request, without evidence. */
  lemma ExpiryEnds(h: Hashes, o: Stored, e: Env, attempt: Attempt)
    requires Writes(e, o) && e.expiryClock >= Expiry(o.meta, o.spec)
    ensures var after := Next(h, o, Reconcile(e, attempt)).status;
      && Terminal(after.phase)
      && (!Terminal(o.status.phase) ==> after.phase.Expired? && NoEvidence(after))
  {}

  lemma {:induction false} AfterJoin(h: Hashes, o: Stored, a: seq<Event>, b: seq<Event>)
    ensures After(h, o, a + b) == After(h, After(h, o, a), b)
    decreases |b|
  {
    if b == [] {
      assert a + b == a;
    } else {
      AfterJoin(h, o, a, Front(b));
      assert Front(a + b) == a + Front(b) && Last(a + b) == Last(b);
    }
  }

  /** Expiry is final: once a reconcile of a reachable request has written at or after
      its expiry, every continuation leaves it in one terminal phase, without evidence;
      Expired, unless it had ended before. */
  lemma ExpiryIsFinal(h: Hashes, meta: Meta, spec: Spec, run: seq<Event>, e: Env, attempt: Attempt, more: seq<Event>)
    requires PossibleRun(h, Created(meta, spec), run)
    requires var o := After(h, Created(meta, spec), run); Writes(e, o) && e.expiryClock >= Expiry(o.meta, o.spec)
    ensures var o := After(h, Created(meta, spec), run);
      var final := After(h, Created(meta, spec), run + [Reconcile(e, attempt)] + more).status;
      && NoEvidence(final)
      && final.phase == if Terminal(o.status.phase) then o.status.phase else Expired
  {
    var o := After(h, Created(meta, spec), run);
    RunSound(h, meta, spec, run);
    AfterJoin(h, Created(meta, spec), run + [Reconcile(e, attempt)], more);
    AfterJoin(h, Created(meta, spec), run, [Reconcile(e, attempt)]);
    assert Front([Reconcile(e, attempt)]) == [] && After(h, o, []) == o;
    ExpiryEnds(h, o, e, attempt);
    var ended := Next(h, o, Reconcile(e, attempt));
    EndedHasNoEvidence(h, o, e, attempt);
    TerminalIsForever(h, ended, more);
  }

  lemma EndedHasNoEvidence(h: Hashes, o: Stored, e: Env, attempt: Attempt)
    requires Sound(h, o) && Writes(e, o) && e.expiryClock >= Expiry(o.meta, o.spec)
    ensures var after := Next(h, o, Reconcile(e, attempt)).status;
      && NoEvidence(after) && after.phase == if Terminal(o.status.phase) then o.status.phase else Expired
  {
    ExpiryEnds(h, o, e, attempt);
  }

  // ---- approval

  lemma ApprovalGivenExactlyWhen(h: Hashes, e: Env, meta: Meta, spec: Spec, st: Status)
    ensures ApprovalOutcome(h, e, meta, spec, st).phase.Approved? <==>
      && spec.scope.Some? && ScopeIntact(h, spec.scope.value)
      && ValidDecision(h, meta, spec, e.decisionClock)
      && e.scopeClock < spec.scope.value.validUntil
      && ReferencesCurrent(e.world, spec.scope.value)
  {}

  lemma ReconcileWrites(h: Hashes, o: Stored, e: Env, attempt: Attempt)
    requires Writes(e, o) && !Terminal(o.status.phase)
    ensures var st := Observed(o.meta, o.generation, o.spec, o.status);
      var outcome := Outcome(h, e, o.meta, o.spec, st, attempt);
      outcome.Some? ==> Next(h, o, Reconcile(e, attempt)).status == outcome.value
  {}

  /** A reconcile of an unfinished request leaves it Approved exactly when, at the
      instants it looked, the request had not expired, the scope was intact and
      unexpired, its references current, and the reviewer's decision valid. */
  lemma ApprovedExactlyWhen(h: Hashes, o: Stored, e: Env, attempt: Attempt)
    requires Writes(e, o) && !Terminal(o.status.phase) && Sound(h, o)
    requires o.spec.action.AuthorizeRoute?
    ensures Next(h, o, Reconcile(e, attempt)).status.phase.Approved? <==>
      && o.spec.approval.Approve? && e.expiryClock < Expiry(o.meta, o.spec)
      && o.spec.scope.Some? && ScopeIntact(h, o.spec.scope.value)
      && ValidDecision(h, o.meta, o.spec, e.decisionClock)
      && e.scopeClock < o.spec.scope.value.validUntil
      && ReferencesCurrent(e.world, o.spec.scope.value)
  {
    ReconcileWrites(h, o, e, attempt);
    ApprovalGivenExactlyWhen(h, e, o.meta, o.spec, Observed(o.meta, o.generation, o.spec, o.status));
  }

  /** This event grants the approval: a reconcile that, at the instants it looked, found
      an unexpired request, an intact and unexpired scope, current references and a
      valid decision. */
  predicate Grants(h: Hashes, o: Stored, ev: Event) {
    && ev.Reconcile? && Writes(ev.env, o) && !Terminal(o.status.phase)
    && o.spec.action.AuthorizeRoute? && o.spec.approval.Approve? && ev.env.expiryClock < Expiry(o.meta, o.spec)
    && o.spec.scope.Some? && ScopeIntact(h, o.spec.scope.value)
    && ValidDecision(h, o.meta, o.spec, ev.env.decisionClock)
    && ev.env.scopeClock < o.spec.scope.value.validUntil
    && ReferencesCurrent(ev.env.world, o.spec.scope.value)
  }

  /** What the approval is about has not changed. */
  predicate SameCase(a: Spec, b: Spec) {
    && a.action == b.action && a.approval == b.approval && a.scope == b.scope && a.decision == b.decision
    && a.requestedBy == b.requestedBy && a.proposalDigest == b.proposalDigest
  }

  /** One event that leaves the request Approved grants it now, or keeps what was granted. */
  lemma ApprovedByOrKept(h: Hashes, o: Stored, ev: Event)
    requires Sound(h, o) && Possible(o, ev) && Next(h, o, ev).status.phase.Approved?
    ensures var after := Next(h, o, ev);
      || (Grants(h, o, ev) && after.spec == o.spec && after.status.approvedAt == Some(ev.env.approvalClock))
      || (o.status.phase.Approved? && after.status.approvedAt == o.status.approvedAt
          && (ev.Reconcile? ==> after.spec == o.spec))
  {
    if ev.Reconcile? {
      var e := ev.env;
      var st := Observed(o.meta, o.generation, o.spec, o.status);
      if Writes(e, o) && !Terminal(o.status.phase) {
        ReconcileWrites(h, o, e, ev.attempt);
        if o.spec.action.AuthorizeRoute? && o.spec.approval.Approve? && e.expiryClock < Expiry(o.meta, o.spec) {
          ApprovalGivenExactlyWhen(h, e, o.meta, o.spec, st);
        }
      }
    }
  }

  /** An edit cannot touch what an approval is about. */
  lemma EditKeepsCase(h: Hashes, o: Stored, granted: Spec, spec: Spec)
    requires Endorsed(h, o) && SameCase(o.spec, granted) && granted.proposalDigest != "" && Allowed(o.spec, spec)
    ensures SameCase(spec, granted)
  {}

  /** The approval in force after `run` was granted by its event `n`, on what the
      specification still says, at the recorded time. */
  ghost predicate GrantedBy(h: Hashes, start: Stored, run: seq<Event>, n: nat) {
    && n < |run| && Grants(h, After(h, start, run[..n]), run[n])
    && After(h, start, run).status.approvedAt == Some(run[n].env.approvalClock)
    && SameCase(After(h, start, run).spec, After(h, start, run[..n]).spec)
  }

  /** Every Approved state a run can reach was granted: some reconcile of that very run
      found this decision valid, this scope intact and unexpired and its references
      current, and the approval time is that reconcile's clock. */
  lemma {:induction false} ApprovedWasGranted(h: Hashes, meta: Meta, spec: Spec, run: seq<Event>) returns (n: nat)
    requires PossibleRun(h, Created(meta, spec), run) && After(h, Created(meta, spec), run).status.phase.Approved?
    ensures GrantedBy(h, Created(meta, spec), run, n)
  {
    var start := Created(meta, spec);
    assert run != [];
    var o, ev := After(h, start, Front(run)), Last(run);
    RunSound(h, meta, spec, Front(run));
    ApprovedByOrKept(h, o, ev);
    if Grants(h, o, ev) && Next(h, o, ev).status.approvedAt == Some(ev.env.approvalClock) {
      n := |run| - 1;
      assert run[..n] == Front(run);
    } else {
      n := ApprovedWasGranted(h, meta, spec, Front(run));
      assert run[..n] == Front(run)[..n] && run[n] == Front(run)[n];
      if ev.Edit? {
        GrantHasProposal(h, After(h, start, run[..n]), run[n]);
        EditKeepsCase(h, o, After(h, start, run[..n]).spec, ev.spec);
      }
    }
  }

  lemma GrantHasProposal(h: Hashes, o: Stored, ev: Event)
    requires Grants(h, o, ev)
    ensures o.spec.proposalDigest != ""
  {
    assert IsSHA256(ProposalHash(h, o.meta, o.spec));
  }

  /** A reconcile that finds the approval still good keeps the time it was given. */
  lemma ReplayKeepsApprovalTime(h: Hashes, o: Stored, ev: Event)
    requires Sound(h, o) && Possible(o, ev)
    requires o.status.phase.Approved? && Next(h, o, ev).status.phase.Approved?
    ensures Next(h, o, ev).status.approvedAt == o.status.approvedAt
    ensures Next(h, o, ev).status.approvedBy == o.status.approvedBy
    ensures Next(h, o, ev).status.approvedDecision == o.status.approvedDecision
  {}

  /** Through any stretch in which the request stays Approved, the approval time,
      reviewer and decision are the ones it began with. */
  lemma {:induction false} ApprovalIsStable(h: Hashes, meta: Meta, spec: Spec, run: seq<Event>, more: seq<Event>)
    requires PossibleRun(h, Created(meta, spec), run + more)
    requires forall n | 0 <= n <= |more| :: After(h, Created(meta, spec), run + more[..n]).status.phase.Approved?
    ensures var before, after := After(h, Created(meta, spec), run).status, After(h, Created(meta, spec), run + more).status;
      && after.approvedAt == before.approvedAt && after.approvedBy == before.approvedBy
      && after.approvedDecision == before.approvedDecision
    decreases |more|
  {
    if more == [] {
      assert run + more == run;
    } else {
      var first, whole := run + Front(more), run + more;
      assert Front(whole) == first && Last(whole) == Last(more);
      assert more[..|more| - 1] == Front(more) && more[..|more|] == more;
      forall n | 0 <= n <= |Front(more)| ensures After(h, Created(meta, spec), run + Front(more)[..n]).status.phase.Approved? {
        assert Front(more)[..n] == more[..n];
      }
      ApprovalIsStable(h, meta, spec, run, Front(more));
      RunSound(h, meta, spec, first);
      ReplayKeepsApprovalTime(h, After(h, Created(meta, spec), first), Last(more));
    }
  }

  // ---- decisions are final

  lemma {:induction false} DecisionStands(h: Hashes, o: Stored, run: seq<Event>)
    requires PossibleRun(h, o, run) && !o.spec.approval.Undecided?
    ensures After(h, o, run).spec.approval == o.spec.approval && After(h, o, run).spec.action == o.spec.action
  {
    if run != [] { DecisionStands(h, o, Front(run)); }
  }

  lemma {:induction false} RunSoundFrom(h: Hashes, o: Stored, run: seq<Event>)
    requires PossibleRun(h, o, run) && Sound(h, o)
    ensures Sound(h, After(h, o, run))
  {
    if run != [] {
      RunSoundFrom(h, o, Front(run));
      StepSound(h, After(h, o, Front(run)), Last(run));
    }
  }

  lemma RejectedIsNotApproved(h: Hashes, o: Stored)
    requires Sound(h, o) && o.spec.approval.Reject?
    ensures !o.status.phase.Approved?
  {}

  lemma AuthorizationOutcomes(h: Hashes, o: Stored, ev: Event)
    requires o.spec.approval.Approve? && o.spec.action.AuthorizeRoute?
    ensures var next := Next(h, o, ev).status.phase;
      next == o.status.phase || next.Approved? || next.Failed? || next.Expired?
  {
    if ev.Reconcile? {
      var st := Observed(o.meta, o.generation, o.spec, o.status);
      var phase := ApprovalOutcome(h, ev.env, o.meta, o.spec, st).phase;
      assert phase.Approved? || phase.Failed? || phase.Expired?;
    }
  }

  /** Once rejected, a request is never Approved; once approved, an authorization is
      never Pending, Rejected or Actuated by a later reconcile. */
  lemma DecisionsAreFinal(h: Hashes, o: Stored, run: seq<Event>, ev: Event)
    requires Sound(h, o) && PossibleRun(h, o, run) && !o.spec.approval.Undecided?
    ensures o.spec.approval.Reject? ==> !After(h, o, run).status.phase.Approved?
    ensures o.spec.approval.Approve? && o.spec.action.AuthorizeRoute? ==>
      var now := After(h, o, run);
      var next := Next(h, now, ev).status.phase;
      next == now.status.phase || next.Approved? || next.Failed? || next.Expired?
  {
    var now := After(h, o, run);
    DecisionStands(h, o, run);
    RunSoundFrom(h, o, run);
    if now.spec.approval.Reject? { RejectedIsNotApproved(h, now); }
    if now.spec.approval.Approve? && now.spec.action.AuthorizeRoute? { AuthorizationOutcomes(h, now, ev); }
  }

  /** Why the action may not change: an approved authorization turned into a reroute
      would keep its evidence in the Failed phase. */
  lemma ActionMustNotChange(h: Hashes, o: Stored, e: Env)
    requires o.status.phase.Approved? && Endorsed(h, o)
    requires Writes(e, o.(spec := o.spec.(action := Reroute))) && e.expiryClock < Expiry(o.meta, o.spec.(action := Reroute))
    ensures var changed := o.spec.(action := Reroute);
      !Allowed(o.spec, changed) &&
      var after := Next(h, Next(h, o, Edit(changed)), Reconcile(e, NoTarget)).status;
      after.phase.Failed? && FullEvidence(after)
  {
    EndorsedHasEvidence(h, o);
  }
}
