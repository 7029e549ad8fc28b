/** How a reconcile ends: the phase it leaves, for every request and every decision. */
module ChangeRequestOutcomes {
  import opened Wrappers
  import opened Sequences
  import opened Text
  import opened ChangeRequest
  import opened ChangeRequestRuns

  // ---- expiry

  /** An authorization expires with its scope; any other request after the time it
      asks for, or after two days. */
  lemma ExpiryIs(meta: Meta, spec: Spec)
    ensures spec.action == AuthorizeRoute && spec.scope.Some? ==> Expiry(meta, spec) == spec.scope.value.validUntil
    ensures spec.action == Reroute || spec.scope.None? ==>
      Expiry(meta, spec) - meta.createdAt ==
        if spec.expiresAfter.Some? && spec.expiresAfter.value > 0 then spec.expiresAfter.value else 172_800_000_000_000
  {}

  /** An unfinished request that a reconcile finds before its expiry, and writes back. */
  predicate Live(o: Stored, e: Env) {
    && Writes(e, o) && o.status.phase !in {Actuated, Rejected, Expired} && e.expiryClock < Expiry(o.meta, o.spec)
  }

  function PhaseAfter(h: Hashes, o: Stored, e: Env, attempt: Attempt): Phase {
    Next(h, o, Reconcile(e, attempt)).status.phase
  }

  lemma LiveOutcome(h: Hashes, o: Stored, e: Env, attempt: Attempt)
    requires Live(o, e)
    ensures var st := Observed(o.meta, o.generation, o.spec, o.status);
      Next(h, o, Reconcile(e, attempt)).status ==
        match Outcome(h, e, o.meta, o.spec, st, attempt)
        case Some(out) => out
        case None => if o.status.expiresAt == Some(Expiry(o.meta, o.spec)) then o.status else st
  {}

  // ---- rejection and waiting

  /** A live request becomes Rejected exactly when it is rejected, and the rejection of
      an authorization is a valid decision; an invalid one fails it. Nothing of an
      approval is left. */
  lemma RejectedExactlyWhen(h: Hashes, o: Stored, e: Env, attempt: Attempt)
    requires Live(o, e)
    ensures var after := Next(h, o, Reconcile(e, attempt)).status;
      && (after.phase == Rejected <==>
            o.spec.approval == Reject && (o.spec.action == Reroute || ValidDecision(h, o.meta, o.spec, e.decisionClock)))
      && (o.spec.approval == Reject ==> after.phase in {Rejected, Failed} && NoEvidence(after))
  {
    LiveOutcome(h, o, e, attempt);
  }

  /** An undecided request waits; one that waits is undecided, or was waiting already
      and its approved reroute could not be attempted to the end. */
  lemma PendingExactlyWhen(h: Hashes, o: Stored, e: Env, attempt: Attempt)
    requires Live(o, e)
    ensures PhaseAfter(h, o, e, attempt) == Pending <==>
      || o.spec.approval == Undecided
      || (o.status.phase == Pending && o.spec.approval == Approve && o.spec.action == Reroute && attempt in {Unreadable, UpdateFailed})
    ensures o.spec.approval == Undecided ==> NoEvidence(Next(h, o, Reconcile(e, attempt)).status)
  {
    LiveOutcome(h, o, e, attempt);
  }

  // ---- an approved reroute

  /** An approved reroute ends Actuated, at the reconcile's clock, exactly when it is
      carried out; it fails without a gateway, a target or a source; and what may yet
      succeed leaves the phase alone. */
  lemma ApprovedRerouteEnds(h: Hashes, o: Stored, e: Env, attempt: Attempt)
    requires Live(o, e) && o.spec.approval == Approve && o.spec.action == Reroute
    ensures var after := Next(h, o, Reconcile(e, attempt)).status;
      && (after.phase == Actuated <==> attempt == Done)
      && (attempt == Done ==> after.actuatedAt == Some(e.approvalClock))
      && (attempt in {NoGateway, NoTarget, NoSource} ==> after.phase == Failed)
      && (attempt in {Unreadable, UpdateFailed} ==> after.phase == o.status.phase)
      && (attempt != Done ==> after.actuatedAt == o.status.actuatedAt)
  {
    LiveOutcome(h, o, e, attempt);
  }

  // ---- an approved authorization

  /** The reviewer, of the approvers' group and not the requester, decided on this very
      object, proposal and scope, in the last moment it could count. */
  predicate Decided(h: Hashes, meta: Meta, spec: Spec, now: int) {
    && spec.scope.Some? && spec.decision.Some?
    && var scope, d := spec.scope.value, spec.decision.value;
    && d.outcome == spec.approval && d.reviewer != spec.requestedBy && Trim(d.reviewer) != "" && Trim(spec.requestedBy) != ""
    && d.group == "aiops.imperium.io:gov-ar-approval-reviewers"
    && d.requestUID == meta.uid != "" && d.admissionUID != ""
    && spec.proposalDigest == d.proposalDigest
      == h.proposal(meta.namespace, meta.name, spec.(approval := Undecided, decision := None, proposalDigest := ""))
    && d.scopeDigest == scope.scopeDigest && d.validUntil == scope.validUntil
    && d.decisionDigest == h.decision(meta.namespace, meta.name, spec.requestedBy, d.(decisionDigest := ""))
    && d.decidedAt != 0 && d.decidedAt - 5_000_000_000 <= now < d.validUntil && d.decidedAt < d.validUntil
  }

  lemma DecidedIsValid(h: Hashes, meta: Meta, spec: Spec, now: int)
    requires spec.action == AuthorizeRoute && spec.approval != Undecided
    ensures ValidDecision(h, meta, spec, now) <==> Decided(h, meta, spec, now)
  {}

  /** The object of that name exists, under the recorded identity and generation. */
  predicate Found(name: string, uid: string, generation: int, objects: map<string, Object>) {
    name != "" && uid != "" && generation > 0 && name in objects && objects[name] == Object(uid, generation)
  }

  predicate Resolved(w: World, s: Scope) {
    && Found(s.policy.name, s.policy.uid, s.policy.generation, w.policies)
    && Found(s.provider.name, s.provider.uid, s.provider.generation, w.providers)
    && s.model.name != "" && s.model.uid != "" && s.model.generation > 0
    && s.model.name in w.models && w.models[s.model.name] == Model(Object(s.model.uid, s.model.generation), s.provider.name)
  }

  lemma ResolvedIsCurrent(w: World, s: Scope)
    ensures ReferencesCurrent(w, s) <==> Resolved(w, s)
  {}

  /** The scope names a snapshot and hashes to its own digest. */
  predicate Sealed(h: Hashes, s: Scope) {
    IsSHA256(s.snapshotDigest) && s.scopeDigest == h.scope(s.(scopeDigest := ""))
  }

  lemma SealedIsIntact(h: Hashes, s: Scope)
    ensures ScopeIntact(h, s) <==> Sealed(h, s)
  {}

  /** The status already records this very approval. */
  predicate Recorded(st: Status, spec: Spec)
    requires spec.scope.Some? && spec.decision.Some?
  {
    && st.phase == Approved && st.approvedAt.Some? && st.approvedScope == spec.scope.value.scopeDigest
    && st.approvedDecision == spec.decision.value.decisionDigest && st.approvedBy == spec.decision.value.reviewer
  }

  /** An approved authorization ends Approved, Expired or Failed, in that order of what
      has to be wrong with it, and records exactly the approval it carries. */
  lemma AuthorizationEnds(h: Hashes, o: Stored, e: Env, attempt: Attempt)
    requires Live(o, e) && o.spec.approval == Approve && o.spec.action == AuthorizeRoute
    ensures var after, spec := Next(h, o, Reconcile(e, attempt)).status, o.spec;
      var sound := spec.scope.Some? && Sealed(h, spec.scope.value) && Decided(h, o.meta, spec, e.decisionClock);
      && (after.phase == Approved <==>
            sound && e.scopeClock < spec.scope.value.validUntil && Resolved(e.world, spec.scope.value))
      && (after.phase == Expired <==> sound && e.scopeClock >= spec.scope.value.validUntil)
      && after.phase in {Approved, Expired, Failed}
      && (after.phase != Approved ==> NoEvidence(after))
      && (after.phase == Approved ==>
            && after.approvedScope == spec.scope.value.scopeDigest && after.approvedDecision == spec.decision.value.decisionDigest
            && after.approvedBy == spec.decision.value.reviewer
            && after.approvedAt == if Recorded(o.status, spec) then o.status.approvedAt else Some(e.approvalClock))
  {
    LiveOutcome(h, o, e, attempt);
    DecidedIsValid(h, o.meta, o.spec, e.decisionClock);
    if o.spec.scope.Some? {
      SealedIsIntact(h, o.spec.scope.value);
      ResolvedIsCurrent(e.world, o.spec.scope.value);
    }
  }

  // ---- what every reconcile records

  /** A written reconcile of a live request records the generation and the expiry it
      acted on -- the generation only when it writes anything else. */
  lemma ReconcileRecords(h: Hashes, o: Stored, e: Env, attempt: Attempt)
    requires Live(o, e)
    ensures var after := Next(h, o, Reconcile(e, attempt)).status;
      && after.expiresAt == Some(Expiry(o.meta, o.spec))
      && (after.observedGeneration == o.generation || after == o.status)
  {
    LiveOutcome(h, o, e, attempt);
  }

  /** Where a write fails, what it would have recorded is lost: everything, if the expiry
      had to be written first; otherwise all but the expiry and generation. A finished
      request records those alone. */
  lemma LostWrites(h: Hashes, o: Stored, e: Env, attempt: Attempt)
    ensures var after, expiry := Next(h, o, Reconcile(e, attempt)).status, Some(Expiry(o.meta, o.spec));
      var noted := o.status.(observedGeneration := o.generation, expiresAt := expiry);
      && (o.status.expiresAt != expiry && !e.firstWrite ==> after == o.status)
      && (o.status.expiresAt != expiry && e.firstWrite && (!e.lastWrite || Terminal(o.status.phase)) ==> after == noted)
      && (o.status.expiresAt == expiry && (!e.lastWrite || Terminal(o.status.phase)) ==> after == o.status)
      && (o.status.phase in {Actuated, Rejected, Expired} ==> after.phase == o.status.phase)
  {}

  // ---- rejection is final

  /** Once a reconcile has rejected a request, every continuation leaves it Rejected,
      with no evidence of an approval. */
  lemma RejectionIsFinal(h: Hashes, meta: Meta, spec: Spec, run: seq<Event>, e: Env, attempt: Attempt, more: seq<Event>)
    requires var o := After(h, Created(meta, spec), run);
      && Live(o, e) && o.spec.approval == Reject && (o.spec.action == Reroute || ValidDecision(h, o.meta, o.spec, e.decisionClock))
    ensures var final := After(h, Created(meta, spec), run + [Reconcile(e, attempt)] + more).status;
      final.phase == Rejected && NoEvidence(final)
  {
    var o := After(h, Created(meta, spec), run);
    AfterJoin(h, Created(meta, spec), run + [Reconcile(e, attempt)], more);
    AfterJoin(h, Created(meta, spec), run, [Reconcile(e, attempt)]);
    assert Front([Reconcile(e, attempt)]) == [] && After(h, o, []) == o;
    RejectedExactlyWhen(h, o, e, attempt);
    TerminalIsForever(h, Next(h, o, Reconcile(e, attempt)), more);
  }
}
