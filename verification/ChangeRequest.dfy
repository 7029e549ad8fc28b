/** AIChangeRequest: one reconcile of a human-approved change, from the immutable
    decision record to the phase and approval evidence in status. */
module ChangeRequest {
  import opened Wrappers
  import opened Text
  import opened GatewayActuator

  // ---- the object

  datatype Action = Reroute | AuthorizeRoute

  datatype Approval = Undecided | Approve | Reject

  datatype Phase = NoPhase | Pending | Approved | Actuated | Rejected | Expired | Failed

  datatype Ref = Ref(name: string, uid: string, generation: int)

  datatype Scope = Scope(policy: Ref, model: Ref, provider: Ref, snapshotDigest: string, validUntil: int, scopeDigest: string)

  datatype Decision = Decision(
    outcome: Approval, reviewer: string, group: string, decidedAt: int, validUntil: int, requestUID: string,
    admissionUID: string, proposalDigest: string, scopeDigest: string, decisionDigest: string)

  /** `notes` stands for the descriptive fields a requester may still edit. */
  datatype Spec = Spec(
    action: Action, source: string, target: string, scope: Option<Scope>, requestedBy: string, proposalDigest: string,
    decision: Option<Decision>, expiresAfter: Option<int>, approval: Approval, notes: string)

  datatype Meta = Meta(namespace: string, name: string, uid: string, createdAt: int)

  datatype Status = Status(
    observedGeneration: int, phase: Phase, approvedAt: Option<int>, approvedScope: string, approvedDecision: string,
    approvedBy: string, expiresAt: Option<int>, actuatedAt: Option<int>)

  const EMPTY_STATUS := Status(0, NoPhase, None, "", "", "", None, None)

  const REVIEWERS := "aiops.imperium.io:gov-ar-approval-reviewers"
  const CHANGE_REQUEST_KEY := "aiops.imperium.io/change-request-reroutes"
  const SECOND := 1_000_000_000
  const DEFAULT_EXPIRY := 48 * 3600 * SECOND

  /** SHA-256 over the canonical JSON of a scope, a proposal and a decision. */
  datatype Hashes = Hashes(
    scope: Scope -> Digest, proposal: (string, string, Spec) -> Digest, decision: (string, string, string, Decision) -> Digest)

  function ScopeHash(h: Hashes, s: Scope): Digest { h.scope(s.(scopeDigest := "")) }

  function ProposalHash(h: Hashes, meta: Meta, spec: Spec): Digest {
    h.proposal(meta.namespace, meta.name, spec.(approval := Undecided, decision := None, proposalDigest := ""))
  }

  function DecisionHash(h: Hashes, meta: Meta, requestedBy: string, d: Decision): Digest {
    h.decision(meta.namespace, meta.name, requestedBy, d.(decisionDigest := ""))
  }

  // ---- the decision record

  predicate DecisionBound(h: Hashes, meta: Meta, spec: Spec, scope: Scope, d: Decision) {
    && d.outcome == spec.approval && !d.outcome.Undecided?
    && Trim(d.reviewer) != "" && d.reviewer != spec.requestedBy && d.group == REVIEWERS
    && meta.uid != "" && d.requestUID == meta.uid && d.admissionUID != ""
    && d.proposalDigest == spec.proposalDigest && d.scopeDigest == scope.scopeDigest && d.validUntil == scope.validUntil
    && d.decisionDigest == DecisionHash(h, meta, spec.requestedBy, d)
  }

  predicate DecisionTimely(d: Decision, now: int) {
    d.decidedAt != 0 && d.decidedAt <= now + 5 * SECOND && d.decidedAt < d.validUntil && now < d.validUntil
  }

  predicate ValidDecision(h: Hashes, meta: Meta, spec: Spec, now: int) {
    && spec.action.AuthorizeRoute? && spec.scope.Some?
    && Trim(spec.requestedBy) != "" && spec.proposalDigest == ProposalHash(h, meta, spec)
    && spec.decision.Some?
    && DecisionBound(h, meta, spec, spec.scope.value, spec.decision.value)
    && DecisionTimely(spec.decision.value, now)
  }

  // ---- the world a reconcile reads

  datatype Object = Object(uid: string, generation: int)

  datatype Model = Model(identity: Object, providerRef: string)

  datatype World = World(policies: map<string, Object>, models: map<string, Model>, providers: map<string, Object>)

  predicate ValidRef(r: Ref) { r.name != "" && r.uid != "" && r.generation > 0 }

  predicate Current(o: Object, r: Ref) { o.uid == r.uid && o.generation == r.generation }

  predicate ReferencesCurrent(w: World, s: Scope) {
    && ValidRef(s.policy) && ValidRef(s.model) && ValidRef(s.provider)
    && s.policy.name in w.policies && Current(w.policies[s.policy.name], s.policy)
    && s.model.name in w.models && Current(w.models[s.model.name].identity, s.model)
    && s.provider.name in w.providers && Current(w.providers[s.provider.name], s.provider)
    && w.models[s.model.name].providerRef == s.provider.name
  }

  /** One reconcile's surroundings: its successive clock readings, the objects it
      resolves, the gateway's state, and which of its two status writes succeed. */
  datatype Env = Env(
    expiryClock: int, decisionClock: int, scopeClock: int, approvalClock: int, world: World,
    gatewayCRD: bool, gatewayReadable: bool, failing: set<nat>, firstWrite: bool, lastWrite: bool)

  predicate ClockRuns(e: Env) {
    e.expiryClock <= e.decisionClock <= e.scopeClock <= e.approvalClock
  }

  // ---- what a reconcile decides

  function Expiry(meta: Meta, spec: Spec): int {
    if spec.action.AuthorizeRoute? && spec.scope.Some? then spec.scope.value.validUntil
    else if spec.expiresAfter.Some? && spec.expiresAfter.value > 0 then meta.createdAt + spec.expiresAfter.value
    else meta.createdAt + DEFAULT_EXPIRY
  }

  predicate Terminal(p: Phase) { p.Actuated? || p.Rejected? || p.Expired? }

  function Observed(meta: Meta, generation: int, spec: Spec, st: Status): Status {
    st.(observedGeneration := generation, expiresAt := Some(Expiry(meta, spec)))
  }

  /** The phase, with the approval evidence withdrawn. */
  function Withdrawn(st: Status, phase: Phase): Status {
    st.(phase := phase, approvedAt := None, approvedScope := "", approvedDecision := "", approvedBy := "")
  }

  predicate ScopeIntact(h: Hashes, s: Scope) {
    IsSHA256(s.snapshotDigest) && IsSHA256(s.scopeDigest) && s.scopeDigest == ScopeHash(h, s)
  }

  /** The recorded approval is of this very scope and decision. */
  predicate SameApproval(st: Status, scope: Scope, d: Decision) {
    && st.phase.Approved? && st.approvedAt.Some?
    && st.approvedScope == scope.scopeDigest && st.approvedDecision == d.decisionDigest && st.approvedBy == d.reviewer
  }

  function ApprovalOutcome(h: Hashes, e: Env, meta: Meta, spec: Spec, st: Status): Status {
    if spec.scope.None? || !ScopeIntact(h, spec.scope.value) then Withdrawn(st, Failed)
    else if !ValidDecision(h, meta, spec, e.decisionClock) then Withdrawn(st, Failed)
    else if e.scopeClock >= spec.scope.value.validUntil then Withdrawn(st, Expired)
    else if !ReferencesCurrent(e.world, spec.scope.value) then Withdrawn(st, Failed)
    else
      var scope, d := spec.scope.value, spec.decision.value;
      var at := if SameApproval(st, scope, d) then st.approvedAt.value else e.approvalClock;
      st.(phase := Approved, approvedAt := Some(at), approvedScope := scope.scopeDigest,
          approvedDecision := d.decisionDigest, approvedBy := d.reviewer)
  }

  /** What actuation asks of the gateway: the source model, sent to the *backend* of
      the target model. */
  function RerouteRequest(spec: Spec, backend: string): GatewayActuator.Request {
    GatewayActuator.Request(CHANGE_REQUEST_KEY, map[spec.source := backend], {})
  }

  /** Which step of actuation ended it. */
  datatype Attempt = NoGateway | Unreadable | NoTarget | UpdateFailed | NoSource | Done

  function ActuationPhase(attempt: Attempt): Option<Phase> {
    match attempt
    case Done => Some(Actuated)
    case Unreadable => None
    case UpdateFailed => None
    case _ => Some(Failed)
  }

  function ActuationOutcome(e: Env, st: Status, attempt: Attempt): Option<Status> {
    match ActuationPhase(attempt)
    case None => None
    case Some(phase) =>
      Some(if phase.Actuated? then st.(phase := Actuated, actuatedAt := Some(e.approvalClock)) else st.(phase := phase))
  }

  /** Whether this reconcile gets as far as touching the gateway. */
  predicate ReachesGateway(e: Env, meta: Meta, spec: Spec, st: Status) {
    && (st.expiresAt == Some(Expiry(meta, spec)) || e.firstWrite)
    && !Terminal(st.phase) && e.expiryClock < Expiry(meta, spec) && spec.approval.Approve? && spec.action.Reroute?
  }

  /** The status the reconcile tries to write last, if any. */
  function Outcome(h: Hashes, e: Env, meta: Meta, spec: Spec, st: Status, attempt: Attempt): Option<Status> {
    if Terminal(st.phase) then None
    else if e.expiryClock >= Expiry(meta, spec) then Some(Withdrawn(st, Expired))
    else
      match spec.approval
      case Reject =>
        if spec.action.AuthorizeRoute? && !ValidDecision(h, meta, spec, e.decisionClock) then Some(Withdrawn(st, Failed))
        else Some(Withdrawn(st, Rejected))
      case Approve =>
        if spec.action.AuthorizeRoute? then Some(ApprovalOutcome(h, e, meta, spec, st)) else ActuationOutcome(e, st, attempt)
      case Undecided => Some(Withdrawn(st, Pending))
  }

  /** The stored status after the reconcile. */
  function Reconciled(h: Hashes, e: Env, meta: Meta, generation: int, spec: Spec, stored: Status, attempt: Attempt): Status {
    var observed := Observed(meta, generation, spec, stored);
    var writesExpiry := stored.expiresAt != Some(Expiry(meta, spec));
    if writesExpiry && !e.firstWrite then stored
    else
      var kept := if writesExpiry then observed else stored;
      match Outcome(h, e, meta, spec, observed, attempt)
      case Some(st) => if e.lastWrite then st else kept
      case None => kept
  }

  /** The attempt and the routes it leaves. */
  function Attempted(e: Env, spec: Spec, routes: seq<Route>): Attempt {
    if !e.gatewayCRD then NoGateway
    else if !e.gatewayReadable then Unreadable
    else
      var index := BackendIndex(AllRules(routes));
      if spec.target !in index then NoTarget
      else
        var r := RerouteRequest(spec, index[spec.target]);
        if FirstRefused(routes, r, e.failing, 0) < |routes| then UpdateFailed
        else if spec.source in ReroutedModels(routes, r, |routes|) then Done
        else NoSource
  }

  /** The routes an attempt leaves. */
  function RoutesAfter(e: Env, spec: Spec, routes: seq<Route>): seq<Route> {
    var index := BackendIndex(AllRules(routes));
    if !e.gatewayCRD || !e.gatewayReadable || spec.target !in index then routes
    else
      var r := RerouteRequest(spec, index[spec.target]);
      GatewayActuator.Actuated(routes, r, FirstRefused(routes, r, e.failing, 0))
  }

  /** A stored change request. */
  class StoredRequest {
    const meta: Meta
    var generation: int
    var spec: Spec
    var status: Status

    constructor (meta: Meta, spec: Spec)
      ensures this.meta == meta && generation == 1 && this.spec == spec && status == EMPTY_STATUS
    {
      this.meta := meta;
      generation, this.spec, status := 1, spec, EMPTY_STATUS;
    }

    method Reconcile(h: Hashes, e: Env, gateway: Namespace) returns (ghost attempt: Attempt)
      modifies this`status, gateway
      ensures status == Reconciled(h, e, meta, generation, spec, old(status), attempt)
      ensures ReachesGateway(e, meta, spec, old(status)) ==> attempt == Attempted(e, spec, old(gateway.routes))
      ensures gateway.routes ==
        if ReachesGateway(e, meta, spec, old(status)) then RoutesAfter(e, spec, old(gateway.routes)) else old(gateway.routes)
    {
      attempt := NoGateway;
      var st := status;
      st := st.(observedGeneration := generation);
      var expiresAt := Expiry(meta, spec);
      if st.expiresAt != Some(expiresAt) {
        st := st.(expiresAt := Some(expiresAt));
        if !e.firstWrite { return; }
        status := st;
      }
      if Terminal(st.phase) { return; }
      if e.expiryClock >= expiresAt {
        st := Withdrawn(st, Expired);
        if e.lastWrite { status := st; }
        return;
      }
      match spec.approval {
        case Reject =>
          if spec.action.AuthorizeRoute? && !ValidDecision(h, meta, spec, e.decisionClock) {
            st := Withdrawn(st, Failed);
          } else {
            st := Withdrawn(st, Rejected);
          }
          if e.lastWrite { status := st; }
        case Approve =>
          if spec.action.AuthorizeRoute? {
            st := ApprovalOutcome(h, e, meta, spec, st);
            if e.lastWrite { status := st; }
          } else {
            var tried := TryActuate(e, gateway);
            attempt := tried;
            var outcome := ActuationOutcome(e, st, tried);
            if outcome.Some? && e.lastWrite { status := outcome.value; }
          }
        case Undecided =>
          st := Withdrawn(st, Pending);
          if e.lastWrite { status := st; }
      }
    }

    method TryActuate(e: Env, gateway: Namespace) returns (attempt: Attempt)
      modifies gateway
      ensures attempt == Attempted(e, spec, old(gateway.routes))
      ensures gateway.routes == RoutesAfter(e, spec, old(gateway.routes))
    {
      if !e.gatewayCRD { return NoGateway; }
      if !e.gatewayReadable { return Unreadable; }
      var index := gateway.ModelBackends();
      if spec.target !in index { return NoTarget; }
      var r := RerouteRequest(spec, index[spec.target]);
      var ok, done, rerouted, blocked := gateway.Actuate(r, e.failing);
      if !ok { return UpdateFailed; }
      if spec.source !in rerouted { return NoSource; }
      return Done;
    }
  }
}
