/** What an approved reroute does to the gateway. */
module ChangeRequestReroutes {
  import opened Wrappers
  import opened Sequences
  import opened RouteControls
  import opened RouteReversal
  import opened GatewayActuator
  import opened RouteCalls
  import opened ChangeRequest
  import Runs = ChangeRequestRuns

  /** A call reports a model rerouted exactly when a rule matches it and its target
      has a backend. */
  lemma {:induction false} ReportedReroutes(s: State, c: Controls, model: string)
    ensures model in Report(s, c).rerouted <==>
      HasModel(s.rules, model) && model in c.desired && BackendOf(c, c.desired[model]) != ""
    decreases |s.rules|
  {
    if s.rules != [] {
      ReportedReroutes(s.(rules := Front(s.rules)), c, model);
      FrontModels(s.rules, model);
    }
  }

  ghost predicate Routed(routes: seq<Route>, model: string) {
    exists i :: 0 <= i < |routes| && HasModel(routes[i].rules, model)
  }

  lemma {:induction false} ReroutedExactly(routes: seq<Route>, r: GatewayActuator.Request, n: nat, model: string)
    requires n <= |routes|
    ensures var c := ControlsOf(r, BackendIndex(AllRules(routes)));
      model in ReroutedModels(routes, r, n) <==>
        (exists i :: 0 <= i < n && HasModel(routes[i].rules, model)) && model in c.desired && BackendOf(c, c.desired[model]) != ""
  {
    if n > 0 {
      var c := ControlsOf(r, BackendIndex(AllRules(routes)));
      ReroutedExactly(routes, r, n - 1, model);
      ReportedReroutes(State(routes[n - 1].rules, SavedUnder(routes[n - 1], r.key)), c, model);
    }
  }

  /** A reroute is carried out exactly when the gateway can be read and written, the
      source model is routed, the target model has a backend -- and that backend's
      name is itself a model with a backend, because the request names the backend
      where the controls expect a model. */
  lemma ActuatedExactlyWhen(e: Env, spec: Spec, routes: seq<Route>)
    ensures var index := BackendIndex(AllRules(routes));
      Attempted(e, spec, routes) == Done <==>
        && e.gatewayCRD && e.gatewayReadable && spec.target in index && index[spec.target] in index
        && Routed(routes, spec.source)
        && FirstRefused(routes, RerouteRequest(spec, index[spec.target]), e.failing, 0) == |routes|
  {
    var index := BackendIndex(AllRules(routes));
    IndexNeverEmpty(AllRules(routes));
    if spec.target in index {
      ReroutedExactly(routes, RerouteRequest(spec, index[spec.target]), |routes|, spec.source);
    }
  }

  /** The server refuses a route the reroute has something to do on. */
  ghost predicate SomeRefused(routes: seq<Route>, r: GatewayActuator.Request, failing: set<nat>) {
    exists i: nat :: i < |routes| && i in failing
      && Touches(routes[i].rules, SavedUnder(routes[i], r.key), ControlsOf(r, BackendIndex(AllRules(routes))))
  }

  lemma RefusedExactlyWhen(routes: seq<Route>, r: GatewayActuator.Request, failing: set<nat>)
    ensures FirstRefused(routes, r, failing, 0) < |routes| <==> SomeRefused(routes, r, failing)
  {
    CutShortAt(routes, r, failing, 0);
  }

  /** How an attempt ends: what is missing first decides. */
  lemma AttemptEnds(e: Env, spec: Spec, routes: seq<Route>)
    ensures var attempt, index := Attempted(e, spec, routes), BackendIndex(AllRules(routes));
      && (attempt == NoGateway <==> !e.gatewayCRD)
      && (attempt == Unreadable <==> e.gatewayCRD && !e.gatewayReadable)
      && (attempt == NoTarget <==> e.gatewayCRD && e.gatewayReadable && spec.target !in index)
      && (attempt in {UpdateFailed, NoSource, Done} ==> spec.target in index)
      && (attempt == UpdateFailed ==> SomeRefused(routes, RerouteRequest(spec, index[spec.target]), e.failing))
      && (attempt in {NoSource, Done} ==> !SomeRefused(routes, RerouteRequest(spec, index[spec.target]), e.failing))
      && (attempt == NoSource ==> !Routed(routes, spec.source) || index[spec.target] !in index)
  {
    var index := BackendIndex(AllRules(routes));
    ActuatedExactlyWhen(e, spec, routes);
    if spec.target in index { RefusedExactlyWhen(routes, RerouteRequest(spec, index[spec.target]), e.failing); }
  }

  /** When no model is named after the target's backend, an approved reroute fails,
      however healthy the gateway is. */
  lemma BackendNameIsNotAModel(e: Env, spec: Spec, routes: seq<Route>)
    requires var index := BackendIndex(AllRules(routes)); spec.target in index && index[spec.target] !in index
    ensures Attempted(e, spec, routes) != Done
  {
    ActuatedExactlyWhen(e, spec, routes);
  }

  /** Each reroute undoes the others: whatever this owner did to a route before, the
      next request leaves every rule of every other model at its original, although
      the earlier request stays in the terminal Actuated phase. */
  lemma LatestRerouteAlone(orig: seq<Rule>, run: seq<Controls>, spec: Spec, backend: string, index: map<string, string>)
    requires Reversible(orig)
    ensures var t := After(Start(orig), run + [ControlsOf(RerouteRequest(spec, backend), index)]);
      && |t.rules| == |orig|
      && (forall i | 0 <= i < |orig| && !Matches(orig[i], spec.source) :: t.rules[i] == orig[i])
      && (forall m | m in t.saved :: m == spec.source)
  {
    var c := ControlsOf(RerouteRequest(spec, backend), index);
    RunTracked(orig, run);
    AfterLast(Start(orig), run, c);
    var s := After(Start(orig), run);
    OneCall(orig, s, c, Everything);
    var t := Controlled(s, c);
    forall i | 0 <= i < |orig| && !Matches(orig[i], spec.source) ensures t.rules[i] == orig[i] {
      if Controllable(orig[i]) { assert Managed(orig[i], Everything); } else { SamePlain(t.rules[i], orig[i]); }
    }
    forall m | m in t.saved ensures m == spec.source {
      var i :| 0 <= i < |orig| && Matches(orig[i], m);
      assert Managed(orig[i], Everything);
    }
  }

  // ---- two requests in one namespace

  /** The gateway answers, the target has a backend, and every update goes through:
      actuation then ends Done or, for want of a matching rule, NoSource. */
  ghost predicate GoesThrough(e: Env, spec: Spec, routes: seq<Route>) {
    var index := BackendIndex(AllRules(routes));
    && e.gatewayCRD && e.gatewayReadable && spec.target in index
    && FirstRefused(routes, RerouteRequest(spec, index[spec.target]), e.failing, 0) == |routes|
  }

  /** What a request leaves of a rule of another model: the first rule goes back to the
      name this owner has saved for the model, if any, original or not. */
  ghost function LeftOf(route: Route, j: int): Rule
    requires 0 <= j < |route.rules| && Controllable(route.rules[j])
  {
    var model, saved := RuleModel(route.rules[j]), SavedUnder(route, CHANGE_REQUEST_KEY);
    if model in saved && FirstWith(route.rules, model, j) then Pointed(route.rules[j], saved[model], None) else route.rules[j]
  }

  /** On any routes, whoever shares their models: an actuation that goes through takes
      every other model off this owner's notes. */
  lemma ActuationReleasesOthers(e: Env, spec: Spec, routes: seq<Route>, i: int, j: int)
    requires GoesThrough(e, spec, routes) && 0 <= i < |routes| && 0 <= j < |routes[i].rules|
    requires Controllable(routes[i].rules[j]) && RuleModel(routes[i].rules[j]) != spec.source
    ensures var after := RoutesAfter(e, spec, routes);
      && |after| == |routes| && |after[i].rules| == |routes[i].rules| && after[i].rules[j] == LeftOf(routes[i], j)
      && RuleModel(routes[i].rules[j]) !in SavedUnder(after[i], CHANGE_REQUEST_KEY)
  {
    var index := BackendIndex(AllRules(routes));
    var c := ControlsOf(RerouteRequest(spec, index[spec.target]), index);
    OtherModelOn(routes[i], c, j);
  }

  lemma OtherModelOn(route: Route, c: Controls, j: int)
    requires 0 <= j < |route.rules| && Controllable(route.rules[j])
    requires RuleModel(route.rules[j]) !in c.desired && c.blocked == {}
    ensures var after := ActuatedRoute(route, CHANGE_REQUEST_KEY, c);
      && |after.rules| == |route.rules| && after.rules[j] == LeftOf(route, j)
      && RuleModel(route.rules[j]) !in SavedUnder(after, CHANGE_REQUEST_KEY)
  {
    var model := RuleModel(route.rules[j]);
    RouteActs(route, CHANGE_REQUEST_KEY, c, model);
    assert route.rules[..|route.rules|] == route.rules;
    assert Matches(route.rules[j], model) && HasModel(route.rules, model);
    assert Entry(SavedUnder(ActuatedRoute(route, CHANGE_REQUEST_KEY, c), CHANGE_REQUEST_KEY), model) == None;
  }

  lemma GoalOfOthers(orig: seq<Rule>, route: Route, owner: Ownership, spec: Spec, backend: string, index: map<string, string>, j: int)
    requires Reversible(orig) && RouteTracked(orig, route, owner) && owner(spec.source) == CHANGE_REQUEST_KEY
    requires 0 <= j < |orig| && Controllable(orig[j]) && owner(RuleModel(orig[j])) == CHANGE_REQUEST_KEY && RuleModel(orig[j]) != spec.source
    ensures var after := ActuatedRoute(route, CHANGE_REQUEST_KEY, ControlsOf(RerouteRequest(spec, backend), index));
      |after.rules| == |orig| && after.rules[j] == orig[j]
  {
    var c, owned := ControlsOf(RerouteRequest(spec, backend), index), OwnedBy(owner, CHANGE_REQUEST_KEY);
    var s := State(route.rules, SavedUnder(route, CHANGE_REQUEST_KEY));
    assert Tracks(orig, s, owned) && Managed(orig[j], owned);
    OneCall(orig, s, c, owned);
    ActuatedRouteState(route, CHANGE_REQUEST_KEY, c);
  }

  /** Whatever requests and other owners did before: an actuation that goes through
      leaves every rule of every other change-request model at its original, whether
      the request itself ends Actuated or, its source being routed nowhere, Failed. */
  lemma ActuationRevertsOthers(orig: seq<seq<Rule>>, run: seq<Step>, owner: Ownership, e: Env, spec: Spec)
    requires AllReversible(orig) && forall i | 0 <= i < |run| :: Respects(owner, run[i].request)
    requires owner(spec.source) == CHANGE_REQUEST_KEY && GoesThrough(e, spec, RunSteps(Untouched(orig), run))
    ensures var after := RoutesAfter(e, spec, RunSteps(Untouched(orig), run));
      |after| == |orig| && forall i | 0 <= i < |orig| :: OthersAtOriginal(orig[i], after[i], owner, spec.source)
  {
    var routes := RunSteps(Untouched(orig), run);
    var index := BackendIndex(AllRules(routes));
    RunStaysTracked(orig, run, owner);
    forall i | 0 <= i < |orig| ensures OthersAtOriginal(orig[i], RoutesAfter(e, spec, routes)[i], owner, spec.source) {
      assert Reversible(orig[i]) && RouteTracked(orig[i], routes[i], owner);
      forall j | 0 <= j < |orig[i]| && Controllable(orig[i][j]) && owner(RuleModel(orig[i][j])) == CHANGE_REQUEST_KEY
        && RuleModel(orig[i][j]) != spec.source
        ensures j < |RoutesAfter(e, spec, routes)[i].rules| && RoutesAfter(e, spec, routes)[i].rules[j] == orig[i][j]
      {
        GoalOfOthers(orig[i], routes[i], owner, spec, index[spec.target], index, j);
      }
    }
  }

  ghost predicate OthersAtOriginal(orig: seq<Rule>, route: Route, owner: Ownership, source: string) {
    forall j | 0 <= j < |orig| && Controllable(orig[j]) && owner(RuleModel(orig[j])) == CHANGE_REQUEST_KEY && RuleModel(orig[j]) != source ::
      j < |route.rules| && route.rules[j] == orig[j]
  }

  /** A reconcile of a request that reaches the gateway, and whose last write succeeds. */
  ghost predicate ActsNow(o: Runs.Stored, e: Env) { ReachesGateway(e, o.meta, o.spec, o.status) && e.lastWrite }

  function Reconciles(h: Hashes, o: Runs.Stored, e: Env, routes: seq<Route>): Runs.Stored {
    Runs.Next(h, o, Runs.Reconcile(e, Attempted(e, o.spec, routes)))
  }

  lemma ActingSettles(h: Hashes, o: Runs.Stored, e: Env, routes: seq<Route>)
    requires ActsNow(o, e)
    ensures var attempt, phase := Attempted(e, o.spec, routes), Reconciles(h, o, e, routes).status.phase;
      (attempt == Done ==> phase.Actuated?) && (attempt == NoSource ==> phase.Failed?)
  {}

  /** The routes a carried-out request leaves are one more step of the run. */
  lemma DoneIsAStep(orig: seq<seq<Rule>>, run: seq<Step>, e: Env, spec: Spec) returns (step: Step)
    requires Attempted(e, spec, RunSteps(Untouched(orig), run)) == Done
    ensures step.request.key == CHANGE_REQUEST_KEY && step.request.desired.Keys == {spec.source} && step.request.blocked == {}
    ensures RoutesAfter(e, spec, RunSteps(Untouched(orig), run)) == RunSteps(Untouched(orig), run + [step])
  {
    var routes := RunSteps(Untouched(orig), run);
    step := Step(RerouteRequest(spec, BackendIndex(AllRules(routes))[spec.target]), |routes|);
    LastStep(Untouched(orig), run, step);
  }

  /** Two requests in one namespace: the first is carried out and stays Actuated through
      everything that may happen to it, while the second -- carried out, or Failed for
      want of its source -- puts every rule of the first back at its original. */
  lemma ActuatedButReverted(h: Hashes, orig: seq<seq<Rule>>, run: seq<Step>, owner: Ownership,
      first: Runs.Stored, e1: Env, second: Runs.Stored, e2: Env, more: seq<Runs.Event>)
    requires AllReversible(orig) && forall i | 0 <= i < |run| :: Respects(owner, run[i].request)
    requires owner(first.spec.source) == owner(second.spec.source) == CHANGE_REQUEST_KEY && first.spec.source != second.spec.source
    requires ActsNow(first, e1) && Attempted(e1, first.spec, RunSteps(Untouched(orig), run)) == Done
    requires var routes := RoutesAfter(e1, first.spec, RunSteps(Untouched(orig), run));
      ActsNow(second, e2) && GoesThrough(e2, second.spec, routes)
    ensures var before := RunSteps(Untouched(orig), run);
      var between := RoutesAfter(e1, first.spec, before);
      var after := RoutesAfter(e2, second.spec, between);
      && Runs.After(h, Reconciles(h, first, e1, before), more).status.phase.Actuated?
      && (Reconciles(h, second, e2, between).status.phase.Actuated? || Reconciles(h, second, e2, between).status.phase.Failed?)
      && |after| == |orig|
      && forall i, j | 0 <= i < |orig| && 0 <= j < |orig[i]| && Matches(orig[i][j], first.spec.source) ::
           j < |after[i].rules| && after[i].rules[j] == orig[i][j]
  {
    var before := RunSteps(Untouched(orig), run);
    ActingSettles(h, first, e1, before);
    Runs.TerminalIsForever(h, Reconciles(h, first, e1, before), more);
    var step := DoneIsAStep(orig, run, e1, first.spec);
    var longer := run + [step];
    assert Respects(owner, step.request);
    ActingSettles(h, second, e2, RunSteps(Untouched(orig), longer));
    ActuationRevertsOthers(orig, longer, owner, e2, second.spec);
    forall i, j | 0 <= i < |orig| && 0 <= j < |orig[i]| && Matches(orig[i][j], first.spec.source)
      ensures var after := RoutesAfter(e2, second.spec, RunSteps(Untouched(orig), longer));
        j < |after[i].rules| && after[i].rules[j] == orig[i][j]
    {
      assert OthersAtOriginal(orig[i], RoutesAfter(e2, second.spec, RunSteps(Untouched(orig), longer))[i], owner, second.spec.source);
    }
  }
}
