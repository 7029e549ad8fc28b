/** How long a reroute stands: exactly which later calls leave it in place, and what
    that means for an approved change request. */
module RerouteLifetime {
  import opened Wrappers
  import opened Sequences
  import opened RouteControls
  import opened RouteReversal
  import opened GatewayActuator
  import opened GatewaySharing
  import opened RouteCalls
  import opened ChangeRequest
  import opened ChangeRequestReroutes
  import Runs = ChangeRequestRuns

  // ---- a standing reroute

  /** Model `source` sent to `backend` with its requests rewritten to `target`. */
  datatype Redirect = Redirect(source: string, target: string, backend: string)

  function Rerouted(rule: Rule, r: Redirect): Rule
    requires Controllable(rule)
  {
    Pointed(rule, r.backend, Some(SetModel(r.target)))
  }

  ghost predicate StandsOn(orig: seq<Rule>, route: Route, r: Redirect) {
    |route.rules| == |orig| && forall j | 0 <= j < |orig| && Matches(orig[j], r.source) :: route.rules[j] == Rerouted(orig[j], r)
  }

  /** The reroute is in place on every rule of its source. */
  ghost predicate Stands(orig: seq<seq<Rule>>, routes: seq<Route>, r: Redirect) {
    |routes| == |orig| && forall i | 0 <= i < |orig| :: StandsOn(orig[i], routes[i], r)
  }

  /** What a caller with these notes leaves of the reroute: it asks for it again, or for
      one it cannot carry out, or neither asks about the source nor has saved it. */
  predicate Spares(saved: map<string, string>, c: Controls, r: Redirect) {
    if r.source in c.desired then
      BackendOf(c, c.desired[r.source]) == "" || (c.desired[r.source] == r.target && BackendOf(c, r.target) == r.backend)
    else r.source !in c.blocked && r.source !in saved
  }

  lemma PointedFacts(rule: Rule, name: string, mutation: Option<Mutation>)
    requires Controllable(rule)
    ensures Pointed(rule, name, mutation).backends[0].name == Some(name) && Pointed(rule, name, mutation).backends[0].mutation == mutation
  {}

  /** What the call does to the first rule of the source. */
  lemma ActionSparesExactlyWhen(orig: Rule, saved: map<string, string>, c: Controls, r: Redirect)
    requires Matches(orig, r.source)
    ensures Matches(Rerouted(orig, r), r.source) && Plain(Rerouted(orig, r)) == Plain(orig)
    ensures ActedRule(Rerouted(orig, r), ModelAction(r.source, saved, c)) == Rerouted(orig, r) <==> Spares(saved, c, r)
  {
    var now := Rerouted(orig, r);
    PointedPlain(orig, r.backend, Some(SetModel(r.target)));
    SamePlain(now, orig);
    PointedFacts(orig, r.backend, Some(SetModel(r.target)));
    match ModelAction(r.source, saved, c) {
      case Skip =>
      case Reroute(target, backend) =>
        PointedFacts(now, backend, Some(SetModel(target)));
        SamePointed(now, orig, backend, Some(SetModel(target)));
      case Block => PointedFacts(now, BLOCK_BACKEND, None);
      case Revert(original) => PointedFacts(now, original, None);
    }
  }

  lemma {:induction false} FirstOf(rules: seq<Rule>, model: string) returns (j: int)
    requires HasModel(rules, model)
    ensures 0 <= j < |rules| && FirstWith(rules, model, j)
  {
    FrontModels(rules, model);
    if HasModel(Front(rules), model) { j := FirstOf(Front(rules), model); } else { j := |rules| - 1; }
  }

  /** Which rule is the first of its model does not change. */
  lemma FirstStays(orig: seq<Rule>, rules: seq<Rule>, model: string)
    requires PlainAs(orig, rules)
    ensures forall j | 0 <= j < |orig| :: Matches(rules[j], model) == Matches(orig[j], model) && FirstWith(rules, model, j) == FirstWith(orig, model, j)
  {
    PlainAsFacts(orig, rules);
    assert forall j | 0 <= j < |orig| :: Matches(rules[j], model) == Matches(orig[j], model);
  }

  /** One call on one route, whoever makes it: the reroute stands exactly when the route
      has no rule of its source or the call spares it. */
  lemma CallSparesExactlyWhen(orig: seq<Rule>, route: Route, key: string, c: Controls, r: Redirect)
    requires PlainAs(orig, route.rules) && StandsOn(orig, route, r)
    ensures StandsOn(orig, ActuatedRoute(route, key, c), r) <==> !HasModel(orig, r.source) || Spares(SavedUnder(route, key), c, r)
  {
    var saved, after := SavedUnder(route, key), ActuatedRoute(route, key, c);
    FirstStays(orig, route.rules, r.source);
    RouteActs(route, key, c, r.source);
    forall j | 0 <= j < |orig| && Matches(orig[j], r.source)
      ensures Spares(saved, c, r) || FirstWith(orig, r.source, j) ==> (after.rules[j] == Rerouted(orig[j], r) <==> Spares(saved, c, r))
    {
      ActionSparesExactlyWhen(orig[j], saved, c, r);
    }
    if HasModel(orig, r.source) {
      var j := FirstOf(orig, r.source);
      assert after.rules[j] == Rerouted(orig[j], r) <==> Spares(saved, c, r);
    }
  }

  /** The call spares the reroute on every route it reaches that has a rule of the source. */
  ghost predicate StepSpares(orig: seq<seq<Rule>>, routes: seq<Route>, step: Step, r: Redirect)
    requires |routes| == |orig|
  {
    forall i | 0 <= i < |orig| && i < step.done && HasModel(orig[i], r.source) ::
      Spares(SavedUnder(routes[i], step.request.key), StepControls(routes, step), r)
  }

  lemma StepSparesExactlyWhen(orig: seq<seq<Rule>>, routes: seq<Route>, step: Step, r: Redirect)
    requires KeepsModels(orig, routes) && Stands(orig, routes, r)
    ensures Stands(orig, Stepped(routes, step), r) <==> StepSpares(orig, routes, step, r)
  {
    var c, after := StepControls(routes, step), Stepped(routes, step);
    forall i | 0 <= i < |orig|
      ensures StandsOn(orig[i], after[i], r) <==> (i < step.done && HasModel(orig[i], r.source) ==> Spares(SavedUnder(routes[i], step.request.key), c, r))
    {
      SteppedAt(routes, step, i);
      assert PlainAs(orig[i], routes[i].rules) && StandsOn(orig[i], routes[i], r);
      CallSparesExactlyWhen(orig[i], routes[i], step.request.key, c, r);
    }
  }

  // ---- through a whole run

  function StateAt(orig: seq<seq<Rule>>, history: seq<Step>, run: seq<Step>, n: nat): seq<Route>
    requires n <= |run|
  {
    RunSteps(Untouched(orig), history + run[..n])
  }

  ghost predicate StandsThroughout(orig: seq<seq<Rule>>, history: seq<Step>, run: seq<Step>, r: Redirect) {
    forall n: nat | n <= |run| :: Stands(orig, StateAt(orig, history, run, n), r)
  }

  ghost predicate EveryStepSpares(orig: seq<seq<Rule>>, history: seq<Step>, run: seq<Step>, r: Redirect) {
    forall n: nat | n < |run| :: StepSpares(orig, StateAt(orig, history, run, n), run[n], r)
  }

  lemma NextState(orig: seq<seq<Rule>>, history: seq<Step>, run: seq<Step>, n: nat)
    requires n < |run|
    ensures StateAt(orig, history, run, n + 1) == Stepped(StateAt(orig, history, run, n), run[n])
  {
    assert history + run[..n + 1] == (history + run[..n]) + [run[n]];
    StepOfRun(Untouched(orig), history + run[..n], run[n]);
  }

  lemma StepKeepsOrMoves(orig: seq<seq<Rule>>, history: seq<Step>, run: seq<Step>, r: Redirect, n: nat)
    requires n < |run| && Stands(orig, StateAt(orig, history, run, n), r)
    ensures Stands(orig, StateAt(orig, history, run, n + 1), r) <==> StepSpares(orig, StateAt(orig, history, run, n), run[n], r)
  {
    RunKeepsModels(orig, history + run[..n]);
    NextState(orig, history, run, n);
    StepSparesExactlyWhen(orig, StateAt(orig, history, run, n), run[n], r);
  }

  lemma FirstState(orig: seq<seq<Rule>>, history: seq<Step>, run: seq<Step>)
    ensures StateAt(orig, history, run, 0) == RunSteps(Untouched(orig), history)
  {
    assert history + run[..0] == history;
  }

  /** What holds at first and through every sound step holds at the end. */
  lemma {:induction false} HoldsUpTo(holds: seq<bool>, sound: seq<bool>, n: nat)
    requires |holds| == |sound| + 1 && n <= |sound| && holds[0]
    requires forall k | 0 <= k < |sound| :: holds[k] && sound[k] ==> holds[k + 1]
    requires forall k | 0 <= k < n :: sound[k]
    ensures holds[n]
  {
    if n > 0 { HoldsUpTo(holds, sound, n - 1); }
  }

  lemma SparedSoFar(orig: seq<seq<Rule>>, history: seq<Step>, run: seq<Step>, r: Redirect, n: nat)
    requires n <= |run| && Stands(orig, StateAt(orig, history, run, 0), r) && EveryStepSpares(orig, history, run, r)
    ensures Stands(orig, StateAt(orig, history, run, n), r)
  {
    var holds := seq(|run| + 1, k requires 0 <= k <= |run| => Stands(orig, StateAt(orig, history, run, k), r));
    var sound := seq(|run|, k requires 0 <= k < |run| => StepSpares(orig, StateAt(orig, history, run, k), run[k], r));
    forall k | 0 <= k < |sound| && holds[k] && sound[k] ensures holds[k + 1] {
      StepKeepsOrMoves(orig, history, run, r, k);
    }
    HoldsUpTo(holds, sound, n);
  }

  /** Whatever the routes are, whoever acted before and whoever acts in the run: a
      reroute in place stands throughout the run exactly when every step spares it. */
  lemma StandsThroughoutExactlyWhen(orig: seq<seq<Rule>>, history: seq<Step>, run: seq<Step>, r: Redirect)
    requires Stands(orig, RunSteps(Untouched(orig), history), r)
    ensures StandsThroughout(orig, history, run, r) <==> EveryStepSpares(orig, history, run, r)
  {
    FirstState(orig, history, run);
    if EveryStepSpares(orig, history, run, r) {
      forall n: nat | n <= |run| ensures Stands(orig, StateAt(orig, history, run, n), r) {
        SparedSoFar(orig, history, run, r, n);
      }
    }
    if StandsThroughout(orig, history, run, r) {
      forall n: nat | n < |run| ensures StepSpares(orig, StateAt(orig, history, run, n), run[n], r) {
        assert Stands(orig, StateAt(orig, history, run, n), r) && Stands(orig, StateAt(orig, history, run, n + 1), r);
        StepKeepsOrMoves(orig, history, run, r, n);
      }
    }
  }

  /** Another owner's block of the source ends the reroute, as any owner's does. */
  lemma BlockEndsReroute(orig: seq<seq<Rule>>, history: seq<Step>, key: string, r: Redirect, i: int)
    requires Stands(orig, RunSteps(Untouched(orig), history), r) && 0 <= i < |orig| && HasModel(orig[i], r.source)
    ensures !Stands(orig, RunSteps(Untouched(orig), history + [Step(BlockRequest(key, r.source), |orig|)]), r)
  {
    var routes, step := RunSteps(Untouched(orig), history), Step(BlockRequest(key, r.source), |orig|);
    RunKeepsModels(orig, history);
    StepOfRun(Untouched(orig), history, step);
    StepSparesExactlyWhen(orig, routes, step, r);
    assert !Spares(SavedUnder(routes[i], key), StepControls(routes, step), r);
  }

  // ---- change requests

  /** The reroute a carried-out request puts in place: the request names the target's
      backend where the controls expect a model. */
  function RerouteOf(spec: Spec, index: map<string, string>): Redirect
    requires spec.target in index && index[spec.target] in index
  {
    Redirect(spec.source, index[spec.target], index[index[spec.target]])
  }

  lemma CarriedOutOn(orig: seq<Rule>, route: Route, spec: Spec, index: map<string, string>)
    requires PlainAs(orig, route.rules)
    requires spec.target in index && index[spec.target] in index && index[index[spec.target]] != ""
    ensures StandsOn(orig, ActuatedRoute(route, CHANGE_REQUEST_KEY, ControlsOf(RerouteRequest(spec, index[spec.target]), index)),
                     RerouteOf(spec, index))
  {
    var c, r := ControlsOf(RerouteRequest(spec, index[spec.target]), index), RerouteOf(spec, index);
    FirstStays(orig, route.rules, spec.source);
    RouteActs(route, CHANGE_REQUEST_KEY, c, spec.source);
    assert ModelAction(spec.source, SavedUnder(route, CHANGE_REQUEST_KEY), c) == RouteControls.Action.Reroute(r.target, r.backend);
    forall j | 0 <= j < |orig| && Matches(orig[j], spec.source)
      ensures ActedRule(route.rules[j], RouteControls.Action.Reroute(r.target, r.backend)) == Rerouted(orig[j], r)
    {
      SamePointed(route.rules[j], orig[j], r.backend, Some(SetModel(r.target)));
    }
  }

  /** A request that is carried out puts its reroute in place on every rule of its
      source, whatever anyone did before. */
  lemma CarriedOutStands(orig: seq<seq<Rule>>, history: seq<Step>, e: Env, spec: Spec)
    requires Attempted(e, spec, RunSteps(Untouched(orig), history)) == Done
    ensures var routes := RunSteps(Untouched(orig), history);
      var index := BackendIndex(AllRules(routes));
      && spec.target in index && index[spec.target] in index
      && Stands(orig, RoutesAfter(e, spec, routes), RerouteOf(spec, index))
  {
    var routes := RunSteps(Untouched(orig), history);
    var index := BackendIndex(AllRules(routes));
    ActuatedExactlyWhen(e, spec, routes);
    IndexNeverEmpty(AllRules(routes));
    RunKeepsModels(orig, history);
    forall i | 0 <= i < |orig| ensures StandsOn(orig[i], RoutesAfter(e, spec, routes)[i], RerouteOf(spec, index)) {
      assert PlainAs(orig[i], routes[i].rules);
      CarriedOutOn(orig[i], routes[i], spec, index);
    }
  }

  /** A carried-out request stays Actuated through everything that happens to it. Its
      reroute is kept live through a run of the gateway, by whatever owners, exactly
      when every step spares it on every route it reaches. */
  lemma ActuatedKeptLiveExactlyWhen(h: Hashes, orig: seq<seq<Rule>>, history: seq<Step>, o: Runs.Stored, e: Env,
      events: seq<Runs.Event>, run: seq<Step>) returns (carried: Step)
    requires ActsNow(o, e) && Attempted(e, o.spec, RunSteps(Untouched(orig), history)) == Done
    ensures var before := RunSteps(Untouched(orig), history);
      var index := BackendIndex(AllRules(before));
      && Runs.After(h, Reconciles(h, o, e, before), events).status.phase.Actuated?
      && RoutesAfter(e, o.spec, before) == RunSteps(Untouched(orig), history + [carried])
      && o.spec.target in index && index[o.spec.target] in index
      && (StandsThroughout(orig, history + [carried], run, RerouteOf(o.spec, index))
          <==> EveryStepSpares(orig, history + [carried], run, RerouteOf(o.spec, index)))
  {
    var before := RunSteps(Untouched(orig), history);
    ActingSettles(h, o, e, before);
    Runs.TerminalIsForever(h, Reconciles(h, o, e, before), events);
    CarriedOutStands(orig, history, e, o.spec);
    carried := DoneIsAStep(orig, history, e, o.spec);
    StandsThroughoutExactlyWhen(orig, history + [carried], run, RerouteOf(o.spec, BackendIndex(AllRules(before))));
  }

  /** The name a carried-out request saves for its source: the one this owner had saved
      before, or the one it finds. */
  function FoundName(route: Route, j: int): string
    requires 0 <= j < |route.rules| && Controllable(route.rules[j])
  {
    var saved := SavedUnder(route, CHANGE_REQUEST_KEY);
    if RuleModel(route.rules[j]) in saved then saved[RuleModel(route.rules[j])] else BackendName(route.rules[j])
  }

  predicate Rewrites(rule: Rule) { Controllable(rule) && rule.backends[0].mutation.Some? }

  /** Rerouted in between, the rule ends where the first request had found it. */
  ghost predicate LeftAsFound(orig: Rule, before: Route, between: Route, after: Route, j: int) {
    && 0 <= j < |before.rules| == |between.rules| == |after.rules| && Controllable(orig) && Controllable(before.rules[j])
    && Rewrites(between.rules[j]) && !Rewrites(after.rules[j])
    && after.rules[j] == Pointed(orig, FoundName(before, j), None)
  }

  lemma CarriedOutSaves(route: Route, spec: Spec, index: map<string, string>, j: int)
    requires spec.target in index && index[spec.target] in index && index[index[spec.target]] != ""
    requires 0 <= j < |route.rules| && FirstWith(route.rules, spec.source, j)
    ensures var after := ActuatedRoute(route, CHANGE_REQUEST_KEY, ControlsOf(RerouteRequest(spec, index[spec.target]), index));
      Entry(SavedUnder(after, CHANGE_REQUEST_KEY), spec.source) == Some(FoundName(route, j))
  {
    RouteActs(route, CHANGE_REQUEST_KEY, ControlsOf(RerouteRequest(spec, index[spec.target]), index), spec.source);
  }

  /** Over any routes and after anything: once a request is carried out, the next one
      for another source that goes through ends its reroute, on the first rule of each
      route, although the request stays Actuated. The rule is left where the first
      request had found it, which is its own backend only if nobody had moved it. */
  lemma LaterRequestEndsReroute(h: Hashes, orig: seq<seq<Rule>>, history: seq<Step>, first: Runs.Stored, e1: Env,
      second: Runs.Stored, e2: Env, more: seq<Runs.Event>, i: int, j: int)
    requires first.spec.source != second.spec.source
    requires ActsNow(first, e1) && Attempted(e1, first.spec, RunSteps(Untouched(orig), history)) == Done
    requires GoesThrough(e2, second.spec, RoutesAfter(e1, first.spec, RunSteps(Untouched(orig), history)))
    requires 0 <= i < |orig| && 0 <= j < |orig[i]| && FirstWith(orig[i], first.spec.source, j)
    ensures var before := RunSteps(Untouched(orig), history);
      var between := RoutesAfter(e1, first.spec, before);
      var after := RoutesAfter(e2, second.spec, between);
      && Runs.After(h, Reconciles(h, first, e1, before), more).status.phase.Actuated?
      && |before| == |between| == |after| == |orig| && LeftAsFound(orig[i][j], before[i], between[i], after[i], j)
  {
    var before := RunSteps(Untouched(orig), history);
    ActingSettles(h, first, e1, before);
    Runs.TerminalIsForever(h, Reconciles(h, first, e1, before), more);
    CarriedOutStands(orig, history, e1, first.spec);
    RunKeepsModels(orig, history);
    FoundThenLeft(orig, before, first.spec, e1, second.spec, e2, i, j);
  }

  lemma FoundThenLeft(orig: seq<seq<Rule>>, before: seq<Route>, spec1: Spec, e1: Env, spec2: Spec, e2: Env, i: int, j: int)
    requires KeepsModels(orig, before) && spec1.source != spec2.source && Attempted(e1, spec1, before) == Done
    requires GoesThrough(e2, spec2, RoutesAfter(e1, spec1, before))
    requires 0 <= i < |orig| && 0 <= j < |orig[i]| && FirstWith(orig[i], spec1.source, j)
    requires var index := BackendIndex(AllRules(before));
      spec1.target in index && index[spec1.target] in index && Stands(orig, RoutesAfter(e1, spec1, before), RerouteOf(spec1, index))
    ensures var between := RoutesAfter(e1, spec1, before);
      var after := RoutesAfter(e2, spec2, between);
      && |before| == |between| == |after| == |orig| && LeftAsFound(orig[i][j], before[i], between[i], after[i], j)
  {
    var index, between := BackendIndex(AllRules(before)), RoutesAfter(e1, spec1, before);
    IndexNeverEmpty(AllRules(before));
    assert PlainAs(orig[i], before[i].rules) && StandsOn(orig[i], between[i], RerouteOf(spec1, index));
    FirstStays(orig[i], before[i].rules, spec1.source);
    var c := ControlsOf(RerouteRequest(spec1, index[spec1.target]), index);
    assert between[i] == ActuatedRoute(before[i], CHANGE_REQUEST_KEY, c);
    CarriedOutSaves(before[i], spec1, index, j);
    RouteKeepsPlain(orig[i], before[i], CHANGE_REQUEST_KEY, c);
    LeftWhereFound(orig[i], before[i], between[i], RerouteOf(spec1, index), j);
    ActuationReleasesOthers(e2, spec2, between, i, j);
  }

  lemma LeftWhereFound(orig: seq<Rule>, before: Route, between: Route, r: Redirect, j: int)
    requires PlainAs(orig, before.rules) && PlainAs(orig, between.rules) && StandsOn(orig, between, r)
    requires 0 <= j < |orig| && FirstWith(orig, r.source, j) && Controllable(before.rules[j])
    requires Entry(SavedUnder(between, CHANGE_REQUEST_KEY), r.source) == Some(FoundName(before, j))
    ensures Matches(between.rules[j], r.source) && Rewrites(between.rules[j])
    ensures LeftOf(between, j) == Pointed(orig[j], FoundName(before, j), None) && !Rewrites(LeftOf(between, j))
  {
    FirstStays(orig, between.rules, r.source);
    PointedFacts(orig[j], r.backend, Some(SetModel(r.target)));
    PointedFacts(orig[j], FoundName(before, j), None);
    SamePointed(between.rules[j], orig[j], FoundName(before, j), None);
  }

  // ---- two requests, concretely

  /** An approved reroute, and a gateway at its service. */
  function ApprovedReroute(source: string, target: string): Runs.Stored {
    Runs.Stored(Meta("ns", "request", "uid", 0), 1,
                Spec(ChangeRequest.Action.Reroute, source, target, None, "", "", None, None, Approve, ""), EMPTY_STATUS)
  }

  const GATEWAY_UP := Env(0, 0, 0, 0, World(map[], map[], map[]), true, true, {}, true, true)

  lemma {:induction false} NoneRefused(routes: seq<Route>, r: GatewayActuator.Request, n: nat)
    requires n <= |routes|
    ensures FirstRefused(routes, r, {}, n) == |routes|
    decreases |routes| - n
  {
    if n < |routes| { NoneRefused(routes, r, n + 1); }
  }

  /** Models a and b, and model m served by a backend of the same name. */
  function ThreeRules(a: string, b: string, x: string, m: string): seq<Rule> {
    [Serving(a, m), Serving(b, x), Serving(m, m)]
  }

  ghost predicate FourNames(a: string, b: string, x: string, m: string) {
    a != "" && b != "" && m != "" && a != b && a != m && b != m && m != BLOCK_BACKEND
  }

  lemma ThreeRulesFacts(a: string, b: string, x: string, m: string)
    requires FourNames(a, b, x, m)
    ensures Reversible(ThreeRules(a, b, x, m))
    ensures forall i | 0 <= i < 3 :: Controllable(ThreeRules(a, b, x, m)[i]) && RuleModel(ThreeRules(a, b, x, m)[i]) == [a, b, m][i]
    ensures Matches(ThreeRules(a, b, x, m)[0], a) && Matches(ThreeRules(a, b, x, m)[1], b) && Serves(ThreeRules(a, b, x, m)[2])
  {
    ServingFacts(a, m); ServingFacts(b, x); ServingFacts(m, m);
  }

  lemma ThirdServes(rules: seq<Rule>, m: string)
    requires |rules| == 3 && m != "" && m != BLOCK_BACKEND && rules[2] == Serving(m, m)
    requires RuleModel(rules[0]) != m && RuleModel(rules[1]) != m
    ensures m in BackendIndex(rules) && BackendIndex(rules)[m] == m
  {
    ServingFacts(m, m);
    OnlyServer(rules, 2, m);
  }

  lemma OneRoute(route: Route)
    ensures AllRules([route]) == route.rules
  {
    assert Front([route]) == [] && AllRules([]) + route.rules == route.rules;
  }

  /** Whatever a and b point at, they are routed, and m is served by backend m alone. */
  lemma MiddleServed(route: Route, a: string, b: string, x: string, m: string)
    requires FourNames(a, b, x, m) && |route.rules| == 3 && route.rules[2] == Serving(m, m)
    requires Plain(route.rules[0]) == Plain(Serving(a, m)) && Plain(route.rules[1]) == Plain(Serving(b, x))
    ensures var index := BackendIndex(AllRules([route])); m in index && index[m] == m
    ensures Routed([route], a) && Routed([route], b)
  {
    ServingFacts(a, m); ServingFacts(b, x);
    SamePlain(route.rules[0], Serving(a, m)); SamePlain(route.rules[1], Serving(b, x));
    OneRoute(route);
    ThirdServes(route.rules, m);
    assert Matches(route.rules[0], a) && Matches(route.rules[1], b);
    assert HasModel([route][0].rules, a) && HasModel([route][0].rules, b);
  }

  /** The namespace before the requests, and what each of them leaves. */
  datatype Scene = Scene(before: seq<Route>, between: seq<Route>, after: seq<Route>)

  function TwoRequests(a: string, b: string, x: string, m: string): Scene {
    var before := Untouched([ThreeRules(a, b, x, m)]);
    var between := RoutesAfter(GATEWAY_UP, ApprovedReroute(a, m).spec, before);
    Scene(before, between, RoutesAfter(GATEWAY_UP, ApprovedReroute(b, m).spec, between))
  }

  lemma CarriedOutWhenServed(routes: seq<Route>, source: string, m: string)
    requires Routed(routes, source) && m in BackendIndex(AllRules(routes)) && BackendIndex(AllRules(routes))[m] == m
    ensures Attempted(GATEWAY_UP, ApprovedReroute(source, m).spec, routes) == Done
    ensures GoesThrough(GATEWAY_UP, ApprovedReroute(source, m).spec, routes)
  {
    var spec := ApprovedReroute(source, m).spec;
    NoneRefused(routes, RerouteRequest(spec, m), 0);
    ActuatedExactlyWhen(GATEWAY_UP, spec, routes);
  }

  lemma RequestsAct(source: string, m: string)
    ensures ActsNow(ApprovedReroute(source, m), GATEWAY_UP)
  {}

  lemma FirstIsCarriedOut(a: string, b: string, x: string, m: string)
    requires FourNames(a, b, x, m)
    ensures var before := Untouched([ThreeRules(a, b, x, m)]);
      && Attempted(GATEWAY_UP, ApprovedReroute(a, m).spec, before) == Done
      && GoesThrough(GATEWAY_UP, ApprovedReroute(a, m).spec, before)
      && m in BackendIndex(AllRules(before)) && BackendIndex(AllRules(before))[m] == m
  {
    var route := Route(ThreeRules(a, b, x, m), map[]);
    assert Untouched([ThreeRules(a, b, x, m)]) == [route];
    MiddleServed(route, a, b, x, m);
    CarriedOutWhenServed([route], a, m);
  }

  /** Every run keeps all but first backends. */
  lemma ThreeStay(a: string, b: string, x: string, m: string, run: seq<Step>) returns (route: Route)
    ensures RunSteps(Untouched([ThreeRules(a, b, x, m)]), run) == [route] && |route.rules| == 3
    ensures Plain(route.rules[0]) == Plain(Serving(a, m)) && Plain(route.rules[1]) == Plain(Serving(b, x))
  {
    var orig := [ThreeRules(a, b, x, m)];
    RunKeepsModels(orig, run);
    route := RunSteps(Untouched(orig), run)[0];
    assert PlainAs(orig[0], route.rules);
  }

  function OnlyRequests(): Ownership { _ => CHANGE_REQUEST_KEY }

  lemma SecondIsCarriedOut(a: string, b: string, x: string, m: string, between: seq<Route>, step: Step)
    requires FourNames(a, b, x, m) && step.request.key == CHANGE_REQUEST_KEY
    requires between == RoutesAfter(GATEWAY_UP, ApprovedReroute(a, m).spec, Untouched([ThreeRules(a, b, x, m)]))
    requires between == RunSteps(Untouched([ThreeRules(a, b, x, m)]), [step])
    ensures Attempted(GATEWAY_UP, ApprovedReroute(b, m).spec, between) == Done
    ensures GoesThrough(GATEWAY_UP, ApprovedReroute(b, m).spec, between)
    ensures m in BackendIndex(AllRules(between)) && BackendIndex(AllRules(between))[m] == m
  {
    var orig, owner := [ThreeRules(a, b, x, m)], OnlyRequests();
    ThreeRulesFacts(a, b, x, m);
    FirstIsCarriedOut(a, b, x, m);
    var route := ThreeStay(a, b, x, m, [step]);
    assert RunSteps(Untouched(orig), []) == Untouched(orig);
    ActuationRevertsOthers(orig, [], owner, GATEWAY_UP, ApprovedReroute(a, m).spec);
    assert OthersAtOriginal(orig[0], between[0], owner, a) && between[0] == route;
    assert route.rules[2] == orig[0][2];
    MiddleServed(route, a, b, x, m);
    CarriedOutWhenServed([route], b, m);
  }

  /** The first request is carried out by one step, which puts its reroute in place. */
  lemma FirstStands(a: string, b: string, x: string, m: string) returns (step: Step)
    requires FourNames(a, b, x, m)
    ensures var orig, scene := [ThreeRules(a, b, x, m)], TwoRequests(a, b, x, m);
      && step.request.key == CHANGE_REQUEST_KEY && scene.between == RunSteps(Untouched(orig), [] + [step])
      && Stands(orig, scene.between, Redirect(a, m, m))
  {
    var orig, spec := [ThreeRules(a, b, x, m)], ApprovedReroute(a, m).spec;
    ThreeRulesFacts(a, b, x, m);
    FirstIsCarriedOut(a, b, x, m);
    assert RunSteps(Untouched(orig), []) == Untouched(orig);
    CarriedOutStands(orig, [], GATEWAY_UP, spec);
    step := DoneIsAStep(orig, [], GATEWAY_UP, spec);
  }

  lemma SecondStands(a: string, b: string, x: string, m: string, step: Step)
    requires FourNames(a, b, x, m) && step.request.key == CHANGE_REQUEST_KEY
    requires TwoRequests(a, b, x, m).between == RunSteps(Untouched([ThreeRules(a, b, x, m)]), [step])
    ensures Stands([ThreeRules(a, b, x, m)], TwoRequests(a, b, x, m).after, Redirect(b, m, m))
    ensures GoesThrough(GATEWAY_UP, ApprovedReroute(b, m).spec, TwoRequests(a, b, x, m).between)
  {
    var orig, scene := [ThreeRules(a, b, x, m)], TwoRequests(a, b, x, m);
    ThreeRulesFacts(a, b, x, m);
    SecondIsCarriedOut(a, b, x, m, scene.between, step);
    CarriedOutStands(orig, [step], GATEWAY_UP, ApprovedReroute(b, m).spec);
  }

  lemma FirstIsBack(h: Hashes, a: string, b: string, x: string, m: string, more: seq<Runs.Event>)
    requires FourNames(a, b, x, m)
    requires GoesThrough(GATEWAY_UP, ApprovedReroute(b, m).spec, TwoRequests(a, b, x, m).between)
    ensures var rules, scene := ThreeRules(a, b, x, m), TwoRequests(a, b, x, m);
      && Runs.After(h, Reconciles(h, ApprovedReroute(a, m), GATEWAY_UP, scene.before), more).status.phase.Actuated?
      && |scene.after| == 1 && |scene.after[0].rules| > 0 && scene.after[0].rules[0] == rules[0]
  {
    var orig, before := [ThreeRules(a, b, x, m)], TwoRequests(a, b, x, m).before;
    ThreeRulesFacts(a, b, x, m);
    FirstIsCarriedOut(a, b, x, m);
    RequestsAct(a, m); RequestsAct(b, m);
    assert RunSteps(Untouched(orig), []) == before;
    assert Matches(orig[0][0], ApprovedReroute(a, m).spec.source);
    ActuatedButReverted(h, orig, [], OnlyRequests(), ApprovedReroute(a, m), GATEWAY_UP, ApprovedReroute(b, m), GATEWAY_UP, more);
  }

  lemma SecondSettles(h: Hashes, a: string, b: string, x: string, m: string, step: Step)
    requires FourNames(a, b, x, m) && step.request.key == CHANGE_REQUEST_KEY
    requires TwoRequests(a, b, x, m).between == RunSteps(Untouched([ThreeRules(a, b, x, m)]), [step])
    ensures Reconciles(h, ApprovedReroute(b, m), GATEWAY_UP, TwoRequests(a, b, x, m).between).status.phase.Actuated?
  {
    var between := TwoRequests(a, b, x, m).between;
    SecondIsCarriedOut(a, b, x, m, between, step);
    RequestsAct(b, m);
    ActingSettles(h, ApprovedReroute(b, m), GATEWAY_UP, between);
  }

  /** Two approved requests, one for a and one for b, both to model m: both are carried
      out, and the first rule is rerouted in between and back on its own backend after,
      although both requests end Actuated, the first for good. */
  lemma TwoReroutes(h: Hashes, a: string, b: string, x: string, m: string, more: seq<Runs.Event>)
    requires FourNames(a, b, x, m)
    ensures var rules, scene := ThreeRules(a, b, x, m), TwoRequests(a, b, x, m);
      && Runs.After(h, Reconciles(h, ApprovedReroute(a, m), GATEWAY_UP, scene.before), more).status.phase.Actuated?
      && Reconciles(h, ApprovedReroute(b, m), GATEWAY_UP, scene.between).status.phase.Actuated?
      && Stands([rules], scene.between, Redirect(a, m, m)) && Stands([rules], scene.after, Redirect(b, m, m))
      && |scene.after[0].rules| > 0 && scene.after[0].rules[0] == rules[0]
  {
    var step := FirstStands(a, b, x, m);
    assert [] + [step] == [step];
    SecondStands(a, b, x, m, step);
    SecondSettles(h, a, b, x, m, step);
    FirstIsBack(h, a, b, x, m, more);
  }

  /** A rule without a rewrite is not rerouted. */
  lemma OriginalDoesNotStand(rules: seq<Rule>, routes: seq<Route>, r: Redirect)
    requires |routes| == 1 && |rules| == |routes[0].rules| > 0 && Matches(rules[0], r.source) && Restorable(rules[0])
    requires routes[0].rules[0] == rules[0]
    ensures !Stands([rules], routes, r)
  {
    assert Rerouted(rules[0], r).backends[0].mutation.Some?;
    assert !StandsOn([rules][0], routes[0], r);
  }

  lemma FirstIsGone(h: Hashes, a: string, b: string, x: string, m: string, more: seq<Runs.Event>)
    requires FourNames(a, b, x, m)
    ensures !Stands([ThreeRules(a, b, x, m)], TwoRequests(a, b, x, m).after, Redirect(a, m, m))
  {
    TwoReroutes(h, a, b, x, m, more);
    ThreeRulesFacts(a, b, x, m);
    OriginalDoesNotStand(ThreeRules(a, b, x, m), TwoRequests(a, b, x, m).after, Redirect(a, m, m));
  }

  /** Named for a namespace one could meet. */
  lemma TwoReroutesNamed(h: Hashes, more: seq<Runs.Event>)
    ensures FourNames("gpt", "llama", "edge", "mistral")
    ensures var scene := TwoRequests("gpt", "llama", "edge", "mistral");
      && Runs.After(h, Reconciles(h, ApprovedReroute("gpt", "mistral"), GATEWAY_UP, scene.before), more).status.phase.Actuated?
      && Stands([ThreeRules("gpt", "llama", "edge", "mistral")], scene.between, Redirect("gpt", "mistral", "mistral"))
      && !Stands([ThreeRules("gpt", "llama", "edge", "mistral")], scene.after, Redirect("gpt", "mistral", "mistral"))
  {
    NamesDiffer();
    TwoReroutes(h, "gpt", "llama", "edge", "mistral", more);
    FirstIsGone(h, "gpt", "llama", "edge", "mistral", more);
  }

  const SOVEREIGNTY_KEY := "aiops.imperium.io/enforced-reroutes"

  /** One request and no other: once sovereignty enforcement blocks its source, its
      reroute is gone and it is still Actuated. */
  lemma BlockedReroute(h: Hashes, a: string, b: string, x: string, m: string, key: string, more: seq<Runs.Event>)
    requires FourNames(a, b, x, m)
    ensures var rules, scene := ThreeRules(a, b, x, m), TwoRequests(a, b, x, m);
      && Runs.After(h, Reconciles(h, ApprovedReroute(a, m), GATEWAY_UP, scene.before), more).status.phase.Actuated?
      && Stands([rules], scene.between, Redirect(a, m, m))
      && !Stands([rules], Stepped(scene.between, Step(BlockRequest(key, a), 1)), Redirect(a, m, m))
  {
    var orig := [ThreeRules(a, b, x, m)];
    TwoReroutes(h, a, b, x, m, more);
    var step := FirstStands(a, b, x, m);
    ThreeRulesFacts(a, b, x, m);
    assert HasModel(orig[0], a);
    BlockEndsReroute(orig, [] + [step], key, Redirect(a, m, m), 0);
    StepOfRun(Untouched(orig), [] + [step], Step(BlockRequest(key, a), 1));
  }

  lemma BlockedRerouteNamed(h: Hashes, more: seq<Runs.Event>)
    ensures var rules, scene := ThreeRules("gpt", "llama", "edge", "mistral"), TwoRequests("gpt", "llama", "edge", "mistral");
      && Runs.After(h, Reconciles(h, ApprovedReroute("gpt", "mistral"), GATEWAY_UP, scene.before), more).status.phase.Actuated?
      && Stands([rules], scene.between, Redirect("gpt", "mistral", "mistral"))
      && !Stands([rules], Stepped(scene.between, Step(BlockRequest(SOVEREIGNTY_KEY, "gpt"), 1)), Redirect("gpt", "mistral", "mistral"))
  {
    NamesDiffer();
    BlockedReroute(h, "gpt", "llama", "edge", "mistral", SOVEREIGNTY_KEY, more);
  }

  lemma NamesDiffer()
    ensures FourNames("gpt", "llama", "edge", "mistral")
  {
    assert |"gpt"| == 3 && |"llama"| == 5 && |"mistral"| == 7 && |BLOCK_BACKEND| == 13;
  }
}
