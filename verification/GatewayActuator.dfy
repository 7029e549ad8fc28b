/** actuateRouteControlsWithAnnotation: applying controls to every route of a
    namespace, each owner keeping its saved originals under its own annotation. */
module GatewayActuator {
  import opened Wrappers
  import opened Sequences
  import opened RouteControls
  import opened RouteReversal

  /** A route: its rules, and the decoded annotation of each owner. */
  datatype Route = Route(rules: seq<Rule>, notes: map<string, map<string, string>>)

  function SavedUnder(route: Route, key: string): map<string, string> {
    if key in route.notes then route.notes[key] else map[]
  }

  function AllRules(routes: seq<Route>): seq<Rule> {
    if routes == [] then [] else AllRules(Front(routes)) + Last(routes).rules
  }

  // ---- the backend index

  /** A rule that offers its backend as a reroute target. */
  predicate Serves(rule: Rule) {
    Controllable(rule) && BackendName(rule) != "" && BackendName(rule) != BLOCK_BACKEND
  }

  /** Model to the backend that serves it; the first rule wins. */
  function BackendIndex(rules: seq<Rule>): map<string, string> {
    if rules == [] then map[]
    else
      var before := BackendIndex(Front(rules));
      var rule := Last(rules);
      if Serves(rule) && RuleModel(rule) !in before then before[RuleModel(rule) := BackendName(rule)] else before
  }

  /** The index offers real names only, never the block. */
  lemma {:induction false} IndexNeverEmpty(rules: seq<Rule>)
    ensures forall m | m in BackendIndex(rules) :: BackendIndex(rules)[m] != "" && BackendIndex(rules)[m] != BLOCK_BACKEND
  {
    if rules != [] { IndexNeverEmpty(Front(rules)); }
  }

  /** The indexed models are the ones some rule serves. */
  lemma {:induction false} IndexedExactly(rules: seq<Rule>, model: string)
    ensures model in BackendIndex(rules) <==> exists i :: 0 <= i < |rules| && Serves(rules[i]) && RuleModel(rules[i]) == model
  {
    if rules != [] {
      IndexedExactly(Front(rules), model);
      if model in BackendIndex(Front(rules)) {
        var i :| 0 <= i < |rules| - 1 && Serves(Front(rules)[i]) && RuleModel(Front(rules)[i]) == model;
        assert Serves(rules[i]);
      }
    }
  }

  /** The only rule that serves a model decides its index entry. */
  lemma {:induction false} OnlyServer(rules: seq<Rule>, p: nat, model: string)
    requires p < |rules| && Serves(rules[p]) && RuleModel(rules[p]) == model
    requires forall q | 0 <= q < |rules| && q != p :: !(Serves(rules[q]) && RuleModel(rules[q]) == model)
    ensures model in BackendIndex(rules) && BackendIndex(rules)[model] == BackendName(rules[p])
  {
    if p == |rules| - 1 {
      IndexedExactly(Front(rules), model);
    } else {
      OnlyServer(Front(rules), p, model);
    }
  }

  lemma IndexExtends(rules: seq<Rule>, rule: Rule)
    ensures BackendIndex(rules + [rule]) ==
      var before := BackendIndex(rules);
      if Serves(rule) && RuleModel(rule) !in before then before[RuleModel(rule) := BackendName(rule)] else before
  {
    assert Front(rules + [rule]) == rules;
  }

  // ---- one actuation

  /** The controls an owner asks for; the backend index is read from the routes. */
  datatype Request = Request(key: string, desired: map<string, string>, blocked: set<string>)

  function ControlsOf(r: Request, index: map<string, string>): Controls { Controls(r.desired, r.blocked, index) }

  function Annotated(notes: map<string, map<string, string>>, key: string, saved: map<string, string>): map<string, map<string, string>> {
    if saved == map[] then notes - {key} else notes[key := saved]
  }

  /** One route after its owner's controls; a route with nothing to do is not written. */
  function ActuatedRoute(route: Route, key: string, c: Controls): Route {
    var s := State(route.rules, SavedUnder(route, key));
    if Report(s, c).changed then
      var t := Controlled(s, c);
      Route(t.rules, Annotated(route.notes, key, t.saved))
    else route
  }

  /** The namespace when the updates of the first `done` routes went through. */
  function Actuated(routes: seq<Route>, r: Request, done: nat): seq<Route>
    requires done <= |routes|
  {
    var c := ControlsOf(r, BackendIndex(AllRules(routes)));
    seq(|routes|, i requires 0 <= i < |routes| => if i < done then ActuatedRoute(routes[i], r.key, c) else routes[i])
  }

  /** The models rerouted in the first `n` routes. */
  function ReroutedModels(routes: seq<Route>, r: Request, n: nat): set<string>
    requires n <= |routes|
  {
    if n == 0 then {}
    else
      var c := ControlsOf(r, BackendIndex(AllRules(routes)));
      var route := routes[n - 1];
      ReroutedModels(routes, r, n - 1) + Report(State(route.rules, SavedUnder(route, r.key)), c).rerouted
  }

  /** The models blocked in the first `n` routes. */
  function BlockedModels(routes: seq<Route>, r: Request, n: nat): set<string>
    requires n <= |routes|
  {
    if n == 0 then {}
    else
      var c := ControlsOf(r, BackendIndex(AllRules(routes)));
      var route := routes[n - 1];
      BlockedModels(routes, r, n - 1) + Report(State(route.rules, SavedUnder(route, r.key)), c).blocked
  }

  /** The request changes route `i`, so its update is sent, and the server refuses it. */
  predicate Refused(routes: seq<Route>, r: Request, failing: set<nat>, i: nat)
    requires i < |routes|
  {
    && i in failing
    && Report(State(routes[i].rules, SavedUnder(routes[i], r.key)), ControlsOf(r, BackendIndex(AllRules(routes)))).changed
  }

  /** The first route at or after `i` whose update is refused, or their number. */
  function FirstRefused(routes: seq<Route>, r: Request, failing: set<nat>, i: nat): (n: nat)
    requires i <= |routes|
    ensures i <= n <= |routes|
    decreases |routes| - i
  {
    if i == |routes| || Refused(routes, r, failing, i) then i else FirstRefused(routes, r, failing, i + 1)
  }

  lemma NextRoute(routes: seq<Route>, r: Request, i: nat)
    requires i < |routes|
    ensures var c := ControlsOf(r, BackendIndex(AllRules(routes)));
      var s := State(routes[i].rules, SavedUnder(routes[i], r.key));
      && Actuated(routes, r, i)[i] == routes[i]
      && Actuated(routes, r, i + 1) == Actuated(routes, r, i)[i := ActuatedRoute(routes[i], r.key, c)]
      && (!Report(s, c).changed ==> Actuated(routes, r, i + 1) == Actuated(routes, r, i))
      && ReroutedModels(routes, r, i + 1) == ReroutedModels(routes, r, i) + Report(s, c).rerouted
      && BlockedModels(routes, r, i + 1) == BlockedModels(routes, r, i) + Report(s, c).blocked
  {
    var c := ControlsOf(r, BackendIndex(AllRules(routes)));
    var now, next := Actuated(routes, r, i), Actuated(routes, r, i + 1);
    assert next == now[i := ActuatedRoute(routes[i], r.key, c)];
    if ActuatedRoute(routes[i], r.key, c) == routes[i] { assert next == now; }
  }

  /** The first `done` routes have been sent, none of them refused. */
  ghost predicate SentUpTo(original: seq<Route>, r: Request, failing: set<nat>, done: nat, routes: seq<Route>,
      rerouted: set<string>, blocked: set<string>)
  {
    && done <= |original| && routes == Actuated(original, r, done)
    && rerouted == ReroutedModels(original, r, done) && blocked == BlockedModels(original, r, done)
    && FirstRefused(original, r, failing, done) == FirstRefused(original, r, failing, 0)
  }

  lemma NothingSent(routes: seq<Route>, r: Request, failing: set<nat>)
    ensures SentUpTo(routes, r, failing, 0, routes, {}, {})
  {
    assert Actuated(routes, r, 0) == routes;
  }

  lemma OneMoreSent(original: seq<Route>, r: Request, failing: set<nat>, done: nat, before: seq<Route>, rerouted: set<string>,
      blocked: set<string>, ok: bool, now: seq<Route>, res: Outcome)
    requires done < |original| && SentUpTo(original, r, failing, done, before, rerouted, blocked)
    requires ok <==> !Refused(original, r, failing, done)
    requires now == Actuated(original, r, if ok then done + 1 else done)
    requires ReroutedModels(original, r, done + 1) == ReroutedModels(original, r, done) + res.rerouted
    requires BlockedModels(original, r, done + 1) == BlockedModels(original, r, done) + res.blocked
    ensures ok ==> SentUpTo(original, r, failing, done + 1, now, rerouted + res.rerouted, blocked + res.blocked)
    ensures !ok ==> done == FirstRefused(original, r, failing, 0)
  {}

  /** The routes of a namespace as the API server holds them. */
  class Namespace {
    var routes: seq<Route>

    constructor (routes: seq<Route>)
      ensures this.routes == routes
    {
      this.routes := routes;
    }

    method IndexRules(rules: seq<Rule>, started: map<string, string>, ghost seen: seq<Rule>) returns (index: map<string, string>)
      requires started == BackendIndex(seen)
      ensures index == BackendIndex(seen + rules)
    {
      index := started;
      assert seen + rules[..0] == seen;
      for j := 0 to |rules|
        invariant index == BackendIndex(seen + rules[..j])
      {
        var rule := rules[j];
        IndexExtends(seen + rules[..j], rule);
        assert seen + rules[..j + 1] == (seen + rules[..j]) + [rule];
        if Controllable(rule) {
          var name := BackendName(rule);
          if name != "" && name != BLOCK_BACKEND && RuleModel(rule) !in index {
            index := index[RuleModel(rule) := name];
          }
        }
      }
      assert rules[..|rules|] == rules;
    }

    method ModelBackends() returns (index: map<string, string>)
      ensures index == BackendIndex(AllRules(routes))
    {
      index := map[];
      for i := 0 to |routes|
        invariant index == BackendIndex(AllRules(routes[..i]))
      {
        index := IndexRules(routes[i].rules, index, AllRules(routes[..i]));
        assert Front(routes[..i + 1]) == routes[..i] && Last(routes[..i + 1]) == routes[i];
      }
      assert routes[..|routes|] == routes;
    }

    /** The outcome for one route, and the route to write back. */
    method ControlRoute(route: Route, key: string, c: Controls) returns (res: Outcome, after: Route)
      ensures res == Report(State(route.rules, SavedUnder(route, key)), c)
      ensures res.changed ==> after == ActuatedRoute(route, key, c)
    {
      var state := new RouteRules(route.rules, SavedUnder(route, key));
      res := state.ApplyControls(c);
      after := Route(state.rules[..], Annotated(route.notes, key, state.saved));
    }

    /** Control route `i` and send its update. */
    method UpdateRoute(i: nat, r: Request, c: Controls, failing: set<nat>, ghost original: seq<Route>)
      returns (ok: bool, res: Outcome)
      requires i < |original| && routes == Actuated(original, r, i)
      requires c == ControlsOf(r, BackendIndex(AllRules(original)))
      modifies this
      ensures ok <==> !Refused(original, r, failing, i)
      ensures routes == Actuated(original, r, if ok then i + 1 else i)
      ensures ReroutedModels(original, r, i + 1) == ReroutedModels(original, r, i) + res.rerouted
      ensures BlockedModels(original, r, i + 1) == BlockedModels(original, r, i) + res.blocked
    {
      NextRoute(original, r, i);
      var after;
      res, after := ControlRoute(routes[i], r.key, c);
      if res.changed {
        if i in failing { return false, res; }
        routes := routes[i := after];
      }
      ok := true;
    }

    /** Apply the request to every route. `failing` names the routes whose update the
        server refuses; the first refusal ends the call, its models already counted. */
    method Actuate(r: Request, failing: set<nat>) returns (ok: bool, done: nat, rerouted: set<string>, blocked: set<string>)
      modifies this
      ensures done <= |old(routes)| && routes == Actuated(old(routes), r, done)
      ensures ok <==> done == |old(routes)|
      ensures done == FirstRefused(old(routes), r, failing, 0)
      ensures rerouted == ReroutedModels(old(routes), r, if ok then done else done + 1)
      ensures blocked == BlockedModels(old(routes), r, if ok then done else done + 1)
    {
      var index := ModelBackends();
      var c := ControlsOf(r, index);
      ghost var original := routes;
      rerouted, blocked, ok, done := {}, {}, true, 0;
      NothingSent(original, r, failing);
      while done < |routes|
        invariant SentUpTo(original, r, failing, done, routes, rerouted, blocked)
        decreases |routes| - done
      {
        ghost var before := routes;
        var res;
        ok, res := UpdateRoute(done, r, c, failing, original);
        OneMoreSent(original, r, failing, done, before, rerouted, blocked, ok, routes, res);
        rerouted, blocked := rerouted + res.rerouted, blocked + res.blocked;
        if !ok { return; }
        done := done + 1;
      }
      ok := true;
    }
  }

  /** A rule that matches one model and serves it from one backend. */
  function Serving(model: string, backend: string): Rule {
    Rule([Match([Header(MODEL_HEADER, model)])], [Backend(Some(backend), None, "")], "")
  }

  lemma ServingFacts(model: string, backend: string)
    requires model != ""
    ensures Controllable(Serving(model, backend)) && RuleModel(Serving(model, backend)) == model
    ensures BackendName(Serving(model, backend)) == backend && Restorable(Serving(model, backend))
  {}

  // ---- routes as tracked states

  lemma {:induction false} UnchangedCall(s: State, c: Controls)
    requires !Report(s, c).changed
    ensures Controlled(s, c) == s
    decreases |s.rules|
  {
    if s.rules != [] {
      UnchangedCall(s.(rules := Front(s.rules)), c);
      FrontLast(s.rules);
    }
  }

  /** Written or not, the route holds the outcome of the call; other annotations stay. */
  lemma ActuatedRouteState(route: Route, key: string, c: Controls)
    ensures var t := Controlled(State(route.rules, SavedUnder(route, key)), c);
      && ActuatedRoute(route, key, c).rules == t.rules
      && SavedUnder(ActuatedRoute(route, key, c), key) == t.saved
      && forall other | other != key :: SavedUnder(ActuatedRoute(route, key, c), other) == SavedUnder(route, other)
  {
    var s := State(route.rules, SavedUnder(route, key));
    if !Report(s, c).changed { UnchangedCall(s, c); }
  }

  // ---- safety of every run

  /** Names that may appear: the backends the routes came with, and the block. */
  predicate Known(names: set<string>, name: string) { name in names || name == BLOCK_BACKEND }

  /** A rule is as it came, or points at a known backend and never rewrites a
      request on its way to the block. */
  predicate SafeRule(names: set<string>, rule: Rule) {
    Controllable(rule) ==>
      && Known(names, BackendName(rule))
      && (rule.backends[0].mutation.Some? && rule.backends[0].mutation.value.SetModel? ==> BackendName(rule) != BLOCK_BACKEND)
  }

  ghost predicate SafeNotes(names: set<string>, saved: map<string, string>) {
    forall m | m in saved :: Known(names, saved[m])
  }

  ghost predicate SafeRoute(names: set<string>, route: Route) {
    && (forall i | 0 <= i < |route.rules| :: SafeRule(names, route.rules[i]))
    && (forall key | key in route.notes :: SafeNotes(names, route.notes[key]))
  }

  ghost predicate SafeNamespace(names: set<string>, routes: seq<Route>) {
    forall i | 0 <= i < |routes| :: SafeRoute(names, routes[i])
  }

  /** The index offers live backends only, never the block. */
  lemma {:induction false} IndexSafe(names: set<string>, rules: seq<Rule>)
    requires forall i | 0 <= i < |rules| :: SafeRule(names, rules[i])
    ensures forall m | m in BackendIndex(rules) :: BackendIndex(rules)[m] in names && BackendIndex(rules)[m] != BLOCK_BACKEND
  {
    if rules != [] {
      IndexSafe(names, Front(rules));
      assert SafeRule(names, rules[|rules| - 1]);
    }
  }

  ghost predicate SafeIndex(names: set<string>, index: map<string, string>) {
    forall m | m in index :: index[m] in names && index[m] != BLOCK_BACKEND
  }

  lemma {:induction false} AllRulesSafe(names: set<string>, routes: seq<Route>)
    requires SafeNamespace(names, routes)
    ensures forall i | 0 <= i < |AllRules(routes)| :: SafeRule(names, AllRules(routes)[i])
  {
    if routes != [] {
      AllRulesSafe(names, Front(routes));
      assert SafeRoute(names, routes[|routes| - 1]);
    }
  }

  lemma ActionSafe(names: set<string>, rule: Rule, saved: map<string, string>, c: Controls)
    requires SafeRule(names, rule) && SafeNotes(names, saved) && SafeIndex(names, c.backends)
    ensures var a := ActionFor(rule, saved, c);
      SafeRule(names, ActedRule(rule, a)) && SafeNotes(names, ActedSaved(rule, saved, a))
  {
    match ActionFor(rule, saved, c) {
      case Skip =>
      case Reroute(target, backend) => PointedSafe(names, rule, backend, Some(SetModel(target)));
      case Block => PointedSafe(names, rule, BLOCK_BACKEND, None);
      case Revert(original) => PointedSafe(names, rule, original, None);
    }
  }

  lemma PointedSafe(names: set<string>, rule: Rule, name: string, mutation: Option<Mutation>)
    requires Controllable(rule) && Known(names, name) && (mutation.Some? ==> name != BLOCK_BACKEND)
    ensures SafeRule(names, Pointed(rule, name, mutation))
  {
    PointedPlain(rule, name, mutation);
    assert Pointed(rule, name, mutation).backends[0].mutation == mutation;
  }

  lemma {:induction false} CallSafe(names: set<string>, s: State, c: Controls)
    requires (forall i | 0 <= i < |s.rules| :: SafeRule(names, s.rules[i])) && SafeNotes(names, s.saved) && SafeIndex(names, c.backends)
    ensures var t := Controlled(s, c);
      (forall i | 0 <= i < |t.rules| :: SafeRule(names, t.rules[i])) && SafeNotes(names, t.saved)
    decreases |s.rules|
  {
    if s.rules != [] {
      var front := s.(rules := Front(s.rules));
      CallSafe(names, front, c);
      assert SafeRule(names, s.rules[|s.rules| - 1]);
      ActionSafe(names, Last(s.rules), Controlled(front, c).saved, c);
    }
  }

  lemma RouteStaysSafe(names: set<string>, route: Route, key: string, c: Controls)
    requires SafeRoute(names, route) && SafeIndex(names, c.backends)
    ensures SafeRoute(names, ActuatedRoute(route, key, c))
  {
    var s := State(route.rules, SavedUnder(route, key));
    CallSafe(names, s, c);
  }

  lemma ActuationSafe(names: set<string>, routes: seq<Route>, r: Request, done: nat)
    requires SafeNamespace(names, routes) && done <= |routes|
    ensures SafeNamespace(names, Actuated(routes, r, done))
  {
    AllRulesSafe(names, routes);
    IndexSafe(names, AllRules(routes));
    var c := ControlsOf(r, BackendIndex(AllRules(routes)));
    forall i | 0 <= i < |routes| ensures SafeRoute(names, Actuated(routes, r, done)[i]) {
      assert SafeRoute(names, routes[i]);
      if i < done { RouteStaysSafe(names, routes[i], r.key, c); }
    }
  }

  /** A step of a run: a request, and how many route updates went through. */
  datatype Step = Step(request: Request, done: nat)

  function Stepped(routes: seq<Route>, step: Step): (after: seq<Route>)
    ensures |after| == |routes|
  {
    Actuated(routes, step.request, if step.done <= |routes| then step.done else |routes|)
  }

  function RunSteps(routes: seq<Route>, run: seq<Step>): seq<Route>
    ensures |RunSteps(routes, run)| == |routes|
    decreases |run|
  {
    if run == [] then routes else Stepped(RunSteps(routes, Front(run)), Last(run))
  }

  /** Routes as they came, without annotations. */
  function Untouched(orig: seq<seq<Rule>>): seq<Route> {
    seq(|orig|, i requires 0 <= i < |orig| => Route(orig[i], map[]))
  }

  ghost predicate SafeOriginals(names: set<string>, orig: seq<seq<Rule>>) {
    forall i, j | 0 <= i < |orig| && 0 <= j < |orig[i]| :: SafeRule(names, orig[i][j])
  }

  /** Whatever owners ask for, in whatever order and however updates fail: every live
      backend is one the routes came with or the block, and no rule that rewrites
      requests points at the block. */
  lemma {:induction false} EveryRunIsSafe(names: set<string>, orig: seq<seq<Rule>>, run: seq<Step>)
    requires SafeOriginals(names, orig)
    ensures SafeNamespace(names, RunSteps(Untouched(orig), run))
  {
    if run == [] {
      forall i | 0 <= i < |orig| ensures SafeRoute(names, Untouched(orig)[i]) {}
    } else {
      EveryRunIsSafe(names, orig, Front(run));
      var before := RunSteps(Untouched(orig), Front(run));
      ActuationSafe(names, before, Last(run).request, if Last(run).done <= |before| then Last(run).done else |before|);
    }
  }

  // ---- owners that share no model

  /** Each model has one owner, named by its annotation key. */
  type Ownership = string -> string

  predicate Owns(owner: Ownership, key: string, model: string) { owner(model) == key }

  function OwnedBy(owner: Ownership, key: string): string -> bool { model => Owns(owner, key, model) }

  ghost predicate Respects(owner: Ownership, r: Request) {
    (forall m | m in r.desired :: owner(m) == r.key) && (forall m | m in r.blocked :: owner(m) == r.key)
  }

  /** Every owner's view of the route is tracked. */
  ghost predicate RouteTracked(orig: seq<Rule>, route: Route, owner: Ownership) {
    forall key :: Tracks(orig, State(route.rules, SavedUnder(route, key)), OwnedBy(owner, key))
  }

  /** One owner has let go: its rules are the originals and it saves nothing. */
  ghost predicate Released(orig: seq<Rule>, route: Route, owner: Ownership, key: string) {
    && |route.rules| == |orig| && SavedUnder(route, key) == map[]
    && forall i | 0 <= i < |orig| && Managed(orig[i], OwnedBy(owner, key)) :: route.rules[i] == orig[i]
  }

  lemma RouteCall(orig: seq<Rule>, route: Route, owner: Ownership, r: Request, c: Controls)
    requires Reversible(orig) && RouteTracked(orig, route, owner) && Respects(owner, r)
    requires c.desired == r.desired && c.blocked == r.blocked
    ensures RouteTracked(orig, ActuatedRoute(route, r.key, c), owner)
    ensures forall key | key != r.key && Released(orig, route, owner, key) :: Released(orig, ActuatedRoute(route, r.key, c), owner, key)
    ensures r.desired == map[] && r.blocked == {} ==> Released(orig, ActuatedRoute(route, r.key, c), owner, r.key)
  {
    var owned := OwnedBy(owner, r.key);
    var s := State(route.rules, SavedUnder(route, r.key));
    var after := ActuatedRoute(route, r.key, c);
    assert Tracks(orig, s, owned);
    OneCall(orig, s, c, owned);
    ActuatedRouteState(route, r.key, c);
    forall key ensures Tracks(orig, State(after.rules, SavedUnder(after, key)), OwnedBy(owner, key)) {
      assert Tracks(orig, State(route.rules, SavedUnder(route, key)), OwnedBy(owner, key));
      if key != r.key { OtherOwner(orig, route.rules, after.rules, SavedUnder(route, key), owner, r.key, key); }
    }
    forall key | key != r.key && Released(orig, route, owner, key) ensures Released(orig, after, owner, key) {
      assert forall i | 0 <= i < |orig| && Managed(orig[i], OwnedBy(owner, key)) :: !Managed(orig[i], owned);
    }
    if r.desired == map[] && r.blocked == {} {
      var t := Controlled(s, c);
      forall i | 0 <= i < |orig| && Controllable(orig[i]) ensures RuleModel(orig[i]) !in t.saved {
        if owned(RuleModel(orig[i])) { assert Managed(orig[i], owned); }
      }
      NothingHeld(orig, t.saved);
    }
  }

  lemma OtherOwner(orig: seq<Rule>, before: seq<Rule>, after: seq<Rule>, saved: map<string, string>, owner: Ownership, actor: string, key: string)
    requires actor != key && Tracks(orig, State(before, saved), OwnedBy(owner, key)) && |after| == |orig|
    requires forall i | 0 <= i < |orig| :: Plain(after[i]) == Plain(orig[i])
    requires forall i | 0 <= i < |orig| && !Managed(orig[i], OwnedBy(owner, actor)) :: after[i] == before[i]
    ensures Tracks(orig, State(after, saved), OwnedBy(owner, key))
  {
    forall i | 0 <= i < |orig| && Managed(orig[i], OwnedBy(owner, key)) ensures RuleTracked(orig[i], after[i], saved) {
      assert !Managed(orig[i], OwnedBy(owner, actor));
      assert RuleTracked(orig[i], before[i], saved);
    }
  }

  ghost predicate NamespaceTracked(orig: seq<seq<Rule>>, routes: seq<Route>, owner: Ownership) {
    |routes| == |orig| && forall i | 0 <= i < |orig| :: RouteTracked(orig[i], routes[i], owner)
  }

  ghost predicate NamespaceReleased(orig: seq<seq<Rule>>, routes: seq<Route>, owner: Ownership, key: string) {
    |routes| == |orig| && forall i | 0 <= i < |orig| :: Released(orig[i], routes[i], owner, key)
  }

  ghost predicate AllReversible(orig: seq<seq<Rule>>) {
    forall i | 0 <= i < |orig| :: Reversible(orig[i])
  }

  lemma NamespaceCall(orig: seq<seq<Rule>>, routes: seq<Route>, owner: Ownership, r: Request, done: nat)
    requires AllReversible(orig) && NamespaceTracked(orig, routes, owner) && Respects(owner, r) && done <= |routes|
    ensures NamespaceTracked(orig, Actuated(routes, r, done), owner)
    ensures forall key | key != r.key && NamespaceReleased(orig, routes, owner, key) ::
      NamespaceReleased(orig, Actuated(routes, r, done), owner, key)
    ensures r.desired == map[] && r.blocked == {} && done == |routes| ==>
      NamespaceReleased(orig, Actuated(routes, r, done), owner, r.key)
  {
    var c := ControlsOf(r, BackendIndex(AllRules(routes)));
    forall i | 0 <= i < |orig|
      ensures RouteTracked(orig[i], Actuated(routes, r, done)[i], owner)
      ensures forall key | key != r.key && Released(orig[i], routes[i], owner, key) ::
        Released(orig[i], Actuated(routes, r, done)[i], owner, key)
      ensures r.desired == map[] && r.blocked == {} && i < done ==> Released(orig[i], Actuated(routes, r, done)[i], owner, r.key)
    {
      assert RouteTracked(orig[i], routes[i], owner) && Reversible(orig[i]);
      RouteCall(orig[i], routes[i], owner, r, c);
    }
  }

  lemma {:induction false} RunStaysTracked(orig: seq<seq<Rule>>, run: seq<Step>, owner: Ownership)
    requires AllReversible(orig) && forall i | 0 <= i < |run| :: Respects(owner, run[i].request)
    ensures NamespaceTracked(orig, RunSteps(Untouched(orig), run), owner)
  {
    if run == [] {
      forall i | 0 <= i < |orig| ensures RouteTracked(orig[i], Untouched(orig)[i], owner) {
        forall key ensures Tracks(orig[i], State(orig[i], map[]), OwnedBy(owner, key)) {
          StartTracked(orig[i], OwnedBy(owner, key));
        }
      }
    } else {
      RunStaysTracked(orig, Front(run), owner);
      assert Respects(owner, run[|run| - 1].request);
      var before := RunSteps(Untouched(orig), Front(run));
      NamespaceCall(orig, before, owner, Last(run).request, if Last(run).done <= |before| then Last(run).done else |before|);
    }
  }

  /** An owner lets go of everything, and every update goes through. */
  function LetGo(key: string, routes: nat): Step { Step(Request(key, map[], {}), routes) }

  function LetAllGo(keys: seq<string>, routes: nat): seq<Step> {
    seq(|keys|, i requires 0 <= i < |keys| => LetGo(keys[i], routes))
  }

  ghost predicate ReleasedBy(orig: seq<seq<Rule>>, routes: seq<Route>, owner: Ownership, keys: seq<string>) {
    NamespaceTracked(orig, routes, owner) && forall key | key in keys :: NamespaceReleased(orig, routes, owner, key)
  }

  lemma OneMoreLetsGo(orig: seq<seq<Rule>>, routes: seq<Route>, owner: Ownership, keys: seq<string>, key: string)
    requires AllReversible(orig) && ReleasedBy(orig, routes, owner, keys)
    ensures ReleasedBy(orig, Actuated(routes, LetGo(key, |orig|).request, |routes|), owner, keys + [key])
  {
    NamespaceCall(orig, routes, owner, LetGo(key, |orig|).request, |routes|);
  }

  lemma {:induction false} OwnersLetGo(orig: seq<seq<Rule>>, run: seq<Step>, owner: Ownership, keys: seq<string>)
    requires AllReversible(orig) && forall i | 0 <= i < |run| :: Respects(owner, run[i].request)
    ensures ReleasedBy(orig, RunSteps(Untouched(orig), run + LetAllGo(keys, |orig|)), owner, keys)
  {
    if keys == [] {
      RunStaysTracked(orig, run, owner);
      assert run + LetAllGo(keys, |orig|) == run;
    } else {
      OwnersLetGo(orig, run, owner, Front(keys));
      var steps := run + LetAllGo(Front(keys), |orig|);
      var last := LetGo(Last(keys), |orig|);
      assert run + LetAllGo(keys, |orig|) == steps + [last];
      OneMoreLetsGo(orig, RunSteps(Untouched(orig), steps), owner, Front(keys), Last(keys));
      LastStep(Untouched(orig), steps, last);
      FrontLast(keys);
    }
  }

  lemma StepOfRun(routes: seq<Route>, run: seq<Step>, step: Step)
    ensures RunSteps(routes, run + [step]) == Stepped(RunSteps(routes, run), step)
  {
    assert Front(run + [step]) == run && Last(run + [step]) == step;
  }

  lemma LastStep(routes: seq<Route>, run: seq<Step>, step: Step)
    requires step.done == |routes|
    ensures RunSteps(routes, run + [step]) == Actuated(RunSteps(routes, run), step.request, |routes|)
  {
    StepOfRun(routes, run, step);
  }

  /** Owners of disjoint models may interleave as they like and fail half way; once
      each has let go, in any order, every rule of every route is the original. */
  lemma OwnersRestoreNamespace(orig: seq<seq<Rule>>, run: seq<Step>, owner: Ownership, keys: seq<string>)
    requires AllReversible(orig) && forall i | 0 <= i < |run| :: Respects(owner, run[i].request)
    requires forall i, j | 0 <= i < |orig| && 0 <= j < |orig[i]| && Controllable(orig[i][j]) :: owner(RuleModel(orig[i][j])) in keys
    ensures var routes := RunSteps(Untouched(orig), run + LetAllGo(keys, |orig|));
      && |routes| == |orig|
      && (forall i | 0 <= i < |orig| :: routes[i].rules == orig[i])
      && (forall i, key | 0 <= i < |orig| && key in keys :: SavedUnder(routes[i], key) == map[])
  {
    OwnersLetGo(orig, run, owner, keys);
    var routes := RunSteps(Untouched(orig), run + LetAllGo(keys, |orig|));
    forall i | 0 <= i < |orig| ensures routes[i].rules == orig[i] {
      assert RouteTracked(orig[i], routes[i], owner);
      assert Tracks(orig[i], State(routes[i].rules, SavedUnder(routes[i], "")), OwnedBy(owner, ""));
      forall j | 0 <= j < |orig[i]| ensures routes[i].rules[j] == orig[i][j] {
        SamePlain(routes[i].rules[j], orig[i][j]);
        if Controllable(orig[i][j]) {
          var key := owner(RuleModel(orig[i][j]));
          assert NamespaceReleased(orig, routes, owner, key) && Released(orig[i], routes[i], owner, key);
          assert Managed(orig[i][j], OwnedBy(owner, key));
        }
      }
    }
    forall i, key | 0 <= i < |orig| && key in keys ensures SavedUnder(routes[i], key) == map[] {
      assert NamespaceReleased(orig, routes, owner, key) && Released(orig[i], routes[i], owner, key);
    }
  }
}
