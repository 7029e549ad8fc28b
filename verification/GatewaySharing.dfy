/** Two owners that share a model and take turns: what they leave behind. */
module GatewaySharing {
  import opened Wrappers
  import opened Sequences
  import opened RouteControls
  import opened RouteReversal
  import opened GatewayActuator

  // ---- one route

  /** The rules of the model after one action on each. */
  function ActedAll(rules: seq<Rule>, model: string, a: Action): seq<Rule> {
    seq(|rules|, i requires 0 <= i < |rules| => if Matches(rules[i], model) then ActedRule(rules[i], a) else rules[i])
  }

  /** The rules of the model pointing at `name`, without a rewrite. */
  function Diverted(rules: seq<Rule>, model: string, name: string): seq<Rule> {
    ActedAll(rules, model, Revert(name))
  }

  /** What an owner saves who finds these rules, and all it saves. */
  ghost predicate SavesNames(rules: seq<Rule>, model: string, saved: map<string, string>) {
    && saved.Keys == (if HasModel(rules, model) then {model} else {})
    && forall i | 0 <= i < |rules| && Matches(rules[i], model) :: model in saved && saved[model] == BackendName(rules[i])
  }

  lemma OnlyMatchIsFirst(rules: seq<Rule>, model: string, i: int)
    requires OneRulePerModel(rules) && 0 <= i < |rules|
    ensures FirstWith(rules, model, i) <==> Matches(rules[i], model)
  {}

  lemma FirstCall(rules: seq<Rule>, c: Controls, model: string)
    requires OneRulePerModel(rules) && OnlyFor(c, model)
    ensures var t := Controlled(Start(rules), c);
      t.rules == ActedAll(rules, model, Doing(c, model)) && SavesNames(rules, model, t.saved)
  {
    AfterDoing(rules, c, model);
    forall i | 0 <= i < |rules| ensures FirstWith(rules, model, i) <==> Matches(rules[i], model) {
      OnlyMatchIsFirst(rules, model, i);
    }
  }

  lemma {:induction false} ReleaseIgnoresIndex(s: State, index: map<string, string>)
    ensures Controlled(s, Controls(map[], {}, index)) == Controlled(s, NO_CONTROLS)
    decreases |s.rules|
  {
    if s.rules != [] { ReleaseIgnoresIndex(s.(rules := Front(s.rules)), index); }
  }

  lemma {:induction false} NothingToRelease(rules: seq<Rule>)
    ensures Controlled(Start(rules), NO_CONTROLS) == Start(rules)
  {
    if rules != [] {
      NothingToRelease(Front(rules));
      FrontLast(rules);
    }
  }

  lemma ReleasePresent(rules: seq<Rule>, model: string, name: string)
    requires OneRulePerModel(rules) && HasModel(rules, model)
    ensures Controlled(State(rules, map[model := name]), NO_CONTROLS) == State(Diverted(rules, model, name), map[])
  {
    AfterRelease(rules, model, name);
    var t := Controlled(State(rules, map[model := name]), NO_CONTROLS);
    forall i | 0 <= i < |rules| ensures t.rules[i] == Diverted(rules, model, name)[i] {
      OnlyMatchIsFirst(rules, model, i);
    }
    assert t.rules == Diverted(rules, model, name);
  }

  lemma ReleaseAbsent(rules: seq<Rule>, model: string, name: string)
    requires !HasModel(rules, model)
    ensures Controlled(Start(rules), NO_CONTROLS) == State(Diverted(rules, model, name), map[])
  {
    NothingToRelease(rules);
    assert forall i | 0 <= i < |rules| :: !Matches(rules[i], model);
    assert Diverted(rules, model, name) == rules;
  }

  /** All that an owner of one model has saved. */
  ghost function Saving(rules: seq<Rule>, model: string, name: string): map<string, string> {
    if HasModel(rules, model) then map[model := name] else map[]
  }

  /** Letting go points the rules of the saved model at the saved name. */
  lemma Release(rules: seq<Rule>, model: string, name: string, index: map<string, string>)
    requires OneRulePerModel(rules)
    ensures Controlled(State(rules, Saving(rules, model, name)), Controls(map[], {}, index)) == State(Diverted(rules, model, name), map[])
  {
    ReleaseIgnoresIndex(State(rules, Saving(rules, model, name)), index);
    if HasModel(rules, model) { ReleasePresent(rules, model, name); } else { ReleaseAbsent(rules, model, name); }
  }

  lemma ActedKeepsMatch(rule: Rule, model: string, a: Action)
    requires Matches(rule, model) && !a.Skip?
    ensures Matches(ActedRule(rule, a), model) && BackendName(ActedRule(rule, a)) == NameGiven(a)
    ensures Plain(ActedRule(rule, a)) == Plain(rule)
  {
    var mutation := match a case Reroute(target, _) => Some(SetModel(target)) case _ => None;
    PointedPlain(rule, NameGiven(a), mutation);
    SamePlain(Pointed(rule, NameGiven(a), mutation), rule);
  }

  /** Acting on a model keeps which rules match what. */
  lemma ActedAllKeeps(rules: seq<Rule>, model: string, a: Action)
    requires !a.Skip?
    ensures var after := ActedAll(rules, model, a);
      && (forall i | 0 <= i < |rules| :: Plain(after[i]) == Plain(rules[i]) && Matches(after[i], model) == Matches(rules[i], model))
      && (forall i | 0 <= i < |rules| && Matches(rules[i], model) :: BackendName(after[i]) == NameGiven(a))
  {
    forall i | 0 <= i < |rules| && Matches(rules[i], model)
      ensures Plain(ActedRule(rules[i], a)) == Plain(rules[i]) && Matches(ActedRule(rules[i], a), model)
      ensures BackendName(ActedRule(rules[i], a)) == NameGiven(a)
    {
      ActedKeepsMatch(rules[i], model, a);
    }
  }

  lemma PlainKeepsOneRule(rules: seq<Rule>, after: seq<Rule>)
    requires OneRulePerModel(rules) && |after| == |rules| && forall i | 0 <= i < |rules| :: Plain(after[i]) == Plain(rules[i])
    ensures OneRulePerModel(after)
  {
    forall i | 0 <= i < |rules| ensures Controllable(after[i]) == Controllable(rules[i]) && RuleModel(after[i]) == RuleModel(rules[i]) {
      SamePlain(after[i], rules[i]);
    }
  }

  lemma MatchKeepsModel(rules: seq<Rule>, after: seq<Rule>, model: string)
    requires |after| == |rules| && forall i | 0 <= i < |rules| :: Matches(after[i], model) == Matches(rules[i], model)
    ensures HasModel(after, model) == HasModel(rules, model)
  {
    if HasModel(rules, model) {
      var i :| 0 <= i < |rules| && Matches(rules[i], model);
      assert Matches(after[i], model);
    }
    if HasModel(after, model) {
      var i :| 0 <= i < |after| && Matches(after[i], model);
      assert Matches(rules[i], model);
    }
  }

  /** Only the last action on a model shows. */
  lemma DivertedLast(rules: seq<Rule>, model: string, a: Action, name: string)
    requires !a.Skip?
    ensures Diverted(ActedAll(rules, model, a), model, name) == Diverted(rules, model, name)
  {
    ActedAllKeeps(rules, model, a);
    forall i | 0 <= i < |rules|
      ensures Diverted(ActedAll(rules, model, a), model, name)[i] == Diverted(rules, model, name)[i]
    {
      if Matches(rules[i], model) { SamePointed(ActedRule(rules[i], a), rules[i], name, None); }
    }
  }

  /** The rules and what two owners have saved. */
  datatype Shared = Shared(rules: seq<Rule>, first: map<string, string>, second: map<string, string>)

  function SharedBy(route: Route, a: string, b: string): Shared {
    Shared(route.rules, SavedUnder(route, a), SavedUnder(route, b))
  }

  /** Both owners have acted: the second saved what the first had put there. */
  ghost predicate BothActed(rules: seq<Rule>, model: string, name: string, last: Action, s: Shared) {
    && !last.Skip? && s.rules == ActedAll(rules, model, last)
    && SavesNames(rules, model, s.first)
    && s.second == Saving(rules, model, name)
  }

  lemma BothAct(rules: seq<Rule>, model: string, a: string, b: string, c1: Controls, c2: Controls)
    requires OneRulePerModel(rules) && a != b && OnlyFor(c1, model) && OnlyFor(c2, model)
    ensures var route := ActuatedRoute(ActuatedRoute(Route(rules, map[]), a, c1), b, c2);
      && BothActed(rules, model, NameGiven(Doing(c1, model)), Doing(c2, model), SharedBy(route, a, b))
      && forall key | key != a && key != b :: SavedUnder(route, key) == map[]
  {
    var d1, d2 := Doing(c1, model), Doing(c2, model);
    var start := Route(rules, map[]);
    ActuatedRouteState(start, a, c1);
    FirstCall(rules, c1, model);
    var one, acted := ActuatedRoute(start, a, c1), ActedAll(rules, model, d1);
    ActedAllKeeps(rules, model, d1);
    PlainKeepsOneRule(rules, acted);
    MatchKeepsModel(rules, acted, model);
    ActuatedRouteState(one, b, c2);
    FirstCall(acted, c2, model);
    SecondSaves(rules, acted, model, NameGiven(d1), Controlled(Start(acted), c2).saved);
    ActedTwice(rules, model, d1, d2);
  }

  lemma SecondSaves(rules: seq<Rule>, acted: seq<Rule>, model: string, name: string, saved: map<string, string>)
    requires |acted| == |rules| && SavesNames(acted, model, saved) && HasModel(acted, model) == HasModel(rules, model)
    requires forall i | 0 <= i < |acted| && Matches(acted[i], model) :: BackendName(acted[i]) == name
    ensures saved == Saving(rules, model, name)
  {
    if HasModel(acted, model) {
      var i :| 0 <= i < |acted| && Matches(acted[i], model);
      assert saved[model] == name;
    }
  }

  lemma ActedTwice(rules: seq<Rule>, model: string, a: Action, b: Action)
    requires !a.Skip? && !b.Skip?
    ensures ActedAll(ActedAll(rules, model, a), model, b) == ActedAll(rules, model, b)
  {
    ActedAllKeeps(rules, model, a);
    var mutation := match b case Reroute(target, _) => Some(SetModel(target)) case _ => None;
    forall i | 0 <= i < |rules|
      ensures ActedAll(ActedAll(rules, model, a), model, b)[i] == ActedAll(rules, model, b)[i]
    {
      if Matches(rules[i], model) { SamePointed(ActedRule(rules[i], a), rules[i], NameGiven(b), mutation); }
    }
  }

  lemma OneLetsGo(rules: seq<Rule>, model: string, name: string, last: Action, route: Route, key: string, index: map<string, string>)
    requires OneRulePerModel(rules) && !last.Skip? && route.rules == ActedAll(rules, model, last)
    requires SavedUnder(route, key) == Saving(rules, model, name)
    ensures var after := ActuatedRoute(route, key, Controls(map[], {}, index));
      && after.rules == Diverted(rules, model, name) && SavedUnder(after, key) == map[]
      && forall other | other != key :: SavedUnder(after, other) == SavedUnder(route, other)
  {
    var acted := ActedAll(rules, model, last);
    ActedAllKeeps(rules, model, last);
    PlainKeepsOneRule(rules, acted);
    MatchKeepsModel(rules, acted, model);
    ActuatedRouteState(route, key, Controls(map[], {}, index));
    Release(acted, model, name, index);
    DivertedLast(rules, model, last, name);
  }

  /** Both let go, the first one first: the rules end where the first had put them. */
  lemma BothLetGo(rules: seq<Rule>, model: string, name: string, last: Action, route: Route, a: string, b: string,
      index1: map<string, string>, index2: map<string, string>)
    requires OneRulePerModel(rules) && a != b && BothActed(rules, model, name, last, SharedBy(route, a, b))
    requires forall key | key != a && key != b :: SavedUnder(route, key) == map[]
    ensures var after := ActuatedRoute(ActuatedRoute(route, a, Controls(map[], {}, index1)), b, Controls(map[], {}, index2));
      after.rules == Diverted(rules, model, name) && forall key :: SavedUnder(after, key) == map[]
  {
    var own := FirstName(rules, model, SavedUnder(route, a));
    OneLetsGo(rules, model, own, last, route, a, index1);
    OneLetsGo(rules, model, name, Revert(own), ActuatedRoute(route, a, Controls(map[], {}, index1)), b, index2);
  }

  /** The name an owner saved, or nothing to restore. */
  ghost function FirstName(rules: seq<Rule>, model: string, saved: map<string, string>): (name: string)
    requires SavesNames(rules, model, saved)
    ensures saved == Saving(rules, model, name)
  {
    if HasModel(rules, model) then
      var i :| 0 <= i < |rules| && Matches(rules[i], model);
      saved[model]
    else ""
  }

  // ---- a namespace

  ghost predicate UniqueRules(orig: seq<seq<Rule>>) {
    forall i | 0 <= i < |orig| :: OneRulePerModel(orig[i])
  }

  /** Every route has the rules of the model pointing at `name` and no annotations. */
  ghost predicate LeftDiverted(orig: seq<seq<Rule>>, model: string, name: string, routes: seq<Route>) {
    && |routes| == |orig|
    && forall i | 0 <= i < |orig| ::
         routes[i].rules == Diverted(orig[i], model, name) && forall key :: SavedUnder(routes[i], key) == map[]
  }

  function All(routes: seq<Route>, r: Request): seq<Route> { Actuated(routes, r, |routes|) }

  function EmptyRequest(key: string): Request { Request(key, map[], {}) }

  function FirstControls(orig: seq<seq<Rule>>, r: Request): Controls {
    ControlsOf(r, BackendIndex(AllRules(Untouched(orig))))
  }

  function SecondControls(orig: seq<seq<Rule>>, first: Request, r: Request): Controls {
    ControlsOf(r, BackendIndex(AllRules(All(Untouched(orig), first))))
  }

  /** Two owners act on one model in turn, and let go in turn. */
  function TakeTurns(first: Request, second: Request, n: nat): seq<Step> {
    [Step(first, n)] + [Step(second, n)] + [LetGo(first.key, n)] + [LetGo(second.key, n)]
  }

  lemma TurnsTaken(routes: seq<Route>, first: Request, second: Request)
    ensures RunSteps(routes, TakeTurns(first, second, |routes|))
      == All(All(All(All(routes, first), second), EmptyRequest(first.key)), EmptyRequest(second.key))
  {
    var n := |routes|;
    assert [] + [Step(first, n)] == [Step(first, n)] && RunSteps(routes, []) == routes;
    LastStep(routes, [], Step(first, n));
    LastStep(routes, [Step(first, n)], Step(second, n));
    LastStep(routes, [Step(first, n)] + [Step(second, n)], LetGo(first.key, n));
    LastStep(routes, [Step(first, n)] + [Step(second, n)] + [LetGo(first.key, n)], LetGo(second.key, n));
  }

  lemma AllAt(routes: seq<Route>, r: Request, i: int)
    requires 0 <= i < |routes|
    ensures All(routes, r)[i] == ActuatedRoute(routes[i], r.key, ControlsOf(r, BackendIndex(AllRules(routes))))
  {}

  /** Whatever the two do to the model: once both have let go in turn, its rules are
      left where the first had put them, in every route. */
  lemma SecondOwnerRestoresTheFirst(orig: seq<seq<Rule>>, first: Request, second: Request, model: string)
    requires UniqueRules(orig) && first.key != second.key
    requires OnlyFor(FirstControls(orig, first), model) && OnlyFor(SecondControls(orig, first, second), model)
    ensures LeftDiverted(orig, model, NameGiven(Doing(FirstControls(orig, first), model)),
      RunSteps(Untouched(orig), TakeTurns(first, second, |orig|)))
  {
    var start := Untouched(orig);
    TurnsTaken(start, first, second);
    var one := All(start, first);
    var two := All(one, second);
    var three := All(two, EmptyRequest(first.key));
    var c1, c2 := FirstControls(orig, first), SecondControls(orig, first, second);
    var index1, index2 := BackendIndex(AllRules(two)), BackendIndex(AllRules(three));
    forall i | 0 <= i < |orig|
      ensures var after := All(three, EmptyRequest(second.key))[i];
        after.rules == Diverted(orig[i], model, NameGiven(Doing(c1, model))) && forall key :: SavedUnder(after, key) == map[]
    {
      AllAt(start, first, i); AllAt(one, second, i); AllAt(two, EmptyRequest(first.key), i); AllAt(three, EmptyRequest(second.key), i);
      BothAct(orig[i], model, first.key, second.key, c1, c2);
      BothLetGo(orig[i], model, NameGiven(Doing(c1, model)), Doing(c2, model), two[i], first.key, second.key, index1, index2);
    }
  }

  /** Owners that hold nothing change nothing by letting go. */
  lemma {:induction false} IdleOwnersLetGo(orig: seq<seq<Rule>>, model: string, name: string, run: seq<Step>, keys: seq<string>)
    requires LeftDiverted(orig, model, name, RunSteps(Untouched(orig), run))
    ensures LeftDiverted(orig, model, name, RunSteps(Untouched(orig), run + LetAllGo(keys, |orig|)))
  {
    if keys == [] {
      assert run + LetAllGo(keys, |orig|) == run;
    } else {
      var steps, last := run + LetAllGo(Front(keys), |orig|), LetGo(Last(keys), |orig|);
      IdleOwnersLetGo(orig, model, name, run, Front(keys));
      assert run + LetAllGo(keys, |orig|) == steps + [last];
      LastStep(Untouched(orig), steps, last);
      var before := RunSteps(Untouched(orig), steps);
      forall i | 0 <= i < |orig|
        ensures All(before, last.request)[i].rules == before[i].rules
        ensures forall key :: SavedUnder(All(before, last.request)[i], key) == map[]
      {
        IdleRoute(before[i], Last(keys), BackendIndex(AllRules(before)));
      }
    }
  }

  lemma IdleRoute(route: Route, key: string, index: map<string, string>)
    requires forall k :: SavedUnder(route, k) == map[]
    ensures var after := ActuatedRoute(route, key, Controls(map[], {}, index));
      after.rules == route.rules && forall k :: SavedUnder(after, k) == map[]
  {
    ActuatedRouteState(route, key, Controls(map[], {}, index));
    ReleaseIgnoresIndex(Start(route.rules), index);
    NothingToRelease(route.rules);
  }

  // ---- the target of the second owner

  lemma {:induction false} AllRulesExactly(routes: seq<Route>, rule: Rule)
    ensures rule in AllRules(routes) <==> exists i :: 0 <= i < |routes| && rule in routes[i].rules
  {
    if routes != [] {
      AllRulesExactly(Front(routes), rule);
      FrontLast(routes);
      if rule in AllRules(Front(routes)) {
        var i :| 0 <= i < |routes| - 1 && rule in Front(routes)[i].rules;
        assert rule in routes[i].rules;
      }
      if rule in Last(routes).rules { assert rule in routes[|routes| - 1].rules; }
    }
  }

  /** A model somebody serves stays a target while another model is controlled. */
  lemma TargetStays(orig: seq<seq<Rule>>, first: Request, model: string, target: string)
    requires UniqueRules(orig) && OnlyFor(FirstControls(orig, first), model)
    requires target != model && target in BackendIndex(AllRules(Untouched(orig)))
    ensures target in BackendIndex(AllRules(All(Untouched(orig), first)))
  {
    var start := Untouched(orig);
    var one := All(start, first);
    IndexedExactly(AllRules(start), target);
    var k :| 0 <= k < |AllRules(start)| && Serves(AllRules(start)[k]) && RuleModel(AllRules(start)[k]) == target;
    var rule := AllRules(start)[k];
    AllRulesExactly(start, rule);
    var i :| 0 <= i < |start| && rule in start[i].rules;
    RuleStays(orig, first, model, i, rule);
    AllRulesExactly(one, rule);
    assert rule in AllRules(one);
    var l :| 0 <= l < |AllRules(one)| && AllRules(one)[l] == rule;
    IndexedExactly(AllRules(one), target);
  }

  lemma RuleStays(orig: seq<seq<Rule>>, first: Request, model: string, i: int, rule: Rule)
    requires UniqueRules(orig) && OnlyFor(FirstControls(orig, first), model)
    requires 0 <= i < |orig| && rule in orig[i] && RuleModel(rule) != model
    ensures rule in All(Untouched(orig), first)[i].rules
  {
    var start := Untouched(orig);
    AllAt(start, first, i);
    ActuatedRouteState(start[i], first.key, FirstControls(orig, first));
    FirstCall(orig[i], FirstControls(orig, first), model);
    var j :| 0 <= j < |orig[i]| && orig[i][j] == rule;
    assert All(start, first)[i].rules[j] == rule;
  }

  function BlockRequest(key: string, model: string): Request { Request(key, map[], {model}) }

  function RerouteTo(key: string, model: string, target: string): Request { Request(key, map[model := target], {}) }

  lemma RerouteActs(r: Request, model: string, target: string, index: map<string, string>)
    requires r.desired == map[model := target] && r.blocked == {} && target in index && index[target] != ""
    ensures OnlyFor(ControlsOf(r, index), model) && Doing(ControlsOf(r, index), model) == Reroute(target, index[target])
  {}

  /** The operator's own case: one owner blocks a model, another reroutes it, and both
      let go in the order they came. The second had saved the block as the original,
      so in every route the model's rules stay blocked, nothing is saved any more, and
      no later release helps. */
  lemma SharedModelStaysBlocked(orig: seq<seq<Rule>>, model: string, target: string, a: string, b: string, keys: seq<string>)
    requires UniqueRules(orig) && a != b && target != model && target in BackendIndex(AllRules(Untouched(orig)))
    ensures LeftDiverted(orig, model, BLOCK_BACKEND,
      RunSteps(Untouched(orig), TakeTurns(BlockRequest(a, model), RerouteTo(b, model, target), |orig|) + LetAllGo(keys, |orig|)))
  {
    var first, second := BlockRequest(a, model), RerouteTo(b, model, target);
    TargetStays(orig, first, model, target);
    var index := BackendIndex(AllRules(All(Untouched(orig), first)));
    IndexNeverEmpty(AllRules(All(Untouched(orig), first)));
    RerouteActs(second, model, target, index);
    SecondOwnerRestoresTheFirst(orig, first, second, model);
    IdleOwnersLetGo(orig, model, BLOCK_BACKEND, TakeTurns(first, second, |orig|), keys);
  }
}
