/** Owners that share models of a namespace: exactly when letting go, in any order and
    after anything they did, gives every route back as it came. */
module SharedOwnership {
  import opened Wrappers
  import opened Sequences
  import opened RouteControls
  import opened RouteReversal
  import opened GatewayActuator
  import opened GatewaySharing
  import opened RouteCalls

  // ---- permissions

  /** Who may control which models, and which owners may block. */
  datatype Permissions = Permissions(models: map<string, set<string>>, blockers: set<string>)

  predicate MayControl(p: Permissions, key: string, model: string) { key in p.models && model in p.models[key] }

  ghost predicate Permits(p: Permissions, r: Request) {
    && r.key in p.models && r.desired.Keys <= p.models[r.key] && r.blocked <= p.models[r.key]
    && (r.blocked != {} ==> r.key in p.blockers)
  }

  ghost predicate PermittedRun(p: Permissions, run: seq<Step>) {
    forall i | 0 <= i < |run| :: Permits(p, run[i].request)
  }

  /** Rules as they came, and nothing saved. */
  ghost predicate Restored(orig: seq<seq<Rule>>, routes: seq<Route>, keys: seq<string>) {
    && |routes| == |orig| && (forall i | 0 <= i < |orig| :: routes[i].rules == orig[i])
    && forall i, key | 0 <= i < |orig| && key in keys :: SavedUnder(routes[i], key) == map[]
  }

  ghost predicate AllLetGo(p: Permissions, keys: seq<string>) {
    forall key | key in p.models :: key in keys
  }

  /** Every permitted run, failed updates included, followed by every order of letting
      go, restores the namespace. */
  ghost predicate AlwaysRestores(orig: seq<seq<Rule>>, p: Permissions) {
    forall run: seq<Step>, keys: seq<string> | PermittedRun(p, run) && AllLetGo(p, keys) ::
      Restored(orig, RunSteps(Untouched(orig), run + LetAllGo(keys, |orig|)), keys)
  }

  // ---- the condition

  ghost predicate IsRule(orig: seq<seq<Rule>>, i: int, j: int) {
    0 <= i < |orig| && 0 <= j < |orig[i]| && Controllable(orig[i][j])
  }

  function OriginalIndex(orig: seq<seq<Rule>>): map<string, string> { BackendIndex(AllRules(Untouched(orig))) }

  /** The rule's own backend can be what a reroute to its model leads to: it is the first
      to serve the model, or those before it can be blocked. */
  ghost predicate Offers(orig: seq<seq<Rule>>, p: Permissions, i: int, j: int)
    requires IsRule(orig, i, j)
  {
    && Serves(orig[i][j])
    && (Entry(OriginalIndex(orig), RuleModel(orig[i][j])) == Some(BackendName(orig[i][j]))
        || exists key :: key in p.blockers && MayControl(p, key, RuleModel(orig[i][j])))
  }

  ghost predicate Offered(orig: seq<seq<Rule>>, p: Permissions, name: string) {
    exists i, j :: IsRule(orig, i, j) && Offers(orig, p, i, j) && BackendName(orig[i][j]) == name
  }

  /** A reroute can lead the rule away from its own backend. */
  ghost predicate CanBeMoved(orig: seq<seq<Rule>>, p: Permissions, rule: Rule)
    requires Controllable(rule)
  {
    exists name :: Offered(orig, p, name) && name != BackendName(rule)
  }

  /** The rule serves its model, or can be rerouted to a backend that does. */
  ghost predicate CanServe(orig: seq<seq<Rule>>, p: Permissions, i: int, j: int)
    requires IsRule(orig, i, j)
  {
    Serves(orig[i][j]) || (OriginalIndex(orig) != map[] && exists key :: MayControl(p, key, RuleModel(orig[i][j])))
  }

  /** Some other rule can serve while this one is blocked. */
  ghost predicate ServedBeside(orig: seq<seq<Rule>>, p: Permissions, i: int, j: int) {
    exists k, l :: IsRule(orig, k, l) && (k != i || l != j) && CanServe(orig, p, k, l)
  }

  /** Two owners of the rule's model can disturb each other: one of them moves the rule
      and the other acts on what it finds. */
  ghost predicate Disturbed(orig: seq<seq<Rule>>, p: Permissions, a: string, b: string, i: int, j: int)
    requires IsRule(orig, i, j)
  {
    || CanBeMoved(orig, p, orig[i][j])
    || (BackendName(orig[i][j]) != BLOCK_BACKEND && a in p.blockers && (b in p.blockers || ServedBeside(orig, p, i, j)))
  }

  ghost predicate Share(p: Permissions, a: string, b: string, model: string) {
    a != b && MayControl(p, a, model) && MayControl(p, b, model)
  }

  /** No two owners of a shared model can disturb each other. */
  ghost predicate SharesSafely(orig: seq<seq<Rule>>, p: Permissions) {
    forall a, b, i, j | IsRule(orig, i, j) && Share(p, a, b, RuleModel(orig[i][j])) :: !Disturbed(orig, p, a, b, i, j)
  }

  // ---- one rule under one call

  /** Rule `j` is acted on by itself: what its caller had saved for it decides. */
  ghost predicate ActedOn(s: State, c: Controls, t: State, j: int)
    requires 0 <= j < |s.rules| && j < |t.rules|
  {
    var rule := s.rules[j];
    var a := ActionFor(rule, s.saved, c);
    && t.rules[j] == ActedRule(rule, a)
    && (Controllable(rule) ==> Entry(t.saved, RuleModel(rule)) == EntryAfter(rule, Entry(s.saved, RuleModel(rule)), a))
  }

  /** What one call leaves of a route, rule by rule. */
  ghost predicate Called(before: Route, key: string, c: Controls, after: Route) {
    && |after.rules| == |before.rules|
    && (forall j | 0 <= j < |before.rules| :: ActedOn(View(before, key), c, View(after, key), j))
    && (forall m | !HasModel(before.rules, m) :: Entry(SavedUnder(after, key), m) == Entry(SavedUnder(before, key), m))
    && (forall other | other != key :: SavedUnder(after, other) == SavedUnder(before, other))
  }

  lemma RuleActedOn(route: Route, key: string, c: Controls, j: int)
    requires OneRulePerModel(route.rules) && 0 <= j < |route.rules|
    ensures |ActuatedRoute(route, key, c).rules| == |route.rules|
    ensures ActedOn(View(route, key), c, View(ActuatedRoute(route, key, c), key), j)
  {
    var rule := route.rules[j];
    RouteActs(route, key, c, RuleModel(rule));
    if Controllable(rule) {
      OnlyMatchIsFirst(route.rules, RuleModel(rule), j);
      assert FirstWith(route.rules, RuleModel(rule), j);
    } else {
      RouteKeepsPlain(route.rules, route, key, c);
      SamePlain(ActuatedRoute(route, key, c).rules[j], rule);
    }
  }

  /** With one rule per model, a call acts on each rule by itself. */
  lemma RouteCalled(route: Route, key: string, c: Controls)
    requires OneRulePerModel(route.rules)
    ensures Called(route, key, c, ActuatedRoute(route, key, c))
  {
    RouteActs(route, key, c, "");
    ActuatedRouteState(route, key, c);
    forall j | 0 <= j < |route.rules| ensures ActedOn(View(route, key), c, View(ActuatedRoute(route, key, c), key), j) {
      RuleActedOn(route, key, c, j);
    }
    forall m | !HasModel(route.rules, m)
      ensures Entry(SavedUnder(ActuatedRoute(route, key, c), key), m) == Entry(SavedUnder(route, key), m)
    {
      RouteActs(route, key, c, m);
      assert route.rules[..|route.rules|] == route.rules;
    }
  }

  /** A step calls every route it reaches, and keeps the models of all of them. */
  lemma StepCalls(orig: seq<seq<Rule>>, routes: seq<Route>, step: Step)
    requires UniqueRules(orig) && KeepsModels(orig, routes)
    ensures KeepsModels(orig, Stepped(routes, step))
    ensures forall i | 0 <= i < |orig| && i < step.done :: Called(routes[i], step.request.key, StepControls(routes, step), Stepped(routes, step)[i])
    ensures forall i | 0 <= i < |orig| && i >= step.done :: Stepped(routes, step)[i] == routes[i]
  {
    StepKeepsModels(orig, routes, step);
    forall i | 0 <= i < |orig|
      ensures i < step.done ==> Called(routes[i], step.request.key, StepControls(routes, step), Stepped(routes, step)[i])
      ensures i >= step.done ==> Stepped(routes, step)[i] == routes[i]
    {
      SteppedAt(routes, step, i);
      PlainAsFacts(orig[i], routes[i].rules);
      RouteCalled(routes[i], step.request.key, StepControls(routes, step));
    }
  }

  lemma LetGoNext(routes: seq<Route>, run: seq<Step>, keys: seq<string>, key: string)
    ensures RunSteps(routes, run + LetAllGo(keys + [key], |routes|))
      == Stepped(RunSteps(routes, run + LetAllGo(keys, |routes|)), LetGo(key, |routes|))
  {
    var steps, last := run + LetAllGo(keys, |routes|), LetGo(key, |routes|);
    assert run + LetAllGo(keys + [key], |routes|) == steps + [last];
    StepOfRun(routes, steps, last);
  }

  // ---- the index, by position

  ghost predicate ServesModel(rule: Rule, model: string) { Serves(rule) && RuleModel(rule) == model }

  /** The first rule that serves the model. */
  ghost predicate FirstServer(routes: seq<Route>, model: string, i: int, j: int) {
    && 0 <= i < |routes| && 0 <= j < |routes[i].rules| && ServesModel(routes[i].rules[j], model)
    && forall k, l | 0 <= k < i && 0 <= l < |routes[k].rules| :: !ServesModel(routes[k].rules[l], model)
  }

  lemma {:induction false} IndexJoins(a: seq<Rule>, b: seq<Rule>, model: string)
    ensures Entry(BackendIndex(a + b), model) ==
      if model in BackendIndex(a) then Some(BackendIndex(a)[model]) else Entry(BackendIndex(b), model)
  {
    if b == [] {
      assert a + b == a;
    } else {
      IndexJoins(a, Front(b), model);
      assert Front(a + b) == a + Front(b) && Last(a + b) == Last(b);
    }
  }

  lemma IndexOfRoute(routes: seq<Route>, model: string)
    requires routes != []
    ensures var before := BackendIndex(AllRules(Front(routes)));
      Entry(BackendIndex(AllRules(routes)), model)
      == if model in before then Some(before[model]) else Entry(BackendIndex(Last(routes).rules), model)
  {
    IndexJoins(AllRules(Front(routes)), Last(routes).rules, model);
  }

  lemma ServedInRoute(rules: seq<Rule>, model: string, j: int)
    requires OneRulePerModel(rules) && 0 <= j < |rules| && ServesModel(rules[j], model)
    ensures Entry(BackendIndex(rules), model) == Some(BackendName(rules[j]))
  {
    forall q | 0 <= q < |rules| && q != j ensures !(Serves(rules[q]) && RuleModel(rules[q]) == model) {
      if q < j { assert Controllable(rules[q]) ==> RuleModel(rules[q]) != RuleModel(rules[j]); }
    }
    OnlyServer(rules, j, model);
  }

  ghost predicate UniqueIn(routes: seq<Route>) {
    forall i | 0 <= i < |routes| :: OneRulePerModel(routes[i].rules)
  }

  lemma NotIndexed(routes: seq<Route>, model: string)
    requires model !in BackendIndex(AllRules(routes))
    ensures forall k, l | 0 <= k < |routes| && 0 <= l < |routes[k].rules| :: !ServesModel(routes[k].rules[l], model)
  {
    forall k, l | 0 <= k < |routes| && 0 <= l < |routes[k].rules| ensures !ServesModel(routes[k].rules[l], model) {
      AllRulesExactly(routes, routes[k].rules[l]);
      IndexedExactly(AllRules(routes), model);
    }
  }

  lemma FirstInFront(routes: seq<Route>, model: string, i: int, j: int)
    requires routes != [] && FirstServer(Front(routes), model, i, j)
    ensures FirstServer(routes, model, i, j) && routes[i] == Front(routes)[i]
  {
    assert forall k | 0 <= k <= i :: Front(routes)[k] == routes[k];
  }

  lemma FirstInLast(routes: seq<Route>, model: string, j: int)
    requires routes != [] && 0 <= j < |Last(routes).rules| && ServesModel(Last(routes).rules[j], model)
    requires model !in BackendIndex(AllRules(Front(routes)))
    ensures FirstServer(routes, model, |routes| - 1, j)
  {
    NotIndexed(Front(routes), model);
    assert forall k | 0 <= k < |routes| - 1 :: Front(routes)[k] == routes[k];
  }

  /** The index entry of a model comes from the first rule that serves it. */
  lemma {:induction false} FirstServerOf(routes: seq<Route>, model: string) returns (i: int, j: int)
    requires UniqueIn(routes) && model in BackendIndex(AllRules(routes))
    ensures FirstServer(routes, model, i, j) && BackendIndex(AllRules(routes))[model] == BackendName(routes[i].rules[j])
  {
    IndexOfRoute(routes, model);
    var rules := Last(routes).rules;
    if model in BackendIndex(AllRules(Front(routes))) {
      i, j := FirstServerOf(Front(routes), model);
      FirstInFront(routes, model, i, j);
    } else {
      i := |routes| - 1;
      IndexedExactly(rules, model);
      j :| 0 <= j < |rules| && ServesModel(rules[j], model);
      ServedInRoute(rules, model, j);
      FirstInLast(routes, model, j);
    }
  }

  lemma ServedIsIndexed(routes: seq<Route>, model: string, i: int, j: int)
    requires 0 <= i < |routes| && 0 <= j < |routes[i].rules| && ServesModel(routes[i].rules[j], model)
    ensures model in BackendIndex(AllRules(routes))
  {
    if model !in BackendIndex(AllRules(routes)) { NotIndexed(routes, model); }
  }

  /** Two first servers of a model are one rule. */
  lemma OneFirstServer(routes: seq<Route>, model: string, i: int, j: int, k: int, l: int)
    requires UniqueIn(routes) && FirstServer(routes, model, i, j) && FirstServer(routes, model, k, l)
    ensures i == k && j == l
  {
    assert i >= k && k >= i;
    OneMatch(routes[i].rules, j, l);
  }

  lemma OneMatch(rules: seq<Rule>, j: int, l: int)
    requires OneRulePerModel(rules) && 0 <= j < |rules| && 0 <= l < |rules|
    requires Controllable(rules[j]) && Controllable(rules[l]) && RuleModel(rules[j]) == RuleModel(rules[l])
    ensures j == l
  {}

  // ---- sound states

  /** What can have become of a rule: its own backend, one a reroute can lead to, or the
      block, held by an owner who may block. */
  ghost predicate PossibleName(orig: seq<seq<Rule>>, p: Permissions, o: Rule, name: string, route: Route)
    requires Controllable(o)
  {
    || name == BackendName(o) || Offered(orig, p, name)
    || (name == BLOCK_BACKEND && exists key :: key in p.blockers && RuleModel(o) in SavedUnder(route, key))
  }

  /** Whoever has saved the rule may control it and has saved the original; nobody has
      saved it only when it is the original. */
  ghost predicate SoundRule(orig: seq<seq<Rule>>, p: Permissions, o: Rule, rule: Rule, route: Route)
    requires Controllable(o)
  {
    && Controllable(rule) && RuleModel(rule) == RuleModel(o)
    && (forall key | RuleModel(o) in SavedUnder(route, key) ::
          MayControl(p, key, RuleModel(o)) && SavedUnder(route, key)[RuleModel(o)] == BackendName(o))
    && (rule == o || exists key :: RuleModel(o) in SavedUnder(route, key))
    && PossibleName(orig, p, o, BackendName(rule), route)
  }

  ghost predicate SoundRoute(orig: seq<seq<Rule>>, p: Permissions, i: int, route: Route)
    requires 0 <= i < |orig|
  {
    && PlainAs(orig[i], route.rules)
    && (forall j | 0 <= j < |orig[i]| && Controllable(orig[i][j]) :: SoundRule(orig, p, orig[i][j], route.rules[j], route))
    && forall key, m | m in SavedUnder(route, key) :: HasModel(orig[i], m)
  }

  ghost predicate Sound(orig: seq<seq<Rule>>, p: Permissions, routes: seq<Route>) {
    |routes| == |orig| && forall i | 0 <= i < |orig| :: SoundRoute(orig, p, i, routes[i])
  }

  lemma SoundKeepsModels(orig: seq<seq<Rule>>, p: Permissions, routes: seq<Route>)
    requires UniqueRules(orig) && Sound(orig, p, routes)
    ensures KeepsModels(orig, routes) && UniqueIn(routes)
  {
    forall i | 0 <= i < |orig| ensures PlainAs(orig[i], routes[i].rules) && OneRulePerModel(routes[i].rules) {
      assert SoundRoute(orig, p, i, routes[i]);
      PlainAsFacts(orig[i], routes[i].rules);
    }
  }

  lemma UntouchedSound(orig: seq<seq<Rule>>, p: Permissions)
    ensures Sound(orig, p, Untouched(orig))
  {}

  lemma UntouchedUnique(orig: seq<seq<Rule>>)
    requires UniqueRules(orig)
    ensures UniqueIn(Untouched(orig)) && KeepsModels(orig, Untouched(orig))
  {}

  // ---- what the index offers in a sound state

  lemma OriginalFirstOffers(orig: seq<seq<Rule>>, p: Permissions, model: string)
    requires UniqueRules(orig) && model in OriginalIndex(orig)
    ensures Offered(orig, p, OriginalIndex(orig)[model])
  {
    UntouchedUnique(orig);
    var i, j := FirstServerOf(Untouched(orig), model);
    assert IsRule(orig, i, j) && Offers(orig, p, i, j);
  }

  /** A rule that serves its model from its own backend, and is not the first to do so
      in the original, is first now because an earlier one is blocked. */
  lemma LaterServerOffers(orig: seq<seq<Rule>>, p: Permissions, routes: seq<Route>, model: string, i: int, j: int)
    requires UniqueRules(orig) && Sound(orig, p, routes) && FirstServer(routes, model, i, j) && IsRule(orig, i, j)
    requires ServesModel(orig[i][j], model)
    ensures Offers(orig, p, i, j)
  {
    var start := Untouched(orig);
    UntouchedUnique(orig);
    assert start[i].rules[j] == orig[i][j];
    ServedIsIndexed(start, model, i, j);
    var k, l := FirstServerOf(start, model);
    if k == i {
      OneMatch(orig[i], j, l);
    } else {
      assert k < i;
      assert IsRule(orig, k, l) && SoundRoute(orig, p, k, routes[k]);
      StoppedServing(orig, p, orig[k][l], routes[k].rules[l], routes[k]);
    }
  }

  lemma OfferedServes(orig: seq<seq<Rule>>, p: Permissions, name: string)
    requires Offered(orig, p, name)
    ensures name != "" && name != BLOCK_BACKEND && OriginalIndex(orig) != map[]
  {
    var i, j :| IsRule(orig, i, j) && Offers(orig, p, i, j) && BackendName(orig[i][j]) == name;
    assert Untouched(orig)[i].rules[j] == orig[i][j];
    ServedIsIndexed(Untouched(orig), RuleModel(orig[i][j]), i, j);
  }

  lemma StoppedServing(orig: seq<seq<Rule>>, p: Permissions, o: Rule, rule: Rule, route: Route)
    requires Controllable(o) && SoundRule(orig, p, o, rule, route) && Serves(o) && !Serves(rule)
    ensures exists key :: key in p.blockers && MayControl(p, key, RuleModel(o))
  {
    if Offered(orig, p, BackendName(rule)) { OfferedServes(orig, p, BackendName(rule)); }
    var key :| key in p.blockers && RuleModel(o) in SavedUnder(route, key);
    assert MayControl(p, key, RuleModel(o));
  }

  /** The index of a sound state offers names that reroutes can lead to. */
  lemma IndexOffers(orig: seq<seq<Rule>>, p: Permissions, routes: seq<Route>, model: string)
    requires UniqueRules(orig) && Sound(orig, p, routes) && model in BackendIndex(AllRules(routes))
    ensures Offered(orig, p, BackendIndex(AllRules(routes))[model])
  {
    SoundKeepsModels(orig, p, routes);
    var i, j := FirstServerOf(routes, model);
    var rule := routes[i].rules[j];
    assert SoundRoute(orig, p, i, routes[i]);
    PlainAsFacts(orig[i], routes[i].rules);
    assert IsRule(orig, i, j) && SoundRule(orig, p, orig[i][j], rule, routes[i]);
    if !Offered(orig, p, BackendName(rule)) {
      assert BackendName(rule) == BackendName(orig[i][j]);
      LaterServerOffers(orig, p, routes, model, i, j);
    }
  }

  // ---- safe sharing keeps every state sound

  /** The request stays within the owner's permissions; letting go always does. */
  ghost predicate Allowed(p: Permissions, r: Request) {
    && (forall m | m in r.desired || m in r.blocked :: MayControl(p, r.key, m))
    && (r.blocked != {} ==> r.key in p.blockers)
  }

  ghost predicate AllowedCall(p: Permissions, key: string, c: Controls) {
    && (forall m | m in c.desired || m in c.blocked :: MayControl(p, key, m))
    && (c.blocked != {} ==> key in p.blockers)
  }

  ghost predicate OffersOnly(orig: seq<seq<Rule>>, p: Permissions, index: map<string, string>) {
    forall m | m in index :: Offered(orig, p, index[m])
  }

  /** If the call moves a rule its owner has not saved, the rule points at its own backend. */
  ghost predicate FindsOwn(o: Rule, s: State, c: Controls, j: int)
    requires 0 <= j < |s.rules| && Controllable(o)
  {
    var a := ActionFor(s.rules[j], s.saved, c);
    !a.Skip? && RuleModel(o) !in s.saved ==> Controllable(s.rules[j]) && BackendName(s.rules[j]) == BackendName(o)
  }

  /** What the caller has saved afterwards is the original. */
  lemma SavesOriginal(o: Rule, rule: Rule, saved: map<string, string>, a: Action)
    requires Controllable(o) && Controllable(rule) && RuleModel(rule) == RuleModel(o)
    requires RuleModel(o) in saved ==> saved[RuleModel(o)] == BackendName(o)
    requires !a.Skip? && RuleModel(o) !in saved ==> BackendName(rule) == BackendName(o)
    ensures var e := EntryAfter(rule, Entry(saved, RuleModel(o)), a);
      (e.Some? ==> e.value == BackendName(o)) && (e.Some? ==> RuleModel(o) in saved || !a.Skip?)
      && (!a.Skip? && !a.Revert? ==> e.Some?)
  {}

  lemma ActedSound(orig: seq<seq<Rule>>, p: Permissions, o: Rule, s: State, key: string, c: Controls, j: int)
    requires 0 <= j < |s.rules| && Controllable(o) && Restorable(o) && Plain(s.rules[j]) == Plain(o)
    requires AllowedCall(p, key, c) && OffersOnly(orig, p, c.backends)
    requires RuleModel(o) in s.saved ==> s.saved[RuleModel(o)] == BackendName(o)
    ensures Controllable(s.rules[j]) && RuleModel(s.rules[j]) == RuleModel(o)
    ensures var a := ActionFor(s.rules[j], s.saved, c);
      var after := ActedRule(s.rules[j], a);
      && Controllable(after) && RuleModel(after) == RuleModel(o)
      && (a.Revert? ==> after == o) && (a.Skip? ==> after == s.rules[j])
      && (a.Reroute? ==> Offered(orig, p, BackendName(after)) && MayControl(p, key, RuleModel(o)))
      && (a.Block? ==> BackendName(after) == BLOCK_BACKEND && key in p.blockers && MayControl(p, key, RuleModel(o)))
  {
    SamePlain(s.rules[j], o);
    var a := ActionFor(s.rules[j], s.saved, c);
    ActedKeepsPlain(s.rules[j], a);
    SamePlain(ActedRule(s.rules[j], a), o);
    if a.Revert? {
      SamePointed(s.rules[j], o, BackendName(o), None);
      PointingBack(o);
    }
  }

  /** The notes of one caller change, those of the others do not. */
  ghost predicate OthersKeep(before: Route, after: Route, key: string) {
    forall other | other != key :: SavedUnder(after, other) == SavedUnder(before, other)
  }

  lemma RuleStaysSound(orig: seq<seq<Rule>>, p: Permissions, o: Rule, before: Route, after: Route, key: string, c: Controls, j: int)
    requires 0 <= j < |before.rules| && j < |after.rules| && Controllable(o) && Restorable(o) && Plain(before.rules[j]) == Plain(o)
    requires AllowedCall(p, key, c) && OffersOnly(orig, p, c.backends) && SoundRule(orig, p, o, before.rules[j], before)
    requires ActedOn(View(before, key), c, View(after, key), j) && OthersKeep(before, after, key)
    requires FindsOwn(o, View(before, key), c, j)
    ensures SoundRule(orig, p, o, after.rules[j], after)
  {
    var m, s := RuleModel(o), View(before, key);
    var a := ActionFor(s.rules[j], s.saved, c);
    ActedSound(orig, p, o, s, key, c, j);
    SavesOriginal(o, s.rules[j], s.saved, a);
    var e := Entry(SavedUnder(after, key), m);
    assert e == EntryAfter(s.rules[j], Entry(s.saved, m), a);
    if a.Skip? {
      SkippedSound(orig, p, o, before, after, key, j);
    } else {
      forall other | m in SavedUnder(after, other)
        ensures MayControl(p, other, m) && SavedUnder(after, other)[m] == BackendName(o)
      {
        if other != key { assert m in SavedUnder(before, other); }
      }
      if !a.Revert? { assert m in SavedUnder(after, key); }
    }
  }

  lemma SkippedSound(orig: seq<seq<Rule>>, p: Permissions, o: Rule, before: Route, after: Route, key: string, j: int)
    requires 0 <= j < |before.rules| && j < |after.rules| && Controllable(o)
    requires SoundRule(orig, p, o, before.rules[j], before) && after.rules[j] == before.rules[j] && OthersKeep(before, after, key)
    requires Entry(SavedUnder(after, key), RuleModel(o)) == Entry(SavedUnder(before, key), RuleModel(o))
    ensures SoundRule(orig, p, o, after.rules[j], after)
  {
    var m := RuleModel(o);
    forall other ensures Entry(SavedUnder(after, other), m) == Entry(SavedUnder(before, other), m) {
      if other != key { assert SavedUnder(after, other) == SavedUnder(before, other); }
    }
    assert forall other :: m in SavedUnder(before, other) ==> Entry(SavedUnder(after, other), m).Some?;
    assert forall other :: m in SavedUnder(after, other) ==> Entry(SavedUnder(before, other), m).Some?;
  }

  // ---- why an owner finds the original

  /** While a rule is blocked and something is served, another rule serves. */
  lemma ServedElsewhere(orig: seq<seq<Rule>>, p: Permissions, routes: seq<Route>, model: string, i: int, j: int)
    requires UniqueRules(orig) && Sound(orig, p, routes) && model in BackendIndex(AllRules(routes))
    requires IsRule(orig, i, j) && j < |routes[i].rules| && !Serves(routes[i].rules[j])
    ensures ServedBeside(orig, p, i, j)
  {
    SoundKeepsModels(orig, p, routes);
    IndexOffers(orig, p, routes, model);
    OfferedServes(orig, p, BackendIndex(AllRules(routes))[model]);
    var k, l := FirstServerOf(routes, model);
    assert SoundRoute(orig, p, k, routes[k]);
    PlainAsFacts(orig[k], routes[k].rules);
    assert IsRule(orig, k, l) && SoundRule(orig, p, orig[k][l], routes[k].rules[l], routes[k]);
    assert k != i || l != j;
    if routes[k].rules[l] != orig[k][l] {
      var key :| RuleModel(orig[k][l]) in SavedUnder(routes[k], key);
      assert MayControl(p, key, RuleModel(orig[k][l]));
    }
    assert CanServe(orig, p, k, l);
  }

  lemma NobodyDisturbs(orig: seq<seq<Rule>>, p: Permissions, routes: seq<Route>, r: Request, i: int, j: int)
    requires UniqueRules(orig) && Sound(orig, p, routes) && SharesSafely(orig, p) && Allowed(p, r) && IsRule(orig, i, j)
    requires j < |routes[i].rules|
    ensures FindsOwn(orig[i][j], View(routes[i], r.key), ControlsOf(r, BackendIndex(AllRules(routes))), j)
  {
    var o, rule, route := orig[i][j], routes[i].rules[j], routes[i];
    var m, c := RuleModel(o), ControlsOf(r, BackendIndex(AllRules(routes)));
    var a := ActionFor(rule, SavedUnder(route, r.key), c);
    assert SoundRoute(orig, p, i, route) && SoundRule(orig, p, o, rule, route);
    if !a.Skip? && m !in SavedUnder(route, r.key) && BackendName(rule) != BackendName(o) {
      assert MayControl(p, r.key, m);
      var first :| m in SavedUnder(route, first);
      assert Share(p, first, r.key, m);
      assert !Disturbed(orig, p, first, r.key, i, j);
      assert BackendName(rule) == BLOCK_BACKEND;
      BlockedIsLeftAlone(orig, p, routes, r, i, j);
    }
  }

  lemma BlockedIsLeftAlone(orig: seq<seq<Rule>>, p: Permissions, routes: seq<Route>, r: Request, i: int, j: int)
    requires UniqueRules(orig) && Sound(orig, p, routes) && SharesSafely(orig, p) && Allowed(p, r) && IsRule(orig, i, j)
    requires j < |routes[i].rules| && RuleModel(orig[i][j]) !in SavedUnder(routes[i], r.key)
    requires Controllable(routes[i].rules[j]) && BackendName(routes[i].rules[j]) == BLOCK_BACKEND != BackendName(orig[i][j])
    ensures ActionFor(routes[i].rules[j], SavedUnder(routes[i], r.key), ControlsOf(r, BackendIndex(AllRules(routes)))).Skip?
  {
    var o, rule, route := orig[i][j], routes[i].rules[j], routes[i];
    var m := RuleModel(o);
    assert SoundRoute(orig, p, i, route) && SoundRule(orig, p, o, rule, route);
    if Offered(orig, p, BLOCK_BACKEND) { OfferedServes(orig, p, BLOCK_BACKEND); }
    var first :| first in p.blockers && m in SavedUnder(route, first);
    if m in r.desired || m in r.blocked {
      assert Share(p, first, r.key, m);
      assert !Disturbed(orig, p, first, r.key, i, j);
      if m in r.desired && r.desired[m] in BackendIndex(AllRules(routes)) {
        ServedElsewhere(orig, p, routes, r.desired[m], i, j);
      }
    }
  }

  // ---- safe sharing restores

  /** Models nobody matches on this route are saved by nobody. */
  lemma CalledHasModels(orig: seq<Rule>, before: Route, key: string, c: Controls, after: Route)
    requires PlainAs(orig, before.rules) && Called(before, key, c, after)
    requires forall k, m | m in SavedUnder(before, k) :: HasModel(orig, m)
    ensures forall k, m | m in SavedUnder(after, k) :: HasModel(orig, m)
  {
    PlainAsFacts(orig, before.rules);
    forall k, m | m in SavedUnder(after, k) ensures HasModel(orig, m) {
      assert HasModel(before.rules, m) || Entry(SavedUnder(after, key), m) == Entry(SavedUnder(before, key), m);
      if k != key { assert m in SavedUnder(before, k); }
    }
  }

  lemma RouteStaysSound(orig: seq<seq<Rule>>, p: Permissions, routes: seq<Route>, r: Request, i: int, after: Route)
    requires AllReversible(orig) && UniqueRules(orig) && Sound(orig, p, routes) && SharesSafely(orig, p) && Allowed(p, r) && 0 <= i < |orig|
    requires Called(routes[i], r.key, ControlsOf(r, BackendIndex(AllRules(routes))), after) && PlainAs(orig[i], after.rules)
    ensures SoundRoute(orig, p, i, after)
  {
    var c, before := ControlsOf(r, BackendIndex(AllRules(routes))), routes[i];
    assert SoundRoute(orig, p, i, before) && Reversible(orig[i]);
    CalledHasModels(orig[i], before, r.key, c, after);
    forall m | m in c.backends ensures Offered(orig, p, c.backends[m]) { IndexOffers(orig, p, routes, m); }
    forall j | 0 <= j < |orig[i]| && Controllable(orig[i][j]) ensures SoundRule(orig, p, orig[i][j], after.rules[j], after) {
      assert Plain(before.rules[j]) == Plain(orig[i][j]) && ActedOn(View(before, r.key), c, View(after, r.key), j);
      assert OffersOnly(orig, p, c.backends) && AllowedCall(p, r.key, c) && OthersKeep(before, after, r.key);
      NobodyDisturbs(orig, p, routes, r, i, j);
      RuleStaysSound(orig, p, orig[i][j], before, after, r.key, c, j);
    }
  }

  lemma StepStaysSound(orig: seq<seq<Rule>>, p: Permissions, routes: seq<Route>, step: Step)
    requires AllReversible(orig) && UniqueRules(orig) && Sound(orig, p, routes) && SharesSafely(orig, p) && Allowed(p, step.request)
    ensures Sound(orig, p, Stepped(routes, step))
  {
    SoundKeepsModels(orig, p, routes);
    StepCalls(orig, routes, step);
    var after := Stepped(routes, step);
    forall i | 0 <= i < |orig| ensures SoundRoute(orig, p, i, after[i]) {
      if i < step.done {
        RouteStaysSound(orig, p, routes, step.request, i, after[i]);
      } else {
        assert SoundRoute(orig, p, i, routes[i]);
      }
    }
  }

  lemma ReversibleUnique(orig: seq<seq<Rule>>)
    requires AllReversible(orig)
    ensures UniqueRules(orig)
  {
    forall i | 0 <= i < |orig| ensures OneRulePerModel(orig[i]) { assert Reversible(orig[i]); }
  }

  lemma {:induction false} RunStaysSound(orig: seq<seq<Rule>>, p: Permissions, run: seq<Step>)
    requires AllReversible(orig) && SharesSafely(orig, p) && forall i | 0 <= i < |run| :: Allowed(p, run[i].request)
    ensures Sound(orig, p, RunSteps(Untouched(orig), run))
  {
    ReversibleUnique(orig);
    if run == [] {
      UntouchedSound(orig, p);
    } else {
      RunStaysSound(orig, p, Front(run));
      assert Allowed(p, run[|run| - 1].request);
      StepStaysSound(orig, p, RunSteps(Untouched(orig), Front(run)), Last(run));
    }
  }

  /** These owners have saved nothing any more. */
  ghost predicate GivenUp(routes: seq<Route>, keys: seq<string>) {
    forall i, key | 0 <= i < |routes| && key in keys :: SavedUnder(routes[i], key) == map[]
  }

  /** Letting go empties the notes of an owner. */
  lemma NothingSavedAfter(orig: seq<Rule>, before: Route, key: string, index: map<string, string>, after: Route)
    requires PlainAs(orig, before.rules) && Called(before, key, Controls(map[], {}, index), after)
    requires forall m | m in SavedUnder(after, key) :: HasModel(orig, m)
    ensures SavedUnder(after, key) == map[]
  {
    PlainAsFacts(orig, before.rules);
    forall m ensures m !in SavedUnder(after, key) {
      if HasModel(before.rules, m) {
        var j :| 0 <= j < |before.rules| && Matches(before.rules[j], m);
        assert ActedOn(View(before, key), Controls(map[], {}, index), View(after, key), j);
        assert Entry(SavedUnder(after, key), m) == None;
      }
    }
  }

  lemma OneMoreGivesUp(orig: seq<seq<Rule>>, p: Permissions, routes: seq<Route>, keys: seq<string>, key: string)
    requires AllReversible(orig) && Sound(orig, p, routes) && SharesSafely(orig, p) && GivenUp(routes, keys)
    ensures Sound(orig, p, Stepped(routes, LetGo(key, |orig|))) && GivenUp(Stepped(routes, LetGo(key, |orig|)), keys + [key])
  {
    var step := LetGo(key, |orig|);
    var after := Stepped(routes, step);
    ReversibleUnique(orig);
    StepStaysSound(orig, p, routes, step);
    SoundKeepsModels(orig, p, routes);
    StepCalls(orig, routes, step);
    forall i, k | 0 <= i < |after| && k in keys + [key] ensures SavedUnder(after[i], k) == map[] {
      assert SoundRoute(orig, p, i, after[i]);
      if k == key {
        NothingSavedAfter(orig[i], routes[i], key, BackendIndex(AllRules(routes)), after[i]);
      } else {
        assert k in keys && SavedUnder(routes[i], k) == map[];
      }
    }
  }

  lemma {:induction false} AllGiveUp(orig: seq<seq<Rule>>, p: Permissions, run: seq<Step>, keys: seq<string>)
    requires AllReversible(orig) && SharesSafely(orig, p) && Sound(orig, p, RunSteps(Untouched(orig), run))
    ensures var routes := RunSteps(Untouched(orig), run + LetAllGo(keys, |orig|));
      Sound(orig, p, routes) && GivenUp(routes, keys)
  {
    if keys == [] {
      assert run + LetAllGo(keys, |orig|) == run;
    } else {
      AllGiveUp(orig, p, run, Front(keys));
      OneMoreGivesUp(orig, p, RunSteps(Untouched(orig), run + LetAllGo(Front(keys), |orig|)), Front(keys), Last(keys));
      LetGoNext(Untouched(orig), run, Front(keys), Last(keys));
      FrontLast(keys);
    }
  }

  lemma GivenUpIsRestored(orig: seq<seq<Rule>>, p: Permissions, routes: seq<Route>, keys: seq<string>)
    requires Sound(orig, p, routes) && GivenUp(routes, keys) && AllLetGo(p, keys)
    ensures Restored(orig, routes, keys)
  {
    forall i | 0 <= i < |orig| ensures routes[i].rules == orig[i] {
      assert SoundRoute(orig, p, i, routes[i]);
      forall j | 0 <= j < |orig[i]| ensures routes[i].rules[j] == orig[i][j] {
        SamePlain(routes[i].rules[j], orig[i][j]);
        if Controllable(orig[i][j]) {
          assert SoundRule(orig, p, orig[i][j], routes[i].rules[j], routes[i]);
          forall key ensures RuleModel(orig[i][j]) !in SavedUnder(routes[i], key) {
            if MayControl(p, key, RuleModel(orig[i][j])) { assert key in keys; }
          }
        }
      }
    }
  }

  lemma SafeSharingRestores(orig: seq<seq<Rule>>, p: Permissions)
    requires AllReversible(orig) && SharesSafely(orig, p)
    ensures AlwaysRestores(orig, p)
  {
    forall run: seq<Step>, keys: seq<string> | PermittedRun(p, run) && AllLetGo(p, keys)
      ensures Restored(orig, RunSteps(Untouched(orig), run + LetAllGo(keys, |orig|)), keys)
    {
      forall i | 0 <= i < |run| ensures Allowed(p, run[i].request) { assert Permits(p, run[i].request); }
      RunStaysSound(orig, p, run);
      AllGiveUp(orig, p, run, keys);
      GivenUpIsRestored(orig, p, RunSteps(Untouched(orig), run + LetAllGo(keys, |orig|)), keys);
    }
  }

  // ---- a wrong save is never undone

  /** The owner has saved something else than the original. */
  ghost predicate SavedWrong(orig: seq<seq<Rule>>, routes: seq<Route>, key: string, i: int, j: int)
    requires IsRule(orig, i, j)
  {
    && KeepsModels(orig, routes) && RuleModel(orig[i][j]) in SavedUnder(routes[i], key)
    && SavedUnder(routes[i], key)[RuleModel(orig[i][j])] != BackendName(orig[i][j])
  }

  lemma OthersLeaveSave(orig: seq<seq<Rule>>, routes: seq<Route>, step: Step, key: string, i: int, j: int)
    requires UniqueRules(orig) && IsRule(orig, i, j) && SavedWrong(orig, routes, key, i, j) && step.request.key != key
    ensures SavedWrong(orig, Stepped(routes, step), key, i, j)
  {
    StepCalls(orig, routes, step);
    if i < step.done { assert Called(routes[i], step.request.key, StepControls(routes, step), Stepped(routes, step)[i]); }
  }

  lemma {:induction false} OthersLetGo(orig: seq<seq<Rule>>, run: seq<Step>, keys: seq<string>, key: string, i: int, j: int)
    requires UniqueRules(orig) && IsRule(orig, i, j) && key !in keys
    requires SavedWrong(orig, RunSteps(Untouched(orig), run), key, i, j)
    ensures SavedWrong(orig, RunSteps(Untouched(orig), run + LetAllGo(keys, |orig|)), key, i, j)
  {
    if keys == [] {
      assert run + LetAllGo(keys, |orig|) == run;
    } else {
      var before := RunSteps(Untouched(orig), run + LetAllGo(Front(keys), |orig|));
      OthersLetGo(orig, run, Front(keys), key, i, j);
      OthersLeaveSave(orig, before, LetGo(Last(keys), |orig|), key, i, j);
      LetGoNext(Untouched(orig), run, Front(keys), Last(keys));
      FrontLast(keys);
    }
  }

  lemma WrongSaveShows(orig: seq<seq<Rule>>, routes: seq<Route>, key: string, i: int, j: int)
    requires UniqueRules(orig) && IsRule(orig, i, j) && SavedWrong(orig, routes, key, i, j)
    ensures Stepped(routes, LetGo(key, |orig|))[i].rules != orig[i]
  {
    var step := LetGo(key, |orig|);
    var rule, saved, c := routes[i].rules[j], SavedUnder(routes[i], key), StepControls(routes, step);
    StepCalls(orig, routes, step);
    PlainAsFacts(orig[i], routes[i].rules);
    assert ActedOn(View(routes[i], key), c, View(Stepped(routes, step)[i], key), j);
    ActedKeepsPlain(rule, ActionFor(rule, saved, c));
  }

  lemma {:induction false} KeysInOrder(keys: set<string>) returns (s: seq<string>)
    ensures forall k :: k in s <==> k in keys
    decreases keys
  {
    if keys == {} {
      s := [];
    } else {
      var k :| k in keys;
      s := KeysInOrder(keys - {k});
      s := s + [k];
    }
  }

  lemma OneRunRefutes(orig: seq<seq<Rule>>, p: Permissions, run: seq<Step>, keys: seq<string>)
    requires PermittedRun(p, run) && AllLetGo(p, keys)
    requires !Restored(orig, RunSteps(Untouched(orig), run + LetAllGo(keys, |orig|)), keys)
    ensures !AlwaysRestores(orig, p)
  {}

  lemma OthersFirst(p: Permissions, key: string) returns (others: seq<string>)
    ensures key !in others && AllLetGo(p, others + [key])
  {
    others := KeysInOrder(p.models.Keys - {key});
    forall k | k in p.models ensures k in others + [key] { if k != key { assert k in others; } }
  }

  /** An owner that has saved something else, and lets go last, leaves it behind. */
  lemma WrongSaveRefutes(orig: seq<seq<Rule>>, p: Permissions, run: seq<Step>, key: string, i: int, j: int)
    requires UniqueRules(orig) && PermittedRun(p, run) && key in p.models && IsRule(orig, i, j)
    requires SavedWrong(orig, RunSteps(Untouched(orig), run), key, i, j)
    ensures !AlwaysRestores(orig, p)
  {
    var others := OthersFirst(p, key);
    LeftBehind(orig, run, others, key, i, j);
    OneRunRefutes(orig, p, run, others + [key]);
  }

  lemma LeftBehind(orig: seq<seq<Rule>>, run: seq<Step>, others: seq<string>, key: string, i: int, j: int)
    requires UniqueRules(orig) && IsRule(orig, i, j) && key !in others
    requires SavedWrong(orig, RunSteps(Untouched(orig), run), key, i, j)
    ensures !Restored(orig, RunSteps(Untouched(orig), run + LetAllGo(others + [key], |orig|)), others + [key])
  {
    OthersLetGo(orig, run, others, key, i, j);
    WrongSaveShows(orig, RunSteps(Untouched(orig), run + LetAllGo(others, |orig|)), key, i, j);
    LetGoNext(Untouched(orig), run, others, key);
  }

  // ---- the second owner finds the rule elsewhere

  /** The rule is away from its own backend, and the owner has not saved it. */
  ghost predicate Displaced(orig: seq<seq<Rule>>, routes: seq<Route>, key: string, i: int, j: int)
    requires IsRule(orig, i, j)
  {
    && KeepsModels(orig, routes) && RuleModel(orig[i][j]) !in SavedUnder(routes[i], key)
    && Controllable(routes[i].rules[j]) && BackendName(routes[i].rules[j]) != BackendName(orig[i][j])
  }

  lemma DisplacedIsSaved(orig: seq<seq<Rule>>, routes: seq<Route>, step: Step, i: int, j: int)
    requires UniqueRules(orig) && IsRule(orig, i, j) && Displaced(orig, routes, step.request.key, i, j) && i < step.done
    requires !Doing(StepControls(routes, step), RuleModel(orig[i][j])).Skip?
    ensures SavedWrong(orig, Stepped(routes, step), step.request.key, i, j)
  {
    var key, c := step.request.key, StepControls(routes, step);
    var rule := routes[i].rules[j];
    StepCalls(orig, routes, step);
    PlainAsFacts(orig[i], routes[i].rules);
    assert ActedOn(View(routes[i], key), c, View(Stepped(routes, step)[i], key), j);
    assert ActionFor(rule, SavedUnder(routes[i], key), c) == Doing(c, RuleModel(rule));
    assert Entry(SavedUnder(Stepped(routes, step)[i], key), RuleModel(rule)) == Some(BackendName(rule));
  }

  lemma PermittedNext(p: Permissions, run: seq<Step>, step: Step)
    requires PermittedRun(p, run) && Permits(p, step.request)
    ensures PermittedRun(p, run + [step])
  {}

  lemma DisplacedRefutes(orig: seq<seq<Rule>>, p: Permissions, run: seq<Step>, r: Request, i: int, j: int)
    requires UniqueRules(orig) && PermittedRun(p, run) && Permits(p, r) && IsRule(orig, i, j)
    requires var routes := RunSteps(Untouched(orig), run);
      Displaced(orig, routes, r.key, i, j) && !Doing(ControlsOf(r, BackendIndex(AllRules(routes))), RuleModel(orig[i][j])).Skip?
    ensures !AlwaysRestores(orig, p)
  {
    var routes, step := RunSteps(Untouched(orig), run), Step(r, |orig|);
    DisplacedIsSaved(orig, routes, step, i, j);
    StepOfRun(Untouched(orig), run, step);
    PermittedNext(p, run, step);
    WrongSaveRefutes(orig, p, run + [step], r.key, i, j);
  }

  lemma RerouteFinds(orig: seq<seq<Rule>>, p: Permissions, run: seq<Step>, key: string, i: int, j: int, target: string)
    requires UniqueRules(orig) && PermittedRun(p, run) && IsRule(orig, i, j) && MayControl(p, key, RuleModel(orig[i][j]))
    requires var routes := RunSteps(Untouched(orig), run);
      Displaced(orig, routes, key, i, j) && target in BackendIndex(AllRules(routes))
    ensures !AlwaysRestores(orig, p)
  {
    IndexNeverEmpty(AllRules(RunSteps(Untouched(orig), run)));
    DisplacedRefutes(orig, p, run, RerouteTo(key, RuleModel(orig[i][j]), target), i, j);
  }

  lemma BlockFinds(orig: seq<seq<Rule>>, p: Permissions, run: seq<Step>, key: string, i: int, j: int)
    requires UniqueRules(orig) && PermittedRun(p, run) && IsRule(orig, i, j) && MayControl(p, key, RuleModel(orig[i][j])) && key in p.blockers
    requires Displaced(orig, RunSteps(Untouched(orig), run), key, i, j)
    ensures !AlwaysRestores(orig, p)
  {
    DisplacedRefutes(orig, p, run, BlockRequest(key, RuleModel(orig[i][j])), i, j);
  }

  // ---- the first owner moves it there

  /** The rule is the original and nobody has saved it. */
  ghost predicate Fresh(orig: seq<seq<Rule>>, routes: seq<Route>, i: int, j: int)
    requires IsRule(orig, i, j)
  {
    && KeepsModels(orig, routes) && routes[i].rules[j] == orig[i][j]
    && forall key :: RuleModel(orig[i][j]) !in SavedUnder(routes[i], key)
  }

  lemma UntouchedFresh(orig: seq<seq<Rule>>, i: int, j: int)
    requires UniqueRules(orig) && IsRule(orig, i, j)
    ensures Fresh(orig, Untouched(orig), i, j)
  {
    UntouchedUnique(orig);
  }

  /** A step on a rule nobody has touched. */
  lemma FreshStep(orig: seq<seq<Rule>>, routes: seq<Route>, step: Step, i: int, j: int)
    requires UniqueRules(orig) && IsRule(orig, i, j) && Fresh(orig, routes, i, j)
    ensures var after, model := Stepped(routes, step), RuleModel(orig[i][j]);
      var a := if i < step.done then Doing(StepControls(routes, step), model) else Skip;
      && KeepsModels(orig, after) && after[i].rules[j] == ActedRule(orig[i][j], a)
      && (forall key | key != step.request.key :: model !in SavedUnder(after[i], key))
      && (a.Skip? ==> Fresh(orig, after, i, j))
  {
    StepCalls(orig, routes, step);
    if i < step.done {
      var key, c, after := step.request.key, StepControls(routes, step), Stepped(routes, step)[i];
      assert Called(routes[i], key, c, after) && ActedOn(View(routes[i], key), c, View(after, key), j);
      assert ActionFor(orig[i][j], SavedUnder(routes[i], key), c) == Doing(c, RuleModel(orig[i][j]));
      forall other | other != key ensures RuleModel(orig[i][j]) !in SavedUnder(after, other) {
        assert SavedUnder(after, other) == SavedUnder(routes[i], other);
      }
      if Doing(c, RuleModel(orig[i][j])).Skip? {
        assert Entry(SavedUnder(after, key), RuleModel(orig[i][j])) == None;
      }
    }
  }

  lemma FreshIsMoved(orig: seq<seq<Rule>>, routes: seq<Route>, step: Step, i: int, j: int, key: string)
    requires UniqueRules(orig) && IsRule(orig, i, j) && Fresh(orig, routes, i, j) && i < step.done && key != step.request.key
    requires var a := Doing(StepControls(routes, step), RuleModel(orig[i][j])); !a.Skip? && NameGiven(a) != BackendName(orig[i][j])
    ensures Displaced(orig, Stepped(routes, step), key, i, j)
    ensures BackendName(Stepped(routes, step)[i].rules[j]) == NameGiven(Doing(StepControls(routes, step), RuleModel(orig[i][j])))
    ensures RuleModel(Stepped(routes, step)[i].rules[j]) == RuleModel(orig[i][j])
  {
    FreshStep(orig, routes, step, i, j);
    var a := Doing(StepControls(routes, step), RuleModel(orig[i][j]));
    ActedKeepsPlain(orig[i][j], a);
    SamePlain(ActedRule(orig[i][j], a), orig[i][j]);
  }

  // ---- the disturbances, one by one

  /** A reroute that leads the rule away, found by another owner. */
  lemma MovedThenFound(orig: seq<seq<Rule>>, p: Permissions, run: seq<Step>, a: string, b: string, i: int, j: int, target: string)
    requires UniqueRules(orig) && PermittedRun(p, run) && IsRule(orig, i, j) && Share(p, a, b, RuleModel(orig[i][j]))
    requires var routes := RunSteps(Untouched(orig), run);
      && Fresh(orig, routes, i, j)
      && target in BackendIndex(AllRules(routes)) && BackendIndex(AllRules(routes))[target] != BackendName(orig[i][j])
    ensures !AlwaysRestores(orig, p)
  {
    var routes, model := RunSteps(Untouched(orig), run), RuleModel(orig[i][j]);
    var step := Step(RerouteTo(a, model, target), |orig|);
    IndexNeverEmpty(AllRules(routes));
    RerouteActs(step.request, model, target, BackendIndex(AllRules(routes)));
    FreshIsMoved(orig, routes, step, i, j, b);
    StepOfRun(Untouched(orig), run, step);
    PermittedNext(p, run, step);
    ServedIsIndexed(Stepped(routes, step), model, i, j);
    RerouteFinds(orig, p, run + [step], b, i, j, model);
  }

  lemma BlockActs(orig: seq<seq<Rule>>, routes: seq<Route>, key: string, done: nat, i: int, j: int, other: string)
    requires UniqueRules(orig) && IsRule(orig, i, j) && Fresh(orig, routes, i, j) && i < done && key != other
    requires BackendName(orig[i][j]) != BLOCK_BACKEND
    ensures Displaced(orig, Stepped(routes, Step(BlockRequest(key, RuleModel(orig[i][j])), done)), other, i, j)
  {
    FreshIsMoved(orig, routes, Step(BlockRequest(key, RuleModel(orig[i][j])), done), i, j, other);
  }

  lemma OneStepRun(orig: seq<seq<Rule>>, p: Permissions, step: Step)
    requires Permits(p, step.request)
    ensures PermittedRun(p, [step]) && RunSteps(Untouched(orig), [step]) == Stepped(Untouched(orig), step)
  {
    assert [] + [step] == [step];
    StepOfRun(Untouched(orig), [], step);
  }

  /** Two rules of one model: the first is blocked while the second still serves. */
  lemma BlockedHalfWay(orig: seq<seq<Rule>>, p: Permissions, a: string, b: string, i: int, j: int, k: int, l: int)
    requires UniqueRules(orig) && IsRule(orig, i, j) && IsRule(orig, k, l) && i < k && RuleModel(orig[k][l]) == RuleModel(orig[i][j])
    requires Share(p, a, b, RuleModel(orig[i][j])) && a in p.blockers && Serves(orig[k][l]) && BackendName(orig[i][j]) != BLOCK_BACKEND
    ensures !AlwaysRestores(orig, p)
  {
    var model, start := RuleModel(orig[i][j]), Untouched(orig);
    var step := Step(BlockRequest(a, model), k);
    UntouchedFresh(orig, i, j); UntouchedFresh(orig, k, l);
    OneStepRun(orig, p, step);
    BlockActs(orig, start, a, k, i, j, b);
    FreshStep(orig, start, step, k, l);
    ServedIsIndexed(Stepped(start, step), model, k, l);
    RerouteFinds(orig, p, [step], b, i, j, model);
  }

  /** Rerouted to a model the index already offers elsewhere. */
  lemma MovedByFirst(orig: seq<seq<Rule>>, p: Permissions, a: string, b: string, i: int, j: int, target: string)
    requires UniqueRules(orig) && IsRule(orig, i, j) && Share(p, a, b, RuleModel(orig[i][j]))
    requires target in OriginalIndex(orig) && OriginalIndex(orig)[target] != BackendName(orig[i][j])
    ensures !AlwaysRestores(orig, p)
  {
    UntouchedFresh(orig, i, j);
    MovedThenFound(orig, p, [], a, b, i, j, target);
  }

  /** The earlier servers of another model blocked, a later one is first. */
  lemma MovedByLater(orig: seq<seq<Rule>>, p: Permissions, a: string, b: string, c: string, i: int, j: int, k: int, l: int)
    requires UniqueRules(orig) && IsRule(orig, i, j) && IsRule(orig, k, l) && Share(p, a, b, RuleModel(orig[i][j]))
    requires RuleModel(orig[k][l]) != RuleModel(orig[i][j]) && Serves(orig[k][l]) && BackendName(orig[k][l]) != BackendName(orig[i][j])
    requires c in p.blockers && MayControl(p, c, RuleModel(orig[k][l]))
    ensures !AlwaysRestores(orig, p)
  {
    var model, start := RuleModel(orig[k][l]), Untouched(orig);
    var step := Step(BlockRequest(c, model), k);
    UntouchedFresh(orig, i, j); UntouchedFresh(orig, k, l);
    OneStepRun(orig, p, step);
    FreshStep(orig, start, step, i, j);
    FreshStep(orig, start, step, k, l);
    EarlierBlocked(orig, c, model, k, l);
    MovedThenFound(orig, p, [step], a, b, i, j, model);
  }

  lemma EarlierBlocked(orig: seq<seq<Rule>>, c: string, model: string, k: int, l: int)
    requires UniqueRules(orig) && IsRule(orig, k, l) && ServesModel(orig[k][l], model)
    ensures var index := BackendIndex(AllRules(Stepped(Untouched(orig), Step(BlockRequest(c, model), k))));
      model in index && index[model] == BackendName(orig[k][l])
  {
    var start, step := Untouched(orig), Step(BlockRequest(c, model), k);
    var after := Stepped(start, step);
    UntouchedUnique(orig);
    StepCalls(orig, start, step);
    forall x, y | 0 <= x < k && 0 <= y < |after[x].rules| ensures !ServesModel(after[x].rules[y], model) {
      PlainAsFacts(orig[x], after[x].rules);
      if Matches(orig[x][y], model) {
        UntouchedFresh(orig, x, y);
        FreshStep(orig, start, step, x, y);
        ActedKeepsPlain(orig[x][y], Block);
      }
    }
    assert after[k].rules[l] == orig[k][l];
    assert FirstServer(after, model, k, l);
    ServedIsIndexed(after, model, k, l);
    UniqueAfter(orig, after);
    var x, y := FirstServerOf(after, model);
    OneFirstServer(after, model, k, l, x, y);
  }

  lemma UniqueAfter(orig: seq<seq<Rule>>, routes: seq<Route>)
    requires UniqueRules(orig) && KeepsModels(orig, routes)
    ensures UniqueIn(routes)
  {
    forall i | 0 <= i < |routes| ensures OneRulePerModel(routes[i].rules) { PlainAsFacts(orig[i], routes[i].rules); }
  }

  /** A rule that can be led away from its own backend is not safely shared. */
  lemma MovableRefutes(orig: seq<seq<Rule>>, p: Permissions, a: string, b: string, i: int, j: int)
    requires UniqueRules(orig) && IsRule(orig, i, j) && Share(p, a, b, RuleModel(orig[i][j])) && CanBeMoved(orig, p, orig[i][j])
    ensures !AlwaysRestores(orig, p)
  {
    var name :| Offered(orig, p, name) && name != BackendName(orig[i][j]);
    var k, l :| IsRule(orig, k, l) && Offers(orig, p, k, l) && BackendName(orig[k][l]) == name;
    var model := RuleModel(orig[k][l]);
    if Entry(OriginalIndex(orig), model) == Some(name) {
      MovedByFirst(orig, p, a, b, i, j, model);
    } else {
      var c :| c in p.blockers && MayControl(p, c, model);
      if model == RuleModel(orig[i][j]) {
        LaterOfSameModel(orig, p, c, if c == a then b else a, k, l);
      } else {
        MovedByLater(orig, p, a, b, c, i, j, k, l);
      }
    }
  }

  /** A rule that serves its model after another, from another backend. */
  lemma LaterOfSameModel(orig: seq<seq<Rule>>, p: Permissions, c: string, other: string, k: int, l: int)
    requires UniqueRules(orig) && IsRule(orig, k, l) && Serves(orig[k][l]) && c in p.blockers && Share(p, c, other, RuleModel(orig[k][l]))
    requires Entry(OriginalIndex(orig), RuleModel(orig[k][l])) != Some(BackendName(orig[k][l]))
    ensures !AlwaysRestores(orig, p)
  {
    var start, model := Untouched(orig), RuleModel(orig[k][l]);
    UntouchedUnique(orig);
    assert start[k].rules[l] == orig[k][l];
    ServedIsIndexed(start, model, k, l);
    var x, y := FirstServerOf(start, model);
    if x == k { OneMatch(orig[k], y, l); }
    assert IsRule(orig, x, y) && x < k;
    BlockedHalfWay(orig, p, c, other, x, y, k, l);
  }

  /** Two owners who may both block the rule's model. */
  lemma BlockersRefute(orig: seq<seq<Rule>>, p: Permissions, a: string, b: string, i: int, j: int)
    requires UniqueRules(orig) && IsRule(orig, i, j) && Share(p, a, b, RuleModel(orig[i][j])) && a in p.blockers && b in p.blockers
    requires BackendName(orig[i][j]) != BLOCK_BACKEND
    ensures !AlwaysRestores(orig, p)
  {
    var step := Step(BlockRequest(a, RuleModel(orig[i][j])), |orig|);
    UntouchedFresh(orig, i, j);
    OneStepRun(orig, p, step);
    BlockActs(orig, Untouched(orig), a, |orig|, i, j, b);
    BlockFinds(orig, p, [step], b, i, j);
  }

  /** Another model is served: blocked by one, the rule is found by the other. */
  lemma BlockedBesideServed(orig: seq<seq<Rule>>, p: Permissions, a: string, b: string, i: int, j: int, k: int, l: int)
    requires UniqueRules(orig) && IsRule(orig, i, j) && IsRule(orig, k, l) && RuleModel(orig[k][l]) != RuleModel(orig[i][j])
    requires Share(p, a, b, RuleModel(orig[i][j])) && a in p.blockers && BackendName(orig[i][j]) != BLOCK_BACKEND && Serves(orig[k][l])
    ensures !AlwaysRestores(orig, p)
  {
    var start, step := Untouched(orig), Step(BlockRequest(a, RuleModel(orig[i][j])), |orig|);
    UntouchedFresh(orig, i, j); UntouchedFresh(orig, k, l);
    OneStepRun(orig, p, step);
    BlockActs(orig, start, a, |orig|, i, j, b);
    FreshStep(orig, start, step, k, l);
    ServedIsIndexed(Stepped(start, step), RuleModel(orig[k][l]), k, l);
    RerouteFinds(orig, p, [step], b, i, j, RuleModel(orig[k][l]));
  }

  /** The same owner blocks one model and reroutes another, which then serves. */
  lemma BlockedBesideOwn(orig: seq<seq<Rule>>, p: Permissions, a: string, b: string, i: int, j: int, k: int, l: int, target: string)
    requires UniqueRules(orig) && IsRule(orig, i, j) && IsRule(orig, k, l) && RuleModel(orig[k][l]) != RuleModel(orig[i][j])
    requires Share(p, a, b, RuleModel(orig[i][j])) && a in p.blockers && BackendName(orig[i][j]) != BLOCK_BACKEND
    requires MayControl(p, a, RuleModel(orig[k][l])) && target in OriginalIndex(orig) && OriginalIndex(orig)[target] != BackendName(orig[k][l])
    ensures !AlwaysRestores(orig, p)
  {
    var start, model := Untouched(orig), RuleModel(orig[k][l]);
    var step := Step(Request(a, map[model := target], {RuleModel(orig[i][j])}), |orig|);
    UntouchedFresh(orig, i, j); UntouchedFresh(orig, k, l);
    IndexNeverEmpty(AllRules(start));
    OneStepRun(orig, p, step);
    FreshIsMoved(orig, start, step, i, j, b);
    FreshIsMoved(orig, start, step, k, l, b);
    ServedIsIndexed(Stepped(start, step), model, k, l);
    RerouteFinds(orig, p, [step], b, i, j, model);
  }

  /** Another owner reroutes another model, which then serves; a blocks; b finds. */
  lemma BlockedBesideOther(orig: seq<seq<Rule>>, p: Permissions, a: string, b: string, d: string, i: int, j: int, k: int, l: int, target: string)
    requires UniqueRules(orig) && IsRule(orig, i, j) && IsRule(orig, k, l) && RuleModel(orig[k][l]) != RuleModel(orig[i][j])
    requires Share(p, a, b, RuleModel(orig[i][j])) && a in p.blockers && BackendName(orig[i][j]) != BLOCK_BACKEND && d != a
    requires MayControl(p, d, RuleModel(orig[k][l])) && target in OriginalIndex(orig) && OriginalIndex(orig)[target] != BackendName(orig[k][l])
    ensures !AlwaysRestores(orig, p)
  {
    var start, model := Untouched(orig), RuleModel(orig[k][l]);
    var step1, step2 := Step(RerouteTo(d, model, target), |orig|), Step(BlockRequest(a, RuleModel(orig[i][j])), |orig|);
    UntouchedFresh(orig, i, j); UntouchedFresh(orig, k, l);
    IndexNeverEmpty(AllRules(start));
    OneStepRun(orig, p, step1);
    var one := Stepped(start, step1);
    FreshStep(orig, start, step1, i, j);
    FreshIsMoved(orig, start, step1, k, l, a);
    StepOfRun(start, [step1], step2);
    PermittedNext(p, [step1], step2);
    BlockActs(orig, one, a, |orig|, i, j, b);
    LeftAlone(orig, one, step2, k, l);
    ServedIsIndexed(Stepped(one, step2), model, k, l);
    RerouteFinds(orig, p, [step1] + [step2], b, i, j, model);
  }

  /** A rule its caller neither asks about nor has saved is left alone. */
  lemma LeftAlone(orig: seq<seq<Rule>>, routes: seq<Route>, step: Step, i: int, j: int)
    requires UniqueRules(orig) && KeepsModels(orig, routes) && IsRule(orig, i, j)
    requires var model := RuleModel(orig[i][j]);
      model !in step.request.desired && model !in step.request.blocked && model !in SavedUnder(routes[i], step.request.key)
    ensures |Stepped(routes, step)[i].rules| == |orig[i]| && Stepped(routes, step)[i].rules[j] == routes[i].rules[j]
  {
    StepCalls(orig, routes, step);
    PlainAsFacts(orig[i], routes[i].rules);
    if i < step.done {
      assert ActedOn(View(routes[i], step.request.key), StepControls(routes, step), View(Stepped(routes, step)[i], step.request.key), j);
    }
  }

  /** The rule is blocked while another serves. */
  lemma ServedBesideRefutes(orig: seq<seq<Rule>>, p: Permissions, a: string, b: string, i: int, j: int)
    requires UniqueRules(orig) && IsRule(orig, i, j) && Share(p, a, b, RuleModel(orig[i][j])) && a in p.blockers
    requires BackendName(orig[i][j]) != BLOCK_BACKEND && ServedBeside(orig, p, i, j) && !CanBeMoved(orig, p, orig[i][j])
    ensures !AlwaysRestores(orig, p)
  {
    var k, l :| IsRule(orig, k, l) && (k != i || l != j) && CanServe(orig, p, k, l);
    if Serves(orig[k][l]) {
      if RuleModel(orig[k][l]) == RuleModel(orig[i][j]) {
        SameModelRefutes(orig, p, a, b, i, j, k, l);
      } else {
        BlockedBesideServed(orig, p, a, b, i, j, k, l);
      }
    } else {
      var target :| target in OriginalIndex(orig);
      OriginalFirstOffers(orig, p, target);
      OfferedServes(orig, p, OriginalIndex(orig)[target]);
      var d :| MayControl(p, d, RuleModel(orig[k][l]));
      if RuleModel(orig[k][l]) == RuleModel(orig[i][j]) {
        MovedByFirst(orig, p, a, b, k, l, target);
      } else if d == a {
        BlockedBesideOwn(orig, p, a, b, i, j, k, l, target);
      } else {
        BlockedBesideOther(orig, p, a, b, d, i, j, k, l, target);
      }
    }
  }

  lemma SameModelRefutes(orig: seq<seq<Rule>>, p: Permissions, a: string, b: string, i: int, j: int, k: int, l: int)
    requires UniqueRules(orig) && IsRule(orig, i, j) && IsRule(orig, k, l) && (k != i || l != j)
    requires RuleModel(orig[k][l]) == RuleModel(orig[i][j]) && Serves(orig[k][l]) && Share(p, a, b, RuleModel(orig[i][j])) && a in p.blockers
    requires BackendName(orig[i][j]) != BLOCK_BACKEND && !CanBeMoved(orig, p, orig[i][j])
    ensures !AlwaysRestores(orig, p)
  {
    var model := RuleModel(orig[i][j]);
    if k == i { OneMatch(orig[i], j, l); }
    if i < k {
      BlockedHalfWay(orig, p, a, b, i, j, k, l);
    } else {
      assert Untouched(orig)[k].rules[l] == orig[k][l];
      ServedIsIndexed(Untouched(orig), model, k, l);
      OriginalFirstOffers(orig, p, model);
      OfferedServes(orig, p, OriginalIndex(orig)[model]);
      BlockedHalfWay(orig, p, a, b, k, l, i, j);
    }
  }

  lemma DisturbanceRefutes(orig: seq<seq<Rule>>, p: Permissions, a: string, b: string, i: int, j: int)
    requires UniqueRules(orig) && IsRule(orig, i, j) && Share(p, a, b, RuleModel(orig[i][j])) && Disturbed(orig, p, a, b, i, j)
    ensures !AlwaysRestores(orig, p)
  {
    if CanBeMoved(orig, p, orig[i][j]) {
      MovableRefutes(orig, p, a, b, i, j);
    } else if b in p.blockers {
      BlockersRefute(orig, p, a, b, i, j);
    } else {
      ServedBesideRefutes(orig, p, a, b, i, j);
    }
  }

  // ---- exactly when

  /** Letting go always restores the namespace exactly when no two owners of a shared
      model can disturb each other: no reroute leads its rules to another backend, they
      may not both block, and where one of them may, nothing else serves meanwhile. */
  lemma RestoresExactlyWhenSharedSafely(orig: seq<seq<Rule>>, p: Permissions)
    requires AllReversible(orig)
    ensures AlwaysRestores(orig, p) <==> SharesSafely(orig, p)
  {
    ReversibleUnique(orig);
    if SharesSafely(orig, p) {
      SafeSharingRestores(orig, p);
    } else {
      var a, b, i, j :| IsRule(orig, i, j) && Share(p, a, b, RuleModel(orig[i][j])) && Disturbed(orig, p, a, b, i, j);
      DisturbanceRefutes(orig, p, a, b, i, j);
    }
  }

  ghost predicate RoutedModel(orig: seq<seq<Rule>>, model: string) {
    exists i :: 0 <= i < |orig| && HasModel(orig[i], model)
  }

  /** No routed model is permitted to two owners. */
  ghost predicate Unshared(orig: seq<seq<Rule>>, p: Permissions) {
    forall model, a, b | RoutedModel(orig, model) && MayControl(p, a, model) && MayControl(p, b, model) :: a == b
  }

  /** A model served elsewhere than the rule. */
  ghost predicate HasAlternative(orig: seq<seq<Rule>>, rule: Rule)
    requires Controllable(rule)
  {
    exists target :: target in OriginalIndex(orig) && OriginalIndex(orig)[target] != BackendName(rule)
  }

  /** A model other than the rule's own is served. */
  ghost predicate AnotherServed(orig: seq<seq<Rule>>, rule: Rule) {
    exists target :: target in OriginalIndex(orig) && target != RuleModel(rule)
  }

  /** What the operators of a namespace can see of a shared rule at a glance. */
  ghost predicate PlainlyDisturbed(orig: seq<seq<Rule>>, p: Permissions, a: string, b: string, rule: Rule)
    requires Controllable(rule)
  {
    || HasAlternative(orig, rule)
    || (BackendName(rule) != BLOCK_BACKEND && a in p.blockers && (b in p.blockers || AnotherServed(orig, rule)))
    || (BackendName(rule) != BLOCK_BACKEND && b in p.blockers && AnotherServed(orig, rule))
  }

  lemma PlainlyDisturbedIs(orig: seq<seq<Rule>>, p: Permissions, a: string, b: string, i: int, j: int)
    requires UniqueRules(orig) && IsRule(orig, i, j) && PlainlyDisturbed(orig, p, a, b, orig[i][j])
    ensures Disturbed(orig, p, a, b, i, j) || Disturbed(orig, p, b, a, i, j)
  {
    if HasAlternative(orig, orig[i][j]) {
      var target :| target in OriginalIndex(orig) && OriginalIndex(orig)[target] != BackendName(orig[i][j]);
      OriginalFirstOffers(orig, p, target);
    } else if AnotherServed(orig, orig[i][j]) {
      var target :| target in OriginalIndex(orig) && target != RuleModel(orig[i][j]);
      UntouchedUnique(orig);
      var k, l := FirstServerOf(Untouched(orig), target);
      assert IsRule(orig, k, l) && CanServe(orig, p, k, l);
      assert ServedBeside(orig, p, i, j);
    }
  }

  /** Without shared models restoration is certain, and where it is certain no shared rule
      has an alternative backend, or two owners who may block it, or one who may beside
      another served model. */
  lemma RestorationAtAGlance(orig: seq<seq<Rule>>, p: Permissions)
    requires AllReversible(orig)
    ensures Unshared(orig, p) ==> AlwaysRestores(orig, p)
    ensures AlwaysRestores(orig, p) ==> forall a, b, i, j | IsRule(orig, i, j) && Share(p, a, b, RuleModel(orig[i][j])) ::
      !PlainlyDisturbed(orig, p, a, b, orig[i][j])
  {
    ReversibleUnique(orig);
    if Unshared(orig, p) {
      forall a, b, i, j | IsRule(orig, i, j) ensures !Share(p, a, b, RuleModel(orig[i][j])) {
        assert Matches(orig[i][j], RuleModel(orig[i][j])) && HasModel(orig[i], RuleModel(orig[i][j]));
        assert RoutedModel(orig, RuleModel(orig[i][j]));
      }
      SafeSharingRestores(orig, p);
    }
    forall a, b, i, j | IsRule(orig, i, j) && Share(p, a, b, RuleModel(orig[i][j])) && PlainlyDisturbed(orig, p, a, b, orig[i][j])
      ensures !AlwaysRestores(orig, p)
    {
      PlainlyDisturbedIs(orig, p, a, b, i, j);
      if Disturbed(orig, p, a, b, i, j) { DisturbanceRefutes(orig, p, a, b, i, j); } else { DisturbanceRefutes(orig, p, b, a, i, j); }
    }
  }

  /** Sharing can be safe: one model, one rule, one owner who may block. */
  lemma OneModelIsShared(model: string, backend: string, a: string, b: string)
    requires model != "" && backend != BLOCK_BACKEND && a != b
    ensures var orig := [[Serving(model, backend)]];
      var p := TwoOwners(model, a, b);
      AllReversible(orig) && !Unshared(orig, p) && AlwaysRestores(orig, p)
  {
    var orig, p := [[Serving(model, backend)]], TwoOwners(model, a, b);
    ServingFacts(model, backend);
    assert Matches(orig[0][0], model) && HasModel(orig[0], model) && RoutedModel(orig, model);
    assert MayControl(p, a, model) && MayControl(p, b, model);
    assert Reversible(orig[0]);
    AloneIsSafe(orig, p, a);
    SafeSharingRestores(orig, p);
  }

  function TwoOwners(model: string, a: string, b: string): Permissions
    requires a != b
  {
    Permissions(map[a := {model}, b := {model}], {a})
  }

  /** The only rule of a namespace can be shared with one owner who may block. */
  lemma AloneIsSafe(orig: seq<seq<Rule>>, p: Permissions, a: string)
    requires |orig| == 1 && |orig[0]| == 1 && p.blockers <= {a}
    ensures SharesSafely(orig, p)
  {
    forall i, j | IsRule(orig, i, j) ensures i == 0 && j == 0 {}
  }
}
