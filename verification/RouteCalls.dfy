/** What one call does to the rules of one model, on any route and after anything: the
    caller's notes and controls for that model decide, and nothing else. */
module RouteCalls {
  import opened Wrappers
  import opened Sequences
  import opened RouteControls
  import opened RouteReversal
  import opened GatewayActuator
  import opened GatewaySharing

  // ---- the model of a rule

  predicate ModelHeader(h: Header) { h.Header? && h.name == "x-ai-eg-model" }

  lemma {:induction false} FirstHeaderDecides(headers: seq<Header>, k: int)
    requires 0 <= k <= |headers| && (k < |headers| ==> ModelHeader(headers[k]))
    requires forall j | 0 <= j < k :: !ModelHeader(headers[j])
    ensures HeadersModel(headers) == if k < |headers| then Some(headers[k].value) else None
  {
    if k > 0 { FirstHeaderDecides(headers[1..], k - 1); }
  }

  predicate NoModelHeader(m: Match) {
    m.Match? ==> forall j | 0 <= j < |m.headers| :: !ModelHeader(m.headers[j])
  }

  lemma {:induction false} FirstMatchDecides(matches: seq<Match>, i: int)
    requires 0 <= i <= |matches| && (i < |matches| ==> matches[i].Match? && HeadersModel(matches[i].headers).Some?)
    requires forall j | 0 <= j < i :: NoModelHeader(matches[j])
    ensures MatchesModel(matches) == if i < |matches| then HeadersModel(matches[i].headers).value else ""
  {
    if i > 0 {
      assert NoModelHeader(matches[0]);
      if matches[0].Match? { FirstHeaderDecides(matches[0].headers, |matches[0].headers|); }
      FirstMatchDecides(matches[1..], i - 1);
    }
  }

  /** The first model header of the matches, first match first; past the end if none. */
  predicate FirstModelHeader(matches: seq<Match>, i: int, k: int) {
    && 0 <= i <= |matches| && (forall j | 0 <= j < i :: NoModelHeader(matches[j]))
    && (i < |matches| ==> matches[i].Match? && FirstHeader(matches[i].headers, k))
  }

  predicate FirstHeader(headers: seq<Header>, k: int) {
    0 <= k < |headers| && ModelHeader(headers[k]) && forall j | 0 <= j < k :: !ModelHeader(headers[j])
  }

  /** A rule's model is the value of its first model header; without one it has none. */
  lemma RuleModelIs(rule: Rule, i: int, k: int)
    requires rule.Rule? && FirstModelHeader(rule.matches, i, k)
    ensures RuleModel(rule) == if i < |rule.matches| then rule.matches[i].headers[k].value else ""
  {
    if i < |rule.matches| { FirstHeaderDecides(rule.matches[i].headers, k); }
    FirstMatchDecides(rule.matches, i);
  }

  // ---- the notes of one model

  function Entry(saved: map<string, string>, model: string): Option<string> {
    if model in saved then Some(saved[model]) else None
  }

  function EntryAfter(rule: Rule, entry: Option<string>, a: Action): Option<string>
    requires a.Skip? || Controllable(rule)
  {
    match a
    case Skip => entry
    case Revert(_) => None
    case _ => if entry.Some? then entry else Some(BackendName(rule))
  }

  /** What the call does to the first rule of the model. */
  function ModelAction(model: string, saved: map<string, string>, c: Controls): Action {
    if model in c.desired then
      if BackendOf(c, c.desired[model]) == "" then Skip else Reroute(c.desired[model], BackendOf(c, c.desired[model]))
    else if model in c.blocked then Block
    else if model in saved then Revert(saved[model])
    else Skip
  }

  // ---- one call, one model

  /** A reversal reaches the first rule of the model alone, any other action all of them. */
  ghost predicate RulesActed(rules: seq<Rule>, model: string, a: Action, after: seq<Rule>)
    requires |after| <= |rules|
  {
    forall j | 0 <= j < |after| && Matches(rules[j], model) ::
      after[j] == if a.Revert? && !FirstWith(rules, model, j) then rules[j] else ActedRule(rules[j], a)
  }

  ghost predicate EntryActed(rules: seq<Rule>, model: string, before: Option<string>, a: Action, n: nat, after: Option<string>)
    requires n <= |rules|
  {
    && (!HasModel(rules[..n], model) ==> after == before)
    && (HasModel(rules[..n], model) ==>
          (a.Skip? ==> after == before) && (a.Revert? ==> after == None) && (a.Reroute? || a.Block? ==> after.Some?))
    && (forall j | 0 <= j < n && FirstWith(rules, model, j) :: after == EntryAfter(rules[j], before, a))
  }

  ghost predicate ModelActed(s: State, c: Controls, model: string, n: nat, t: State)
    requires n <= |s.rules|
  {
    && |t.rules| == n && RulesActed(s.rules, model, ModelAction(model, s.saved, c), t.rules)
    && EntryActed(s.rules, model, Entry(s.saved, model), ModelAction(model, s.saved, c), n, Entry(t.saved, model))
  }

  lemma HasModelNext(rules: seq<Rule>, model: string, n: nat)
    requires n < |rules|
    ensures HasModel(rules[..n + 1], model) <==> HasModel(rules[..n], model) || Matches(rules[n], model)
    ensures FirstWith(rules, model, n) <==> Matches(rules[n], model) && !HasModel(rules[..n], model)
  {
    var next := rules[..n + 1];
    assert Front(next) == rules[..n] && Last(next) == rules[n];
    FrontModels(next, model);
    assert forall k | 0 <= k < n :: rules[..n][k] == rules[k];
  }

  /** After the first rule of the model a reversal has nothing left to do. */
  ghost function NextAction(rules: seq<Rule>, model: string, a: Action, n: nat): Action
    requires n <= |rules|
  {
    if a.Revert? && HasModel(rules[..n], model) then Skip else a
  }

  lemma EntryNext(rules: seq<Rule>, model: string, before: Option<string>, a: Action, n: nat, now: Option<string>, after: Option<string>)
    requires n < |rules| && EntryActed(rules, model, before, a, n, now)
    requires after == if Matches(rules[n], model) then EntryAfter(rules[n], now, NextAction(rules, model, a, n)) else now
    ensures EntryActed(rules, model, before, a, n + 1, after)
  {
    HasModelNext(rules, model, n);
  }

  lemma RuleNext(s: State, c: Controls, model: string, n: nat, t: State)
    requires n < |s.rules| && Matches(s.rules[n], model)
    requires EntryActed(s.rules, model, Entry(s.saved, model), ModelAction(model, s.saved, c), n, Entry(t.saved, model))
    ensures ActionFor(s.rules[n], t.saved, c) == NextAction(s.rules, model, ModelAction(model, s.saved, c), n)
    ensures FirstWith(s.rules, model, n) <==> !HasModel(s.rules[..n], model)
  {
    HasModelNext(s.rules, model, n);
    assert ActionFor(s.rules[n], t.saved, c) == ModelAction(model, t.saved, c);
  }

  lemma RulesNext(rules: seq<Rule>, model: string, a: Action, done: seq<Rule>, next: Rule)
    requires |done| < |rules| && RulesActed(rules, model, a, done)
    requires Matches(rules[|done|], model) ==>
      next == if a.Revert? && !FirstWith(rules, model, |done|) then rules[|done|] else ActedRule(rules[|done|], a)
    ensures RulesActed(rules, model, a, done + [next])
  {}

  lemma ModelActedNext(s: State, c: Controls, model: string, n: nat, t: State)
    requires n < |s.rules| && ModelActed(s, c, model, n, t)
    ensures var a := ActionFor(s.rules[n], t.saved, c);
      ModelActed(s, c, model, n + 1, State(t.rules + [ActedRule(s.rules[n], a)], ActedSaved(s.rules[n], t.saved, a)))
  {
    var rule, a := s.rules[n], ActionFor(s.rules[n], t.saved, c);
    var saved := ActedSaved(rule, t.saved, a);
    if Matches(rule, model) {
      RuleNext(s, c, model, n, t);
    }
    RulesNext(s.rules, model, ModelAction(model, s.saved, c), t.rules, ActedRule(rule, a));
    SavedNext(rule, model, t.saved, a);
    EntryNext(s.rules, model, Entry(s.saved, model), ModelAction(model, s.saved, c), n, Entry(t.saved, model), Entry(saved, model));
  }

  /** Acting on a rule changes the note of its own model alone. */
  lemma SavedNext(rule: Rule, model: string, saved: map<string, string>, a: Action)
    requires a.Skip? || Controllable(rule)
    ensures Entry(ActedSaved(rule, saved, a), model) ==
      if Matches(rule, model) then EntryAfter(rule, Entry(saved, model), a) else Entry(saved, model)
  {
    ActedSavedElsewhere(rule, saved, a);
  }

  lemma {:induction false} CallActsOnModel(s: State, c: Controls, model: string, n: nat)
    requires n <= |s.rules|
    ensures ModelActed(s, c, model, n, Controlled(State(s.rules[..n], s.saved), c))
  {
    if n > 0 {
      CallActsOnModel(s, c, model, n - 1);
      PrefixStep(s.rules, s.saved, n - 1, c);
      ModelActedNext(s, c, model, n - 1, Controlled(State(s.rules[..n - 1], s.saved), c));
    }
  }

  function View(route: Route, key: string): State { State(route.rules, SavedUnder(route, key)) }

  /** One call on one route, for one model. */
  lemma RouteActs(route: Route, key: string, c: Controls, model: string)
    ensures ModelActed(View(route, key), c, model, |route.rules|, View(ActuatedRoute(route, key, c), key))
  {
    var s := View(route, key);
    CallActsOnModel(s, c, model, |s.rules|);
    assert s.rules[..|s.rules|] == s.rules;
    ActuatedRouteState(route, key, c);
    assert View(ActuatedRoute(route, key, c), key) == Controlled(s, c);
  }

  // ---- what one call reports

  /** A call reports a model blocked exactly when a rule matches it, and the call blocks
      it without rerouting it. */
  lemma {:induction false} ReportedBlocks(s: State, c: Controls, model: string)
    ensures model in Report(s, c).blocked <==> HasModel(s.rules, model) && model in c.blocked && model !in c.desired
    decreases |s.rules|
  {
    if s.rules != [] {
      ReportedBlocks(s.(rules := Front(s.rules)), c, model);
      FrontModels(s.rules, model);
    }
  }

  lemma {:induction false} BlockedExactly(routes: seq<Route>, r: Request, n: nat, model: string)
    requires n <= |routes|
    ensures model in BlockedModels(routes, r, n) <==>
      (exists i :: 0 <= i < n && HasModel(routes[i].rules, model)) && model in r.blocked && model !in r.desired
  {
    if n > 0 {
      var c := ControlsOf(r, BackendIndex(AllRules(routes)));
      BlockedExactly(routes, r, n - 1, model);
      ReportedBlocks(State(routes[n - 1].rules, SavedUnder(routes[n - 1], r.key)), c, model);
    }
  }

  /** The call has something to do for a model of the route. */
  ghost predicate Touches(rules: seq<Rule>, saved: map<string, string>, c: Controls) {
    exists j :: 0 <= j < |rules| && Controllable(rules[j]) && !ModelAction(RuleModel(rules[j]), saved, c).Skip?
  }

  lemma TouchesFront(rules: seq<Rule>, saved: map<string, string>, c: Controls)
    requires rules != []
    ensures Touches(rules, saved, c) <==>
      || Touches(Front(rules), saved, c)
      || (Controllable(Last(rules)) && !ModelAction(RuleModel(Last(rules)), saved, c).Skip?)
  {
    if Touches(Front(rules), saved, c) {
      var j :| 0 <= j < |rules| - 1 && Controllable(Front(rules)[j]) && !ModelAction(RuleModel(Front(rules)[j]), saved, c).Skip?;
      assert Front(rules)[j] == rules[j];
    }
    if Touches(rules, saved, c) {
      var j :| 0 <= j < |rules| && Controllable(rules[j]) && !ModelAction(RuleModel(rules[j]), saved, c).Skip?;
      if j < |rules| - 1 { assert Front(rules)[j] == rules[j]; }
    }
  }

  /** A call reports a change, and its update is sent, exactly when it has something to
      do for some rule of the route. */
  lemma {:induction false} ChangedExactlyWhen(s: State, c: Controls)
    ensures Report(s, c).changed <==> Touches(s.rules, s.saved, c)
    decreases |s.rules|
  {
    if s.rules != [] {
      var front, last := s.(rules := Front(s.rules)), Last(s.rules);
      ChangedExactlyWhen(front, c);
      TouchesFront(s.rules, s.saved, c);
      if Controllable(last) { LastTouched(s, c); }
    }
  }

  lemma LastTouched(s: State, c: Controls)
    requires s.rules != [] && Controllable(Last(s.rules))
    ensures var front, model := s.(rules := Front(s.rules)), RuleModel(Last(s.rules));
      var now, first := ActionFor(Last(s.rules), Controlled(front, c).saved, c), ModelAction(model, s.saved, c);
      (now.Skip? ==> first.Skip? || Touches(Front(s.rules), s.saved, c)) && (!now.Skip? ==> !first.Skip?)
  {
    var front, model := s.(rules := Front(s.rules)), RuleModel(Last(s.rules));
    var first, n := ModelAction(model, s.saved, c), |s.rules| - 1;
    CallActsOnModel(s, c, model, n);
    assert s.rules[..n] == Front(s.rules);
    RuleNext(s, c, model, n, Controlled(front, c));
    if HasModel(Front(s.rules), model) && !first.Skip? {
      var j :| 0 <= j < n && Matches(Front(s.rules)[j], model);
      assert Touches(Front(s.rules), s.saved, c);
    }
  }

  /** An actuation is cut short exactly when the server refuses a route that the request
      has something to do on; before the first of those every route is sent. */
  lemma {:induction false} CutShortAt(routes: seq<Route>, r: Request, failing: set<nat>, from: nat)
    requires from <= |routes|
    ensures var n, c := FirstRefused(routes, r, failing, from), ControlsOf(r, BackendIndex(AllRules(routes)));
      && (forall i: nat | from <= i < n :: i !in failing || !Touches(routes[i].rules, SavedUnder(routes[i], r.key), c))
      && (n < |routes| ==> n in failing && Touches(routes[n].rules, SavedUnder(routes[n], r.key), c))
    decreases |routes| - from
  {
    var c := ControlsOf(r, BackendIndex(AllRules(routes)));
    if from < |routes| {
      ChangedExactlyWhen(View(routes[from], r.key), c);
      if !Refused(routes, r, failing, from) { CutShortAt(routes, r, failing, from + 1); }
    }
  }

  /** A route that is written keeps the notes of every other owner, and has a note of
      the caller exactly when the caller still has something saved. */
  lemma NotesAreKept(route: Route, key: string, c: Controls)
    ensures var after := ActuatedRoute(route, key, c);
      && (forall other | other != key :: (other in after.notes <==> other in route.notes)
            && (other in route.notes ==> after.notes[other] == route.notes[other]))
      && (Touches(route.rules, SavedUnder(route, key), c) ==> (key in after.notes <==> SavedUnder(after, key) != map[]))
      && (!Touches(route.rules, SavedUnder(route, key), c) ==> after == route)
  {
    ChangedExactlyWhen(View(route, key), c);
  }

  // ---- rules up to what the controls rewrite

  lemma ActedKeepsPlain(rule: Rule, a: Action)
    requires a.Skip? || Controllable(rule)
    ensures Plain(ActedRule(rule, a)) == Plain(rule)
    ensures !a.Skip? ==> Controllable(ActedRule(rule, a)) && BackendName(ActedRule(rule, a)) == NameGiven(a)
  {
    match a {
      case Skip =>
      case Reroute(target, backend) => PointedPlain(rule, backend, Some(SetModel(target)));
      case Block => PointedPlain(rule, BLOCK_BACKEND, None);
      case Revert(original) => PointedPlain(rule, original, None);
    }
  }

  /** The rules are the originals up to rewrites of first backends. */
  ghost predicate PlainAs(orig: seq<Rule>, rules: seq<Rule>) {
    |rules| == |orig| && forall j | 0 <= j < |orig| :: Plain(rules[j]) == Plain(orig[j])
  }

  ghost predicate KeepsModels(orig: seq<seq<Rule>>, routes: seq<Route>) {
    |routes| == |orig| && forall i | 0 <= i < |orig| :: PlainAs(orig[i], routes[i].rules)
  }

  lemma PlainAsFacts(orig: seq<Rule>, rules: seq<Rule>)
    requires PlainAs(orig, rules)
    ensures forall j | 0 <= j < |orig| :: Controllable(rules[j]) == Controllable(orig[j]) && RuleModel(rules[j]) == RuleModel(orig[j])
    ensures OneRulePerModel(orig) ==> OneRulePerModel(rules)
    ensures forall m :: HasModel(rules, m) == HasModel(orig, m)
  {
    forall j | 0 <= j < |orig| ensures Controllable(rules[j]) == Controllable(orig[j]) && RuleModel(rules[j]) == RuleModel(orig[j]) {
      SamePlain(rules[j], orig[j]);
    }
    if OneRulePerModel(orig) { PlainKeepsOneRule(orig, rules); }
    forall m ensures HasModel(rules, m) == HasModel(orig, m) { MatchKeepsModel(orig, rules, m); }
  }

  lemma {:induction false} CallKeepsPlain(orig: seq<Rule>, s: State, c: Controls)
    requires PlainAs(orig, s.rules)
    ensures PlainAs(orig, Controlled(s, c).rules)
    decreases |s.rules|
  {
    if s.rules != [] {
      var front := s.(rules := Front(s.rules));
      CallKeepsPlain(Front(orig), front, c);
      ActedKeepsPlain(Last(s.rules), ActionFor(Last(s.rules), Controlled(front, c).saved, c));
      assert Plain(Last(s.rules)) == Plain(orig[|orig| - 1]);
    }
  }

  lemma RouteKeepsPlain(orig: seq<Rule>, route: Route, key: string, c: Controls)
    requires PlainAs(orig, route.rules)
    ensures PlainAs(orig, ActuatedRoute(route, key, c).rules)
  {
    CallKeepsPlain(orig, View(route, key), c);
    ActuatedRouteState(route, key, c);
  }

  function StepControls(routes: seq<Route>, step: Step): Controls {
    ControlsOf(step.request, BackendIndex(AllRules(routes)))
  }

  lemma SteppedAt(routes: seq<Route>, step: Step, i: int)
    requires 0 <= i < |routes|
    ensures Stepped(routes, step)[i] ==
      if i < step.done then ActuatedRoute(routes[i], step.request.key, StepControls(routes, step)) else routes[i]
  {}

  lemma StepKeepsModels(orig: seq<seq<Rule>>, routes: seq<Route>, step: Step)
    requires KeepsModels(orig, routes)
    ensures KeepsModels(orig, Stepped(routes, step))
  {
    forall i | 0 <= i < |orig| ensures PlainAs(orig[i], Stepped(routes, step)[i].rules) {
      SteppedAt(routes, step, i);
      RouteKeepsPlain(orig[i], routes[i], step.request.key, StepControls(routes, step));
    }
  }

  /** No run changes what a rule matches, or anything but its first backend. */
  lemma {:induction false} RunKeepsModels(orig: seq<seq<Rule>>, run: seq<Step>)
    ensures KeepsModels(orig, RunSteps(Untouched(orig), run))
  {
    if run != [] {
      RunKeepsModels(orig, Front(run));
      StepKeepsModels(orig, RunSteps(Untouched(orig), Front(run)), Last(run));
    }
  }
}
