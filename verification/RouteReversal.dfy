/** What a run of ApplyControls leaves behind: the last controls applied to the
    original rules, and the originals once nothing is controlled. */
module RouteReversal {
  import opened Wrappers
  import opened Sequences
  import opened RouteControls

  // ---- rules up to what the controls rewrite

  /** The rule with its first backend's name and rewrite erased. */
  function Plain(rule: Rule): Rule {
    if Controllable(rule) then
      rule.(backends := rule.backends[0 := rule.backends[0].(name := None, mutation := None)])
    else rule
  }

  lemma PlainKeeps(rule: Rule)
    ensures Controllable(Plain(rule)) == Controllable(rule) && RuleModel(Plain(rule)) == RuleModel(rule)
  {}

  lemma SamePlain(a: Rule, b: Rule)
    requires Plain(a) == Plain(b)
    ensures Controllable(a) == Controllable(b) && RuleModel(a) == RuleModel(b)
    ensures !Controllable(a) ==> a == b
  {
    PlainKeeps(a); PlainKeeps(b);
  }

  lemma SamePointed(a: Rule, b: Rule, name: string, mutation: Option<Mutation>)
    requires Plain(a) == Plain(b) && Controllable(a) && Controllable(b)
    ensures Pointed(a, name, mutation) == Pointed(b, name, mutation)
  {
    var p, q := Pointed(a, name, mutation).backends, Pointed(b, name, mutation).backends;
    assert |p| == |Plain(a).backends| == |Plain(b).backends| == |q|;
    assert Plain(a).backends[0] == Plain(b).backends[0];
    forall k | 0 <= k < |p| ensures p[k] == q[k] {
      if k > 0 { assert p[k] == Plain(a).backends[k] && q[k] == Plain(b).backends[k]; }
    }
    assert p == q;
  }

  lemma PointedPlain(rule: Rule, name: string, mutation: Option<Mutation>)
    requires Controllable(rule)
    ensures Plain(Pointed(rule, name, mutation)) == Plain(rule)
    ensures Controllable(Pointed(rule, name, mutation))
    ensures BackendName(Pointed(rule, name, mutation)) == name
  {
    var p := Pointed(rule, name, mutation);
    assert p.backends[0] == rule.backends[0].(name := Some(name), mutation := mutation);
    assert Plain(p).backends == Plain(rule).backends;
  }

  // ---- the premise

  /** No two controllable rules match the same model. */
  ghost predicate OneRulePerModel(rules: seq<Rule>) {
    forall i, j | 0 <= i < j < |rules| && Controllable(rules[i]) && Controllable(rules[j]) ::
      RuleModel(rules[i]) != RuleModel(rules[j])
  }

  /** The first backend has a name to go back to and no rewrite to lose. */
  predicate Restorable(rule: Rule) {
    Controllable(rule) ==> rule.backends[0].name.Some? && rule.backends[0].mutation.None?
  }

  ghost predicate Reversible(rules: seq<Rule>) {
    OneRulePerModel(rules) && forall i | 0 <= i < |rules| :: Restorable(rules[i])
  }

  lemma PointingBack(rule: Rule)
    requires Controllable(rule)
    ensures Pointed(rule, BackendName(rule), None) == rule <==> Restorable(rule)
  {
    var p := Pointed(rule, BackendName(rule), None);
    assert p.backends[0] == rule.backends[0].(name := Some(BackendName(rule)), mutation := None);
    if Restorable(rule) { assert p.backends == rule.backends; }
  }

  // ---- the invariant of a run

  /** A controllable rule whose model the caller may control. */
  predicate Managed(rule: Rule, owned: string -> bool) {
    Controllable(rule) && owned(RuleModel(rule))
  }

  predicate Matches(rule: Rule, model: string) {
    Controllable(rule) && RuleModel(rule) == model
  }

  ghost predicate HasModel(orig: seq<Rule>, model: string) {
    exists i :: 0 <= i < |orig| && Matches(orig[i], model)
  }

  /** The saved name is the original one, or the rule is the original. */
  predicate RuleTracked(orig: Rule, rule: Rule, saved: map<string, string>)
    requires Controllable(orig)
  {
    if RuleModel(orig) in saved then saved[RuleModel(orig)] == BackendName(orig) else rule == orig
  }

  /** The rules are the originals up to rewrites of first backends, and the originals
      of everything rewritten under these models are saved. */
  ghost predicate Tracks(orig: seq<Rule>, s: State, owned: string -> bool) {
    && |s.rules| == |orig|
    && (forall i | 0 <= i < |orig| :: Plain(s.rules[i]) == Plain(orig[i]))
    && (forall i | 0 <= i < |orig| && Managed(orig[i], owned) :: RuleTracked(orig[i], s.rules[i], s.saved))
    && (forall m | m in s.saved :: owned(m) && HasModel(orig, m))
  }

  ghost predicate Within(c: Controls, owned: string -> bool) {
    (forall m | m in c.desired :: owned(m)) && (forall m | m in c.blocked :: owned(m))
  }

  /** The rule a call leaves: its controls on the original, except that a reroute to
      a target without a backend leaves the rule as it was. */
  function GoalRule(orig: Rule, now: Rule, c: Controls): Rule
    requires Controllable(orig)
  {
    var model := RuleModel(orig);
    if model in c.desired then
      var backend := BackendOf(c, c.desired[model]);
      if backend == "" then now else Pointed(orig, backend, Some(SetModel(c.desired[model])))
    else if model in c.blocked then Pointed(orig, BLOCK_BACKEND, None)
    else orig
  }

  /** Whether a call leaves the model saved. */
  predicate Held(model: string, c: Controls, saved: map<string, string>) {
    if model in c.desired then BackendOf(c, c.desired[model]) != "" || model in saved
    else model in c.blocked
  }

  /** Part way through a call: `n` rules done. */
  ghost predicate PartWay(orig: seq<Rule>, s: State, c: Controls, owned: string -> bool, n: nat, t: State)
    requires n <= |orig| == |s.rules|
  {
    && |t.rules| == n
    && (forall i | 0 <= i < n :: t.rules[i] == if Managed(orig[i], owned) then GoalRule(orig[i], s.rules[i], c) else s.rules[i])
    && SavedPartWay(orig, s.saved, c, owned, n, t.saved)
  }

  ghost predicate SavedPartWay(orig: seq<Rule>, before: map<string, string>, c: Controls, owned: string -> bool, n: nat, saved: map<string, string>)
    requires n <= |orig|
  {
    && (forall i | 0 <= i < |orig| && Managed(orig[i], owned) && RuleModel(orig[i]) in saved ::
          saved[RuleModel(orig[i])] == BackendName(orig[i]))
    && (forall i | 0 <= i < n && Managed(orig[i], owned) :: RuleModel(orig[i]) in saved <==> Held(RuleModel(orig[i]), c, before))
    && (forall i | n <= i < |orig| && Managed(orig[i], owned) :: RuleModel(orig[i]) in saved <==> RuleModel(orig[i]) in before)
    && (forall m | m in saved :: owned(m) && HasModel(orig, m))
  }

  lemma {:induction false} CallPartWay(orig: seq<Rule>, s: State, c: Controls, owned: string -> bool, n: nat)
    requires Reversible(orig) && Tracks(orig, s, owned) && Within(c, owned) && n <= |orig|
    ensures PartWay(orig, s, c, owned, n, Controlled(State(s.rules[..n], s.saved), c))
  {
    if n > 0 {
      CallPartWay(orig, s, c, owned, n - 1);
      PrefixStep(s.rules, s.saved, n - 1, c);
      OneMore(orig, s, c, owned, n - 1, Controlled(State(s.rules[..n - 1], s.saved), c));
    }
  }

  /** What the call does to one managed rule that nothing before it has touched. */
  lemma ActedIsGoal(o: Rule, rule: Rule, started: map<string, string>, saved: map<string, string>, c: Controls)
    requires Controllable(o) && Restorable(o) && Plain(rule) == Plain(o) && RuleTracked(o, rule, started)
    requires RuleModel(o) in saved <==> RuleModel(o) in started
    requires RuleModel(o) in saved ==> saved[RuleModel(o)] == BackendName(o)
    ensures Controllable(rule) && RuleModel(rule) == RuleModel(o)
    ensures var a := ActionFor(rule, saved, c);
      var after := ActedSaved(rule, saved, a);
      && ActedRule(rule, a) == GoalRule(o, rule, c)
      && (RuleModel(o) in after <==> Held(RuleModel(o), c, started))
      && (RuleModel(o) in after ==> after[RuleModel(o)] == BackendName(o))
  {
    SamePlain(rule, o);
    PointingBack(o);
    match ActionFor(rule, saved, c) {
      case Skip =>
      case Reroute(target, backend) => SamePointed(rule, o, backend, Some(SetModel(target)));
      case Block => SamePointed(rule, o, BLOCK_BACKEND, None);
      case Revert(original) => SamePointed(rule, o, original, None);
    }
  }

  lemma UnmanagedSkipped(o: Rule, rule: Rule, saved: map<string, string>, c: Controls, owned: string -> bool)
    requires Plain(rule) == Plain(o) && !Managed(o, owned) && Within(c, owned) && forall m | m in saved :: owned(m)
    ensures ActionFor(rule, saved, c).Skip?
  {
    SamePlain(rule, o);
  }

  /** Only the entry of `model` may differ. */
  ghost predicate SameElsewhere(before: map<string, string>, after: map<string, string>, model: string) {
    forall m | m != model :: (m in after <==> m in before) && (m in after ==> after[m] == before[m])
  }

  lemma ActedSavedElsewhere(rule: Rule, saved: map<string, string>, a: Action)
    requires a.Skip? || Controllable(rule)
    ensures SameElsewhere(saved, ActedSaved(rule, saved, a), RuleModel(rule))
  {}

  lemma ExtendSaved(orig: seq<Rule>, before: map<string, string>, c: Controls, owned: string -> bool, k: nat,
      so: map<string, string>, saved: map<string, string>)
    requires OneRulePerModel(orig) && k < |orig| && SavedPartWay(orig, before, c, owned, k, so) && Managed(orig[k], owned)
    requires SameElsewhere(so, saved, RuleModel(orig[k]))
    requires RuleModel(orig[k]) in saved <==> Held(RuleModel(orig[k]), c, before)
    requires RuleModel(orig[k]) in saved ==> saved[RuleModel(orig[k])] == BackendName(orig[k])
    ensures SavedPartWay(orig, before, c, owned, k + 1, saved)
  {
    assert Matches(orig[k], RuleModel(orig[k]));
    forall i | 0 <= i < |orig| && i != k && Managed(orig[i], owned) ensures RuleModel(orig[i]) != RuleModel(orig[k]) {
      if k < i { assert RuleModel(orig[k]) != RuleModel(orig[i]); }
    }
  }

  lemma OneMore(orig: seq<Rule>, s: State, c: Controls, owned: string -> bool, k: nat, t: State)
    requires Reversible(orig) && Tracks(orig, s, owned) && Within(c, owned) && k < |orig|
    requires PartWay(orig, s, c, owned, k, t)
    ensures var a := ActionFor(s.rules[k], t.saved, c);
      PartWay(orig, s, c, owned, k + 1, State(t.rules + [ActedRule(s.rules[k], a)], ActedSaved(s.rules[k], t.saved, a)))
  {
    var rule, o := s.rules[k], orig[k];
    if Managed(o, owned) {
      ActedIsGoal(o, rule, s.saved, t.saved, c);
      var a := ActionFor(rule, t.saved, c);
      ActedSavedElsewhere(rule, t.saved, a);
      ExtendSaved(orig, s.saved, c, owned, k, t.saved, ActedSaved(rule, t.saved, a));
    } else {
      UnmanagedSkipped(o, rule, t.saved, c, owned);
    }
  }

  /** One call on a tracked state: every managed rule reaches its goal, every other
      rule is untouched, and the state stays tracked. */
  lemma OneCall(orig: seq<Rule>, s: State, c: Controls, owned: string -> bool)
    requires Reversible(orig) && Tracks(orig, s, owned) && Within(c, owned)
    ensures var t := Controlled(s, c);
      && Tracks(orig, t, owned)
      && (forall i | 0 <= i < |orig| :: t.rules[i] == if Managed(orig[i], owned) then GoalRule(orig[i], s.rules[i], c) else s.rules[i])
      && (forall i | 0 <= i < |orig| && Managed(orig[i], owned) :: RuleModel(orig[i]) in t.saved <==> Held(RuleModel(orig[i]), c, s.saved))
  {
    CallPartWay(orig, s, c, owned, |orig|);
    assert s.rules[..|orig|] == s.rules;
    var t := Controlled(s, c);
    forall i | 0 <= i < |orig| ensures Plain(t.rules[i]) == Plain(orig[i]) {
      if Managed(orig[i], owned) { GoalPlain(orig[i], s.rules[i], c); }
    }
  }

  lemma GoalPlain(orig: Rule, now: Rule, c: Controls)
    requires Controllable(orig) && Plain(now) == Plain(orig)
    ensures Plain(GoalRule(orig, now, c)) == Plain(orig)
  {
    var model := RuleModel(orig);
    if model in c.desired {
      PointedPlain(orig, BackendOf(c, c.desired[model]), Some(SetModel(c.desired[model])));
    }
    PointedPlain(orig, BLOCK_BACKEND, None);
  }

  // ---- runs

  function After(s: State, run: seq<Controls>): State
    decreases |run|
  {
    if run == [] then s else Controlled(After(s, Front(run)), Last(run))
  }

  function Start(orig: seq<Rule>): State { State(orig, map[]) }

  predicate Everything(model: string) { true }

  lemma StartTracked(orig: seq<Rule>, owned: string -> bool)
    ensures Tracks(orig, Start(orig), owned)
  {}

  lemma {:induction false} RunTracked(orig: seq<Rule>, run: seq<Controls>)
    requires Reversible(orig)
    ensures Tracks(orig, After(Start(orig), run), Everything)
  {
    if run == [] {
      StartTracked(orig, Everything);
    } else {
      RunTracked(orig, Front(run));
      OneCall(orig, After(Start(orig), Front(run)), Last(run), Everything);
    }
  }

  lemma AfterLast(s: State, run: seq<Controls>, c: Controls)
    ensures After(s, run + [c]) == Controlled(After(s, run), c)
  {
    assert Front(run + [c]) == run;
  }

  /** Every reroute the call asks of a model of this route has a backend. */
  predicate TargetsKnown(orig: seq<Rule>, c: Controls) {
    forall i | 0 <= i < |orig| && Controllable(orig[i]) && RuleModel(orig[i]) in c.desired ::
      BackendOf(c, c.desired[RuleModel(orig[i])]) != ""
  }

  /** The originals under controls `c`, whatever came before. */
  function GoalRules(orig: seq<Rule>, c: Controls): seq<Rule> {
    seq(|orig|, i requires 0 <= i < |orig| =>
      if Controllable(orig[i]) then GoalRule(orig[i], orig[i], c) else orig[i])
  }

  /** The rules after a run are the last controls applied to the originals, and the
      saved names are exactly the originals of the models those controls hold. */
  lemma LastCallDecides(orig: seq<Rule>, run: seq<Controls>, c: Controls)
    requires Reversible(orig) && TargetsKnown(orig, c)
    ensures var t := After(Start(orig), run + [c]);
      && t.rules == GoalRules(orig, c)
      && (forall i | 0 <= i < |orig| && Controllable(orig[i]) ::
            && (RuleModel(orig[i]) in t.saved <==> RuleModel(orig[i]) in c.desired || RuleModel(orig[i]) in c.blocked)
            && (RuleModel(orig[i]) in t.saved ==> t.saved[RuleModel(orig[i])] == BackendName(orig[i])))
      && (forall m | m in t.saved :: HasModel(orig, m))
  {
    RunTracked(orig, run);
    var s := After(Start(orig), run);
    AfterLast(Start(orig), run, c);
    OneCall(orig, s, c, Everything);
    var t := After(Start(orig), run + [c]);
    forall i | 0 <= i < |orig| ensures t.rules[i] == GoalRules(orig, c)[i] {
      if !Controllable(orig[i]) { SamePlain(s.rules[i], orig[i]); }
    }
    forall i | 0 <= i < |orig| && Controllable(orig[i])
      ensures RuleModel(orig[i]) in t.saved <==> RuleModel(orig[i]) in c.desired || RuleModel(orig[i]) in c.blocked
      ensures RuleModel(orig[i]) in t.saved ==> t.saved[RuleModel(orig[i])] == BackendName(orig[i])
    {
      assert Managed(orig[i], Everything) && RuleTracked(orig[i], t.rules[i], t.saved);
    }
  }

  /** Two runs that end in the same controls end in the same rules and saved names. */
  lemma HistoryIndependent(orig: seq<Rule>, run1: seq<Controls>, run2: seq<Controls>, c: Controls)
    requires Reversible(orig) && TargetsKnown(orig, c)
    ensures After(Start(orig), run1 + [c]) == After(Start(orig), run2 + [c])
  {
    LastCallDecides(orig, run1, c);
    LastCallDecides(orig, run2, c);
    var t1, t2 := After(Start(orig), run1 + [c]), After(Start(orig), run2 + [c]);
    forall m ensures (m in t1.saved <==> m in t2.saved) && (m in t1.saved ==> t1.saved[m] == t2.saved[m]) {
      if m in t1.saved || m in t2.saved {
        assert HasModel(orig, m);
        var i :| 0 <= i < |orig| && Matches(orig[i], m);
      }
    }
    assert t1.saved == t2.saved;
  }

  /** All runs that end in these controls agree. */
  ghost predicate AllRunsAgree(orig: seq<Rule>, c: Controls) {
    forall run1: seq<Controls>, run2: seq<Controls> :: After(Start(orig), run1 + [c]) == After(Start(orig), run2 + [c])
  }

  function BlockAlone(model: string): Controls { Controls(map[], {model}, map[]) }

  /** A reroute without a backend leaves the model as the run before left it: saved if
      it was blocked, not saved if it was not touched. */
  lemma UnknownTargetRemembers(orig: seq<Rule>, c: Controls, i: int)
    requires Reversible(orig) && 0 <= i < |orig| && Controllable(orig[i])
    requires RuleModel(orig[i]) in c.desired && BackendOf(c, c.desired[RuleModel(orig[i])]) == ""
    ensures After(Start(orig), [] + [c]) != After(Start(orig), [BlockAlone(RuleModel(orig[i]))] + [c])
  {
    var model := RuleModel(orig[i]);
    assert Managed(orig[i], Everything);
    StartTracked(orig, Everything);
    OneCall(orig, Start(orig), c, Everything);
    AfterLast(Start(orig), [], c);
    assert model !in After(Start(orig), [] + [c]).saved;
    OneCall(orig, Start(orig), BlockAlone(model), Everything);
    AfterLast(Start(orig), [], BlockAlone(model));
    assert [] + [BlockAlone(model)] == [BlockAlone(model)];
    OneCall(orig, After(Start(orig), [BlockAlone(model)]), c, Everything);
    AfterLast(Start(orig), [BlockAlone(model)], c);
  }

  /** History is forgotten exactly when every reroute asked of the route has a backend. */
  lemma HistoryIndependentExactlyWhen(orig: seq<Rule>, c: Controls)
    requires Reversible(orig)
    ensures AllRunsAgree(orig, c) <==> TargetsKnown(orig, c)
  {
    if TargetsKnown(orig, c) {
      forall run1: seq<Controls>, run2: seq<Controls>
        ensures After(Start(orig), run1 + [c]) == After(Start(orig), run2 + [c])
      {
        HistoryIndependent(orig, run1, run2, c);
      }
    }
    if AllRunsAgree(orig, c) {
      forall i | 0 <= i < |orig| && Controllable(orig[i]) && RuleModel(orig[i]) in c.desired
        ensures BackendOf(c, c.desired[RuleModel(orig[i])]) != ""
      {
        if BackendOf(c, c.desired[RuleModel(orig[i])]) == "" {
          UnknownTargetRemembers(orig, c, i);
          assert false;
        }
      }
    }
  }

  /** An empty call after any run restores the originals and forgets them. */
  lemma EmptyCallRestores(orig: seq<Rule>, run: seq<Controls>)
    requires Reversible(orig)
    ensures After(Start(orig), run + [NO_CONTROLS]) == Start(orig)
  {
    LastCallDecides(orig, run, NO_CONTROLS);
    var t := After(Start(orig), run + [NO_CONTROLS]);
    assert t.rules == orig;
    NothingHeld(orig, t.saved);
  }

  lemma NothingHeld(orig: seq<Rule>, saved: map<string, string>)
    requires forall m | m in saved :: HasModel(orig, m)
    requires forall i | 0 <= i < |orig| && Controllable(orig[i]) :: RuleModel(orig[i]) !in saved
    ensures saved == map[]
  {
    assert forall m :: m !in saved;
  }

  // ---- the premise is needed

  /** Reroute one model and let go again. */
  function RerouteOnce(model: string, target: string): Controls { Controls(map[model := target], {}, map[target := "x"]) }

  /** What a call about one model does to the rules that match it. */
  function Doing(c: Controls, model: string): Action {
    if model in c.desired then
      if BackendOf(c, c.desired[model]) == "" then Skip else Reroute(c.desired[model], BackendOf(c, c.desired[model]))
    else if model in c.blocked then Block else Skip
  }

  ghost predicate OnlyFor(c: Controls, model: string) {
    c.desired.Keys <= {model} && c.blocked <= {model} && !Doing(c, model).Skip?
  }

  /** The backend name an action gives. */
  function NameGiven(a: Action): string {
    match a case Reroute(_, backend) => backend case Block => BLOCK_BACKEND case Revert(original) => original case Skip => ""
  }

  lemma OneModelAction(rule: Rule, saved: map<string, string>, c: Controls, model: string)
    requires OnlyFor(c, model) && saved.Keys <= {model}
    ensures ActionFor(rule, saved, c) == if Matches(rule, model) then Doing(c, model) else Skip
  {}

  /** Rule `i` is the first one that controls the model. */
  ghost predicate FirstWith(rules: seq<Rule>, model: string, i: int)
    requires 0 <= i < |rules|
  {
    Matches(rules[i], model) && forall k | 0 <= k < i :: !Matches(rules[k], model)
  }

  lemma FrontModels(rules: seq<Rule>, model: string)
    requires rules != []
    ensures HasModel(rules, model) <==> HasModel(Front(rules), model) || Matches(Last(rules), model)
    ensures forall i | 0 <= i < |rules| - 1 :: FirstWith(rules, model, i) <==> FirstWith(Front(rules), model, i)
    ensures FirstWith(rules, model, |rules| - 1) <==> !HasModel(Front(rules), model) && Matches(Last(rules), model)
  {
    var front := Front(rules);
    if HasModel(front, model) {
      var i :| 0 <= i < |front| && Matches(front[i], model);
      assert Matches(rules[i], model);
    }
  }

  /** The rules after a first call about `model`, for any rules. */
  lemma {:induction false} AfterDoing(rules: seq<Rule>, c: Controls, model: string)
    requires OnlyFor(c, model)
    ensures var t := Controlled(Start(rules), c);
      && |t.rules| == |rules|
      && (forall i | 0 <= i < |rules| :: t.rules[i] == if Matches(rules[i], model) then ActedRule(rules[i], Doing(c, model)) else rules[i])
      && t.saved.Keys <= {model}
      && (model in t.saved <==> HasModel(rules, model))
      && (forall i | 0 <= i < |rules| && FirstWith(rules, model, i) :: model in t.saved && t.saved[model] == BackendName(rules[i]))
  {
    if rules != [] {
      var front := Front(rules);
      AfterDoing(front, c, model);
      OneModelAction(Last(rules), Controlled(Start(front), c).saved, c, model);
      FrontModels(rules, model);
    }
  }

  lemma ReleaseAction(rule: Rule, saved: map<string, string>, model: string)
    requires forall m | m in saved :: m == model
    ensures ActionFor(rule, saved, NO_CONTROLS) ==
      if Matches(rule, model) && model in saved then Revert(saved[model]) else Skip
  {}

  /** An empty call when one model is saved: only its first rule goes back. */
  lemma {:induction false} AfterRelease(rules: seq<Rule>, model: string, name: string)
    ensures var t := Controlled(State(rules, map[model := name]), NO_CONTROLS);
      && |t.rules| == |rules|
      && (forall i | 0 <= i < |rules| :: t.rules[i] == if FirstWith(rules, model, i) then Pointed(rules[i], name, None) else rules[i])
      && t.saved == if HasModel(rules, model) then map[] else map[model := name]
  {
    if rules != [] {
      var front := Front(rules);
      AfterRelease(front, model, name);
      var before := Controlled(State(front, map[model := name]), NO_CONTROLS);
      ReleaseAction(Last(rules), before.saved, model);
      FrontModels(rules, model);
    }
  }

  /** Every run, once emptied, gives the originals back. */
  ghost predicate EveryRunRestores(orig: seq<Rule>) {
    forall run: seq<Controls> :: After(Start(orig), run + [NO_CONTROLS]) == Start(orig)
  }

  /** A rewrite target different from the rule's own. */
  function FreshTarget(rule: Rule): string
    requires Controllable(rule)
  {
    if rule.backends[0].mutation == Some(SetModel("t")) then "u" else "t"
  }

  lemma RerouteThenRelease(orig: seq<Rule>, model: string, target: string, i: int)
    requires 0 <= i < |orig| && Matches(orig[i], model)
    ensures var t := After(Start(orig), [RerouteOnce(model, target)] + [NO_CONTROLS]);
      && |t.rules| == |orig|
      && (FirstWith(orig, model, i) ==> t.rules[i] == Pointed(orig[i], BackendName(orig[i]), None))
      && (!FirstWith(orig, model, i) ==> t.rules[i] == Pointed(orig[i], "x", Some(SetModel(target))))
  {
    var c := RerouteOnce(model, target);
    AfterDoing(orig, c, model);
    var s := Controlled(Start(orig), c);
    assert HasModel(orig, model);
    assert s.saved == map[model := s.saved[model]];
    AfterRelease(s.rules, model, s.saved[model]);
    AfterLast(Start(orig), [c], NO_CONTROLS);
    AfterLast(Start(orig), [], c);
    assert [] + [c] == [c];
    forall k | 0 <= k < |orig| ensures Matches(s.rules[k], model) == Matches(orig[k], model) {
      if Matches(orig[k], model) {
        PointedPlain(orig[k], "x", Some(SetModel(target)));
        SamePlain(s.rules[k], orig[k]);
      }
    }
    assert FirstWith(s.rules, model, i) <==> FirstWith(orig, model, i);
    PointedPlain(orig[i], "x", Some(SetModel(target)));
    SamePlain(s.rules[i], orig[i]);
    if FirstWith(orig, model, i) { SamePointed(s.rules[i], orig[i], BackendName(orig[i]), None); }
  }

  /** Emptying every run restores the route exactly when each model has one rule,
      and that rule's backend is named and has no rewrite of its own. */
  lemma RestoresIffReversible(orig: seq<Rule>)
    ensures EveryRunRestores(orig) <==> Reversible(orig)
  {
    if Reversible(orig) {
      forall run: seq<Controls> ensures After(Start(orig), run + [NO_CONTROLS]) == Start(orig) {
        EmptyCallRestores(orig, run);
      }
    }
    if EveryRunRestores(orig) {
      forall i | 0 <= i < |orig| && Controllable(orig[i]) ensures FirstWith(orig, RuleModel(orig[i]), i) && Restorable(orig[i]) {
        var model, target := RuleModel(orig[i]), FreshTarget(orig[i]);
        RerouteThenRelease(orig, model, target, i);
        assert After(Start(orig), [RerouteOnce(model, target)] + [NO_CONTROLS]).rules[i] == orig[i];
        assert Pointed(orig[i], "x", Some(SetModel(target))).backends[0].mutation == Some(SetModel(target));
        assert "t" != "u" by { assert "t"[0] != "u"[0]; }
        PointingBack(orig[i]);
      }
    }
  }
}
