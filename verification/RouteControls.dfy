/** ApplyControls: rerouting, blocking and reverting the rules of one gateway route
    in place, with the original backend of each controlled model kept aside. */
module RouteControls {
  import opened Wrappers
  import opened Sequences

  const MODEL_HEADER := "x-ai-eg-model"
  const BLOCK_BACKEND := "aiops-blocked"

  // ---- decoded rules

  datatype Header = NotAHeader | Header(name: string, value: string)

  datatype Match = NotAMatch | Match(headers: seq<Header>)

  /** A request-body rewrite: the one ApplyControls writes, or anything else. */
  datatype Mutation = SetModel(target: string) | OtherMutation(raw: string)

  datatype Backend = NotABackend | Backend(name: Option<string>, mutation: Option<Mutation>, rest: string)

  datatype Rule = NotARule | Rule(matches: seq<Match>, backends: seq<Backend>, rest: string)

  function HeadersModel(headers: seq<Header>): Option<string> {
    if headers == [] then None
    else if headers[0].Header? && headers[0].name == MODEL_HEADER then Some(headers[0].value)
    else HeadersModel(headers[1..])
  }

  function MatchesModel(matches: seq<Match>): string {
    if matches == [] then ""
    else
      match (if matches[0].Match? then HeadersModel(matches[0].headers) else None)
      case Some(value) => value
      case None => MatchesModel(matches[1..])
  }

  /** The model a rule matches on, or "". */
  function RuleModel(rule: Rule): string {
    if rule.Rule? then MatchesModel(rule.matches) else ""
  }

  /** A rule that matches a model and whose first backend can be rewritten. */
  predicate Controllable(rule: Rule) {
    rule.Rule? && RuleModel(rule) != "" && rule.backends != [] && rule.backends[0].Backend?
  }

  function BackendName(rule: Rule): string
    requires Controllable(rule)
  {
    match rule.backends[0].name case Some(n) => n case None => ""
  }

  /** The rule with its first backend renamed and its rewrite replaced. */
  function Pointed(rule: Rule, name: string, mutation: Option<Mutation>): Rule
    requires Controllable(rule)
  {
    rule.(backends := rule.backends[0 := rule.backends[0].(name := Some(name), mutation := mutation)])
  }

  // ---- one call

  /** The desired controls and the backend index of one call. */
  datatype Controls = Controls(desired: map<string, string>, blocked: set<string>, backends: map<string, string>)

  const NO_CONTROLS := Controls(map[], {}, map[])

  function BackendOf(c: Controls, target: string): string {
    if target in c.backends then c.backends[target] else ""
  }

  /** What the call does to one rule. */
  datatype Action = Skip | Reroute(target: string, backend: string) | Block | Revert(original: string)

  function ActionFor(rule: Rule, saved: map<string, string>, c: Controls): Action {
    if !Controllable(rule) then Skip
    else
      var model := RuleModel(rule);
      if model in c.desired then
        var target := c.desired[model];
        if BackendOf(c, target) == "" then Skip else Reroute(target, BackendOf(c, target))
      else if model in c.blocked then Block
      else if model in saved then Revert(saved[model])
      else Skip
  }

  function ActedRule(rule: Rule, a: Action): Rule
    requires a.Skip? || Controllable(rule)
  {
    match a
    case Skip => rule
    case Reroute(target, backend) => Pointed(rule, backend, Some(SetModel(target)))
    case Block => Pointed(rule, BLOCK_BACKEND, None)
    case Revert(original) => Pointed(rule, original, None)
  }

  function ActedSaved(rule: Rule, saved: map<string, string>, a: Action): map<string, string>
    requires a.Skip? || Controllable(rule)
  {
    match a
    case Skip => saved
    case Revert(_) => saved - {RuleModel(rule)}
    case _ => if RuleModel(rule) in saved then saved else saved[RuleModel(rule) := BackendName(rule)]
  }

  datatype Outcome = Outcome(rerouted: set<string>, blocked: set<string>, changed: bool)

  function Recorded(rule: Rule, o: Outcome, a: Action): Outcome {
    match a
    case Skip => o
    case Reroute(_, _) => o.(rerouted := o.rerouted + {RuleModel(rule)}, changed := true)
    case Block => o.(blocked := o.blocked + {RuleModel(rule)}, changed := true)
    case Revert(_) => o.(changed := true)
  }

  datatype State = State(rules: seq<Rule>, saved: map<string, string>)

  /** The call, rule by rule: each rule sees what the rules before it saved. */
  function Controlled(s: State, c: Controls): State
    decreases |s.rules|
  {
    if s.rules == [] then s
    else
      var before := Controlled(s.(rules := Front(s.rules)), c);
      var a := ActionFor(Last(s.rules), before.saved, c);
      State(before.rules + [ActedRule(Last(s.rules), a)], ActedSaved(Last(s.rules), before.saved, a))
  }

  function Report(s: State, c: Controls): Outcome
    decreases |s.rules|
  {
    if s.rules == [] then Outcome({}, {}, false)
    else
      var before := s.(rules := Front(s.rules));
      Recorded(Last(s.rules), Report(before, c), ActionFor(Last(s.rules), Controlled(before, c).saved, c))
  }

  /** The rules of a route and the originals saved for it. */
  class RouteRules {
    const rules: array<Rule>
    var saved: map<string, string>

    constructor (rules: seq<Rule>, saved: map<string, string>)
      ensures fresh(this.rules) && this.rules[..] == rules && this.saved == saved
    {
      this.rules := new Rule[|rules|](i requires 0 <= i < |rules| => rules[i]);
      this.saved := saved;
    }

    /** One iteration of the loop: act on rule `i`. */
    method ControlRule(i: nat, c: Controls) returns (a: Action)
      requires i < rules.Length
      modifies this`saved, rules
      ensures a == ActionFor(old(rules[i]), old(saved), c)
      ensures rules[..] == old(rules[..])[i := ActedRule(old(rules[i]), a)]
      ensures saved == ActedSaved(old(rules[i]), old(saved), a)
    {
      var rule := rules[i];
      if !Controllable(rule) { return Skip; }
      var model := RuleModel(rule);
      if model in c.desired {
        var target := c.desired[model];
        var backend := BackendOf(c, target);
        if backend == "" { return Skip; }
        if model !in saved { saved := saved[model := BackendName(rule)]; }
        rules[i] := Pointed(rule, backend, Some(SetModel(target)));
        return Reroute(target, backend);
      } else if model in c.blocked {
        if model !in saved { saved := saved[model := BackendName(rule)]; }
        rules[i] := Pointed(rule, BLOCK_BACKEND, None);
        return Block;
      } else if model in saved {
        var original := saved[model];
        rules[i] := Pointed(rule, original, None);
        saved := saved - {model};
        return Revert(original);
      }
      return Skip;
    }

    method ApplyControls(c: Controls) returns (res: Outcome)
      modifies this`saved, rules
      ensures State(rules[..], saved) == Controlled(State(old(rules[..]), old(saved)), c)
      ensures res == Report(State(old(rules[..]), old(saved)), c)
    {
      res := Outcome({}, {}, false);
      ghost var original, originals := rules[..], saved;
      for i := 0 to rules.Length
        invariant rules[i..] == original[i..]
        invariant State(rules[..i], saved) == Controlled(State(original[..i], originals), c)
        invariant res == Report(State(original[..i], originals), c)
      {
        ghost var now := rules[..];
        assert rules[i] == rules[i..][0] == original[i];
        PrefixStep(original, originals, i, c);
        var rule := rules[i];
        var a := ControlRule(i, c);
        res := Recorded(rule, res, a);
        assert rules[..i + 1] == now[..i] + [ActedRule(rule, a)];
        assert rules[i + 1..] == now[i..][1..];
      }
      assert rules[..] == rules[..rules.Length] && original == original[..rules.Length];
    }
  }

  lemma PrefixStep(rules: seq<Rule>, saved: map<string, string>, i: nat, c: Controls)
    requires i < |rules|
    ensures var before := Controlled(State(rules[..i], saved), c);
      var a := ActionFor(rules[i], before.saved, c);
      && Controlled(State(rules[..i + 1], saved), c)
         == State(before.rules + [ActedRule(rules[i], a)], ActedSaved(rules[i], before.saved, a))
      && Report(State(rules[..i + 1], saved), c) == Recorded(rules[i], Report(State(rules[..i], saved), c), a)
  {
    assert Front(rules[..i + 1]) == rules[..i] && Last(rules[..i + 1]) == rules[i];
  }
}
