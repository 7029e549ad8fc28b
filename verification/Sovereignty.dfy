/** Sovereignty: which observed flows violate a residency policy, reported as one
    finding per distinct violation with the requests of its flows added up. */
module Sovereignty {
  import opened FindingTally
  import opened Integers
  import opened Orders
  import opened Sequences
  import opened Text

  datatype Flow = Flow(
    namespace: string, application: string, model: string, provider: string, zone: string, managed: bool,
    providerSensitive: bool, modelSensitive: bool, requests: int64)

  datatype Policy = Policy(allowed: seq<string>, forbidden: seq<string>, externalAllowed: bool, anonymize: bool)

  /** The wording of the findings. */
  datatype Texts = Texts(
    forbidden: (Flow, string) -> string, outside: (Flow, string, set<string>) -> string, sensitive: Flow -> string,
    anonymize: string)

  // ---- zones

  const EU_COUNTRIES: set<string> := {
    "FR", "DE", "ES", "IT", "NL", "BE", "LU", "IE", "PT", "AT", "FI", "SE", "DK", "PL", "CZ", "GR", "RO", "HU"}

  /** The canonical code of a trimmed zone name. */
  function ZoneCode(z: string): string {
    var l := ToLower(z);
    if l in {"fr", "france", "francecentral"} then "FR"
    else if l in {"eu", "europe", "european union"} then "EU"
    else if l in {"us", "usa", "united states", "eastus", "westus"} then "US"
    else if l in {"cn", "china"} then "CN"
    else if l in {"uk", "gb", "united kingdom"} then "GB"
    else ToUpper(z)
  }

  function NormalizeZone(zone: string): string { ZoneCode(Trim(zone)) }

  function ZoneSet(zones: seq<string>): set<string> { set z | z in zones :: NormalizeZone(z) }

  /** An EU member is covered by "EU"; no allowed zones means no restriction. */
  predicate ZoneAllowed(zone: string, allowed: set<string>) {
    allowed == {} || zone in allowed || ("EU" in allowed && zone in EU_COUNTRIES)
  }

  /** A policy ready for evaluation: its zones as sets, and how zones are read. */
  datatype Rules = Rules(
    zoneOf: string -> string, covers: (string, set<string>) -> bool, allowed: set<string>, forbidden: set<string>,
    externalAllowed: bool, anonymize: bool)

  function RulesOf(policy: Policy): Rules {
    Rules(NormalizeZone, ZoneAllowed, ZoneSet(policy.allowed), ZoneSet(policy.forbidden), policy.externalAllowed,
          policy.anonymize)
  }

  /** Whether a provider in this zone complies. */
  predicate IsZoneAllowed(rules: Rules, zone: string) {
    var z := rules.zoneOf(zone);
    z !in rules.forbidden && rules.covers(z, rules.allowed)
  }

  // ---- violations

  const SEPARATOR := 0x1f as char

  function SeverityText(s: Severity): string {
    match s case Info => "info" case Warning => "warning" case Critical => "critical"
  }

  /** What makes two findings the same. */
  function Key(f: Finding): string {
    SeverityText(f.severity) + [SEPARATOR] + (f.namespace + [SEPARATOR] + (f.application + [SEPARATOR] +
      (f.model + [SEPARATOR] + (f.provider + [SEPARATOR] + f.message))))
  }

  function About(f: Flow, zone: string, severity: Severity, message: string): Finding {
    Finding(severity, message, f.namespace, f.application, f.model, f.provider, zone, f.requests)
  }

  function ResidencyFindings(rules: Rules, texts: Texts, f: Flow): seq<Finding> {
    var zone := rules.zoneOf(f.zone);
    if zone in rules.forbidden then [About(f, zone, Critical, texts.forbidden(f, zone))]
    else if !rules.covers(zone, rules.allowed) then [About(f, zone, Warning, texts.outside(f, zone, rules.allowed))]
    else []
  }

  /** Managed traffic not cleared for sensitive data, under a policy that keeps such
      data away from external providers. */
  predicate Exposed(rules: Rules, f: Flow) {
    !rules.externalAllowed && f.managed && (!f.providerSensitive || !f.modelSensitive)
  }

  function SensitiveFindings(rules: Rules, texts: Texts, f: Flow): seq<Finding> {
    if Exposed(rules, f) then [About(f, rules.zoneOf(f.zone), Warning, texts.sensitive(f))] else []
  }

  function FlowFindings(rules: Rules, texts: Texts, f: Flow): seq<Finding> {
    ResidencyFindings(rules, texts, f) + SensitiveFindings(rules, texts, f)
  }

  /** The findings of every flow, before any are merged. */
  function Violations(rules: Rules, texts: Texts, flows: seq<Flow>): seq<Finding>
    decreases |flows|
  {
    if flows == [] then [] else Violations(rules, texts, Front(flows)) + FlowFindings(rules, texts, Last(flows))
  }

  // ---- the report

  function Rank(s: Severity): nat {
    match s case Critical => 3 case Warning => 2 case Info => 1
  }

  /** Field by field, the first difference decides. */
  predicate FieldsLe(a: seq<string>, b: seq<string>) {
    a == [] || (b != [] && if a[0] != b[0] then LexLe(a[0], b[0]) else FieldsLe(a[1..], b[1..]))
  }

  function Place(f: Finding): seq<string> { [f.namespace, f.application, f.provider, f.model] }

  /** Descending severity, then where the traffic is. */
  predicate FindingLe(a: Finding, b: Finding) {
    if a.severity != b.severity then Rank(a.severity) > Rank(b.severity) else FieldsLe(Place(a), Place(b))
  }

  function Reminders(rules: Rules, texts: Texts): seq<Finding> {
    if rules.anonymize then [Finding(Info, texts.anonymize, "", "", "", "", "", 0)] else []
  }

  function Report(rules: Rules, texts: Texts, flows: seq<Flow>): seq<Finding> {
    Sort(FindingLe, Summary(Key, Violations(rules, texts, flows)) + Reminders(rules, texts))
  }

  /** Adds the findings of one flow to the tally. */
  method CheckFlow(rules: Rules, texts: Texts, f: Flow, tally: Tally)
    requires tally.Valid()
    modifies tally
    ensures tally.Valid() && tally.added == old(tally.added) + FlowFindings(rules, texts, f)
  {
    var zone := rules.zoneOf(f.zone);
    if zone in rules.forbidden {
      tally.Add(About(f, zone, Critical, texts.forbidden(f, zone)));
    } else if !rules.covers(zone, rules.allowed) {
      tally.Add(About(f, zone, Warning, texts.outside(f, zone, rules.allowed)));
    }
    assert tally.added == old(tally.added) + ResidencyFindings(rules, texts, f);
    if !rules.externalAllowed && f.managed && (!f.providerSensitive || !f.modelSensitive) {
      tally.Add(About(f, zone, Warning, texts.sensitive(f)));
    }
    assert tally.added == old(tally.added) + ResidencyFindings(rules, texts, f) + SensitiveFindings(rules, texts, f);
  }

  method EvaluateFlows(policy: Policy, texts: Texts, flows: seq<Flow>) returns (findings: seq<Finding>)
    ensures findings == Report(RulesOf(policy), texts, flows)
  {
    var rules := RulesOf(policy);
    var tally := new Tally(Key);
    for i := 0 to |flows|
      invariant fresh(tally) && tally.Valid() && tally.key == Key
      invariant tally.added == Violations(rules, texts, flows[..i])
    {
      CheckFlow(rules, texts, flows[i], tally);
      OneMoreFlow(rules, texts, flows, i);
    }
    assert flows[..|flows|] == flows;
    findings := tally.Findings();
    if policy.anonymize {
      findings := findings + [Finding(Info, texts.anonymize, "", "", "", "", "", 0)];
    }
    assert findings == Summary(Key, Violations(rules, texts, flows)) + Reminders(rules, texts);
    findings := Sort(FindingLe, findings);
  }

  lemma OneMoreFlow(rules: Rules, texts: Texts, flows: seq<Flow>, i: nat)
    requires i < |flows|
    ensures Violations(rules, texts, flows[..i + 1]) == Violations(rules, texts, flows[..i]) + FlowFindings(rules, texts, flows[i])
  {
    assert Front(flows[..i + 1]) == flows[..i];
  }
}
