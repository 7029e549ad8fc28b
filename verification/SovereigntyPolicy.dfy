/** The report in the terms of the policy as it is written: which zones its names mean,
    which flows it reports, and how they are ranked. */
module SovereigntyPolicy {
  import opened FindingTally
  import opened Orders
  import opened Sequences
  import opened Sovereignty
  import opened SovereigntyGuarantees
  import opened Text

  // ---- zone names

  lemma CaseFolds(s: string)
    ensures ToLower(ToUpper(s)) == ToLower(s)
  {}

  lemma NotThisCode(z: string, code: string, small: string)
    requires ToLower(code) == small && ToLower(z) != small
    ensures ToUpper(z) != code
  {
    CaseFolds(z);
  }

  /** The lower-case form that decides what a zone name means. */
  function Spelled(name: string): string { ToLower(Trim(name)) }

  lemma CodesDiffer()
    ensures "FR"[0] != "EU"[0] && "FR"[0] != "US"[0] && "FR"[0] != "CN"[0] && "FR"[0] != "GB"[0] && "EU"[0] != "US"[0]
    ensures "EU"[0] != "CN"[0] && "EU"[0] != "GB"[0] && "US"[0] != "CN"[0] && "US"[0] != "GB"[0] && "CN"[0] != "GB"[0]
  {}

  lemma FranceIs(name: string)
    ensures NormalizeZone(name) == "FR" <==> Spelled(name) in {"fr", "france", "francecentral"}
  {
    if Spelled(name) != "fr" { NotThisCode(Trim(name), "FR", "fr"); }
    CodesDiffer();
  }

  lemma EuropeIs(name: string)
    ensures NormalizeZone(name) == "EU" <==> Spelled(name) in {"eu", "europe", "european union"}
  {
    if Spelled(name) != "eu" { NotThisCode(Trim(name), "EU", "eu"); }
    CodesDiffer();
  }

  lemma AmericaIs(name: string)
    ensures NormalizeZone(name) == "US" <==> Spelled(name) in {"us", "usa", "united states", "eastus", "westus"}
  {
    if Spelled(name) != "us" { NotThisCode(Trim(name), "US", "us"); }
    CodesDiffer();
  }

  lemma ChinaIs(name: string)
    ensures NormalizeZone(name) == "CN" <==> Spelled(name) in {"cn", "china"}
  {
    if Spelled(name) != "cn" { NotThisCode(Trim(name), "CN", "cn"); }
    CodesDiffer();
  }

  lemma BritainIs(name: string)
    ensures NormalizeZone(name) == "GB" <==> Spelled(name) in {"gb", "uk", "united kingdom"}
  {
    if Spelled(name) != "gb" { NotThisCode(Trim(name), "GB", "gb"); }
    CodesDiffer();
  }

  /** The codes with other spellings. */
  predicate Aliased(code: string) { code in {"FR", "EU", "US", "CN", "GB"} }

  lemma OtherwiseIs(name: string)
    ensures !Aliased(NormalizeZone(name)) ==> NormalizeZone(name) == ToUpper(Trim(name))
  {}

  /** Five codes have the aliases listed, and every other name means itself, in capitals;
      so two names mean one zone exactly when they share a code or a spelling. */
  lemma ZoneNamesMean(name: string)
    ensures NormalizeZone(name) == "FR" <==> Spelled(name) in {"fr", "france", "francecentral"}
    ensures NormalizeZone(name) == "EU" <==> Spelled(name) in {"eu", "europe", "european union"}
    ensures NormalizeZone(name) == "US" <==> Spelled(name) in {"us", "usa", "united states", "eastus", "westus"}
    ensures NormalizeZone(name) == "CN" <==> Spelled(name) in {"cn", "china"}
    ensures NormalizeZone(name) == "GB" <==> Spelled(name) in {"gb", "uk", "united kingdom"}
    ensures Aliased(NormalizeZone(name)) || NormalizeZone(name) == ToUpper(Trim(name))
  {
    FranceIs(name); EuropeIs(name); AmericaIs(name); ChinaIs(name); BritainIs(name); OtherwiseIs(name);
  }

  // ---- who complies

  /** Some listed name means this zone. */
  predicate Names(zones: seq<string>, zone: string) {
    exists name :: name in zones && NormalizeZone(name) == zone
  }

  predicate EUMember(zone: string) {
    zone in {"AT", "BE", "CZ", "DE", "DK", "ES", "FI", "FR", "GR", "HU", "IE", "IT", "LU", "NL", "PL", "PT", "RO", "SE"}
  }

  /** The zone is listed as forbidden. */
  predicate Banned(policy: Policy, zone: string) { Names(policy.forbidden, zone) }

  /** Zones are listed as allowed, but not this one, nor the union it belongs to. */
  predicate Unlisted(policy: Policy, zone: string) {
    policy.allowed != [] && !Names(policy.allowed, zone) && !(Names(policy.allowed, "EU") && EUMember(zone))
  }

  /** Managed traffic through a provider or to a model not cleared for sensitive data,
      where the policy keeps such data inside. */
  predicate Leaks(policy: Policy, f: Flow) {
    !policy.externalAllowed && f.managed && !(f.providerSensitive && f.modelSensitive)
  }

  lemma ZoneSetNames(zones: seq<string>, zone: string)
    ensures zone in ZoneSet(zones) <==> Names(zones, zone)
  {}

  lemma MembersAre(zone: string)
    ensures zone in EU_COUNTRIES <==> EUMember(zone)
  {}

  lemma CoveredExactlyWhen(policy: Policy, zone: string)
    ensures ZoneAllowed(zone, ZoneSet(policy.allowed)) <==> !Unlisted(policy, zone)
  {
    ZoneSetNames(policy.allowed, zone); ZoneSetNames(policy.allowed, "EU");
    MembersAre(zone);
    if policy.allowed != [] {
      assert NormalizeZone(policy.allowed[0]) in ZoneSet(policy.allowed);
    }
  }

  /** The residency finding of a flow: critical in a zone some forbidden name means, a
      warning outside the allowed zones, and otherwise none. */
  lemma ResidencyByPolicy(policy: Policy, texts: Texts, f: Flow)
    ensures var zone := NormalizeZone(f.zone);
      var found := ResidencyFindings(RulesOf(policy), texts, f);
      && (Banned(policy, zone) ==>
            found == [Finding(Critical, texts.forbidden(f, zone), f.namespace, f.application, f.model, f.provider, zone, f.requests)])
      && (!Banned(policy, zone) && Unlisted(policy, zone) ==>
            |found| == 1 && found[0] == Finding(Warning, found[0].message, f.namespace, f.application, f.model, f.provider, zone, f.requests))
      && (!Banned(policy, zone) && !Unlisted(policy, zone) ==> found == [])
  {
    var zone := NormalizeZone(f.zone);
    ZoneSetNames(policy.forbidden, zone);
    CoveredExactlyWhen(policy, zone);
  }

  /** The finding about sensitive data: one warning exactly for a flow that leaks. */
  lemma SensitiveByPolicy(policy: Policy, texts: Texts, f: Flow)
    ensures SensitiveFindings(RulesOf(policy), texts, f) ==
      if Leaks(policy, f)
      then [Finding(Warning, texts.sensitive(f), f.namespace, f.application, f.model, f.provider, NormalizeZone(f.zone), f.requests)]
      else []
  {}

  // ---- the report

  ghost predicate Reports(findings: seq<Finding>, severity: Severity) {
    exists r :: r in findings && r.severity == severity
  }

  lemma FlowReports(policy: Policy, texts: Texts, f: Flow)
    ensures var zone := NormalizeZone(f.zone);
      var found := FlowFindings(RulesOf(policy), texts, f);
      && (Reports(found, Critical) <==> Banned(policy, zone))
      && (Reports(found, Warning) <==> (!Banned(policy, zone) && Unlisted(policy, zone)) || Leaks(policy, f))
      && !Reports(found, Info)
  {
    var residency, sensitive := ResidencyFindings(RulesOf(policy), texts, f), SensitiveFindings(RulesOf(policy), texts, f);
    ResidencyByPolicy(policy, texts, f);
    SensitiveByPolicy(policy, texts, f);
    if residency != [] { assert residency[0] in FlowFindings(RulesOf(policy), texts, f); }
    if sensitive != [] { assert sensitive[0] in FlowFindings(RulesOf(policy), texts, f); }
  }

  lemma ReportedBySomeFlow(policy: Policy, texts: Texts, flows: seq<Flow>, severity: Severity)
    requires severity != Info
    ensures Reports(Report(RulesOf(policy), texts, flows), severity)
      <==> exists f :: f in flows && Reports(FlowFindings(RulesOf(policy), texts, f), severity)
  {
    var rules := RulesOf(policy);
    if Reports(Report(rules, texts, flows), severity) {
      var r :| r in Report(rules, texts, flows) && r.severity == severity;
      var v := ReportedIsViolation(rules, texts, flows, r);
      ViolationsFrom(rules, texts, flows, v);
      var f :| f in flows && v in FlowFindings(rules, texts, f);
      assert Reports(FlowFindings(rules, texts, f), severity);
    }
    if f: Flow :| f in flows && Reports(FlowFindings(rules, texts, f), severity) {
      var v :| v in FlowFindings(rules, texts, f) && v.severity == severity;
      ViolationsFrom(rules, texts, flows, v);
      var r := ViolationIsReported(rules, texts, flows, v);
    }
  }

  /** The flow is outside the allowed zones, in none that is forbidden, or leaks. */
  predicate DrawsWarning(policy: Policy, f: Flow) {
    var zone := NormalizeZone(f.zone);
    (!Banned(policy, zone) && Unlisted(policy, zone)) || Leaks(policy, f)
  }

  /** What the report of a policy shows: something critical exactly when a flow is in a
      forbidden zone, a warning exactly when a flow is outside the allowed zones or
      leaks, and a reminder exactly when the policy asks for anonymization. */
  lemma ReportByPolicy(policy: Policy, texts: Texts, flows: seq<Flow>)
    ensures var report := Report(RulesOf(policy), texts, flows);
      && (Reports(report, Critical) <==> exists f :: f in flows && Banned(policy, NormalizeZone(f.zone)))
      && (Reports(report, Warning) <==> exists f :: f in flows && DrawsWarning(policy, f))
      && (Reports(report, Info) <==> policy.anonymize)
  {
    forall f: Flow { FlowReports(policy, texts, f); }
    ReportedBySomeFlow(policy, texts, flows, Critical);
    ReportedBySomeFlow(policy, texts, flows, Warning);
    ReminderByPolicy(policy, texts, flows);
  }

  lemma ReminderByPolicy(policy: Policy, texts: Texts, flows: seq<Flow>)
    ensures Reports(Report(RulesOf(policy), texts, flows), Info) <==> policy.anonymize
  {
    var rules := RulesOf(policy);
    if policy.anonymize {
      var reminder := Reminders(rules, texts)[0];
      InReport(rules, texts, flows, reminder);
    }
    forall r | r in Report(rules, texts, flows) && r !in Reminders(rules, texts) ensures r.severity != Info {
      var v := ReportedIsViolation(rules, texts, flows, r);
      ViolationsFrom(rules, texts, flows, v);
      var f :| f in flows && v in FlowFindings(rules, texts, f);
      FlowFindingsAreSerious(rules, texts, f, v);
    }
  }

  /** Critical findings come first, then warnings, then reminders; within a severity
      namespaces, applications, providers and models are in order. */
  lemma ReportIsRanked(policy: Policy, texts: Texts, flows: seq<Flow>, i: int, j: int)
    requires 0 <= i < j < |Report(RulesOf(policy), texts, flows)|
    ensures var a, b := Report(RulesOf(policy), texts, flows)[i], Report(RulesOf(policy), texts, flows)[j];
      && (b.severity == Critical ==> a.severity == Critical) && (a.severity == Info ==> b.severity == Info)
      && (a.severity == b.severity ==> LexLe(a.namespace, b.namespace))
      && (a.severity == b.severity && a.namespace == b.namespace ==> LexLe(a.application, b.application))
      && (a.severity == b.severity && a.namespace == b.namespace && a.application == b.application ==> LexLe(a.provider, b.provider))
      && (a.severity == b.severity && a.namespace == b.namespace && a.application == b.application && a.provider == b.provider ==>
            LexLe(a.model, b.model))
  {
    var merged := Summary(Key, Violations(RulesOf(policy), texts, flows)) + Reminders(RulesOf(policy), texts);
    FindingLeOrders();
    SortSorts(FindingLe, merged);
    RankedByFields(Report(RulesOf(policy), texts, flows)[i], Report(RulesOf(policy), texts, flows)[j]);
  }

  lemma RankedByFields(a: Finding, b: Finding)
    requires FindingLe(a, b)
    ensures (b.severity == Critical ==> a.severity == Critical) && (a.severity == Info ==> b.severity == Info)
    ensures a.severity == b.severity ==> LexLe(a.namespace, b.namespace)
    ensures a.severity == b.severity && a.namespace == b.namespace ==> LexLe(a.application, b.application)
    ensures a.severity == b.severity && a.namespace == b.namespace && a.application == b.application ==> LexLe(a.provider, b.provider)
    ensures a.severity == b.severity && a.namespace == b.namespace && a.application == b.application && a.provider == b.provider ==>
      LexLe(a.model, b.model)
  {
    LexTotal(a.namespace, a.namespace); LexTotal(a.application, a.application); LexTotal(a.provider, a.provider);
    LexTotal(a.model, a.model);
    var p, q := Place(a), Place(b);
    assert p[1..][0] == a.application && p[1..][1..][0] == a.provider && p[1..][1..][1..][0] == a.model;
    assert q[1..][0] == b.application && q[1..][1..][0] == b.provider && q[1..][1..][1..][0] == b.model;
    if a.severity == b.severity {
      assert FieldsLe(p, q);
      if p[0] == q[0] { assert FieldsLe(p[1..], q[1..]); }
      if p[0] == q[0] && p[1] == q[1] { assert FieldsLe(p[1..][1..], q[1..][1..]); }
      if p[0] == q[0] && p[1] == q[1] && p[2] == q[2] { assert FieldsLe(p[1..][1..][1..], q[1..][1..][1..]); }
    }
  }
}
