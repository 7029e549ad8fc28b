/** The values of the GOV-AR pricing ledger: price rows, frozen snapshots, and
    the closed vocabularies their validators accept. */
module PricingModel {
  import opened Integers
  import opened Wrappers

  /** A billable basis: one of the ten closed ones, or any other text. */
  datatype Basis =
    | InputTokens | CachedInputTokens | OutputTokens | ReasoningTokens | PerRequest
    | ToolCall | MediaUnit | BillableSecond | Cancellation | RetryAttempt
    | OtherBasis(text: string)

  const ALL_BASES: seq<Basis> := [
    InputTokens, CachedInputTokens, OutputTokens, ReasoningTokens, PerRequest,
    ToolCall, MediaUnit, BillableSecond, Cancellation, RetryAttempt
  ]

  predicate IsBasis(b: Basis) { !b.OtherBasis? }

  lemma AllBasesAreTheBases(b: Basis)
    ensures b in ALL_BASES <==> IsBasis(b)
  {
    if IsBasis(b) {
      var i := match b
        case InputTokens => 0 case CachedInputTokens => 1 case OutputTokens => 2 case ReasoningTokens => 3
        case PerRequest => 4 case ToolCall => 5 case MediaUnit => 6 case BillableSecond => 7
        case Cancellation => 8 case _ => 9;
      assert ALL_BASES[i] == b;
    }
  }

  function BasisText(b: Basis): string {
    match b
    case InputTokens => "input_tokens"
    case CachedInputTokens => "cached_input_tokens"
    case OutputTokens => "output_tokens"
    case ReasoningTokens => "reasoning_tokens"
    case PerRequest => "request"
    case ToolCall => "tool_call"
    case MediaUnit => "media_unit"
    case BillableSecond => "billable_second"
    case Cancellation => "cancellation"
    case RetryAttempt => "retry_attempt"
    case OtherBasis(text) => text
  }

  /** The closed names differ in length or in their first letter. */
  lemma BasisTextInjective(a: Basis, b: Basis)
    requires IsBasis(a) && IsBasis(b) && BasisText(a) == BasisText(b)
    ensures a == b
  {
    assert |BasisText(a)| == |BasisText(b)| && BasisText(a)[0] == BasisText(b)[0];
  }

  /** When a charge can occur. */
  datatype Applicability = Always | RequestDeclared | ProviderResponse | OtherApplicability(text: string)

  predicate ValidApplicability(a: Applicability) { !a.OtherApplicability? }

  function ApplicabilityText(a: Applicability): string {
    match a
    case Always => "always"
    case RequestDeclared => "request_declared"
    case ProviderResponse => "provider_response"
    case OtherApplicability(text) => text
  }

  lemma ApplicabilityTextInjective(a: Applicability, b: Applicability)
    requires ValidApplicability(a) && ValidApplicability(b) && ApplicabilityText(a) == ApplicabilityText(b)
    ensures a == b
  {
    assert |ApplicabilityText(a)| == |ApplicabilityText(b)|;
  }

  const ADMIN_ATTESTED := "admin_attested"

  predicate ValidEvidenceMode(m: string) {
    m == "provider_catalog" || m == "provider_api" || m == ADMIN_ATTESTED
  }

  const COMPLETE := "complete"
  const ADAPTER_VERSION := "govar-pricing-v1"

  /** A normalized charge row. */
  datatype Charge = Charge(
    basis: Basis, applicability: Applicability, price: int64, denominator: int64, settlementField: Basis,
    includedIn: Option<Basis>, maximum: Option<int64>, boundField: string, disjoint: bool)

  datatype Snapshot = Snapshot(
    generation: int64, version: string, observedAt: int, validUntil: int, currency: string,
    completeness: string, adapterVersion: string, evidenceMode: string, evidenceSHA256: string,
    sourceVersion: string, charges: seq<Charge>, inapplicable: seq<Basis>, sha256: string)

  function Bases(rows: seq<Charge>): (bs: seq<Basis>)
    ensures |bs| == |rows| && forall i | 0 <= i < |rows| :: bs[i] == rows[i].basis
  {
    seq(|rows|, i requires 0 <= i < |rows| => rows[i].basis)
  }

  /** No two rows price the same basis. */
  ghost predicate UniqueBases(rows: seq<Charge>) {
    forall i, j | 0 <= i < j < |rows| :: rows[i].basis != rows[j].basis
  }

  /** The request field that bounds a basis, if any does. */
  function BoundFieldOf(basis: Basis): Option<string> {
    match basis
    case InputTokens => Some("input_tokens")
    case CachedInputTokens => Some("max_cached_input_tokens")
    case OutputTokens => Some("max_output_tokens")
    case ReasoningTokens => Some("max_reasoning_tokens")
    case ToolCall => Some("max_tool_calls")
    case MediaUnit => Some("max_media_units")
    case BillableSecond => Some("timeout_seconds")
    case RetryAttempt => Some("max_retry_attempts")
    case Cancellation => Some("cancellation_possible")
    case _ => None
  }

  predicate ValidRequestBound(basis: Basis, field: string) { BoundFieldOf(basis) == Some(field) }

  /** Cached input and reasoning tokens are details of another basis. */
  predicate IsDetail(basis: Basis) { basis.CachedInputTokens? || basis.ReasoningTokens? }
}
