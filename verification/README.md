# Verified model of the AI FinOps operator's engines

This project models the engines of the operator that carry its hard guarantees and
proves, for all inputs and all runs, what they promise. `dafny verify dfyconfig.toml`
checks everything.

**Pricing ledger** (`Pricing*.dfy`). A provider's price specification is normalized into
a frozen snapshot, a request reserves an upper bound for every charge, and actual usage
is later settled against the same snapshot. The model keeps the integer-micro arithmetic,
the overflow checks, the closed partition of ten bases, the inclusion graph walk and the
digest preimage. Main results: a reservation covers every settlement it admits, basis by
basis and in total; settlement neither drops nor double-charges usage and fails in exactly
three ways; the inclusion walk accepts exactly the depth-one inclusions; the digest
preimage determines the snapshot up to row order. `PricingAnswers.dfy` says what the
operations answer: at which price each basis is frozen, for which quantity it is held, what
its usage costs, and exactly which specifications, snapshots, requests and usages succeed.

**Split-conformal calibration** (`Conformal.dfy`, `Calibration*.dfy`). Two builders sort
token counts, pick an order statistic and publish integer coverage bounds; two monitors
measure the coverage gap. Main results: the finite-sample coverage theorem, carried
through to the artifacts both builders really publish; when a build succeeds; that the
rank is the least one meeting the target and no product overflows; that artifacts do not
depend on row order; which rows and configurations are accepted and what is recorded of
them; what a drift result measures, and how detection behaves under pooling and under a
larger bound.

**Text similarity** (`Tokenizer.dfy`, `EditDistance.dfy`, `CommonSubsequence.dfy`,
`TokenMatching.dfy`, `TokenReordering.dfy`, `Scores.dfy`). The two-row edit distance is proved to be the least
cost of an edit script, and a metric; the LCS table to hold the length of a longest
common subsequence; the greedy token matcher to be maximal, hence half optimal, and
optimal exactly on tokens that cluster; and the scores built on them to be percentages
with exactly characterised full marks.

**Gateway controls** (`RouteControls.dfy`, `RouteReversal.dfy`, `GatewayActuator.dfy`,
`GatewaySharing.dfy`, `RouteCalls.dfy`, `SharedOwnership.dfy`).
`ApplyControls` rewrites rules in place and keeps the originals aside. Main results: after
any run the rules are the last controls applied to the originals; emptying every run
restores a route exactly when each model has one rule with a named, unrewritten backend;
every run of every owner keeps live backends within the original names and the block, and
owners of disjoint models that each let go restore the whole namespace, in any order and
despite updates that fail half way. For reversible routes and any permissions, every run
followed by every order of letting go restores the namespace exactly when no two owners of
a shared model can disturb each other, a condition on the original routes and permissions.

**Change requests** (`ChangeRequest*.dfy`, `RerouteLifetime.dfy`). One reconcile as a method on the stored object,
then runs under the API server's immutability rules: the approval evidence is present
exactly when the phase is Approved; every Approved state was granted by a reconcile of
its own run that found the decision valid, the scope unexpired and the references current,
at the recorded time; terminal phases are absorbing; and a reconcile at or after expiry
settles every continuation. `ChangeRequestOutcomes.dfy` gives the phase every reconcile
leaves, for every decision, and why a rejection is final. A carried-out request stays Actuated for good; its reroute
stands through a run of the gateway, by any owners over any routes, exactly when every
step of the run spares it.

**Calibration publication** (`Publication.dfy`, `PublicationSafety.dfy`, `PublicationTrace.dfy`). The publisher and
the routing reconciler write one status by compare-and-swap. For every interleaving, with
stale reads, crashes and edits of the specification, a status that claims the ledger is
backed by a stored publication that commits to that very status; and a valid claim, traced
back to the request its publisher accepted, fits the specification it stands over exactly
when that specification still passes the publisher's tests. In every version the router is
conservative exactly when the calibration is not valid: on detected drift or without a window.

**Sovereignty** (`FindingTally.dfy`, `Sovereignty*.dfy`). Flows that violate a residency
policy are merged into one finding per violation; merging conserves request volume, and
the report is clean exactly when every flow complies. `SovereigntyPolicy.dfy` says it of a
policy as written: what zone names mean, which flows are critical, which draw a warning,
and how the report is ranked.

## What the proofs found

Where the code does less than its documentation or its neighbours suggest, the model
follows the code, a lemma exhibits the case, and another says exactly when all is well.

- `Normalize` freezes snapshots that `ValidateSnapshotIntegrity` then refuses: an "always"
  charge with a request bound but no maximum, or an observation at or after the end of its
  evidence (`NormalizedSnapshotIntegrity` and the two lemmas after it).
- A coverage target of exactly 1,000,000,000 passes validation and can never be built, by
  either builder.
- The greedy token overlap can be half of the best matching; greedy is best on every
  selection of the tokens exactly when similarity clusters on them. The same words in
  another order can score below 100 in token F1; no two orders can, exactly when
  similarity is transitive on the words.
- A route with two rules for one model, an unnamed backend or a backend that already
  rewrites requests is not restored by releasing its controls. A route without these
  faults forgets its history exactly when every reroute asked of it has a backend.
- When one owner blocks a model, as sovereignty enforcement does, another reroutes it to a
  served model, as a budget fallback does, and both let go in that order, every rule of the
  model is left on the block backend with nothing saved. On reversible routes a namespace is
  safe from such losses exactly when, for every rule whose model two owners may control: no
  backend a reroute can lead to differs from the rule's own; the two may not both block; and
  if one of them may, no other rule can serve meanwhile. Without shared models it is safe;
  with a shared rule that has an alternative backend, or two owners who may block it, or one
  who may while another model is served, it is not.
- An approved reroute hands the *backend name* of the target model to an actuator that
  expects a *model name*: it is carried out only if some routed model bears that name.
  Each such reroute, even one that then ends Failed for want of its source, also takes the
  earlier ones back to the names their requests had found, although their requests stay Actuated and the controller's comment says it
  keeps the reroute live: two requests, for models "gpt" and "llama" both to "mistral", show
  it. Nor does it survive sovereignty enforcement: a block of "gpt" removes it too. The
  reroute is kept exactly as long as every later step, whoever makes it, does on every route
  of the source it reaches one of three things: ask for the same reroute, ask for one without
  a backend, or neither control the source nor have it saved from before.
- Merged request counts wrap around: with no negative count, the sovereignty report is exact
  at every severity exactly when no merged total leaves int64.
- A production reconciler keeps ledger evidence across edits of the specification and
  marks the new generation observed, so a valid claim can stand over a specification under
  which the publisher would refuse it, for one that asks for more support than was recorded;
  a run from the start reaches such a state. It fits exactly when the edits kept the calibration, the detector and the threshold and
  raised neither minimum above the recorded support.

## Idealisations

SHA-256 and the JSON encodings hashed by it are functions given as parameters; what is
proved is that distinct values have distinct preimages where the code builds the preimage
itself. Times are integers. A Go string is a sequence of bytes in `Text.dfy` and a sequence
of runes in `Tokenizer.dfy`. Clocks, the API server's answers and the set of updates that
fail are parameters of the operations. The published status and the gateway are changed
only through the modelled steps.

## Model

| member | source | states |
|---|---|---|
| PricingGraph.ValidateIncludedChargeGraph | internal/govarpricing/pricing.go:304-338 | the chain walk terminates and accepts what the chain specification accepts, cycles, dangling parents and illegal roots included |
| PricingGraph.GraphAcceptsDirectInclusions | internal/govarpricing/pricing.go:304-343 | for unique bases disjoint from the inapplicable ones, accepted exactly when every included row's direct parent is charged for itself and a legal root: accepted chains have depth one |
| PricingDigest.ComputeSnapshotDigest | internal/govarpricing/pricing.go:229-249 | the loops over sorted rows and bases hash exactly the specified preimage |
| PricingDigest.BodyPartsInjective | internal/govarpricing/pricing.go:233-247 | nine-part rows followed by "inapplicable" pairs are uniquely decodable |
| PricingDigest.PreimageDeterminesSnapshot | internal/govarpricing/pricing.go:229-249 | equal digest preimages mean equal snapshots up to row order and currency case |
| PricingDigest.DigestForgetsRowOrder | internal/govarpricing/pricing.go:231-246 | the digest ignores the order of rows and inapplicable bases when no basis is priced twice |
| Text.FixedAllInjective | internal/govarpricing/pricing.go:571-580 | framing by eight length bytes is injective on part lists of any length |
| PricingNormalize.CheckPartition | internal/govarpricing/pricing.go:265-297 | succeeds exactly when charged and inapplicable bases together list each closed basis once |
| PricingNormalize.ValidateSnapshotIntegrity | internal/govarpricing/pricing.go:261-302 | accepts exactly the snapshots with an intact header, digest, rows, partition and inclusion graph, without looking at the clock |
| PricingNormalize.IntactRows | internal/govarpricing/pricing.go:265-300 | an accepted row set prices each basis once, is disjoint from the inapplicable bases and has only direct inclusions |
| PricingNormalize.IntactSnapshotsAgree | internal/govarpricing/pricing.go:229-302 | two snapshots that pass integrity and are hashed from the same bytes are the same up to row order |
| PricingNormalize.Normalize | internal/govarpricing/pricing.go:131-227 | succeeds exactly on admissible specifications and returns their frozen snapshot, sorted and sealed |
| PricingFreeze.NormalizedSnapshotIntegrity | internal/govarpricing/pricing.go:131-227 | every normalized snapshot keeps header, digest, partition and graph, and passes integrity exactly when each "always" charge has a maximum and the observation precedes the end of the evidence |
| PricingFreeze.NormalizeAdmitsUnboundedCharge | internal/govarpricing/pricing.go:182-191 | a concrete admissible specification whose snapshot integrity refuses: an "always" charge bounded only by the request |
| PricingFreeze.NormalizeAdmitsLateObservation | internal/govarpricing/pricing.go:155-160 | a concrete admissible specification observed after its evidence ends, refused by integrity |
| PricingAnswers.FrozenPrices | internal/govarpricing/pricing.go:162-225 | a normalized snapshot has one row for each basis it prices: input and output at their own prices per million tokens, each specified charge at its price in micros with its own denominator, applicability, bound, maximum and inclusion, and no other row |
| PricingAnswers.FrozenHeader | internal/govarpricing/pricing.go:131-226 | what a normalized snapshot records of its provider and its attested evidence, fresh at the time |
| PricingAnswers.AdmissibleExactlyWhen | internal/govarpricing/pricing.go:131-222 | normalization succeeds exactly on attested euro specifications of a known adapter, with whole-micro prices, whose charges are priceable and place every basis once; an included charge is free cached input in input, or reasoning in output |
| PricingAnswers.IntactExactlyWhen | internal/govarpricing/pricing.go:261-343 | integrity accepts exactly a complete header over its own digest whose rows place every basis once, each bounded on its own or included for nothing in a legal root charged for itself |
| PricingLedger.CeilingProductIsLeast | internal/govarpricing/pricing.go:510-524 | the charge is the least whole number of micros covering price times quantity, and fails exactly when that leaves int64 |
| PricingLedger.CeilingProductMonotone | internal/govarpricing/pricing.go:510-524 | a smaller quantity never costs more, nor fails when a larger one does not |
| PricingLedger.CanonicalUsage | internal/govarpricing/pricing.go:422-434 | accepts exactly vectors of known, distinct bases with non-negative quantities, and returns their map |
| PricingLedger.ReserveComponents | internal/govarpricing/pricing.go:345-375 | the reservation loop returns the specified reservation or the specified error |
| PricingSettlement.ReserveRowExactly | internal/govarpricing/pricing.go:345-400 | when one row can be held, and that the hold matches the row and its bound |
| PricingSettlement.ReservationSucceedsExactlyWhen | internal/govarpricing/pricing.go:345-375 | a reservation succeeds exactly when the snapshot is valid now, the declared bounds are canonical and every charged row can be held |
| PricingAnswers.ReservesExactlyWhen | internal/govarpricing/pricing.go:251-400 | the same in terms of the request: between a minute before the observation and the end of the evidence, canonical declarations, and for each priced row a bound whose cost fits int64 |
| PricingAnswers.ReservationHoldsBounds | internal/govarpricing/pricing.go:345-408 | a reservation holds each priced row once, in order: its maximum or else the request's bound for its own basis, at its price, for the least covering number of micros |
| PricingLedger.SettleComponents | internal/govarpricing/pricing.go:440-486 | the settlement loop over map and deletions returns the specified outcome or error |
| PricingLedger.SumComponents | internal/govarpricing/pricing.go:499-508 | returns the exact sum, failing exactly when a hold is negative or the sum leaves int64 |
| PricingLedger.SumActualComponents | internal/govarpricing/pricing.go:488-497 | returns the exact sum, failing exactly when a charge is negative or the sum leaves int64 |
| PricingSettlement.ReservationCoversSettlement | internal/govarpricing/pricing.go:436-508 | settling without exceeding a bound costs at most each hold; actual plus the holds of missing bases stay within the reserved total; the actual sum cannot overflow if the reserved one did not |
| PricingSettlement.SettlementAccountsForUsage | internal/govarpricing/pricing.go:455-485 | a successful settlement charges exactly the reported usage, and actual and missing bases partition the charged ones, whatever was reserved |
| PricingAnswers.SettlementCharges | internal/govarpricing/pricing.go:459-478 | whatever was reserved, each charge of a settlement is the least whole number of micros that covers its quantity at the frozen price of its basis, beside the held quantity, and exceeded exactly when beyond it |
| PricingAnswers.SettlesExactlyWhen | internal/govarpricing/pricing.go:440-482 | against anything reserved, settlement succeeds exactly for an intact snapshot, canonical priced usage, holds without repetition that match each priced row, and costs that fit int64 |
| PricingAnswers.SettlementIsSorted | internal/govarpricing/pricing.go:483-485 | charges and missing bases are listed in the order of their names |
| PricingSettlement.SettlementSucceedsExactlyWhen | internal/govarpricing/pricing.go:436-486 | against its own reservation, settlement succeeds exactly for canonical usage of priced bases whose charges fit int64, expired snapshot or not |
| PricingSettlement.UsageWithinHoldsSettles | internal/govarpricing/pricing.go:436-486 | canonical usage within its holds always settles and is never flagged as exceeding |
| Conformal.KthIsOrderStatistic | internal/govarcalibration/calibration.go:188-198 | the entry at the rank of the sorted values is the k-th smallest and the least value covering k of them |
| Conformal.CoveredIffWithinWholeKth | internal/govarcalibration/calibration.go:189-198 | a held-out outcome is within the k-th smallest of the others exactly when it is within the k-th smallest of all |
| Conformal.ConformalCoverage | internal/govarcalibration/calibration.go:189-192 | of the n+1 ways to hold one outcome out, at least k are covered, exactly k when outcomes are distinct |
| Conformal.RankIsLeast | internal/govarcalibration/calibration.go:193-197 | the rank is the least integer whose share of n+1 meets the target, lies in 1..n+1, and is at most n exactly when the build's guard passes |
| Conformal.PublishedBoundsMeetTarget | internal/govarcalibration/calibration.go:205-214 | the floored lower bound and the floored empirical coverage are at least the target |
| Conformal.RankProductFitsInt64 | internal/govarcalibration/calibration.go:193-197 | the product taken before the guard fits int64 for the supported number of rows, whether or not the guard then passes |
| Conformal.ProductsFitInt64 | internal/govarcalibration/calibration.go:193-214 | no product of a successful build leaves int64 for the supported number of rows |
| Conformal.DetectedIffBelow | internal/govarcalibration/calibration.go:262-272 | a gap is detected exactly when the covered share is below target minus threshold, floors notwithstanding |
| Calibration.ObservationDigest | internal/govarcalibration/calibration.go:126-152 | normalizing, sorting and comparing neighbours refuses exactly the rows with a blank or repeated identity |
| Calibration.LedgerObservationDigest | internal/govarcalibration/authoritative.go:125-149 | the same for ledger rows, which must be valid and have distinct requests |
| Calibration.BuildArtifact | internal/govarcalibration/calibration.go:160-227 | the loops and the sort compute the specified artifact or the specified error |
| Calibration.BuildAuthoritativeArtifact | internal/govarcalibration/authoritative.go:156-228 | the same for the authoritative builder |
| Calibration.DetectCoverageGap | internal/govarcalibration/calibration.go:231-273 | the monitoring loop computes the specified gap and window or the specified error |
| Calibration.BuildAuthoritativeDriftWindow | internal/govarcalibration/authoritative.go:230-290 | the same for ledger rows |
| CalibrationGuarantees.ArtifactBuiltExactlyWhen | internal/govarcalibration/calibration.go:160-197 | when the diagnostic builder succeeds: configuration, rows, identities and enough support |
| CalibrationGuarantees.ArtifactIsSound | internal/govarcalibration/calibration.go:160-227 | rank, bound, coverages, window and digest of a built artifact mean what their names say about the rows |
| CalibrationGuarantees.DiagnosticBuildsExactlyWhen | internal/govarcalibration/calibration.go:160-330 | the diagnostic builder accepts exactly a complete configuration with finished, selected, unexcluded calibration rows under its digests, no identity twice, within the supported number and enough for the target |
| CalibrationGuarantees.ArtifactRecords | internal/govarcalibration/calibration.go:205-227 | a diagnostic artifact records reference, version, schema and each regime under its own name, and the digest of its rows |
| CalibrationGuarantees.HashedExactlyWhen | internal/govarcalibration/calibration.go:126-152 | rows are hashed exactly when every identity is named and none occurs twice |
| CalibrationGuarantees.SourceIsTheRows | internal/govarcalibration/calibration.go:126-152 | the source digest is over exactly the rows, splits in canonical form, in the order of their identities |
| CalibrationGuarantees.CertaintyIsNeverSupported | internal/govarcalibration/calibration.go:193-197 | a target of one is never built, whatever the rows |
| CalibrationGuarantees.LedgerCertaintyIsNeverSupported | internal/govarcalibration/authoritative.go:185-200 | the same for the authoritative builder |
| CalibrationGuarantees.LedgerArtifactBuiltExactlyWhen | internal/govarcalibration/authoritative.go:156-200 | when the authoritative builder succeeds |
| CalibrationGuarantees.LedgerArtifactIsSound | internal/govarcalibration/authoritative.go:156-228 | the same soundness for authoritative artifacts, with their minimum support |
| CalibrationGuarantees.LedgerBuildsExactlyWhen | internal/govarcalibration/authoritative.go:156-200 | the authoritative builder accepts exactly a complete configuration with complete calibration rows of its regimes, no request twice, as many as it asks for, within the supported number and enough for the target |
| CalibrationGuarantees.LedgerArtifactRecords | internal/govarcalibration/authoritative.go:200-228 | an authoritative artifact records its configuration, regimes and minimum support, and the digest of its rows |
| CalibrationGuarantees.LedgerHashedExactlyWhen | internal/govarcalibration/authoritative.go:125-149 | ledger rows are hashed exactly when each is complete, of a known split, and no request occurs twice |
| CalibrationGuarantees.LedgerSourceIsTheRows | internal/govarcalibration/authoritative.go:125-149 | the same for ledger rows |
| CalibrationGuarantees.ArtifactForgetsRowOrder | internal/govarcalibration/calibration.go:126-227 | the same rows in any order give the same artifact, digest included |
| CalibrationGuarantees.LedgerArtifactForgetsRowOrder | internal/govarcalibration/authoritative.go:125-228 | the same for the authoritative builder |
| CalibrationGuarantees.PublishedCoverageIsJustified | internal/govarcalibration/authoritative.go:185-220 | over any n+1 rows, the share of held-out rows within the bound built from the others is at least every published lower bound, which is at least the target |
| CalibrationGuarantees.DiagnosticCoverageIsJustified | internal/govarcalibration/calibration.go:160-227 | the same for the lower bounds the diagnostic builder publishes |
| CalibrationGuarantees.DiagnosticMonitorsExactlyWhen | internal/govarcalibration/calibration.go:231-252 | the diagnostic monitor accepts exactly eligible monitoring rows under the artifact's digests, no identity twice |
| CalibrationGuarantees.WindowMeasures | internal/govarcalibration/calibration.go:249-272 | a drift result counts the values within the bound, floors their share, gives how far it is below the target, detects exactly beyond the threshold, and spans the rows' times |
| CalibrationGuarantees.LedgerMonitorsExactlyWhen | internal/govarcalibration/authoritative.go:230-268 | the authoritative monitor accepts exactly an authoritative artifact of the same regimes, the split's aside, and complete monitoring rows, no request twice |
| CalibrationGuarantees.LedgerWindowMeasures | internal/govarcalibration/authoritative.go:240-280 | the same for ledger rows |
| CalibrationGuarantees.CalibrationShowsNoDrift | internal/govarcalibration/calibration.go:231-273 | monitoring the calibration values in any order shows no gap |
| CalibrationGuarantees.LedgerCalibrationShowsNoDrift | internal/govarcalibration/authoritative.go:230-290 | the same for authoritative windows |
| CalibrationGuarantees.PoolableExactlyWhen | internal/govarcalibration/calibration.go:231-247 | two windows can be pooled exactly when each is admissible and they share no observation |
| CalibrationGuarantees.LedgerPoolableExactlyWhen | internal/govarcalibration/authoritative.go:230-270 | two authoritative windows can be pooled exactly when each is admissible and they share no request |
| CalibrationGuarantees.PooledMonitoringStaysUndetected | internal/govarcalibration/calibration.go:262-272 | pooling two undetected windows stays undetected at the same threshold |
| CalibrationGuarantees.PooledLedgerMonitoringStaysUndetected | internal/govarcalibration/authoritative.go:255-290 | the same for authoritative windows |
| CalibrationGuarantees.RaisingTheBoundNarrowsTheGap | internal/govarcalibration/calibration.go:249-272 | a larger bound never widens the gap nor turns detection on |
| CalibrationGuarantees.LedgerRaisingTheBoundNarrowsTheGap | internal/govarcalibration/authoritative.go:255-290 | the same for authoritative windows |
| Text.CanonicalDigest | internal/govarcalibration/authoritative.go:62-78 | the write loop hashes the specified framing, failing exactly on a blank domain or an oversized field |
| Text.FrameAllInjective | internal/govarcalibration/authoritative.go:68-76 | decimal-length and NUL framing is uniquely decodable for any fields and any number of them |
| Text.CanonicalUnambiguous | internal/govarcalibration/authoritative.go:62-78 | equal preimages mean the same trimmed domain and the same fields |
| Text.CanonicalFailsExactlyWhen | internal/govarcalibration/authoritative.go:62-78 | hashing fails exactly for a blank domain or a value longer than sixteen mebibytes |
| Text.TrimIs | internal/govarcalibration/authoritative.go:63-64 | trimming drops white space at both ends, all of it and nothing else |
| Tokenizer.Tokenize | internal/qualityengine/qualityengine.go:518-537 | the builder loop and the split at white space return the maximal runs of letters and digits of the folded text |
| Tokenizer.NormalizeDeterminesTokens | internal/qualityengine/qualityengine.go:514-516 | texts normalize alike exactly when they have the same tokens |
| Tokenizer.NormalizeIdempotent | internal/qualityengine/qualityengine.go:514-516 | normalizing normalized text changes nothing |
| Tokenizer.WordsSplitAt | internal/qualityengine/qualityengine.go:525-536 | a rune that is no letter or digit separates words and belongs to none, so the words are the maximal runs |
| Tokenizer.TokensSplitAt | internal/qualityengine/qualityengine.go:518-537 | the same for the tokens of a text: a rune that folds to no letter or digit separates |
| EditDistance.ComputeDistance | internal/qualityengine/qualityengine.go:407-432 | the two swapped rows compute the distance |
| EditDistance.DistanceIsLeastCost | internal/qualityengine/qualityengine.go:406-432 | some edit script attains the distance and none costs less |
| EditDistance.DistanceIsMetric | internal/qualityengine/qualityengine.go:406-432 | zero exactly on equal texts, symmetric, triangle inequality, at most the longer length |
| CommonSubsequence.ComputeLength | internal/qualityengine/qualityengine.go:614-631 | the table computes the length recurrence |
| CommonSubsequence.LengthIsLongest | internal/qualityengine/qualityengine.go:614-631 | it is the length of some common subsequence, and none is longer |
| TokenMatching.UniqueTokens | internal/qualityengine/qualityengine.go:554-565 | the tokens in order of first occurrence |
| TokenMatching.UniqueKeepsElements | internal/qualityengine/qualityengine.go:554-565 | distinct, with the same tokens |
| TokenMatching.SimilarExactlyWhen | internal/qualityengine/qualityengine.go:576-584 | different tokens are similar exactly when one extends the other and the shorter has at least four bytes |
| TokenMatching.ContentKeeps | internal/qualityengine/qualityengine.go:539-552 | content is the tokens of three runes or more that are no stop words, each as often as it occurs, or all tokens when there are none |
| TokenMatching.ContentTokens | internal/qualityengine/qualityengine.go:539-552 | the meaningful tokens, or all when there are none |
| TokenMatching.ClaimFirst | internal/qualityengine/qualityengine.go:376-383 | marks the first free similar candidate and nothing else |
| TokenMatching.Overlap | internal/qualityengine/qualityengine.go:373-384 | the nested loops count the greedy matching |
| TokenMatching.GreedyIsMaximalMatching | internal/qualityengine/qualityengine.go:373-384 | greedy is one-to-one along similar tokens and leaves no similar pair free |
| TokenMatching.GreedyIsHalfOptimal | internal/qualityengine/qualityengine.go:373-384 | any one-to-one matching is at most twice as large |
| TokenMatching.GreedyMissesHalf | internal/qualityengine/qualityengine.go:373-384 | four concrete tokens for which greedy finds one pair of two |
| TokenReordering.ClusteredIsOptimal | internal/qualityengine/qualityengine.go:373-384 | where similarity clusters, no one-to-one matching is larger than the greedy one |
| TokenReordering.GreedyIsBestExactlyWhenClustered | internal/qualityengine/qualityengine.go:373-384 | greedy is a largest matching on every selection of the tokens, in any order, exactly when similarity clusters on them |
| Scores.TextDistance | internal/qualityengine/qualityengine.go:406-432 | the edit distance of two texts is the distance of their normalized forms |
| Scores.EditSimilarityScore | internal/qualityengine/qualityengine.go:394-404 | the score computed is the specified one |
| Scores.EditSimilarityLaws | internal/qualityengine/qualityengine.go:394-404 | symmetric, a percentage, full exactly on equal texts, zero exactly when no symbol is kept |
| Scores.RougeLScore | internal/qualityengine/qualityengine.go:435-451 | the score computed is the specified one |
| Scores.RougeLLaws | internal/qualityengine/qualityengine.go:435-451 | symmetric, a percentage, full exactly on equal token lists |
| Scores.RougeLIs | internal/qualityengine/qualityengine.go:435-451 | ROUGE-L is twice the longest common subsequence over the two lengths; one empty list scores nothing, two score in full |
| Scores.EditSimilarityIs | internal/qualityengine/qualityengine.go:394-404 | edit similarity is the share of the longer text that the least edit script spares |
| Scores.FullScoresAgree | internal/qualityengine/qualityengine.go:310-315 | exact match, full edit similarity and full ROUGE-L are the same condition |
| Scores.F1Laws | internal/qualityengine/qualityengine.go:445-450 | F1 is twice the overlap over the total length, symmetric, full exactly when the overlap is everything |
| Scores.TokenF1Score | internal/qualityengine/qualityengine.go:364-391 | the score computed is the specified one |
| Scores.TokenF1Laws | internal/qualityengine/qualityengine.go:364-391 | a percentage, and at least half the F1 of any one-to-one matching |
| Scores.TokenF1Is | internal/qualityengine/qualityengine.go:364-391 | token F1 is twice the greedy matching of the different words over their numbers |
| Scores.NoTokensF1 | internal/qualityengine/qualityengine.go:367-372 | one empty list of tokens scores nothing, two score in full |
| Scores.SameTextFullTokenF1 | internal/qualityengine/qualityengine.go:364-391 | texts that normalize alike have full token F1 |
| Scores.ReorderedTokensLoseScore | internal/qualityengine/qualityengine.go:373-390 | three concrete tokens that score below 100 against themselves in another order |
| Scores.SameWordsScoreFull | internal/qualityengine/qualityengine.go:364-391 | where similarity is transitive, the same words in any order and with any repetitions have full token F1 |
| Scores.OrderNeverMattersExactlyWhen | internal/qualityengine/qualityengine.go:364-391 | any two orders of distinct words have full token F1 against each other exactly when similarity is transitive on them |
| RouteControls.RouteRules.ApplyControls | internal/gatewayreroute/gatewayreroute.go:97-154 | the in-place loop leaves the specified rules and saved names and reports the specified outcome |
| RouteCalls.RuleModelIs | internal/gatewayreroute/gatewayreroute.go:37-57 | a rule's model is the value of its first model header, first match first, and none without one |
| RouteCalls.ReportedBlocks | internal/gatewayreroute/gatewayreroute.go:130-141 | a call reports a model blocked exactly when a rule matches it and it is blocked and not rerouted |
| RouteCalls.ChangedExactlyWhen | internal/gatewayreroute/gatewayreroute.go:97-154 | a call reports a change exactly when it has something to do for some rule of the route |
| RouteReversal.OneCall | internal/gatewayreroute/gatewayreroute.go:97-154 | one call moves every managed rule to its goal, touches no other, and keeps the saved names those of the originals |
| RouteReversal.LastCallDecides | internal/gatewayreroute/gatewayreroute.go:78-154 | after any run the rules are the last controls applied to the originals, and exactly the controlled models are saved |
| RouteReversal.HistoryIndependent | internal/gatewayreroute/gatewayreroute.go:78-154 | two runs ending in the same controls end in the same state |
| RouteReversal.HistoryIndependentExactlyWhen | internal/gatewayreroute/gatewayreroute.go:111-119 | for a reversible route, all runs ending in the same controls agree exactly when every reroute asked of it has a backend |
| RouteReversal.EmptyCallRestores | internal/gatewayreroute/gatewayreroute.go:90-96 | an empty call after any run restores the originals and forgets them |
| RouteReversal.RestoresIffReversible | internal/gatewayreroute/gatewayreroute.go:90-96 | emptying every run restores a route exactly when each model has one rule with a named, unrewritten first backend |
| GatewayActuator.Namespace.ModelBackends | internal/controller/gatewayactuator.go:61-95 | the first named, unblocked backend of each model over all routes |
| GatewayActuator.Namespace.Actuate | internal/controller/gatewayactuator.go:116-168 | routes, annotations, the point of failure and the rerouted and blocked models reported by one actuation |
| SharedOwnership.FirstServerOf | internal/controller/gatewayactuator.go:61-95 | the index entry of a model comes from the first rule, in route order, that serves it |
| RouteCalls.BlockedExactly | internal/controller/gatewayactuator.go:116-168 | the models reported blocked are exactly the blocked, unrerouted ones some route matches |
| RouteCalls.CutShortAt | internal/controller/gatewayactuator.go:116-168 | an actuation stops at the first refused route that it has something to do on, and nowhere else |
| RouteCalls.NotesAreKept | internal/controller/gatewayactuator.go:132-160 | other owners' notes stay, the caller's is there exactly while it has something saved, and a route with nothing to do is left as it is |
| GatewayActuator.EveryRunIsSafe | internal/controller/gatewayactuator.go:57-168 | through every run every live backend is an original name or the block, and no rerouted rule points at the block |
| GatewayActuator.OwnersRestoreNamespace | internal/controller/gatewayactuator.go:108-168 | owners of disjoint models, interleaved and failing, restore every route once each has let go, in any order |
| GatewaySharing.SharedModelStaysBlocked | internal/controller/gatewayactuator.go:116-179 | in any namespace with one rule per model and route: a model blocked by one owner and rerouted by another to a served model is left blocked in every route, with nothing saved, once both let go in turn |
| GatewaySharing.SecondOwnerRestoresTheFirst | internal/controller/gatewayactuator.go:116-179 | whatever two owners do to a shared model, letting go in turn leaves its rules where the first had put them |
| SharedOwnership.RestoresExactlyWhenSharedSafely | internal/controller/gatewayactuator.go:61-179 | over reversible routes and for any permissions, every permitted run, failed updates included, followed by every order of letting go restores the namespace exactly when for every rule of a model two owners may control: no reroute can lead it to a backend other than its own, its owners may not both block it, and where one may no other rule can serve while it is blocked |
| SharedOwnership.RestorationAtAGlance | internal/controller/gatewayactuator.go:108-168 | consequences of that for reversible routes: restoration is certain when no routed model is permitted to two owners, and not when a shared rule has an alternative backend, or both its owners may block, or one may and another model is served |
| SharedOwnership.SafeSharingRestores | internal/controller/gatewayactuator.go:108-168 | owners that share models safely restore the namespace after every run, in every order of letting go |
| SharedOwnership.IndexOffers | internal/controller/gatewayactuator.go:61-95 | in a sound state the index offers only backends that serve their model first, or behind rules somebody may block |
| SharedOwnership.WrongSaveRefutes | internal/controller/gatewayactuator.go:116-168 | an owner that has once saved another name than the original leaves it behind by letting go last |
| SharedOwnership.OneModelIsShared | internal/controller/gatewayactuator.go:108-168 | sharing can be safe: a model with one rule, two owners, one of whom may block |
| ChangeRequest.StoredRequest.Reconcile | internal/controller/aichangerequest_controller.go:61-155 | the stored status and the routes after one reconcile, whichever of its writes and updates fail |
| ChangeRequest.StoredRequest.TryActuate | internal/controller/aichangerequest_controller.go:256-303 | how an actuation ends and the routes it leaves |
| ChangeRequestRuns.EvidenceExactlyWhenApproved | internal/controller/aichangerequest_controller.go:61-223 | in every reachable state the four evidence fields are set, and endorse the present scope and decision, exactly when Approved; otherwise all are empty |
| ChangeRequestRuns.TerminalIsForever | internal/controller/aichangerequest_controller.go:87-93 | Actuated, Rejected and Expired are absorbing, evidence and times included |
| ChangeRequestRuns.ExpiryEnds | internal/controller/aichangerequest_controller.go:95-110 | a reconcile at or after expiry leaves a terminal phase, Expired and without evidence if it was not one already |
| ChangeRequestRuns.ExpiryIsFinal | internal/controller/aichangerequest_controller.go:87-110 | after a written reconcile at or after expiry, every continuation of the run stays in one terminal phase without evidence, Expired unless it had ended before |
| ChangeRequestRuns.ApprovedExactlyWhen | internal/controller/aichangerequest_controller.go:169-223 | an authorization becomes or stays Approved exactly when decision, scope, expiry and references all hold at the instants read |
| ChangeRequestRuns.ApprovedWasGranted | internal/controller/aichangerequest_controller.go:169-223 | every reachable Approved state was granted by a reconcile of its run that found decision, scope and references good, on what the specification still says, and carries that reconcile's clock as its approval time |
| ChangeRequestRuns.ReplayKeepsApprovalTime | internal/controller/aichangerequest_controller.go:202-211 | replaying an approval keeps its time, reviewer and decision |
| ChangeRequestRuns.ApprovalIsStable | internal/controller/aichangerequest_controller.go:202-211 | the same through any stretch in which the request stays Approved, edits included |
| ChangeRequestRuns.DecisionsAreFinal | api/v1alpha1/aichangerequest_types.go:170-179 | once rejected never Approved; once approved an authorization only moves between Approved, Failed and Expired |
| ChangeRequestRuns.ActionMustNotChange | api/v1alpha1/aichangerequest_types.go:172-172 | why the action is immutable: changed to a reroute, an approved request would keep its evidence in the Failed phase |
| ChangeRequestOutcomes.ExpiryIs | internal/controller/aichangerequest_controller.go:71-79 | an authorization expires with its scope, any other request after the time it asks for or two days |
| ChangeRequestOutcomes.RejectedExactlyWhen | internal/controller/aichangerequest_controller.go:112-133 | a written reconcile of a live request rejects it exactly when it is rejected, and for an authorization by a valid decision; an invalid one fails it; no approval is left |
| ChangeRequestOutcomes.PendingExactlyWhen | internal/controller/aichangerequest_controller.go:141-154 | it leaves Pending exactly an undecided request, or a waiting one whose approved reroute may yet be tried |
| ChangeRequestOutcomes.ApprovedRerouteEnds | internal/controller/aichangerequest_controller.go:256-303 | an approved reroute is Actuated at the reconcile's clock exactly when carried out, fails without gateway, target or source, and otherwise keeps its phase |
| ChangeRequestOutcomes.AuthorizationEnds | internal/controller/aichangerequest_controller.go:169-254 | an approved authorization is Approved exactly for a sealed scope, a decision by another reviewer of the approvers' group on this object, proposal and scope, in time, with references that resolve; Expired or Failed otherwise, without evidence; and what the approval records |
| ChangeRequestOutcomes.ReconcileRecords | internal/controller/aichangerequest_controller.go:69-85 | a written reconcile records the expiry and generation it acted on |
| ChangeRequestOutcomes.LostWrites | internal/controller/aichangerequest_controller.go:79-93 | what a failed write loses, and all that a finished request still records |
| ChangeRequestOutcomes.RejectionIsFinal | internal/controller/aichangerequest_controller.go:87-133 | once a reconcile has rejected a request, every continuation leaves it Rejected without evidence |
| ChangeRequestReroutes.ActuatedExactlyWhen | internal/controller/aichangerequest_controller.go:256-303 | a reroute is carried out exactly when the source is routed, updates succeed and the target's backend name is itself a model with a backend |
| ChangeRequestReroutes.AttemptEnds | internal/controller/aichangerequest_controller.go:256-303 | how an attempt ends: gateway missing, unreadable, target unserved, an update refused, or source unmatched, the first of them deciding |
| ChangeRequestReroutes.BackendNameIsNotAModel | internal/controller/aichangerequest_controller.go:272-280 | when no model bears the backend's name, an approved reroute always fails |
| ChangeRequestReroutes.LatestRerouteAlone | internal/controller/aichangerequest_controller.go:279-280 | each reroute leaves every rule of every other model at its original |
| ChangeRequestReroutes.ActuationReleasesOthers | internal/controller/aichangerequest_controller.go:279-285 | on any routes, whoever shares their models, an actuation that goes through takes every other model off the notes of change requests: its first rule goes to the name saved there, original or not, and every rule without such a note is left alone |
| ChangeRequestReroutes.ActuationRevertsOthers | internal/controller/aichangerequest_controller.go:279-285 | on reversible routes after any history in which no model is controlled under two keys, an actuation that goes through puts every rule of every other change-request model back at its original, even when the request ends Failed |
| ChangeRequestReroutes.ActuatedButReverted | internal/controller/aichangerequest_controller.go:256-303 | under the same premises, of two requests the first stays Actuated through any later events while the second puts every rule of the first's source back at its original |
| RouteCalls.CallActsOnModel | internal/gatewayreroute/gatewayreroute.go:97-154 | what one call does to the rules and the note of one model depends only on its controls and that note: all rules are rerouted or blocked alike, the first alone goes back, on any route |
| RouteCalls.RunKeepsModels | internal/controller/gatewayactuator.go:108-168 | no run changes what a rule matches, or anything but its first backend |
| RerouteLifetime.CallSparesExactlyWhen | internal/gatewayreroute/gatewayreroute.go:97-154 | one call by anybody leaves a standing reroute on a route exactly when the route has no rule of its source, or the call asks for the same reroute or for one without a backend, or it neither reroutes nor blocks the source and its caller has not saved it |
| RerouteLifetime.StepSparesExactlyWhen | internal/controller/gatewayactuator.go:116-168 | the same for an actuation of the whole namespace that may stop half way, route by route |
| RerouteLifetime.StandsThroughoutExactlyWhen | internal/controller/gatewayactuator.go:108-168 | over any routes, after any history and whoever acts, a reroute in place stands after every prefix of a run exactly when every step spares it on every route it reaches |
| RerouteLifetime.BlockEndsReroute | internal/controller/gatewayactuator.go:108-179 | a block of the source by any owner ends the reroute |
| RerouteLifetime.CarriedOutStands | internal/controller/aichangerequest_controller.go:256-303 | a request that is carried out puts its reroute in place on every rule of its source, after any history |
| RerouteLifetime.ActuatedKeptLiveExactlyWhen | internal/controller/aichangerequest_controller.go:256-303 | a carried-out request stays Actuated through any later events, and its reroute is kept live through a run of the gateway, by any owners, exactly when every step of the run spares it |
| RerouteLifetime.LaterRequestEndsReroute | internal/controller/aichangerequest_controller.go:256-303 | over any routes and after any history, a later request for another source that goes through leaves the first rule of the earlier source without its reroute, at the name the earlier request had saved, while that request stays Actuated |
| RerouteLifetime.TwoReroutes | internal/controller/aichangerequest_controller.go:256-303 | for any three models, two approved requests to the same target: both are carried out, the first stays Actuated, and its rule is back on its own backend |
| RerouteLifetime.TwoReroutesNamed | internal/controller/aichangerequest_controller.go:256-303 | the same for models "gpt", "llama" and "mistral": the first reroute stands before the second request and not after it |
| RerouteLifetime.BlockedRerouteNamed | internal/controller/gatewayactuator.go:42-179 | one request alone: its reroute stands until sovereignty enforcement blocks the source, and it stays Actuated |
| Publication.PlanPublication | internal/controller/govar_calibration_status_publisher.go:69-158 | the amended status and the ledger entry are the specified ones, or the specified refusal |
| PublicationTrace.PlannedExactlyWhen | internal/controller/govar_calibration_status_publisher.go:69-158 | Publish goes on exactly for this very version of the policy, an authoritative artifact that the specification names field by field and that is good enough, a window of it as specified, and an entry that can be hashed |
| PublicationSafety.PublicationSays | internal/controller/govar_calibration_status_publisher.go:97-134 | validity, conservative mode and reason follow the window of the request; numbers, identity and times are the request's |
| PublicationSafety.PublicationEntryNames | internal/controller/govar_calibration_status_publisher.go:135-158 | the ledger entry names tenant, policy, generation, version, artifact, window, producer and the status it commits to |
| Publication.ReconcileEvidence | internal/controller/airoutingpolicy_govar_calibration.go:30-153 | the evidence the reconciler writes over the policy it read |
| PublicationSafety.ReconcilerSays | internal/controller/airoutingpolicy_govar_calibration.go:30-153 | nothing for a policy that is not adaptive; ledger evidence kept by production under a valid specification; otherwise an invalid, conservative status with its reason, or what the diagnostic reading shows |
| Publication.Cluster.Publish | internal/controller/govar_calibration_status_publisher.go:69-168 | one call is a run of the state machine: read, others' steps, store the entry, others' steps, compare-and-swap |
| PublicationSafety.StepKeepsInvariant | internal/controller/govar_calibration_status_publisher.go:69-168 | every step of either writer, of a spec edit or of a crash keeps the invariant |
| PublicationSafety.PublishedStatusIsBacked | internal/controller/govar_calibration_status_publisher.go:135-164 | in every version of every run a ledger claim names a stored entry that commits to that status, was first written over the version it names, and a valid claim is never conservative, drifting or below target |
| PublicationSafety.ConservativeExactlyWhenInvalid | internal/controller/govar_calibration_status_publisher.go:111-134 | in every version of every run the router is conservative exactly when the calibration is not valid, that is on detected drift or without a window |
| PublicationSafety.PublisherWritesMatchWhatTheyReplace | internal/controller/govar_calibration_status_publisher.go:77-92 | every publisher write names the resource version it replaced and the calibration that version asked for |
| PublicationSafety.WritesReplaceWhatTheyRead | internal/controller/govar_calibration_status_publisher.go:162-166 | a write that goes through was computed from the very policy it replaces |
| PublicationSafety.ReconcilerKeepsLedgerEvidence | internal/controller/airoutingpolicy_govar_calibration.go:62-68 | a production reconciler never replaces ledger evidence |
| PublicationSafety.EditKeepsOldClaim | internal/controller/airoutingpolicy_govar_calibration.go:62-68 | after an edit the old valid claim stays under the new observed generation; having passed the publisher's tests before, it passes them now exactly when the edit kept the calibration, the detector and the threshold and raised neither minimum above the recorded support |
| PublicationSafety.RaisedSupportLeavesClaim | internal/controller/airoutingpolicy_govar_calibration.go:62-68 | asking for more support than was recorded leaves a valid, observed claim that fails the publisher's tests |
| PublicationTrace.ValidClaimFitsExactlyWhen | internal/controller/govar_calibration_status_publisher.go:77-134 | in every version of every run from the start, a valid ledger claim was computed from a request the publisher accepted over the version it replaced, and fits the specification it stands over exactly when that specification still accepts the same artifact and window; without an edit since, it fits |
| PublicationTrace.ClaimOutlivesItsSpec | internal/controller/govar_calibration_status_publisher.go:69-168 | from the start of a run every accepted request with an undetected window can become a valid claim that fits, and then a valid, observed claim over a specification that asks for more support |
| PublicationTrace.SampleOutlivesItsSpec | internal/controller/govar_calibration_status_publisher.go:69-168 | the same for one concrete policy and request, whatever the digests |
| PublicationSafety.PublicationDigestIsUnambiguous | internal/controller/govar_calibration_status_publisher.go:147-158 | publications hashed from the same bytes are the same publication |
| PublicationSafety.BuiltArtifactFits | internal/controller/govar_calibration_status_publisher.go:85-92 | what the authoritative builder builds is publishable for a policy that names it exactly when its minimum support is met |
| Sovereignty.EvaluateFlows | internal/sovereigntyengine/sovereigntyengine.go:187-267 | the aggregation loop and the stable sort return the specified report |
| Sovereignty.CheckFlow | internal/sovereigntyengine/sovereigntyengine.go:204-236 | one flow adds its residency finding and its sensitive-data finding, in that order |
| FindingTally.Tally.Add | internal/sovereigntyengine/sovereigntyengine.go:193-202 | map and order list always hold one merged finding per key of everything added |
| FindingTally.SummaryKeys | internal/sovereigntyengine/sovereigntyengine.go:193-241 | each key occurs exactly once in the summary, in order of first occurrence |
| FindingTally.SummaryConserves | internal/sovereigntyengine/sovereigntyengine.go:193-241 | at every severity merging conserves requests modulo 2^64, and exactly unless a total leaves int64 |
| FindingTally.SummaryExactlyWhen | internal/sovereigntyengine/sovereigntyengine.go:193-202 | with no negative count, merging is exact at every severity exactly when no total leaves int64 |
| SovereigntyGuarantees.OnlyIdenticalFindingsMerge | internal/sovereigntyengine/sovereigntyengine.go:194-198 | findings with one key agree on severity, place and message when names lack the separator |
| SovereigntyGuarantees.ReportIsSortedSummary | internal/sovereigntyengine/sovereigntyengine.go:250-266 | the report is a sorted permutation of the merged findings that keeps their order where the comparison ties |
| SovereigntyGuarantees.ResidencyFindingExactlyWhen | internal/sovereigntyengine/sovereigntyengine.go:211-236 | a flow draws a residency finding exactly when its zone is not allowed, a critical one exactly when forbidden, and none at all exactly when it complies |
| SovereigntyPolicy.ZoneNamesMean | internal/sovereigntyengine/sovereigntyengine.go:90-107 | the names, in any case and spacing, that mean France, the union, the United States, China and Britain; every other name means itself in capitals |
| SovereigntyPolicy.ResidencyByPolicy | internal/sovereigntyengine/sovereigntyengine.go:109-236 | under a policy as written, a flow draws a critical finding exactly when a forbidden name means its zone, else a warning exactly when zones are allowed but neither this one nor, for a member, the union, and else none |
| SovereigntyPolicy.SensitiveByPolicy | internal/sovereigntyengine/sovereigntyengine.go:226-236 | a flow draws one warning about sensitive data exactly when it is managed, not cleared by provider and model, and the policy keeps such data inside |
| SovereigntyPolicy.ReportByPolicy | internal/sovereigntyengine/sovereigntyengine.go:187-267 | what the report shows: something critical, a warning or a reminder exactly when a flow or the policy calls for it |
| SovereigntyPolicy.ReportIsRanked | internal/sovereigntyengine/sovereigntyengine.go:250-266 | critical findings come before warnings and reminders, and within a severity by namespace, application, provider and model |
| SovereigntyGuarantees.CleanExactlyWhenCompliant | internal/sovereigntyengine/sovereigntyengine.go:187-278 | the report has only reminders exactly when every flow's zone is allowed and none is exposed |
| SovereigntyGuarantees.ReportConservesVolume | internal/sovereigntyengine/sovereigntyengine.go:181-267 | critical requests are those of flows in forbidden zones, warning requests those outside the allowed zones plus the exposed ones: modulo 2^64, and exactly unless a merged total leaves int64 |
| SovereigntyGuarantees.ReportExactlyWhenFits | internal/sovereigntyengine/sovereigntyengine.go:193-267 | with no negative count, the report is exact at every severity exactly when no merged total leaves int64 |
| SovereigntyGuarantees.OverflowLosesVolume | internal/sovereigntyengine/sovereigntyengine.go:195-198 | one flow at the largest count, seen twice in a forbidden zone, is reported with the wrong volume |
| SovereigntyGuarantees.ReportIsExact | internal/sovereigntyengine/sovereigntyengine.go:193-267 | exactly, for non-negative counts that sum to at most half of int64 |
| SovereigntyGuarantees.ReportForgetsFlowOrder | internal/sovereigntyengine/sovereigntyengine.go:187-267 | the violations reported and their counts do not depend on the order of the flows |

## Left out

- Kubernetes clients, caches, events, conditions, requeue times, status messages and rendered text.
- SHA-256 and the JSON encoders: functions given as parameters; no collision claim is made.
- RFC 3339 formatting: times enter digest preimages as decimal integers, and status times keep full precision.
- Unicode: trimming and case folding are ASCII in `Text.dfy`; letter, digit, space and folding tables are parameters in `Tokenizer.dfy`, and tokens are valid UTF-8.
- Prices as decimal strings: they are exact reals, and malformed decimals are not modelled.
- PricingModel.BasisText: an unknown basis may carry any text, a closed one's text included, so lemmas about digests ask for known bases, as integrity does.
- Request fields the reservation never reads: maximum tool calls, media units, timeout, retries and cancellation of the request context.
- `wilsonIntervalPPB`: reported, but no part of the detection decision, and floating point.
- Scores.RougeLScore: over the reals, so floating-point rounding is not modelled.
- Scores.RougeLLaws: about exact real scores, as above.
- Scores.EditSimilarityScore: over the reals, so floating-point rounding is not modelled.
- Scores.EditSimilarityLaws: about exact real scores, as above.
- Scores.TokenF1Score: over the reals, so floating-point rounding is not modelled.
- Scores.TokenF1Laws: about exact real scores, as above; when the matching is best and the score full is stated beside it.
- Scores.F1Laws: about exact real scores, as above.
- Weighted blends, coverage, latency, reliability and JSON scores of the quality engine: they would add only easy members.
- Gateway annotations that are not valid JSON maps, and backend names that are not strings.
- GatewayActuator.Namespace.Actuate: reads the backend index and the routes at one instant, whereas the code lists them twice.
- The recursion of a status write conflict into a new reconcile: a conflicting write is dropped and its task ends.
- Publication.ReconcileEvidence: the checks of diagnostic config-map evidence are one reading or one reason, because production refuses that evidence before looking at it.
- Calibration.DetectCoverageGap: leaves out the Wilson interval it reports beside the gap.
- Calibration.BuildAuthoritativeDriftWindow: leaves out the Wilson interval, and returns the drift result; the window's own digest over its JSON is left to the publication model, where it is a given field.
- SharedOwnership.RestoresExactlyWhenSharedSafely: about reversible routes; a route that is not reversible is not restored even to a single owner, as RouteReversal.RestoresIffReversible says.
- The producers of the other regime digests, which are single calls of `CanonicalDigest`.
- Provider-level sovereignty evaluation: one finding per provider and rule, without merging.
- Budget, break-even, routing-score, recommendation, enforcement and reporting engines: formulas and one-branch mappings that would add only easy members.
