/** Order statistics by counting, the split-conformal rank, and the finite-sample
    coverage the published bound advertises. */
module Conformal {
  import opened Orders

  const PPB := 1_000_000_000
  const MAX_SUPPORT := 10_000_000

  function CountLe(s: seq<int>, v: int): nat {
    if s == [] then 0 else (if s[0] <= v then 1 else 0) + CountLe(s[1..], v)
  }

  function CountLt(s: seq<int>, v: int): nat { CountLe(s, v - 1) }

  lemma {:induction false} CountSplits(a: seq<int>, b: seq<int>, v: int)
    ensures CountLe(a + b, v) == CountLe(a, v) + CountLe(b, v)
  {
    if a == [] {
      assert a + b == b;
    } else {
      assert (a + b)[1..] == a[1..] + b;
      CountSplits(a[1..], b, v);
    }
  }

  lemma {:induction false} CountMonotone(s: seq<int>, v: int, w: int)
    requires v <= w
    ensures CountLe(s, v) <= CountLe(s, w) <= |s|
  {
    if s != [] { CountMonotone(s[1..], v, w); }
  }

  /** Counting ignores order. */
  lemma {:induction false} CountPermutes(a: seq<int>, b: seq<int>, v: int)
    requires multiset(a) == multiset(b)
    ensures CountLe(a, v) == CountLe(b, v)
  {
    SameElements(a, b);
    if a != [] {
      assert a[0] in b;
      var j :| 0 <= j < |b| && b[j] == a[0];
      TailMultiset(a);
      assert b == b[..j] + ([b[j]] + b[j + 1..]);
      assert multiset(b[..j] + b[j + 1..]) == multiset(b) - multiset{b[j]};
      CountPermutes(a[1..], b[..j] + b[j + 1..], v);
      CountSplits(b[..j], [b[j]] + b[j + 1..], v);
      CountSplits(b[..j], b[j + 1..], v);
    }
  }

  // ---- order statistics

  /** `v` is the k-th smallest entry: it occurs, at least k entries are no larger,
      and fewer than k are smaller. */
  ghost predicate IsKth(s: seq<int>, k: int, v: int) {
    v in s && CountLt(s, v) < k <= CountLe(s, v)
  }

  lemma {:induction false} SortedCounts(s: seq<int>, k: nat)
    requires SortedBy(IntLe, s) && 1 <= k <= |s|
    ensures IsKth(s, k, s[k - 1])
  {
    var v := s[k - 1];
    assert s == s[..k] + s[k..] && s == s[..k - 1] + s[k - 1..];
    CountSplits(s[..k], s[k..], v);
    CountSplits(s[..k - 1], s[k - 1..], v - 1);
    AllCounted(s[..k], v);
    NoneCounted(s[k - 1..], v - 1);
    CountMonotone(s[..k - 1], v - 1, v - 1);
  }

  lemma {:induction false} AllCounted(s: seq<int>, v: int)
    requires forall i | 0 <= i < |s| :: s[i] <= v
    ensures CountLe(s, v) == |s|
  {
    if s != [] { AllCounted(s[1..], v); }
  }

  lemma {:induction false} NoneCounted(s: seq<int>, v: int)
    requires forall i | 0 <= i < |s| :: s[i] > v
    ensures CountLe(s, v) == 0
  {
    if s != [] { NoneCounted(s[1..], v); }
  }

  /** The order statistic the builders take: position k of the sorted values. */
  function Kth(s: seq<int>, k: int): (v: int)
    requires 1 <= k <= |s|
  {
    SortPermutes(IntLe, s);
    Sort(IntLe, s)[k - 1]
  }

  lemma IntsSorted(s: seq<int>)
    ensures SortedBy(IntLe, Sort(IntLe, s))
  {
    IntLeOrders();
    SortSorts(IntLe, s);
  }

  lemma KthCounts(s: seq<int>, k: int)
    requires 1 <= k <= |s|
    ensures IsKth(s, k, Kth(s, k))
  {
    var v := Kth(s, k);
    SortPermutes(IntLe, s);
    IntsSorted(s);
    SortedCounts(Sort(IntLe, s), k);
    CountPermutes(s, Sort(IntLe, s), v);
    CountPermutes(s, Sort(IntLe, s), v - 1);
  }

  /** It is the k-th smallest of the values in whatever order they came, and the
      least entry that covers k of them. */
  lemma KthIsOrderStatistic(s: seq<int>, k: int)
    requires 1 <= k <= |s|
    ensures IsKth(s, k, Kth(s, k))
    ensures forall v | CountLe(s, v) >= k :: Kth(s, k) <= v
  {
    KthCounts(s, k);
    forall w | CountLe(s, w) >= k ensures Kth(s, k) <= w {
      if w < Kth(s, k) { CountMonotone(s, w, Kth(s, k) - 1); }
    }
  }

  // ---- coverage of a held-out outcome

  function Without<T>(s: seq<T>, i: nat): seq<T>
    requires i < |s|
  {
    s[..i] + s[i + 1..]
  }

  lemma CountWithout(s: seq<int>, i: nat, v: int)
    requires i < |s|
    ensures CountLe(s, v) == CountLe(Without(s, i), v) + (if s[i] <= v then 1 else 0)
  {
    assert s == s[..i] + ([s[i]] + s[i + 1..]);
    CountSplits(s[..i], [s[i]] + s[i + 1..], v);
    CountSplits(s[..i], s[i + 1..], v);
  }

  /** Hold out outcome `i`; is it within the k-th smallest of the others? */
  predicate Covered(s: seq<int>, k: int, i: nat)
    requires i < |s| && 1 <= k < |s|
  {
    s[i] <= Kth(Without(s, i), k)
  }

  /** Held-out choices among the first `n` that are covered. */
  function CoveredChoices(s: seq<int>, k: int, n: nat): nat
    requires n <= |s| && 1 <= k < |s|
  {
    if n == 0 then 0 else CoveredChoices(s, k, n - 1) + (if Covered(s, k, n - 1) then 1 else 0)
  }

  /** A held-out outcome is covered exactly when it is within the k-th smallest of
      all the outcomes, itself included. */
  lemma CoveredIffWithinWholeKth(s: seq<int>, k: int, i: nat)
    requires i < |s| && 1 <= k < |s|
    ensures Covered(s, k, i) <==> s[i] <= Kth(s, k)
  {
    var rest := Without(s, i);
    var whole, others := Kth(s, k), Kth(rest, k);
    KthIsOrderStatistic(s, k);
    KthIsOrderStatistic(rest, k);
    CountWithout(s, i, others);
    CountWithout(s, i, whole);
    // Removing an outcome can only raise the k-th smallest ...
    assert whole <= others;
    // ... and does not move it past an outcome that was above it.
    if s[i] > whole { assert others <= whole; }
  }

  lemma {:induction false} CoveredChoicesCount(s: seq<int>, k: int, n: nat)
    requires n <= |s| && 1 <= k < |s|
    ensures CoveredChoices(s, k, n) == CountLe(s[..n], Kth(s, k))
  {
    if n > 0 {
      CoveredChoicesCount(s, k, n - 1);
      CoveredIffWithinWholeKth(s, k, n - 1);
      assert s[..n] == s[..n - 1] + [s[n - 1]];
      CountSplits(s[..n - 1], [s[n - 1]], Kth(s, k));
    }
  }

  lemma {:induction false} DistinctValueCount(s: seq<int>, v: int)
    requires Distinct(s)
    ensures CountLe(s, v) <= CountLe(s, v - 1) + 1
  {
    if s != [] {
      DistinctValueCount(s[1..], v);
      if s[0] == v {
        forall i | 0 <= i < |s[1..]| ensures s[1..][i] != v { assert s[i + 1] != s[0]; }
        SameCount(s[1..], v);
      }
    }
  }

  lemma {:induction false} SameCount(s: seq<int>, v: int)
    requires forall i | 0 <= i < |s| :: s[i] != v
    ensures CountLe(s, v) == CountLe(s, v - 1)
  {
    if s != [] {
      forall i | 0 <= i < |s[1..]| ensures s[1..][i] != v { assert s[i + 1] != v; }
      SameCount(s[1..], v);
    }
  }

  /** Finite-sample conformal coverage. Of the n+1 ways to hold one outcome out, at
      least k leave it within the k-th smallest of the other n: exactly k when the
      outcomes are distinct. Under exchangeability each way is equally likely. */
  lemma ConformalCoverage(s: seq<int>, k: int)
    requires 1 <= k < |s|
    ensures CoveredChoices(s, k, |s|) == CountLe(s, Kth(s, k)) >= k
    ensures Distinct(s) ==> CoveredChoices(s, k, |s|) == k
  {
    CoveredChoicesCount(s, k, |s|);
    assert s[..|s|] == s;
    KthIsOrderStatistic(s, k);
    if Distinct(s) { DistinctValueCount(s, Kth(s, k)); }
  }

  // ---- rank arithmetic

  predicate ValidTarget(target: int) { 1 <= target <= PPB }

  function Rank(target: int, n: int): int {
    (target * (n + 1) + PPB - 1) / PPB
  }

  function MarginalLowerPPB(rank: int, n: int): int
    requires n > 0
  {
    rank * PPB / (n + 1)
  }

  function CoveragePPB(covered: int, n: int): int
    requires n > 0
  {
    covered * PPB / n
  }

  /** The rank is the least integer whose share of n+1 meets the target. */
  lemma RankIsLeast(target: int, n: int)
    requires ValidTarget(target) && n > 0
    ensures (Rank(target, n) - 1) * PPB < target * (n + 1) <= Rank(target, n) * PPB
    ensures 1 <= Rank(target, n) <= n + 1
    ensures Rank(target, n) <= n <==> target * (n + 1) <= n * PPB
  {
    var x := target * (n + 1);
    assert 0 < x <= PPB * (n + 1) by { MulMonotone(n + 1, target, PPB); }
  }

  lemma MulMonotone(d: int, a: int, b: int)
    requires d > 0 && 0 < a <= b
    ensures 0 < d * a <= d * b
  {}

  lemma FloorAtLeast(num: int, den: int, t: int)
    requires den > 0
    ensures num / den >= t <==> num >= t * den
  {
    var q, r := num / den, num % den;
    assert num == q * den + r && 0 <= r < den;
    if q >= t { assert q * den >= t * den; } else { assert (q + 1) * den <= t * den; }
  }

  /** The published lower bound is at least the target, and so is the share of the
      calibration values within any bound that covers `rank` of them. */
  lemma PublishedBoundsMeetTarget(target: int, n: int, covered: int)
    requires ValidTarget(target) && n > 0 && covered >= Rank(target, n)
    ensures MarginalLowerPPB(Rank(target, n), n) >= target
    ensures CoveragePPB(covered, n) >= target
  {
    RankIsLeast(target, n);
    FloorAtLeast(Rank(target, n) * PPB, n + 1, target);
    FloorAtLeast(covered * PPB, n, target);
    assert target * (n + 1) == target * n + target;
  }

  /** The product behind the rank fits int64 whether or not the build's guard passes,
      so it cannot wrap around and pass it. */
  lemma RankProductFitsInt64(target: int, n: int)
    requires ValidTarget(target) && 0 < n <= MAX_SUPPORT
    ensures 0 <= target * (n + 1) + PPB - 1 <= 0x7FFF_FFFF_FFFF_FFFF
  {
    MulMonotone(n + 1, target, PPB);
    assert PPB * (n + 1) + PPB <= 0x7FFF_FFFF_FFFF_FFFF;
  }

  /** No product of the builders leaves int64 for a supported number of rows. */
  lemma ProductsFitInt64(target: int, n: int, covered: int)
    requires ValidTarget(target) && 0 < n <= MAX_SUPPORT && 0 <= covered <= n && Rank(target, n) <= n
    ensures 0 <= target * (n + 1) + PPB - 1 <= 0x7FFF_FFFF_FFFF_FFFF
    ensures 0 <= Rank(target, n) * PPB <= 0x7FFF_FFFF_FFFF_FFFF
    ensures 0 <= covered * PPB <= 0x7FFF_FFFF_FFFF_FFFF
  {
    RankIsLeast(target, n);
    RankProductFitsInt64(target, n);
  }

  // ---- drift

  function GapPPB(target: int, covered: int, support: int): int
    requires support > 0
  {
    if target - CoveragePPB(covered, support) < 0 then 0 else target - CoveragePPB(covered, support)
  }

  /** A gap beyond the threshold means the covered share is below target - threshold. */
  lemma DetectedIffBelow(target: int, threshold: int, covered: int, support: int)
    requires support > 0 && threshold >= 0
    ensures GapPPB(target, covered, support) > threshold <==> covered * PPB < (target - threshold) * support
  {
    FloorAtLeast(covered * PPB, support, target - threshold);
  }

  /** Pooling two windows never opens a gap that neither had. */
  lemma PooledWindowsStayUndetected(target: int, threshold: int, covered1: int, support1: int, covered2: int, support2: int)
    requires support1 > 0 && support2 > 0 && threshold >= 0
    requires GapPPB(target, covered1, support1) <= threshold && GapPPB(target, covered2, support2) <= threshold
    ensures GapPPB(target, covered1 + covered2, support1 + support2) <= threshold
  {
    DetectedIffBelow(target, threshold, covered1, support1);
    DetectedIffBelow(target, threshold, covered2, support2);
    DetectedIffBelow(target, threshold, covered1 + covered2, support1 + support2);
    var t := target - threshold;
    assert t * (support1 + support2) == t * support1 + t * support2;
  }

  lemma MoreCoveredSmallerGap(target: int, covered: int, more: int, support: int)
    requires support > 0 && covered <= more
    ensures GapPPB(target, more, support) <= GapPPB(target, covered, support)
  {
    FloorAtLeast(more * PPB, support, CoveragePPB(covered, support));
    FloorAtLeast(covered * PPB, support, CoveragePPB(covered, support));
  }
}
