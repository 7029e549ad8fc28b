/** The similarity scores of the quality engine, over the reals. */
module Scores {
  import opened Tokenizer
  import opened EditDistance
  import CommonSubsequence
  import TokenMatching
  import TokenReordering
  import Orders

  function Clamp100(v: real): real {
    if v < 0.0 then 0.0 else if v > 100.0 then 100.0 else v
  }

  function Harmonic(p: real, r: real): real {
    if p + r == 0.0 then 0.0 else 2.0 * p * r / (p + r)
  }

  /** The harmonic mean of precision and recall, as a percentage. */
  function F1(overlap: nat, ref: nat, cand: nat): real
    requires ref > 0 && cand > 0
  {
    Clamp100(100.0 * Harmonic(overlap as real / cand as real, overlap as real / ref as real))
  }

  /** Twice the overlap over the total length. */
  function Share(l: real, total: real): real
    requires total > 0.0
  {
    2.0 * l / total
  }

  lemma ShareScales(l: real, total: real)
    requires total > 0.0
    ensures Share(l, total) * total == 2.0 * l
  {}

  lemma HarmonicIsShare(l: real, m: real, n: real)
    requires l >= 0.0 && m > 0.0 && n > 0.0
    ensures Harmonic(l / n, l / m) == Share(l, m + n)
  {
    var p, r := l / n, l / m;
    assert p * n == l && r * m == l;
    if l == 0.0 {
      assert p == 0.0 && r == 0.0;
    } else {
      assert p > 0.0 && r > 0.0;
      var f := Harmonic(p, r);
      assert f * (p + r) == 2.0 * p * r;
      calc {
        f * (m + n) * l;
        f * (l * m + l * n);
        { assert l * m == p * n * m && l * n == r * m * n; }
        f * (p * n * m + r * m * n);
        { Distribute(f, p, r, m, n); }
        f * (p + r) * m * n;
        2.0 * p * r * m * n;
        { Rearrange(p, r, m, n); }
        2.0 * (p * n) * (r * m);
        2.0 * l * l;
      }
      CancelFactor(f * (m + n), 2.0 * l, l);
      ShareScales(l, m + n);
      CancelFactor(f, Share(l, m + n), m + n);
    }
  }

  lemma Distribute(f: real, p: real, r: real, m: real, n: real)
    ensures f * (p * n * m + r * m * n) == f * (p + r) * m * n
  {}

  lemma Rearrange(p: real, r: real, m: real, n: real)
    ensures 2.0 * p * r * m * n == 2.0 * (p * n) * (r * m)
  {}

  lemma CancelFactor(x: real, y: real, l: real)
    requires l != 0.0 && x * l == y * l
    ensures x == y
  {}

  lemma ShareBounds(f: real, l: real, m: real, n: real)
    requires 0.0 <= l <= m && l <= n && m > 0.0 && n > 0.0 && f * (m + n) == 2.0 * l
    ensures 0.0 <= f <= 1.0 && (f == 1.0 <==> l == m == n)
  {
    CompareShare(f, m + n);
  }

  /** Where `f` lies tells where its product lies. */
  lemma CompareShare(f: real, s: real)
    requires s > 0.0
    ensures f < 0.0 <==> f * s < 0.0
    ensures f > 1.0 <==> f * s > s
    ensures f == 1.0 <==> f * s == s
  {
    if f < 0.0 { ScalesUp(f, 0.0, s); } else { ScalesUp(0.0, f, s); }
    if f < 1.0 { ScalesUp(f, 1.0, s); } else { ScalesUp(1.0, f, s); }
  }

  lemma F1Value(overlap: nat, ref: nat, cand: nat)
    requires 0 < ref && 0 < cand && overlap <= ref && overlap <= cand
    ensures F1(overlap, ref, cand) == 100.0 * Share(overlap as real, ref as real + cand as real)
    ensures 0.0 <= F1(overlap, ref, cand) <= 100.0
    ensures F1(overlap, ref, cand) == 100.0 <==> overlap == ref == cand
  {
    var l, m, n := overlap as real, ref as real, cand as real;
    HarmonicIsShare(l, m, n);
    ShareScales(l, m + n);
    ShareBounds(Share(l, m + n), l, m, n);
  }

  /** F1 is twice the overlap over the total length, as a percentage: symmetric, and
      full exactly when the overlap is everything. */
  lemma F1Laws(overlap: nat, ref: nat, cand: nat)
    requires 0 < ref && 0 < cand && overlap <= ref && overlap <= cand
    ensures F1(overlap, ref, cand) == F1(overlap, cand, ref) == 100.0 * Share(overlap as real, ref as real + cand as real)
    ensures 0.0 <= F1(overlap, ref, cand) <= 100.0
    ensures F1(overlap, ref, cand) == 100.0 <==> overlap == ref == cand
  {
    F1Value(overlap, ref, cand);
    F1Value(overlap, cand, ref);
    assert ref as real + cand as real == cand as real + ref as real;
  }

  lemma ScalesUp(a: real, b: real, s: real)
    requires a <= b && s > 0.0
    ensures a * s <= b * s && (a < b ==> a * s < b * s)
  {
    if a < b { assert (b - a) * s > 0.0; }
  }

  // ---- ROUGE-L

  function RougeL(ref: seq<string>, cand: seq<string>): real {
    if |ref| == 0 && |cand| == 0 then 100.0
    else if |ref| == 0 || |cand| == 0 then 0.0
    else F1(CommonSubsequence.Length(ref, cand), |ref|, |cand|)
  }

  method RougeLScore(u: Alphabet, reference: string, candidate: string) returns (score: real)
    requires Sensible(u)
    ensures score == RougeL(Tokens(u, reference), Tokens(u, candidate))
  {
    var ref := Tokenize(u, reference);
    var cand := Tokenize(u, candidate);
    if |ref| == 0 && |cand| == 0 { return 100.0; }
    if |ref| == 0 || |cand| == 0 { return 0.0; }
    var lcs := CommonSubsequence.ComputeLength(ref, cand);
    return F1(lcs, |ref|, |cand|);
  }

  /** ROUGE-L is symmetric, a percentage, and full exactly on equal token lists. */
  lemma RougeLLaws(ref: seq<string>, cand: seq<string>)
    ensures RougeL(ref, cand) == RougeL(cand, ref)
    ensures 0.0 <= RougeL(ref, cand) <= 100.0
    ensures RougeL(ref, cand) == 100.0 <==> ref == cand
  {
    CommonSubsequence.LengthSymmetric(ref, cand);
    CommonSubsequence.LengthBounds(ref, cand);
    if |ref| > 0 && |cand| > 0 {
      F1Laws(CommonSubsequence.Length(ref, cand), |ref|, |cand|);
      F1Laws(CommonSubsequence.Length(cand, ref), |cand|, |ref|);
    }
  }

  // ---- edit similarity

  function EditSimilarity(ra: string, rb: string): real {
    var longest := Max(|ra|, |rb|);
    if longest == 0 then 100.0
    else Clamp100(100.0 * (1.0 - Distance(ra, rb) as real / longest as real))
  }

  /** EditDistance: between the normalized texts. */
  method TextDistance(u: Alphabet, a: string, b: string) returns (d: nat)
    requires Sensible(u)
    ensures d == Distance(NormalizeText(u, a), NormalizeText(u, b))
  {
    var ta := Tokenize(u, a);
    var tb := Tokenize(u, b);
    d := ComputeDistance(Join(ta), Join(tb));
  }

  method EditSimilarityScore(u: Alphabet, a: string, b: string) returns (score: real)
    requires Sensible(u)
    ensures score == EditSimilarity(NormalizeText(u, a), NormalizeText(u, b))
  {
    var ta := Tokenize(u, a);
    var tb := Tokenize(u, b);
    var ra, rb := Join(ta), Join(tb);
    var longest := |ra|;
    if |rb| > longest { longest := |rb|; }
    if longest == 0 { return 100.0; }
    var d := TextDistance(u, a, b);
    return Clamp100(100.0 * (1.0 - d as real / longest as real));
  }

  /** Edit similarity is symmetric, a percentage, and full exactly on equal texts;
      it is zero exactly when no alignment keeps a symbol. */
  lemma EditSimilarityLaws(ra: string, rb: string)
    ensures EditSimilarity(ra, rb) == EditSimilarity(rb, ra)
    ensures 0.0 <= EditSimilarity(ra, rb) <= 100.0
    ensures EditSimilarity(ra, rb) == 100.0 <==> ra == rb
    ensures EditSimilarity(ra, rb) == 0.0 <==> Distance(ra, rb) == Max(|ra|, |rb|) > 0
  {
    DistanceSymmetric(ra, rb);
    DistanceZero(ra, rb);
    DistanceBounds(ra, rb);
    var d, longest := Distance(ra, rb), Max(|ra|, |rb|);
    if longest > 0 { Quotient(d as real, longest as real); }
  }

  lemma Quotient(d: real, whole: real)
    requires whole > 0.0 && 0.0 <= d <= whole
    ensures 0.0 <= d / whole <= 1.0 && (d / whole == 0.0 <==> d == 0.0) && (d / whole == 1.0 <==> d == whole)
  {
    var s := d / whole;
    assert s * whole == d;
    if s > 1.0 { ScalesUp(1.0, s, whole); }
    if s < 0.0 { ScalesUp(s, 0.0, whole); }
  }

  // ---- the values

  /** ROUGE-L of token lists: twice the longest common subsequence over their lengths;
      one empty list scores nothing. */
  lemma RougeLIs(ref: seq<string>, cand: seq<string>)
    ensures ref == [] && cand == [] ==> RougeL(ref, cand) == 100.0
    ensures (ref == []) != (cand == []) ==> RougeL(ref, cand) == 0.0
    ensures ref != [] && cand != [] ==>
      RougeL(ref, cand) == 100.0 * Share(CommonSubsequence.Length(ref, cand) as real, |ref| as real + |cand| as real)
  {
    CommonSubsequence.LengthBounds(ref, cand);
    if ref != [] && cand != [] { F1Laws(CommonSubsequence.Length(ref, cand), |ref|, |cand|); }
  }

  /** The score is the share of `whole` that `lost` leaves, as a percentage. */
  predicate LeavesShare(score: real, lost: real, whole: real) { score * whole == 100.0 * (whole - lost) }

  lemma SparedShare(lost: real, whole: real)
    requires whole > 0.0 && 0.0 <= lost <= whole
    ensures LeavesShare(Clamp100(100.0 * (1.0 - lost / whole)), lost, whole)
  {
    Quotient(lost, whole);
    var s := lost / whole;
    assert s * whole == lost;
    Spared(s, whole, lost);
  }

  lemma Spared(s: real, whole: real, lost: real)
    requires s * whole == lost
    ensures (100.0 * (1.0 - s)) * whole == 100.0 * (whole - lost)
  {
    assert (1.0 - s) * whole == whole - lost;
    assert (100.0 * (1.0 - s)) * whole == 100.0 * ((1.0 - s) * whole);
  }

  /** Edit similarity: the share of the longer text that the least edit script spares. */
  lemma EditSimilarityIs(ra: string, rb: string)
    ensures var longest := Max(|ra|, |rb|);
      if longest == 0 then EditSimilarity(ra, rb) == 100.0
      else LeavesShare(EditSimilarity(ra, rb), Distance(ra, rb) as real, longest as real)
  {
    DistanceBounds(ra, rb);
    EditSimilarityFrom(Distance(ra, rb), Max(|ra|, |rb|));
  }

  lemma EditSimilarityFrom(d: nat, longest: nat)
    requires d <= longest
    ensures longest > 0 ==> LeavesShare(Clamp100(100.0 * (1.0 - d as real / longest as real)), d as real, longest as real)
  {
    if longest > 0 { SparedShare(d as real, longest as real); }
  }

  /** Exact match, full edit similarity and full ROUGE-L all mean equal tokens. */
  lemma FullScoresAgree(u: Alphabet, a: string, b: string)
    requires Sensible(u)
    ensures NormalizeText(u, a) == NormalizeText(u, b)
      <==> EditSimilarity(NormalizeText(u, a), NormalizeText(u, b)) == 100.0
    ensures NormalizeText(u, a) == NormalizeText(u, b) <==> RougeL(Tokens(u, a), Tokens(u, b)) == 100.0
  {
    NormalizeDeterminesTokens(u, a, b);
    EditSimilarityLaws(NormalizeText(u, a), NormalizeText(u, b));
    RougeLLaws(Tokens(u, a), Tokens(u, b));
  }

  // ---- token F1

  function TokenF1(ref: seq<string>, cand: seq<string>): real {
    var r, c := TokenMatching.Unique(ref), TokenMatching.Unique(cand);
    if |r| == 0 && |c| == 0 then 100.0
    else if |r| == 0 || |c| == 0 then 0.0
    else F1(|TokenMatching.Greedy(r, c)|, |r|, |c|)
  }

  function TextTokenF1(u: Alphabet, stop: string -> bool, reference: string, candidate: string): real {
    TokenF1(TokenMatching.Content(stop, Tokens(u, reference)), TokenMatching.Content(stop, Tokens(u, candidate)))
  }

  method TokenF1Score(u: Alphabet, stop: string -> bool, reference: string, candidate: string) returns (score: real)
    requires Sensible(u)
    ensures score == TextTokenF1(u, stop, reference, candidate)
  {
    var refTokens := Tokenize(u, reference);
    var candTokens := Tokenize(u, candidate);
    var refContent := TokenMatching.ContentTokens(stop, refTokens);
    var candContent := TokenMatching.ContentTokens(stop, candTokens);
    var ref := TokenMatching.UniqueTokens(refContent);
    var cand := TokenMatching.UniqueTokens(candContent);
    if |ref| == 0 && |cand| == 0 { return 100.0; }
    if |ref| == 0 || |cand| == 0 { return 0.0; }
    var overlap := TokenMatching.Overlap(ref, cand);
    return F1(overlap, |ref|, |cand|);
  }

  lemma NoneIsNoDifferentWord(tokens: seq<string>)
    ensures |TokenMatching.Unique(tokens)| == 0 <==> tokens == []
  {
    TokenMatching.UniqueKeepsElements(tokens);
    if tokens != [] { assert tokens[0] in TokenMatching.Unique(tokens); }
  }

  lemma MatchedF1(r: seq<string>, c: seq<string>)
    requires |r| > 0 && |c| > 0
    ensures F1(|TokenMatching.Greedy(r, c)|, |r|, |c|) == 100.0 * Share(|TokenMatching.Greedy(r, c)| as real, |r| as real + |c| as real)
  {
    TokenMatching.GreedyBounds(r, c);
    F1Laws(|TokenMatching.Greedy(r, c)|, |r|, |c|);
  }

  /** One empty list of tokens scores nothing, two score in full. */
  lemma NoTokensF1(ref: seq<string>, cand: seq<string>)
    requires ref == [] || cand == []
    ensures TokenF1(ref, cand) == if ref == cand then 100.0 else 0.0
  {
    NoneIsNoDifferentWord(ref); NoneIsNoDifferentWord(cand);
  }

  lemma TokenF1From(ref: seq<string>, cand: seq<string>, r: seq<string>, c: seq<string>, score: real)
    requires r == TokenMatching.Unique(ref) && c == TokenMatching.Unique(cand) && |r| > 0 && |c| > 0
    requires score == F1(|TokenMatching.Greedy(r, c)|, |r|, |c|)
    ensures TokenF1(ref, cand) == score
  {}

  /** Token F1: twice the greedy matching of the different words over their numbers. */
  lemma TokenF1Is(ref: seq<string>, cand: seq<string>) returns (r: seq<string>, c: seq<string>, overlap: nat)
    requires ref != [] && cand != []
    ensures r == TokenMatching.Unique(ref) && c == TokenMatching.Unique(cand) && |r| > 0 && |c| > 0
    ensures overlap == |TokenMatching.Greedy(r, c)|
    ensures TokenF1(ref, cand) == 100.0 * Share(overlap as real, |r| as real + |c| as real)
  {
    r, c := TokenMatching.Unique(ref), TokenMatching.Unique(cand);
    NoneIsNoDifferentWord(ref); NoneIsNoDifferentWord(cand);
    overlap := |TokenMatching.Greedy(r, c)|;
    MatchedF1(r, c);
    TokenF1From(ref, cand, r, c, 100.0 * Share(overlap as real, |r| as real + |c| as real));
  }

  /** Texts that normalize alike have full token F1. */
  lemma SameTextFullTokenF1(u: Alphabet, stop: string -> bool, a: string, b: string)
    requires Sensible(u) && NormalizeText(u, a) == NormalizeText(u, b)
    ensures TextTokenF1(u, stop, a, b) == 100.0
  {
    NormalizeDeterminesTokens(u, a, b);
    var t := TokenMatching.Unique(TokenMatching.Content(stop, Tokens(u, a)));
    if t != [] {
      TokenMatching.GreedyOnSelf(t, |t|);
      assert t[..|t|] == t;
      F1Laws(|t|, |t|, |t|);
    }
  }

  /** Where similarity is transitive, texts with the same words score in full, whatever
      the order and however often each word is repeated. */
  lemma SameWordsScoreFull(t: seq<string>, ref: seq<string>, cand: seq<string>)
    requires TokenReordering.Transitive(t)
    requires (forall x :: x in ref <==> x in t) && (forall x :: x in cand <==> x in t)
    ensures TokenF1(ref, cand) == 100.0
  {
    var r, c := TokenMatching.Unique(ref), TokenMatching.Unique(cand);
    TokenMatching.UniqueKeepsElements(ref); TokenMatching.UniqueKeepsElements(cand);
    Orders.DistinctSameElements(r, c);
    Orders.SameElements(r, c);
    TokenReordering.ReorderingIsMatched(t, r, c);
    if r != [] { F1Laws(|r|, |r|, |r|); }
  }

  /** Any two orders of these words score in full against each other. */
  ghost predicate OrderNeverMatters(t: seq<string>) {
    forall ref: seq<string>, cand: seq<string> | multiset(ref) == multiset(t) && multiset(cand) == multiset(t) ::
      TokenF1(ref, cand) == 100.0
  }

  lemma LostMatchLosesScore(t: seq<string>, ref: seq<string>, cand: seq<string>)
    requires Orders.Distinct(t) && multiset(ref) == multiset(t) && multiset(cand) == multiset(t)
    requires |TokenMatching.Greedy(ref, cand)| < |ref|
    ensures TokenF1(ref, cand) < 100.0
  {
    Orders.DistinctPermutes(t, ref); Orders.DistinctPermutes(t, cand);
    Orders.SameElements(ref, cand);
    TokenMatching.UniqueOfDistinct(ref); TokenMatching.UniqueOfDistinct(cand);
    TokenMatching.GreedyBounds(ref, cand);
    F1Laws(|TokenMatching.Greedy(ref, cand)|, |ref|, |cand|);
  }

  /** Word order cannot matter exactly when similarity is transitive on the words. */
  lemma OrderNeverMattersExactlyWhen(t: seq<string>)
    requires Orders.Distinct(t)
    ensures OrderNeverMatters(t) <==> TokenReordering.Transitive(t)
  {
    if TokenReordering.Transitive(t) {
      forall ref: seq<string>, cand: seq<string> | multiset(ref) == multiset(t) && multiset(cand) == multiset(t)
        ensures TokenF1(ref, cand) == 100.0
      {
        Orders.SameElements(ref, t); Orders.SameElements(cand, t);
        SameWordsScoreFull(t, ref, cand);
      }
    } else {
      var ref, cand := TokenReordering.OrdersThatLose(t);
      LostMatchLosesScore(t, ref, cand);
    }
  }

  /** The same words in another order can score less. */
  lemma ReorderedTokensLoseScore()
    ensures TokenF1(["abcdy", "abcd", "abcdx"], ["abcd", "abcdx", "abcdy"]) < 100.0
  {
    TokenMatching.SamplesSimilar();
    ReorderedScore("abcd", "abcdx", "abcdy");
  }

  lemma ReorderedScore(a: string, b: string, c: string)
    requires TokenMatching.Similar(c, a) && TokenMatching.Similar(a, b) && !TokenMatching.Similar(b, c)
    requires a != b && b != c && a != c
    ensures TokenF1([c, a, b], [a, b, c]) < 100.0
  {
    TokenMatching.UniqueOfDistinct([c, a, b]);
    TokenMatching.UniqueOfDistinct([a, b, c]);
    TokenMatching.GreedyOfThree(a, b, c);
    F1Laws(2, 3, 3);
  }

  /** Token F1 is a percentage, and at least half of the F1 of any one-to-one
      matching of similar tokens. */
  lemma TokenF1Laws(ref: seq<string>, cand: seq<string>, m: map<nat, nat>)
    requires TokenMatching.IsMatching(m, TokenMatching.Unique(ref), TokenMatching.Unique(cand))
    ensures 0.0 <= TokenF1(ref, cand) <= 100.0
    ensures ref != [] && cand != [] ==>
      var r, c := TokenMatching.Unique(ref), TokenMatching.Unique(cand);
      |r| > 0 && |c| > 0 && |m| <= |r| && |m| <= |c| && F1(|m|, |r|, |c|) <= 2.0 * TokenF1(ref, cand)
  {
    TokenMatching.UniqueKeepsElements(ref);
    TokenMatching.UniqueKeepsElements(cand);
    if ref != [] && cand != [] {
      assert ref[0] in TokenMatching.Unique(ref) && cand[0] in TokenMatching.Unique(cand);
      GreedyF1(TokenMatching.Unique(ref), TokenMatching.Unique(cand), m);
    }
  }

  lemma GreedyF1(r: seq<string>, c: seq<string>, m: map<nat, nat>)
    requires r != [] && c != [] && TokenMatching.IsMatching(m, r, c)
    ensures |m| <= |r| && |m| <= |c|
    ensures 0.0 <= F1(|TokenMatching.Greedy(r, c)|, |r|, |c|) <= 100.0
    ensures F1(|m|, |r|, |c|) <= 2.0 * F1(|TokenMatching.Greedy(r, c)|, |r|, |c|)
  {
    TokenMatching.GreedyBounds(r, c);
    TokenMatching.MatchingBounds(m, r, c);
    TokenMatching.GreedyIsHalfOptimal(r, c, m);
    HalfOverlapHalfScore(|m|, |TokenMatching.Greedy(r, c)|, |r|, |c|);
  }

  lemma HalfOverlapHalfScore(best: nat, greedy: nat, ref: nat, cand: nat)
    requires 0 < ref && 0 < cand && best <= ref && best <= cand && greedy <= ref && greedy <= cand && best <= 2 * greedy
    ensures 0.0 <= F1(greedy, ref, cand) <= 100.0 && F1(best, ref, cand) <= 2.0 * F1(greedy, ref, cand)
  {
    F1Value(best, ref, cand);
    F1Value(greedy, ref, cand);
    HalfShare(ref as real + cand as real, best as real, greedy as real);
  }

  lemma HalfShare(total: real, best: real, greedy: real)
    requires total > 0.0 && best <= 2.0 * greedy
    ensures Share(best, total) <= 2.0 * Share(greedy, total)
  {
    var b, g := Share(best, total), Share(greedy, total);
    ShareScales(best, total);
    ShareScales(greedy, total);
    assert (2.0 * g) * total == 2.0 * (g * total);
    if b > 2.0 * g { ScalesUp(2.0 * g, b, total); }
  }
}
