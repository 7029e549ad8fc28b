/** The greedy one-to-one matching behind TokenF1Score. */
module TokenMatching {
  import opened Wrappers
  import opened Sequences
  import opened Orders

  // ---- similar tokens

  /** Bytes of a rune in UTF-8. */
  function RuneBytes(c: char): nat {
    var code := c as int;
    if code < 0x80 then 1 else if code < 0x800 then 2 else if code < 0x1_0000 then 3 else 4
  }

  /** Go's len of a token: its bytes. */
  function Bytes(t: string): nat {
    if t == [] then 0 else RuneBytes(t[0]) + Bytes(t[1..])
  }

  /** Equal, or both at least four bytes long and one a prefix of the other. */
  predicate Similar(a: string, b: string) {
    a == b || (Bytes(a) >= 4 && Bytes(b) >= 4 && (b <= a || a <= b))
  }

  lemma {:induction false} BytesSplit(a: string, b: string)
    ensures Bytes(a + b) == Bytes(a) + Bytes(b)
  {
    if a == [] {
      assert a + b == b;
    } else {
      assert (a + b)[1..] == a[1..] + b;
      BytesSplit(a[1..], b);
    }
  }

  /** Different tokens are similar exactly when one extends the other by something and
      what it extends has at least four bytes. */
  lemma SimilarExactlyWhen(a: string, b: string)
    requires a != b
    ensures Similar(a, b) <==> (exists more :: a == b + more && Bytes(b) >= 4) || (exists more :: b == a + more && Bytes(a) >= 4)
  {
    if b <= a {
      assert a == b + a[|b|..];
      BytesSplit(b, a[|b|..]);
    }
    if a <= b {
      assert b == a + b[|a|..];
      BytesSplit(a, b[|a|..]);
    }
  }

  /** A rune takes one byte in ASCII, two to U+07FF, three to U+FFFF and four beyond. */
  lemma BytesOfRune(c: char)
    ensures 1 <= Bytes([c]) <= 4
    ensures Bytes([c]) > 1 <==> c as int >= 128
    ensures Bytes([c]) > 2 <==> c as int >= 2048
    ensures Bytes([c]) > 3 <==> c as int >= 65536
  {
    assert Bytes([]) == 0;
  }

  lemma {:induction false} BytesOfAscii(t: string)
    requires forall i | 0 <= i < |t| :: t[i] as int < 0x80
    ensures Bytes(t) == |t|
  {
    if t != [] { BytesOfAscii(t[1..]); }
  }

  // ---- unique tokens

  /** The tokens in order of first occurrence. */
  function Unique(tokens: seq<string>): seq<string> {
    if tokens == [] then []
    else
      var front := Unique(Front(tokens));
      if Last(tokens) in front then front else front + [Last(tokens)]
  }

  lemma {:induction false} UniqueKeepsElements(tokens: seq<string>)
    ensures Distinct(Unique(tokens)) && forall t :: t in Unique(tokens) <==> t in tokens
  {
    if tokens != [] {
      UniqueKeepsElements(Front(tokens));
      FrontLast(tokens);
    }
  }

  method UniqueTokens(tokens: seq<string>) returns (out: seq<string>)
    ensures out == Unique(tokens)
  {
    var seen: set<string> := {};
    out := [];
    for i := 0 to |tokens|
      invariant out == Unique(tokens[..i]) && seen == set t | t in out
    {
      assert Front(tokens[..i + 1]) == tokens[..i] && Last(tokens[..i + 1]) == tokens[i];
      if tokens[i] in seen { continue; }
      seen := seen + {tokens[i]};
      out := out + [tokens[i]];
    }
    assert tokens[..|tokens|] == tokens;
  }

  // ---- the greedy matching

  /** The first free candidate at or after `from` that is similar to `token`. */
  function FirstFree(token: string, cand: seq<string>, used: set<nat>, from: nat): (r: Option<nat>)
    requires from <= |cand|
    ensures r.Some? ==> from <= r.value < |cand| && r.value !in used && Similar(token, cand[r.value])
    ensures r.None? ==> forall j: nat | from <= j < |cand| :: j in used || !Similar(token, cand[j])
    ensures r.Some? ==> forall j: nat | from <= j < r.value :: j in used || !Similar(token, cand[j])
    decreases |cand| - from
  {
    if from == |cand| then None
    else if from !in used && Similar(token, cand[from]) then Some(from)
    else FirstFree(token, cand, used, from + 1)
  }

  /** Reference token to candidate, in reference order. */
  function Greedy(ref: seq<string>, cand: seq<string>): map<nat, nat> {
    if ref == [] then map[]
    else
      var m := Greedy(Front(ref), cand);
      match FirstFree(Last(ref), cand, m.Values, 0)
      case Some(j) => m[|ref| - 1 := j]
      case None => m
  }

  /** Marks the first free candidate similar to `token`, if there is one. */
  method ClaimFirst(token: string, cand: seq<string>, matched: array<bool>, ghost used: set<nat>) returns (at: Option<nat>)
    requires matched.Length == |cand| && forall j: nat | j < |cand| :: matched[j] <==> j in used
    modifies matched
    ensures at == FirstFree(token, cand, used, 0)
    ensures forall j: nat | j < |cand| :: matched[j] <==> j in used || at == Some(j)
  {
    for j := 0 to |cand|
      invariant forall k: nat | k < |cand| :: matched[k] <==> k in used
      invariant FirstFree(token, cand, used, j) == FirstFree(token, cand, used, 0)
    {
      if matched[j] || !Similar(token, cand[j]) { continue; }
      matched[j] := true;
      return Some(j);
    }
    return None;
  }

  /** What one more reference token adds to the matching. */
  lemma GreedyGrows(ref: seq<string>, cand: seq<string>, i: nat)
    requires i < |ref| && forall k | k in Greedy(ref[..i], cand) :: k < i
    ensures var before, after := Greedy(ref[..i], cand), Greedy(ref[..i + 1], cand);
      var at := FirstFree(ref[i], cand, before.Values, 0);
      && after.Values == before.Values + (if at.Some? then {at.value} else {})
      && |after| == |before| + (if at.Some? then 1 else 0)
      && forall k | k in after :: k < i + 1
  {
    assert Front(ref[..i + 1]) == ref[..i] && Last(ref[..i + 1]) == ref[i];
    var before := Greedy(ref[..i], cand);
    var at := FirstFree(ref[i], cand, before.Values, 0);
    if at.Some? { ValuesAfter(before, i, at.value); }
  }

  method Overlap(ref: seq<string>, cand: seq<string>) returns (overlap: nat)
    ensures overlap == |Greedy(ref, cand)|
  {
    overlap := 0;
    var matched := new bool[|cand|](_ => false);
    for i := 0 to |ref|
      invariant overlap == |Greedy(ref[..i], cand)|
      invariant forall k | k in Greedy(ref[..i], cand) :: k < i
      invariant forall j: nat | j < |cand| :: matched[j] <==> j in Greedy(ref[..i], cand).Values
    {
      GreedyGrows(ref, cand, i);
      var at := ClaimFirst(ref[i], cand, matched, Greedy(ref[..i], cand).Values);
      if at.Some? { overlap := overlap + 1; }
    }
    assert ref[..|ref|] == ref;
  }

  lemma ValuesAfter(m: map<nat, nat>, i: nat, j: nat)
    requires i !in m
    ensures m[i := j].Values == m.Values + {j} && |m[i := j]| == |m| + 1
  {
    forall v ensures v in m[i := j].Values <==> v in m.Values + {j} {
      if v in m.Values {
        var k :| k in m && m[k] == v;
        assert k in m[i := j] && m[i := j][k] == v;
      }
      if v == j { assert i in m[i := j] && m[i := j][i] == v; }
      if v in m[i := j].Values {
        var k :| k in m[i := j] && m[i := j][k] == v;
        if k != i { assert k in m && m[k] == v; }
      }
    }
    assert m[i := j].Keys == m.Keys + {i};
  }

  // ---- what greedy guarantees

  /** Pairs similar tokens, each at most once on either side. */
  ghost predicate IsMatching(m: map<nat, nat>, ref: seq<string>, cand: seq<string>) {
    && (forall i | i in m :: i < |ref| && m[i] < |cand| && Similar(ref[i], cand[m[i]]))
    && (forall i, j | i in m && j in m && i != j :: m[i] != m[j])
  }

  /** No similar pair is left with both tokens free. */
  ghost predicate Maximal(m: map<nat, nat>, ref: seq<string>, cand: seq<string>) {
    forall i: nat, j: nat | i < |ref| && j < |cand| && Similar(ref[i], cand[j]) :: i in m || j in m.Values
  }

  lemma {:induction false} GreedyIsMaximalMatching(ref: seq<string>, cand: seq<string>)
    ensures IsMatching(Greedy(ref, cand), ref, cand) && Maximal(Greedy(ref, cand), ref, cand)
  {
    if ref != [] {
      var front, i := Front(ref), |ref| - 1;
      var m := Greedy(front, cand);
      GreedyIsMaximalMatching(front, cand);
      match FirstFree(Last(ref), cand, m.Values, 0)
      case None =>
      case Some(j) =>
        ValuesAfter(m, i, j);
        forall k | k in m ensures m[k] != j { assert m[k] in m.Values; }
    }
  }

  /** A one-to-one map has as many values as keys. */
  lemma {:induction false} InjectiveImage(m: map<nat, nat>, keys: set<nat>, values: set<nat>)
    requires keys <= m.Keys && forall i | i in keys :: m[i] in values
    requires forall i, j | i in keys && j in keys && i != j :: m[i] != m[j]
    ensures |keys| <= |values|
    decreases keys
  {
    if keys != {} {
      var i :| i in keys;
      InjectiveImage(m, keys - {i}, values - {m[i]});
    }
  }

  lemma {:induction false} FewerValues(m: map<nat, nat>)
    ensures |m.Values| <= |m.Keys|
    decreases |m|
  {
    if m.Keys == {} {
      assert m.Values == {};
    } else {
      var i :| i in m;
      var rest := m - {i};
      assert rest.Keys == m.Keys - {i};
      FewerValues(rest);
      forall v | v in m.Values ensures v in rest.Values + {m[i]} {
        var k :| k in m && m[k] == v;
        if k != i { assert k in rest && rest[k] == v; }
      }
      CardinalityMonotone(m.Values, rest.Values + {m[i]});
    }
  }

  lemma {:induction false} CardinalityMonotone(a: set<nat>, b: set<nat>)
    requires a <= b
    ensures |a| <= |b|
    decreases a
  {
    if a != {} {
      var x :| x in a;
      CardinalityMonotone(a - {x}, b - {x});
    }
  }

  /** A maximal matching covers an end of every pair of any matching. */
  lemma CountedTwice(m: map<nat, nat>, g: map<nat, nat>)
    requires forall i, j | i in m && j in m && i != j :: m[i] != m[j]
    requires forall i | i in m :: i in g || m[i] in g.Values
    ensures |m| <= 2 * |g|
  {
    var shared, others := m.Keys * g.Keys, m.Keys - g.Keys;
    CardinalityMonotone(shared, g.Keys);
    InjectiveImage(m, others, g.Values);
    FewerValues(g);
    assert m.Keys == shared + others;
    assert |m| == |m.Keys| && |g| == |g.Keys|;
  }

  /** The greedy overlap is at least half of any one-to-one matching. */
  lemma GreedyIsHalfOptimal(ref: seq<string>, cand: seq<string>, m: map<nat, nat>)
    requires IsMatching(m, ref, cand)
    ensures |m| <= 2 * |Greedy(ref, cand)|
  {
    GreedyIsMaximalMatching(ref, cand);
    CountedTwice(m, Greedy(ref, cand));
  }

  lemma SamplesSimilar()
    ensures Similar("abcd", "abcdx") && Similar("abcd", "abcdy") && Similar("abcdx", "abcdx") && Similar("abcdy", "abcd")
    ensures !Similar("abcdx", "abcdy")
  {
    assert "abcd" <= "abcdx" && "abcd" <= "abcdy";
    LengthAtMostBytes("abcd"); LengthAtMostBytes("abcdx"); LengthAtMostBytes("abcdy");
    assert "abcdx"[4] != "abcdy"[4];
  }

  /** The factor two is reached: greedy takes the longer candidate for the shorter
      token and leaves the longer token without a partner. */
  lemma GreedyMissesHalf()
    ensures |Greedy(["abcd", "abcdx"], ["abcdx", "abcdy"])| == 1
    ensures exists m: map<nat, nat> :: IsMatching(m, ["abcd", "abcdx"], ["abcdx", "abcdy"]) && |m| == 2
  {
    SamplesSimilar();
    GreedyOfTwo("abcd", "abcdx", "abcdx", "abcdy");
  }

  lemma GreedyStep(ref: seq<string>, r: string, cand: seq<string>)
    ensures Greedy(ref + [r], cand) ==
      var m := Greedy(ref, cand);
      match FirstFree(r, cand, m.Values, 0) case Some(j) => m[|ref| := j] case None => m
  {
    assert Front(ref + [r]) == ref;
  }

  /** Greedy on two tokens and two candidates when the first token may take either
      candidate and the second token only the first one. */
  lemma GreedyOfTwo(r0: string, r1: string, c0: string, c1: string)
    requires Similar(r0, c0) && Similar(r0, c1) && Similar(r1, c0) && !Similar(r1, c1)
    ensures |Greedy([r0, r1], [c0, c1])| == 1
    ensures exists m: map<nat, nat> :: IsMatching(m, [r0, r1], [c0, c1]) && |m| == 2
  {
    var cand := [c0, c1];
    GreedyStep([], r0, cand);
    GreedyStep([r0], r1, cand);
    assert [] + [r0] == [r0] && [r0] + [r1] == [r0, r1];
    ValuesAfter(map[], 0, 0);
    var once: map<nat, nat> := map[][0 := 0];
    assert Greedy([r0], cand) == once;
    assert FirstFree(r1, cand, once.Values, 0).None?;
    CrossMatching(r0, r1, c0, c1);
  }

  lemma TakesFirst(token: string, cand: seq<string>, used: set<nat>, j: nat)
    requires j < |cand| && j !in used && Similar(token, cand[j])
    requires forall i: nat | i < j :: i in used || !Similar(token, cand[i])
    ensures FirstFree(token, cand, used, 0) == Some(j)
  {}

  lemma GreedyTakes(ref: seq<string>, r: string, cand: seq<string>, j: nat)
    requires |ref| !in Greedy(ref, cand) && FirstFree(r, cand, Greedy(ref, cand).Values, 0) == Some(j)
    ensures var m, after := Greedy(ref, cand), Greedy(ref + [r], cand);
      after.Keys == m.Keys + {|ref|} && after.Values == m.Values + {j} && |after| == |m| + 1
  {
    GreedyStep(ref, r, cand);
    ValuesAfter(Greedy(ref, cand), |ref|, j);
  }

  ghost predicate IsUpTo(s: set<nat>, n: nat) {
    forall i: nat :: i in s <==> i < n
  }

  /** The first `n` tokens are matched with the first `n` candidates. */
  ghost predicate MatchesUpTo(m: map<nat, nat>, n: nat) {
    |m| == n && IsUpTo(m.Keys, n) && IsUpTo(m.Values, n)
  }

  lemma UpToOneMore(s: set<nat>, n: nat)
    requires IsUpTo(s, n)
    ensures IsUpTo(s + {n}, n + 1) && n !in s
  {}

  lemma OneMoreMatched(ref: seq<string>, r: string, cand: seq<string>)
    requires MatchesUpTo(Greedy(ref, cand), |ref|) && |ref| < |cand| && Similar(r, cand[|ref|])
    ensures MatchesUpTo(Greedy(ref + [r], cand), |ref| + 1)
  {
    TakesNext(ref, r, cand, Greedy(ref, cand));
    GreedyTakes(ref, r, cand, |ref|);
    UpToOneMore(Greedy(ref, cand).Keys, |ref|);
    UpToOneMore(Greedy(ref, cand).Values, |ref|);
  }

  lemma TakesNext(ref: seq<string>, r: string, cand: seq<string>, m: map<nat, nat>)
    requires MatchesUpTo(m, |ref|) && |ref| < |cand| && Similar(r, cand[|ref|])
    ensures |ref| !in m && FirstFree(r, cand, m.Values, 0) == Some(|ref|)
  {
    UpToOneMore(m.Keys, |ref|);
    TakesFirst(r, cand, m.Values, |ref|);
  }

  /** A list matched with itself is matched in full. */
  lemma {:induction false} GreedyOnSelf(t: seq<string>, n: nat)
    requires n <= |t|
    ensures MatchesUpTo(Greedy(t[..n], t), n)
  {
    if n > 0 {
      GreedyOnSelf(t, n - 1);
      OneMoreMatched(t[..n - 1], t[n - 1], t);
      assert t[..n] == t[..n - 1] + [t[n - 1]];
    } else {
      NothingMatched(t);
    }
  }

  lemma NothingMatched(cand: seq<string>)
    ensures Greedy([], cand) == map[] && MatchesUpTo(map[], 0)
  {}

  /** The same three tokens in another order: the first takes the candidate of the
      second, which takes the candidate of the third. */
  lemma GreedyOfThree(a: string, b: string, c: string)
    requires Similar(c, a) && Similar(a, b) && !Similar(b, c)
    ensures |Greedy([c, a, b], [a, b, c])| == 2
  {
    var cand := [a, b, c];
    NothingMatched(cand);
    OneMoreMatched([], c, cand);
    OneMoreMatched([c], a, cand);
    assert [] + [c] == [c] && [c] + [a] == [c, a] && [c, a] + [b] == [c, a, b];
    NoneLeft([c, a], b, cand);
  }

  lemma NoneLeft(ref: seq<string>, r: string, cand: seq<string>)
    requires MatchesUpTo(Greedy(ref, cand), |ref|)
    requires forall j: nat | |ref| <= j < |cand| :: !Similar(r, cand[j])
    ensures |Greedy(ref + [r], cand)| == |ref| && |ref| !in Greedy(ref + [r], cand)
  {
    GreedyStep(ref, r, cand);
  }

  lemma {:induction false} UniqueOfDistinct(tokens: seq<string>)
    requires Distinct(tokens)
    ensures Unique(tokens) == tokens
  {
    if tokens != [] {
      UniqueOfDistinct(Front(tokens));
      FrontLast(tokens);
    }
  }

  // ---- meaningful tokens

  /** Tokens of at least three runes that are not stop words. */
  function Meaningful(stop: string -> bool, tokens: seq<string>): seq<string> {
    if tokens == [] then []
    else
      var last := Last(tokens);
      Meaningful(stop, Front(tokens)) + if |last| <= 2 || stop(last) then [] else [last]
  }

  /** Three runes or more, and no stop word. */
  predicate IsMeaningful(stop: string -> bool, t: string) { |t| >= 3 && !stop(t) }

  lemma {:induction false} MeaningfulSplits(stop: string -> bool, a: seq<string>, b: seq<string>)
    ensures Meaningful(stop, a + b) == Meaningful(stop, a) + Meaningful(stop, b)
  {
    if b == [] {
      assert a + b == a;
    } else {
      assert Front(a + b) == a + Front(b) && Last(a + b) == Last(b);
      MeaningfulSplits(stop, a, Front(b));
    }
  }

  lemma MeaningfulOfOne(stop: string -> bool, t: string)
    ensures Meaningful(stop, [t]) == if IsMeaningful(stop, t) then [t] else []
  {
    assert Front([t]) == [] && Meaningful(stop, []) == [];
  }

  /** The content of a text: its meaningful tokens in order, each as often as it occurs,
      or the whole text if none is meaningful. */
  lemma {:induction false} ContentKeeps(stop: string -> bool, tokens: seq<string>, t: string)
    ensures multiset(Meaningful(stop, tokens))[t] == if IsMeaningful(stop, t) then multiset(tokens)[t] else 0
    ensures Content(stop, tokens) == tokens || Content(stop, tokens) == Meaningful(stop, tokens)
    ensures (exists u :: u in tokens && IsMeaningful(stop, u)) ==> Content(stop, tokens) == Meaningful(stop, tokens)
    ensures !(exists u :: u in tokens && IsMeaningful(stop, u)) ==> Content(stop, tokens) == tokens
  {
    MeaningfulCounts(stop, tokens, t);
    if u :| u in tokens && IsMeaningful(stop, u) {
      MeaningfulCounts(stop, tokens, u);
    }
    if Meaningful(stop, tokens) != [] {
      var u := Meaningful(stop, tokens)[0];
      MeaningfulCounts(stop, tokens, u);
      assert u in multiset(Meaningful(stop, tokens)) && u in multiset(tokens);
    }
  }

  lemma {:induction false} MeaningfulCounts(stop: string -> bool, tokens: seq<string>, t: string)
    ensures multiset(Meaningful(stop, tokens))[t] == if IsMeaningful(stop, t) then multiset(tokens)[t] else 0
  {
    if tokens != [] {
      MeaningfulCounts(stop, Front(tokens), t);
      FrontLast(tokens);
      MeaningfulSplits(stop, Front(tokens), [Last(tokens)]);
      MeaningfulOfOne(stop, Last(tokens));
    }
  }

  /** The meaningful tokens, or all of them when none is. */
  function Content(stop: string -> bool, tokens: seq<string>): seq<string> {
    if Meaningful(stop, tokens) == [] then tokens else Meaningful(stop, tokens)
  }

  method ContentTokens(stop: string -> bool, tokens: seq<string>) returns (content: seq<string>)
    ensures content == Content(stop, tokens)
  {
    var out := [];
    for i := 0 to |tokens|
      invariant out == Meaningful(stop, tokens[..i])
    {
      assert Front(tokens[..i + 1]) == tokens[..i];
      if |tokens[i]| <= 2 || stop(tokens[i]) { continue; }
      out := out + [tokens[i]];
    }
    assert tokens[..|tokens|] == tokens;
    if |out| > 0 { return out; }
    return tokens;
  }

  lemma CrossMatching(r0: string, r1: string, c0: string, c1: string)
    requires Similar(r0, c1) && Similar(r1, c0)
    ensures exists m: map<nat, nat> :: IsMatching(m, [r0, r1], [c0, c1]) && |m| == 2
  {
    var m: map<nat, nat> := map[0 := 1, 1 := 0];
    assert m.Keys == {0, 1} && |m| == |m.Keys|;
    assert IsMatching(m, [r0, r1], [c0, c1]);
  }

  lemma {:induction false} LengthAtMostBytes(t: string)
    ensures |t| <= Bytes(t)
  {
    if t != [] { LengthAtMostBytes(t[1..]); }
  }

  function UpTo(n: nat): (r: set<nat>)
    ensures |r| == n && forall i: nat :: i in r <==> i < n
  {
    if n == 0 then {} else UpTo(n - 1) + {n - 1}
  }

  lemma MatchingBounds(m: map<nat, nat>, ref: seq<string>, cand: seq<string>)
    requires IsMatching(m, ref, cand)
    ensures |m| <= |ref| && |m| <= |cand|
  {
    assert |m| == |m.Keys|;
    CardinalityMonotone(m.Keys, UpTo(|ref|));
    InjectiveImage(m, m.Keys, UpTo(|cand|));
  }

  lemma GreedyBounds(ref: seq<string>, cand: seq<string>)
    ensures |Greedy(ref, cand)| <= |ref| && |Greedy(ref, cand)| <= |cand|
  {
    GreedyIsMaximalMatching(ref, cand);
    MatchingBounds(Greedy(ref, cand), ref, cand);
  }
}
