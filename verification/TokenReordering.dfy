/** When the greedy matching is the best one, and when word order cannot matter. */
module TokenReordering {
  import opened Sequences
  import opened Orders
  import opened TokenMatching

  // ---- clusters

  /** Tokens similar to a common candidate are similar to the same candidates. */
  ghost predicate Clustered(ref: seq<string>, cand: seq<string>) {
    forall r, s, c, d | r in ref && s in ref && c in cand && d in cand && Similar(r, c) && Similar(s, c) && Similar(s, d) ::
      Similar(r, d)
  }

  /** Every reference token similar to candidate `j` is matched. */
  ghost predicate SideFull(g: map<nat, nat>, ref: seq<string>, cand: seq<string>, j: nat)
    requires j < |cand|
  {
    forall k: nat | k < |ref| && Similar(ref[k], cand[j]) :: k in g
  }

  ghost function Partner(g: map<nat, nat>, j: nat): (k: nat)
    requires j in g.Values
    ensures k in g && g[k] == j
  {
    var k :| k in g && g[k] == j;
    k
  }

  /** A reference token matched by `m`, charged to one matched by `g`: itself if its side
      of the cluster is full, and else the partner of its candidate. */
  ghost function Charged(g: map<nat, nat>, ref: seq<string>, cand: seq<string>, i: nat, j: nat): nat
    requires j < |cand|
  {
    if SideFull(g, ref, cand, j) || j !in g.Values then i else Partner(g, j)
  }

  lemma ChargedMatched(g: map<nat, nat>, ref: seq<string>, cand: seq<string>, i: nat, j: nat)
    requires Maximal(g, ref, cand) && i < |ref| && j < |cand| && Similar(ref[i], cand[j])
    ensures Charged(g, ref, cand, i, j) in g
    ensures !SideFull(g, ref, cand, j) ==> j in g.Values
  {
    if !SideFull(g, ref, cand, j) {
      var k: nat :| k < |ref| && Similar(ref[k], cand[j]) && k !in g;
      assert k in g || j in g.Values;
    }
  }

  /** Two tokens of one matching are charged differently. */
  lemma ChargedApart(g: map<nat, nat>, ref: seq<string>, cand: seq<string>, i: nat, j: nat, k: nat, l: nat)
    requires Clustered(ref, cand) && IsMatching(g, ref, cand) && Maximal(g, ref, cand)
    requires i < |ref| && j < |cand| && Similar(ref[i], cand[j]) && k < |ref| && l < |cand| && Similar(ref[k], cand[l])
    requires i != k && j != l
    ensures Charged(g, ref, cand, i, j) != Charged(g, ref, cand, k, l)
  {
    ChargedMatched(g, ref, cand, i, j); ChargedMatched(g, ref, cand, k, l);
    if SideFull(g, ref, cand, j) && !SideFull(g, ref, cand, l) { FullNotPartner(g, ref, cand, i, j, l); }
    if SideFull(g, ref, cand, l) && !SideFull(g, ref, cand, j) { FullNotPartner(g, ref, cand, k, l, j); }
  }

  /** Fullness is a property of the whole cluster. */
  lemma FullTogether(g: map<nat, nat>, ref: seq<string>, cand: seq<string>, i: nat, j: nat, l: nat)
    requires Clustered(ref, cand) && i < |ref| && j < |cand| && l < |cand| && SideFull(g, ref, cand, j)
    requires Similar(ref[i], cand[j]) && Similar(ref[i], cand[l])
    ensures SideFull(g, ref, cand, l)
  {
    forall k: nat | k < |ref| && Similar(ref[k], cand[l]) ensures k in g { assert Similar(ref[k], cand[j]); }
  }

  lemma FullNotPartner(g: map<nat, nat>, ref: seq<string>, cand: seq<string>, i: nat, j: nat, l: nat)
    requires Clustered(ref, cand) && IsMatching(g, ref, cand) && l in g.Values
    requires i < |ref| && j < |cand| && l < |cand| && Similar(ref[i], cand[j])
    requires SideFull(g, ref, cand, j) && !SideFull(g, ref, cand, l)
    ensures Partner(g, l) != i
  {
    if Partner(g, l) == i { FullTogether(g, ref, cand, i, j, l); }
  }

  /** Within clusters no matching beats the greedy one. */
  lemma ClusteredIsOptimal(ref: seq<string>, cand: seq<string>, m: map<nat, nat>)
    requires Clustered(ref, cand) && IsMatching(m, ref, cand)
    ensures |m| <= |Greedy(ref, cand)|
  {
    GreedyIsMaximalMatching(ref, cand);
    NoMatchingIsLarger(ref, cand, m, Greedy(ref, cand));
  }

  lemma NoMatchingIsLarger(ref: seq<string>, cand: seq<string>, m: map<nat, nat>, g: map<nat, nat>)
    requires Clustered(ref, cand) && IsMatching(m, ref, cand) && IsMatching(g, ref, cand) && Maximal(g, ref, cand)
    ensures |m| <= |g|
  {
    var charge: map<nat, nat> := map i | i in m :: Charged(g, ref, cand, i, m[i]);
    forall i | i in m ensures charge[i] in g.Keys { ChargedMatched(g, ref, cand, i, m[i]); }
    forall i, k | i in m && k in m && i != k ensures charge[i] != charge[k] {
      ChargedApart(g, ref, cand, i, m[i], k, m[k]);
    }
    assert charge.Keys == m.Keys;
    InjectiveImage(charge, m.Keys, g.Keys);
    assert |m| == |m.Keys| && |g| == |g.Keys|;
  }

  ghost predicate DrawnFrom(s: seq<string>, t: seq<string>) { forall x | x in s :: x in t }

  /** On any selection of these tokens, in any order, greedy finds a largest matching. */
  ghost predicate GreedyAlwaysBest(ref: seq<string>, cand: seq<string>) {
    forall r: seq<string>, c: seq<string>, m: map<nat, nat> | DrawnFrom(r, ref) && DrawnFrom(c, cand) && IsMatching(m, r, c) ::
      |m| <= |Greedy(r, c)|
  }

  lemma ClusteredIsAlwaysBest(ref: seq<string>, cand: seq<string>, r: seq<string>, c: seq<string>, m: map<nat, nat>)
    requires Clustered(ref, cand) && DrawnFrom(r, ref) && DrawnFrom(c, cand) && IsMatching(m, r, c)
    ensures |m| <= |Greedy(r, c)|
  {
    assert Clustered(r, c);
    ClusteredIsOptimal(r, c, m);
  }

  lemma NotBestOutsideClusters(ref: seq<string>, cand: seq<string>)
    requires !Clustered(ref, cand)
    ensures exists r: seq<string>, c: seq<string>, m: map<nat, nat> ::
      DrawnFrom(r, ref) && DrawnFrom(c, cand) && IsMatching(m, r, c) && |m| > |Greedy(r, c)|
  {
    var r, s, c, d :| r in ref && s in ref && c in cand && d in cand
      && Similar(r, c) && Similar(s, c) && Similar(s, d) && !Similar(r, d);
    GreedyOfTwo(s, r, c, d);
    var m: map<nat, nat> :| IsMatching(m, [s, r], [c, d]) && |m| == 2;
    assert DrawnFrom([s, r], ref) && DrawnFrom([c, d], cand);
  }

  /** Greedy is always best exactly when the tokens cluster. */
  lemma GreedyIsBestExactlyWhenClustered(ref: seq<string>, cand: seq<string>)
    ensures GreedyAlwaysBest(ref, cand) <==> Clustered(ref, cand)
  {
    if Clustered(ref, cand) {
      forall r: seq<string>, c: seq<string>, m: map<nat, nat> | DrawnFrom(r, ref) && DrawnFrom(c, cand) && IsMatching(m, r, c)
        ensures |m| <= |Greedy(r, c)|
      {
        ClusteredIsAlwaysBest(ref, cand, r, c, m);
      }
    } else {
      NotBestOutsideClusters(ref, cand);
    }
  }

  // ---- the same words in another order

  /** Similarity is transitive on these tokens. */
  ghost predicate Transitive(t: seq<string>) {
    forall x, y, z | x in t && y in t && z in t && Similar(x, y) && Similar(y, z) :: Similar(x, z)
  }

  lemma TransitiveClusters(t: seq<string>, r: seq<string>, c: seq<string>)
    requires Transitive(t) && DrawnFrom(r, t) && DrawnFrom(c, t)
    ensures Clustered(r, c)
  {
    forall x, s, y, d | x in r && s in r && y in c && d in c && Similar(x, y) && Similar(s, y) && Similar(s, d)
      ensures Similar(x, d)
    {
      assert Similar(y, s);
      assert Similar(x, s);
    }
  }

  /** The position of each token of one list in the other. */
  lemma ReorderingMatches(r: seq<string>, c: seq<string>) returns (m: map<nat, nat>)
    requires Distinct(r) && DrawnFrom(r, c)
    ensures IsMatching(m, r, c) && |m| == |r|
  {
    m := map i: nat | i < |r| :: Position(r[i], c);
    forall i, j | i in m && j in m && i != j ensures m[i] != m[j] {
      assert r[i] != r[j] by { if i < j { assert r[i] != r[j]; } else { assert r[j] != r[i]; } }
    }
    assert m.Keys == UpTo(|r|) && |m| == |m.Keys|;
  }

  ghost function Position(x: string, s: seq<string>): (i: nat)
    requires x in s
    ensures i < |s| && s[i] == x
  {
    var i: nat :| i < |s| && s[i] == x;
    i
  }

  /** Where similarity is transitive, any order of the same distinct tokens is matched in full. */
  lemma ReorderingIsMatched(t: seq<string>, r: seq<string>, c: seq<string>)
    requires Transitive(t) && Distinct(r) && DrawnFrom(r, t) && DrawnFrom(c, t) && DrawnFrom(r, c)
    ensures |Greedy(r, c)| == |r|
  {
    TransitiveClusters(t, r, c);
    var m := ReorderingMatches(r, c);
    ClusteredIsOptimal(r, c, m);
    GreedyBounds(r, c);
  }

  // ---- where similarity is not transitive

  lemma PrefixTransitive(a: string, b: string, c: string)
    requires a <= b && b <= c
    ensures a <= c
  {
    assert c[..|a|] == c[..|b|][..|a|];
  }

  lemma PrefixesComparable(a: string, b: string, c: string)
    requires a <= c && b <= c
    ensures a <= b || b <= a
  {
    assert a == c[..|a|] && b == c[..|b|];
    if |a| <= |b| { assert b[..|a|] == a; } else { assert a[..|b|] == b; }
  }

  lemma {:induction false} BytesGrow(a: string, b: string)
    requires a <= b
    ensures Bytes(a) <= Bytes(b)
  {
    if a != [] {
      assert a[0] == b[0] && a[1..] <= b[1..];
      BytesGrow(a[1..], b[1..]);
    }
  }

  /** A token is long enough to be similar to others. */
  predicate Long(x: string) { Bytes(x) >= 4 }

  /** Dissimilar tokens with a common similar one: both extend it. */
  lemma Fork(x: string, y: string, z: string)
    requires Similar(x, y) && Similar(y, z) && !Similar(x, z)
    ensures Long(x) && Long(y) && Long(z) && y <= x && y <= z && x != y && y != z
    ensures !(x <= z) && !(z <= x)
  {
    assert x != y && y != z && Long(x) && Long(y) && Long(z);
    if x <= y && y <= z { PrefixTransitive(x, y, z); }
    if x <= y && z <= y { PrefixesComparable(x, z, y); }
    if z <= y && y <= x { PrefixTransitive(z, y, x); }
  }

  function Longest(t: seq<string>): nat {
    if t == [] then 0 else if |t[0]| > Longest(t[1..]) then |t[0]| else Longest(t[1..])
  }

  lemma {:induction false} NoneLonger(t: seq<string>, x: string)
    requires x in t
    ensures |x| <= Longest(t)
  {
    if x != t[0] { NoneLonger(t[1..], x); }
  }

  /** A token nothing extends any further. */
  lemma {:induction false} LastExtension(t: seq<string>, x: string) returns (b: string)
    requires x in t
    ensures b in t && x <= b && forall u | u in t && b <= u :: u == b
    decreases Longest(t) - |x|
  {
    if exists u :: u in t && x <= u && u != x {
      var u :| u in t && x <= u && u != x;
      NoneLonger(t, u);
      assert |u| > |x|;
      b := LastExtension(t, u);
      PrefixTransitive(x, u, b);
    } else {
      b := x;
    }
  }

  /** The tokens with a property, in order. */
  function Keep(p: string -> bool, t: seq<string>): seq<string> {
    if t == [] then [] else (if p(t[0]) then [t[0]] else []) + Keep(p, t[1..])
  }

  lemma {:induction false} KeepExactly(p: string -> bool, t: seq<string>)
    ensures forall x :: x in Keep(p, t) <==> x in t && p(x)
    ensures Distinct(t) ==> Distinct(Keep(p, t))
  {
    if t != [] {
      KeepExactly(p, t[1..]);
      if Distinct(t) { assert t[0] !in t[1..]; }
    }
  }

  /** The tokens of `s`, then the other tokens of `t`. */
  function StartingWith(s: seq<string>, t: seq<string>): seq<string> { s + Keep(x => x !in s, t) }

  lemma StartingPermutes(s: seq<string>, t: seq<string>)
    requires Distinct(s) && Distinct(t) && DrawnFrom(s, t)
    ensures multiset(StartingWith(s, t)) == multiset(t) && Distinct(StartingWith(s, t))
  {
    var rest := Keep(x => x !in s, t);
    KeepExactly(x => x !in s, t);
    forall i, j | 0 <= i < j < |s + rest| ensures (s + rest)[i] != (s + rest)[j] {
      if i < |s| <= j { assert (s + rest)[i] in s && (s + rest)[j] in rest; }
    }
    forall x ensures x in s + rest <==> x in t {}
    DistinctSameElements(s + rest, t);
  }

  lemma {:induction false} MatchedAlong(ref: seq<string>, cand: seq<string>, n: nat)
    requires n <= |ref| && n <= |cand| && forall k | 0 <= k < n :: Similar(ref[k], cand[k])
    ensures MatchesUpTo(Greedy(ref[..n], cand), n)
  {
    if n == 0 {
      NothingMatched(cand);
    } else {
      MatchedAlong(ref, cand, n - 1);
      OneMoreMatched(ref[..n - 1], ref[n - 1], cand);
      assert ref[..n] == ref[..n - 1] + [ref[n - 1]];
    }
  }

  /** A reference token passed over is never matched. */
  lemma {:induction false} PassedOver(ref: seq<string>, cand: seq<string>, n: nat, k: nat)
    requires k < n <= |ref| && k !in Greedy(ref[..n], cand)
    ensures k !in Greedy(ref, cand)
    decreases |ref| - n
  {
    if n == |ref| {
      assert ref[..n] == ref;
    } else {
      GreedyStep(ref[..n], ref[n], cand);
      assert ref[..n + 1] == ref[..n] + [ref[n]];
      PassedOver(ref, cand, n + 1, k);
    }
  }

  lemma PassedOverCounts(ref: seq<string>, cand: seq<string>, k: nat)
    requires k < |ref| && k !in Greedy(ref, cand)
    ensures |Greedy(ref, cand)| < |ref|
  {
    GreedyIsMaximalMatching(ref, cand);
    var g := Greedy(ref, cand);
    CardinalityMonotone(g.Keys + {k}, UpTo(|ref|));
    assert |g| == |g.Keys|;
  }

  /** The first candidates go to the first tokens one by one, and when they are used up
      the next token has none left. */
  lemma UsedUp(ref: seq<string>, cand: seq<string>, n: nat)
    requires n < |ref| && n <= |cand| && forall k | 0 <= k < n :: Similar(ref[k], cand[k])
    requires forall j: nat | n <= j < |cand| :: !Similar(ref[n], cand[j])
    ensures |Greedy(ref, cand)| < |ref|
  {
    MatchedAlong(ref, cand, n);
    NoneLeft(ref[..n], ref[n], cand);
    assert ref[..n + 1] == ref[..n] + [ref[n]];
    PassedOver(ref, cand, n + 1, n);
    PassedOverCounts(ref, cand, n);
  }

  /** Tokens similar to `b`, other than `b` and `y`. */
  function Near(b: string, y: string): string -> bool { u => Similar(u, b) && u != b && u != y }

  /** The tokens similar to `b`, beginning with `y` and ending with `b` itself. */
  function Family(t: seq<string>, b: string, y: string): seq<string> { [y] + Keep(Near(b, y), t) + [b] }

  lemma FamilyFacts(t: seq<string>, b: string, y: string)
    requires Distinct(t) && b in t && y in t && b != y && Similar(y, b) && Long(b)
    requires forall u | u in t && b <= u :: u == b
    ensures var f := Family(t, b, y);
      && Distinct(f) && DrawnFrom(f, t) && f[0] == y && Last(f) == b
      && (forall u | u in t && Similar(b, u) :: u in f)
      && (forall u, v | u in f && v in f :: Similar(u, v)) && (forall u | !Similar(u, b) :: u !in f)
  {
    var near, f := Keep(Near(b, y), t), Family(t, b, y);
    KeepExactly(Near(b, y), t);
    forall i, j | 0 <= i < j < |f| ensures f[i] != f[j] {
      if 0 < i && j < |f| - 1 { assert near[i - 1] != near[j - 1]; }
      if 0 < i < |f| - 1 { assert f[i] in near; }
      if 0 < j < |f| - 1 { assert f[j] in near; }
    }
    forall u | u in f ensures u in t && u <= b && Long(u) {
      if u != y && u != b { assert u in near; }
      assert u == b || Similar(u, b);
      if b <= u { assert u == b; }
    }
    forall u, v | u in f && v in f ensures Similar(u, v) { PrefixesComparable(u, v, b); }
    forall u | u in t && Similar(b, u) ensures u in f { if u != y && u != b { assert u in near; } }
  }

  /** The order that loses a token: a stranger takes the first of the family, each of
      the family takes the next one, and the last finds nobody left. */
  lemma FamilyUsedUp(t: seq<string>, b: string, f: seq<string>, c: string)
    requires |f| > 0 && Last(f) == b && (forall u, v | u in f && v in f :: Similar(u, v)) && Similar(c, f[0])
    requires forall u | u in t && Similar(b, u) :: u in f
    ensures |Greedy(StartingWith([c] + f, t), StartingWith(f, t))| < |StartingWith([c] + f, t)|
  {
    var ref, cand := StartingWith([c] + f, t), StartingWith(f, t);
    forall k | 0 <= k < |f| ensures Similar(ref[k], cand[k]) {
      assert cand[k] == f[k] && ref[k] == ([c] + f)[k];
      if k > 0 { assert f[k - 1] in f && f[k] in f; }
    }
    assert ref[|f|] == ([c] + f)[|f|] == b;
    KeepExactly(x => x !in f, t);
    forall j: nat | |f| <= j < |cand| ensures !Similar(ref[|f|], cand[j]) {
      assert cand[j] in Keep(x => x !in f, t);
    }
    UsedUp(ref, cand, |f|);
  }

  lemma StrangerFirst(f: seq<string>, c: string)
    requires Distinct(f) && c !in f
    ensures Distinct([c] + f)
  {
    forall i, j | 0 <= i < j < |[c] + f| ensures ([c] + f)[i] != ([c] + f)[j] {
      if i > 0 { assert f[i - 1] != f[j - 1]; } else { assert f[j - 1] in f; }
    }
  }

  /** Where similarity is not transitive, two orders of the same tokens lose a match. */
  lemma OrdersThatLose(t: seq<string>) returns (ref: seq<string>, cand: seq<string>)
    requires Distinct(t) && !Transitive(t)
    ensures multiset(ref) == multiset(t) && multiset(cand) == multiset(t) && |Greedy(ref, cand)| < |ref|
  {
    var x, y, z :| x in t && y in t && z in t && Similar(x, y) && Similar(y, z) && !Similar(x, z);
    Fork(x, y, z);
    var b := LastExtension(t, x);
    EndOfFork(x, y, z, b);
    var f := Family(t, b, y);
    FamilyFacts(t, b, y);
    StrangerFirst(f, z);
    FamilyUsedUp(t, b, f, z);
    StartingPermutes([z] + f, t); StartingPermutes(f, t);
    ref, cand := StartingWith([z] + f, t), StartingWith(f, t);
  }

  lemma EndOfFork(x: string, y: string, z: string, b: string)
    requires Long(x) && Long(y) && Long(z) && y <= x && y <= z && x != y && !(x <= z) && !(z <= x) && x <= b
    ensures Long(b) && y != b && Similar(y, b) && Similar(z, y) && !Similar(z, b) && !Similar(b, z)
  {
    BytesGrow(x, b);
    PrefixTransitive(y, x, b);
    if b <= z { PrefixTransitive(x, b, z); }
    if z <= b { PrefixesComparable(x, z, b); }
  }
}
