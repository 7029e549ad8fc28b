/** Sorting by an arbitrary order, and the byte-wise order of Go strings.

    The repository sorts with sort.Slice and sort.SliceStable; what matters to
    the callers is that the result is a sorted permutation, that it is stable,
    and that it is the only one when no two elements tie. */
module Orders {

  ghost predicate TotalPreorder<T(!new)>(le: (T, T) -> bool) {
    && (forall x, y :: le(x, y) || le(y, x))
    && (forall x, y, z :: le(x, y) && le(y, z) ==> le(x, z))
  }

  ghost predicate SortedBy<T>(le: (T, T) -> bool, s: seq<T>) {
    forall i, j | 0 <= i < j < |s| :: le(s[i], s[j])
  }

  /** No two distinct elements of `s` tie. */
  ghost predicate NoTies<T>(le: (T, T) -> bool, s: seq<T>) {
    forall x, y | x in s && y in s && le(x, y) && le(y, x) :: x == y
  }

  function Insert<T>(le: (T, T) -> bool, x: T, s: seq<T>): seq<T> {
    if s == [] then [x]
    else if le(x, s[0]) then [x] + s
    else [s[0]] + Insert(le, x, s[1..])
  }

  /** The stable sort of `s`: `x` stays before the later elements it ties with. */
  function Sort<T>(le: (T, T) -> bool, s: seq<T>): seq<T> {
    if s == [] then [] else Insert(le, s[0], Sort(le, s[1..]))
  }

  lemma {:induction false} InsertPermutes<T>(le: (T, T) -> bool, x: T, s: seq<T>)
    ensures multiset(Insert(le, x, s)) == multiset{x} + multiset(s)
    ensures |Insert(le, x, s)| == |s| + 1
  {
    if s == [] || le(x, s[0]) {
    } else {
      InsertPermutes(le, x, s[1..]);
      assert s == [s[0]] + s[1..];
    }
  }

  lemma {:induction false} SortPermutes<T>(le: (T, T) -> bool, s: seq<T>)
    ensures multiset(Sort(le, s)) == multiset(s)
    ensures |Sort(le, s)| == |s|
    ensures forall x :: x in Sort(le, s) <==> x in s
  {
    if s == [] {
    } else {
      SortPermutes(le, s[1..]);
      InsertPermutes(le, s[0], Sort(le, s[1..]));
      assert s == [s[0]] + s[1..];
    }
    SameElements(Sort(le, s), s);
  }

  lemma SameElements<T>(a: seq<T>, b: seq<T>)
    requires multiset(a) == multiset(b)
    ensures forall x :: x in a <==> x in b
    ensures |a| == |b|
  {
    forall x ensures x in a <==> x in b {
      assert x in a <==> x in multiset(a);
      assert x in b <==> x in multiset(b);
    }
    assert |multiset(a)| == |a| && |multiset(b)| == |b|;
  }

  lemma {:induction false} InsertSorts<T(!new)>(le: (T, T) -> bool, x: T, s: seq<T>)
    requires TotalPreorder(le) && SortedBy(le, s)
    ensures SortedBy(le, Insert(le, x, s))
  {
    if s == [] {
    } else if le(x, s[0]) {
    } else {
      var r := Insert(le, x, s[1..]);
      InsertSorts(le, x, s[1..]);
      InsertPermutes(le, x, s[1..]);
      forall y | y in r ensures le(s[0], y) {
        assert y in multiset(r);
        if y != x { assert y in s[1..]; }
      }
    }
  }

  lemma {:induction false} SortSorts<T(!new)>(le: (T, T) -> bool, s: seq<T>)
    requires TotalPreorder(le)
    ensures SortedBy(le, Sort(le, s))
  {
    if s == [] {
    } else {
      SortSorts(le, s[1..]);
      InsertSorts(le, s[0], Sort(le, s[1..]));
    }
  }

  lemma FirstIsLeast<T(!new)>(le: (T, T) -> bool, s: seq<T>, x: T)
    requires SortedBy(le, s) && x in s
    ensures x == s[0] || le(s[0], x)
  {
    var i :| 0 <= i < |s| && s[i] == x;
  }

  lemma TailMultiset<T>(s: seq<T>)
    requires s != []
    ensures multiset(s[1..]) == multiset(s) - multiset{s[0]}
  {
    assert s == [s[0]] + s[1..];
  }

  /** A sorted permutation is unique when nothing ties. */
  lemma {:induction false} SortedUnique<T(!new)>(le: (T, T) -> bool, a: seq<T>, b: seq<T>)
    requires SortedBy(le, a) && SortedBy(le, b)
    requires multiset(a) == multiset(b) && NoTies(le, a)
    ensures a == b
  {
    SameElements(a, b);
    if a != [] {
      FirstIsLeast(le, a, b[0]); FirstIsLeast(le, b, a[0]);
      TailMultiset(a); TailMultiset(b);
      SortedUnique(le, a[1..], b[1..]);
      assert a == [a[0]] + a[1..] && b == [b[0]] + b[1..];
    }
  }

  /** Sorting forgets the order of its input when nothing ties. */
  lemma SortForgetsOrder<T(!new)>(le: (T, T) -> bool, a: seq<T>, b: seq<T>)
    requires TotalPreorder(le) && multiset(a) == multiset(b) && NoTies(le, a)
    ensures Sort(le, a) == Sort(le, b)
  {
    SortPermutes(le, a); SortPermutes(le, b);
    SortSorts(le, a); SortSorts(le, b);
    SortedUnique(le, Sort(le, a), Sort(le, b));
  }

  /** The elements of `s` that tie with `x`, in order. */
  function Ties<T>(le: (T, T) -> bool, x: T, s: seq<T>): seq<T> {
    if s == [] then []
    else (if le(x, s[0]) && le(s[0], x) then [s[0]] else []) + Ties(le, x, s[1..])
  }

  lemma {:induction false} InsertIsStable<T(!new)>(le: (T, T) -> bool, x: T, y: T, s: seq<T>)
    requires TotalPreorder(le)
    ensures Ties(le, x, Insert(le, y, s)) == Ties(le, x, [y] + s)
  {
    assert ([y] + s)[1..] == s;
    if s != [] && !le(y, s[0]) {
      InsertIsStable(le, x, y, s[1..]);
      assert ([y] + s[1..])[1..] == s[1..];
      assert Insert(le, y, s)[1..] == Insert(le, y, s[1..]);
    }
  }

  /** Sorting never swaps two elements that tie. */
  lemma {:induction false} SortIsStable<T(!new)>(le: (T, T) -> bool, x: T, s: seq<T>)
    requires TotalPreorder(le)
    ensures Ties(le, x, Sort(le, s)) == Ties(le, x, s)
  {
    if s != [] {
      SortIsStable(le, x, s[1..]);
      InsertIsStable(le, x, s[0], Sort(le, s[1..]));
      assert ([s[0]] + Sort(le, s[1..]))[1..] == Sort(le, s[1..]);
    }
  }

  // ---- distinct elements

  ghost predicate Distinct<T>(s: seq<T>) {
    forall i, j | 0 <= i < j < |s| :: s[i] != s[j]
  }

  lemma {:induction false} DistinctOccurOnce<T>(s: seq<T>, x: T)
    requires Distinct(s)
    ensures multiset(s)[x] <= 1
  {
    if s != [] {
      assert s == [s[0]] + s[1..];
      DistinctOccurOnce(s[1..], x);
      if x == s[0] { assert x !in multiset(s[1..]); }
    }
  }

  lemma DistinctPermutes<T>(a: seq<T>, b: seq<T>)
    requires Distinct(a) && multiset(a) == multiset(b)
    ensures Distinct(b)
  {
    forall i, j | 0 <= i < j < |b| ensures b[i] != b[j] {
      DistinctOccurOnce(a, b[i]);
      assert b == b[..i] + [b[i]] + b[i + 1..j] + [b[j]] + b[j + 1..];
    }
  }

  /** Distinct elements make the multiset. */
  lemma DistinctSameElements<T>(a: seq<T>, b: seq<T>)
    requires Distinct(a) && Distinct(b) && forall x :: x in a <==> x in b
    ensures multiset(a) == multiset(b)
  {
    forall x ensures multiset(a)[x] == multiset(b)[x] {
      DistinctOccurOnce(a, x); DistinctOccurOnce(b, x);
      assert x in a <==> x in multiset(a);
      assert x in b <==> x in multiset(b);
    }
  }

  // ---- images and sums

  function MapSeq<T, U>(f: T -> U, s: seq<T>): (r: seq<U>)
    ensures |r| == |s| && forall i | 0 <= i < |s| :: r[i] == f(s[i])
  {
    seq(|s|, i requires 0 <= i < |s| => f(s[i]))
  }

  lemma MapCons<T, U>(f: T -> U, x: T, s: seq<T>)
    ensures MapSeq(f, [x] + s) == [f(x)] + MapSeq(f, s)
    ensures multiset(MapSeq(f, [x] + s)) == multiset{f(x)} + multiset(MapSeq(f, s))
  {}

  function SumOf(s: seq<int>): int {
    if s == [] then 0 else s[0] + SumOf(s[1..])
  }

  lemma {:induction false} SumSplits(a: seq<int>, b: seq<int>)
    ensures SumOf(a + b) == SumOf(a) + SumOf(b)
  {
    if a == [] {
      assert a + b == b;
    } else {
      assert (a + b)[1..] == a[1..] + b;
      SumSplits(a[1..], b);
    }
  }

  lemma SumOfOne(n: int)
    ensures SumOf([n]) == n
  {
    assert SumOf([n]) == n + SumOf([n][1..]);
  }

  lemma ImageRemoved<T, U>(f: T -> U, pre: seq<T>, x: T, post: seq<T>)
    ensures multiset(MapSeq(f, pre + [x] + post)) == multiset{f(x)} + multiset(MapSeq(f, pre + post))
  {
    MapJoin(f, pre + [x], post); MapJoin(f, pre, [x]); MapJoin(f, pre, post);
    assert MapSeq(f, [x]) == [f(x)];
  }

  /** The images of a permutation are a permutation of the images. */
  lemma {:induction false} ImagePermutes<T, U>(f: T -> U, a: seq<T>, b: seq<T>)
    requires multiset(a) == multiset(b)
    ensures multiset(MapSeq(f, a)) == multiset(MapSeq(f, b))
  {
    SameElements(a, b);
    if a != [] {
      var pre, post := Around(a[0], b);
      TailMultiset(a);
      ImagePermutes(f, a[1..], pre + post);
      assert a == [a[0]] + a[1..];
      MapCons(f, a[0], a[1..]);
      ImageRemoved(f, pre, a[0], post);
    }
  }

  /** What surrounds an occurrence of `x`. */
  lemma Around<T>(x: T, s: seq<T>) returns (pre: seq<T>, post: seq<T>)
    requires x in s
    ensures s == pre + [x] + post && multiset(pre + post) == multiset(s) - multiset{x}
  {
    var j :| 0 <= j < |s| && s[j] == x;
    pre, post := s[..j], s[j + 1..];
    assert s == pre + [x] + post;
  }

  /** Sorting keeps the multiset of images. */
  lemma SortKeepsImage<T, U>(f: T -> U, le: (T, T) -> bool, s: seq<T>)
    ensures multiset(MapSeq(f, Sort(le, s))) == multiset(MapSeq(f, s))
  {
    SortPermutes(le, s);
    ImagePermutes(f, Sort(le, s), s);
  }

  lemma MapJoin<T, U>(f: T -> U, a: seq<T>, b: seq<T>)
    ensures MapSeq(f, a + b) == MapSeq(f, a) + MapSeq(f, b)
  {}

  lemma SumImageOneMore<T>(f: T -> int, a: seq<T>, x: T)
    ensures SumOf(MapSeq(f, a + [x])) == SumOf(MapSeq(f, a)) + f(x)
  {
    assert MapSeq(f, a + [x]) == MapSeq(f, a) + [f(x)];
    SumSplits(MapSeq(f, a), [f(x)]);
    SumOfOne(f(x));
  }

  lemma {:induction false} SumImageBounded<T>(f: T -> int, g: T -> int, s: seq<T>)
    requires forall x | x in s :: 0 <= f(x) <= g(x)
    ensures 0 <= SumOf(MapSeq(f, s)) <= SumOf(MapSeq(g, s))
  {
    if s != [] {
      SumImageBounded(f, g, s[1..]);
      MapCons(f, s[0], s[1..]); MapCons(g, s[0], s[1..]);
      assert s == [s[0]] + s[1..];
      assert MapSeq(f, s)[1..] == MapSeq(f, s[1..]) && MapSeq(g, s)[1..] == MapSeq(g, s[1..]);
    }
  }

  lemma {:induction false} SumNonNegative(s: seq<int>)
    requires forall i | 0 <= i < |s| :: s[i] >= 0
    ensures SumOf(s) >= 0
  {
    if s != [] { SumNonNegative(s[1..]); }
  }

  /** A sum depends on the multiset of its terms. */
  lemma {:induction false} SumPermutes(a: seq<int>, b: seq<int>)
    requires multiset(a) == multiset(b)
    ensures SumOf(a) == SumOf(b)
  {
    SameElements(a, b);
    if a != [] {
      var pre, post := Around(a[0], b);
      TailMultiset(a);
      SumPermutes(a[1..], pre + post);
      SumSplits(pre + [a[0]], post); SumSplits(pre, [a[0]]); SumSplits(pre, post);
      SumOfOne(a[0]);
    }
  }

  // ---- orders

  function IntLe(a: int, b: int): bool { a <= b }

  lemma IntLeOrders()
    ensures TotalPreorder(IntLe)
    ensures forall s :: NoTies(IntLe, s)
  {}

  /** Go's order on strings. */
  predicate LexLe(a: string, b: string) {
    a == [] || (b != [] && (a[0] < b[0] || (a[0] == b[0] && LexLe(a[1..], b[1..]))))
  }

  lemma {:induction false} LexTotal(a: string, b: string)
    ensures LexLe(a, b) || LexLe(b, a)
    ensures LexLe(a, b) && LexLe(b, a) ==> a == b
  {
    if a != [] && b != [] {
      LexTotal(a[1..], b[1..]);
      assert a == [a[0]] + a[1..] && b == [b[0]] + b[1..];
    }
  }

  lemma {:induction false} LexTransitive(a: string, b: string, c: string)
    requires LexLe(a, b) && LexLe(b, c)
    ensures LexLe(a, c)
  {
    if a != [] && a[0] == b[0] == c[0] {
      LexTransitive(a[1..], b[1..], c[1..]);
    }
  }

  lemma LexOrders()
    ensures TotalPreorder(LexLe)
    ensures forall x, y :: LexLe(x, y) && LexLe(y, x) ==> x == y
  {
    forall x, y ensures (LexLe(x, y) || LexLe(y, x)) && (LexLe(x, y) && LexLe(y, x) ==> x == y) {
      LexTotal(x, y);
    }
    forall x, y, z | LexLe(x, y) && LexLe(y, z) ensures LexLe(x, z) {
      LexTransitive(x, y, z);
    }
  }
}
