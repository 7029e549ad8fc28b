/** EditDistance: the two-row dynamic program computes the least cost of an edit
    script, and that cost is a metric. */
module EditDistance {
  import opened Sequences

  // ---- edit scripts

  datatype Edit<T> = Replace(from: T, to: T) | Delete(gone: T) | Insert(added: T)

  function Reads<T>(e: Edit<T>): seq<T> {
    match e case Replace(x, _) => [x] case Delete(x) => [x] case Insert(_) => []
  }

  function Writes<T>(e: Edit<T>): seq<T> {
    match e case Replace(_, y) => [y] case Delete(_) => [] case Insert(y) => [y]
  }

  /** The text a script edits, and the text it produces. */
  function Source<T>(s: seq<Edit<T>>): seq<T> {
    if s == [] then [] else Source(Front(s)) + Reads(Last(s))
  }

  function Target<T>(s: seq<Edit<T>>): seq<T> {
    if s == [] then [] else Target(Front(s)) + Writes(Last(s))
  }

  /** Keeping a symbol is free; every other edit costs one. */
  function EditCost<T(==)>(e: Edit<T>): nat {
    if e.Replace? && e.from == e.to then 0 else 1
  }

  function Cost<T(==)>(s: seq<Edit<T>>): nat {
    if s == [] then 0 else Cost(Front(s)) + EditCost(Last(s))
  }

  lemma Extend<T>(s: seq<Edit<T>>, e: Edit<T>)
    ensures Source(s + [e]) == Source(s) + Reads(e)
    ensures Target(s + [e]) == Target(s) + Writes(e)
    ensures Cost(s + [e]) == Cost(s) + EditCost(e)
  {
    assert Front(s + [e]) == s;
  }

  // ---- the recurrence of the table

  function Min3(a: int, b: int, c: int): int {
    if a <= b && a <= c then a else if b <= a && b <= c then b else c
  }

  /** Distance between two texts, by their last symbols. */
  function Distance<T(==)>(a: seq<T>, b: seq<T>): nat
    decreases |a| + |b|
  {
    if a == [] then |b|
    else if b == [] then |a|
    else
      Min3(Distance(a, Front(b)) + 1, Distance(Front(a), b) + 1,
           Distance(Front(a), Front(b)) + (if Last(a) != Last(b) then 1 else 0))
  }

  lemma Recurrence<T>(a: seq<T>, b: seq<T>, left: nat, above: nat, diagonal: nat)
    requires a != [] && b != []
    requires left == Distance(a, Front(b)) && above == Distance(Front(a), b) && diagonal == Distance(Front(a), Front(b))
    ensures Distance(a, b) == Min3(left + 1, above + 1, diagonal + (if Last(a) != Last(b) then 1 else 0))
  {}

  /** One cell of the table from its three neighbours. */
  lemma Cell<T>(a: seq<T>, b: seq<T>, i: int, j: int, left: nat, above: nat, diagonal: nat)
    requires 0 < i <= |a| && 0 < j <= |b|
    requires left == Distance(a[..i], b[..j - 1]) && above == Distance(a[..i - 1], b[..j])
    requires diagonal == Distance(a[..i - 1], b[..j - 1])
    ensures Distance(a[..i], b[..j]) == Min3(left + 1, above + 1, diagonal + (if a[i - 1] != b[j - 1] then 1 else 0))
  {
    var p, q := a[..i], b[..j];
    assert Front(p) == a[..i - 1] && Front(q) == b[..j - 1];
    Recurrence(p, q, left, above, diagonal);
  }

  /** Row `i` of the table from row `i - 1`. */
  method FillRow<T(==)>(ra: seq<T>, rb: seq<T>, i: int, prev: array<nat>, curr: array<nat>)
    requires 0 < i <= |ra| && prev != curr && prev.Length == curr.Length == |rb| + 1
    requires forall k | 0 <= k <= |rb| :: prev[k] == Distance(ra[..i - 1], rb[..k])
    modifies curr
    ensures forall k | 0 <= k <= |rb| :: curr[k] == Distance(ra[..i], rb[..k])
  {
    curr[0] := i;
    for j := 1 to |rb| + 1
      invariant forall k | 0 <= k < j :: curr[k] == Distance(ra[..i], rb[..k])
    {
      var cost := 0;
      if ra[i - 1] != rb[j - 1] { cost := 1; }
      Cell(ra, rb, i, j, curr[j - 1], prev[j], prev[j - 1]);
      curr[j] := Min3(curr[j - 1] + 1, prev[j] + 1, prev[j - 1] + cost);
    }
  }

  method ComputeDistance<T(==)>(ra: seq<T>, rb: seq<T>) returns (d: nat)
    ensures d == Distance(ra, rb)
  {
    if |ra| == 0 { return |rb|; }
    if |rb| == 0 { return |ra|; }
    var n := |rb|;
    var prev := new nat[n + 1](_ => 0);
    var curr := new nat[n + 1](_ => 0);
    for j := 0 to n + 1
      invariant forall k | 0 <= k < j :: prev[k] == k
    {
      prev[j] := j;
    }
    for i := 1 to |ra| + 1
      invariant prev != curr && prev.Length == curr.Length == n + 1
      invariant fresh(prev) && fresh(curr)
      invariant forall k | 0 <= k <= n :: prev[k] == Distance(ra[..i - 1], rb[..k])
    {
      FillRow(ra, rb, i, prev, curr);
      prev, curr := curr, prev;
    }
    assert ra[..|ra|] == ra && rb[..n] == rb;
    return prev[n];
  }

  // ---- the distance is the least cost of a script

  lemma {:induction false} InsertAll<T>(b: seq<T>) returns (s: seq<Edit<T>>)
    ensures Source(s) == [] && Target(s) == b && Cost(s) == |b|
  {
    s := [];
    if b != [] {
      s := InsertAll(Front(b));
      s := WithEdit(s, Insert(Last(b)));
      FrontLast(b);
    }
  }

  lemma {:induction false} DeleteAll<T>(a: seq<T>) returns (s: seq<Edit<T>>)
    ensures Source(s) == a && Target(s) == [] && Cost(s) == |a|
  {
    s := [];
    if a != [] {
      s := DeleteAll(Front(a));
      s := WithEdit(s, Delete(Last(a)));
      FrontLast(a);
    }
  }

  /** A cheapest script. */
  lemma {:induction false} BestScript<T>(a: seq<T>, b: seq<T>) returns (s: seq<Edit<T>>)
    ensures Source(s) == a && Target(s) == b && Cost(s) == Distance(a, b)
    decreases |a| + |b|
  {
    if a == [] {
      s := InsertAll(b);
    } else if b == [] {
      s := DeleteAll(a);
    } else {
      var left := BestScript(a, Front(b));
      var above := BestScript(Front(a), b);
      var diagonal := BestScript(Front(a), Front(b));
      FrontLast(a); FrontLast(b);
      var l, u, d := Cost(left), Cost(above), Cost(diagonal);
      Recurrence(a, b, l, u, d);
      if l <= u && Distance(a, b) == l + 1 {
        s := WithEdit(left, Insert(Last(b)));
      } else if Distance(a, b) == u + 1 {
        s := WithEdit(above, Delete(Last(a)));
      } else {
        s := WithEdit(diagonal, Replace(Last(a), Last(b)));
      }
    }
  }

  lemma WithEdit<T>(s: seq<Edit<T>>, e: Edit<T>) returns (longer: seq<Edit<T>>)
    ensures Cost(longer) == Cost(s) + EditCost(e)
    ensures Source(longer) == if e.Insert? then Source(s) else Source(s) + Reads(e)
    ensures Target(longer) == if e.Delete? then Target(s) else Target(s) + Writes(e)
  {
    longer := s + [e];
    Extend(s, e);
  }

  lemma DistanceSteps<T>(a: seq<T>, b: seq<T>, x: T, y: T)
    ensures Distance(a + [x], b) <= Distance(a, b) + 1
    ensures Distance(a, b + [y]) <= Distance(a, b) + 1
    ensures Distance(a + [x], b + [y]) <= Distance(a, b) + (if x != y then 1 else 0)
  {
    assert Front(a + [x]) == a && Front(b + [y]) == b;
  }

  lemma {:induction false} NoScriptIsCheaper<T>(s: seq<Edit<T>>)
    ensures Distance(Source(s), Target(s)) <= Cost(s)
  {
    if s != [] {
      var front, e := Front(s), Last(s);
      NoScriptIsCheaper(front);
      assert s == front + [e];
      Extend(front, e);
      match e {
        case Replace(x, y) => DistanceSteps(Source(front), Target(front), x, y);
        case Delete(x) => DistanceSteps(Source(front), Target(front), x, x); assert Target(front) + [] == Target(front);
        case Insert(y) => DistanceSteps(Source(front), Target(front), y, y); assert Source(front) + [] == Source(front);
      }
    }
  }

  /** The distance is attained by a script, and no script between the texts costs less. */
  lemma DistanceIsLeastCost<T>(a: seq<T>, b: seq<T>)
    ensures exists s: seq<Edit<T>> :: Source(s) == a && Target(s) == b && Cost(s) == Distance(a, b)
    ensures forall s: seq<Edit<T>> | Source(s) == a && Target(s) == b :: Distance(a, b) <= Cost(s)
  {
    var best := BestScript(a, b);
    forall s: seq<Edit<T>> | Source(s) == a && Target(s) == b ensures Distance(a, b) <= Cost(s) {
      NoScriptIsCheaper(s);
    }
  }

  // ---- a metric

  lemma {:induction false} DistanceSymmetric<T>(a: seq<T>, b: seq<T>)
    ensures Distance(a, b) == Distance(b, a)
    decreases |a| + |b|
  {
    if a != [] && b != [] {
      DistanceSymmetric(a, Front(b));
      DistanceSymmetric(Front(a), b);
      DistanceSymmetric(Front(a), Front(b));
    }
  }

  lemma {:induction false} DistanceZero<T>(a: seq<T>, b: seq<T>)
    ensures Distance(a, b) == 0 <==> a == b
    decreases |a| + |b|
  {
    if a != [] && b != [] {
      DistanceZero(Front(a), Front(b));
      FrontLast(a); FrontLast(b);
    }
  }

  function Max(a: int, b: int): int { if a >= b then a else b }

  lemma {:induction false} DistanceBounds<T>(a: seq<T>, b: seq<T>)
    ensures |a| - |b| <= Distance(a, b) && |b| - |a| <= Distance(a, b) <= Max(|a|, |b|)
    decreases |a| + |b|
  {
    if a != [] && b != [] {
      DistanceBounds(a, Front(b));
      DistanceBounds(Front(a), b);
      DistanceBounds(Front(a), Front(b));
    }
  }

  /** Two edits that pass one symbol, in one edit or none. */
  function Merge<T>(e: Edit<T>, f: Edit<T>): seq<Edit<T>> {
    match (e, f)
    case (Replace(x, _), Replace(_, z)) => [Replace(x, z)]
    case (Replace(x, _), Delete(_)) => [Delete(x)]
    case (Insert(_), Replace(_, z)) => [Insert(z)]
    case _ => []
  }

  /** Edit `a` into `b` and then `b` into `c` in one pass. */
  function Compose<T>(s: seq<Edit<T>>, t: seq<Edit<T>>): seq<Edit<T>>
    decreases |s| + |t|
  {
    if s != [] && Last(s).Delete? then Compose(Front(s), t) + [Last(s)]
    else if t != [] && Last(t).Insert? then Compose(s, Front(t)) + [Last(t)]
    else if s == [] || t == [] then []
    else Compose(Front(s), Front(t)) + Merge(Last(s), Last(t))
  }

  /** The last edits pass one symbol from the first script to the second. */
  lemma Fronts<T>(s: seq<Edit<T>>, t: seq<Edit<T>>)
    requires s != [] && t != [] && !Last(s).Delete? && !Last(t).Insert? && Target(s) == Source(t)
    ensures Target(Front(s)) == Source(Front(t)) && Writes(Last(s)) == Reads(Last(t))
  {
    var middle := Target(s);
    assert Front(middle) == Target(Front(s)) && [Last(middle)] == Writes(Last(s));
    assert Front(middle) == Source(Front(t)) && [Last(middle)] == Reads(Last(t));
  }

  lemma AppendMerged<T>(rest: seq<Edit<T>>, e: Edit<T>, f: Edit<T>)
    requires !e.Delete? && !f.Insert? && Writes(e) == Reads(f)
    ensures Source(rest + Merge(e, f)) == Source(rest) + Reads(e)
    ensures Target(rest + Merge(e, f)) == Target(rest) + Writes(f)
    ensures Cost(rest + Merge(e, f)) <= Cost(rest) + EditCost(e) + EditCost(f)
  {
    if Merge(e, f) == [] {
      assert rest + [] == rest;
    } else {
      assert Writes(e)[0] == Reads(f)[0];
      Extend(rest, Merge(e, f)[0]);
    }
  }

  lemma {:induction false} ComposeWorks<T>(s: seq<Edit<T>>, t: seq<Edit<T>>)
    requires Target(s) == Source(t)
    ensures Source(Compose(s, t)) == Source(s) && Target(Compose(s, t)) == Target(t)
    ensures Cost(Compose(s, t)) <= Cost(s) + Cost(t)
    decreases |s| + |t|
  {
    if s != [] && Last(s).Delete? {
      assert Target(s) == Target(Front(s));
      ComposeWorks(Front(s), t);
      Extend(Compose(Front(s), t), Last(s));
    } else if t != [] && Last(t).Insert? {
      assert Source(t) == Source(Front(t));
      ComposeWorks(s, Front(t));
      Extend(Compose(s, Front(t)), Last(t));
    } else if s != [] && t != [] {
      Fronts(s, t);
      ComposeWorks(Front(s), Front(t));
      AppendMerged(Compose(Front(s), Front(t)), Last(s), Last(t));
    }
  }

  lemma DistanceTriangle<T>(a: seq<T>, b: seq<T>, c: seq<T>)
    ensures Distance(a, c) <= Distance(a, b) + Distance(b, c)
  {
    var s := BestScript(a, b);
    var t := BestScript(b, c);
    ComposeWorks(s, t);
    NoScriptIsCheaper(Compose(s, t));
  }

  /** Zero exactly on equal texts, symmetric, and within the triangle inequality. */
  lemma DistanceIsMetric<T>(a: seq<T>, b: seq<T>, c: seq<T>)
    ensures Distance(a, b) == 0 <==> a == b
    ensures Distance(a, b) == Distance(b, a)
    ensures Distance(a, c) <= Distance(a, b) + Distance(b, c)
    ensures Distance(a, b) <= Max(|a|, |b|)
  {
    DistanceZero(a, b);
    DistanceSymmetric(a, b);
    DistanceTriangle(a, b, c);
    DistanceBounds(a, b);
  }
}
