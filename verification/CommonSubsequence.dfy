/** lcsLen: the table of the longest common subsequence. */
module CommonSubsequence {
  import opened Sequences

  /** `x` is obtained from `s` by dropping elements: increasing positions of `s`
      spell it. */
  ghost predicate Spells<T>(positions: seq<int>, x: seq<T>, s: seq<T>) {
    && |positions| == |x|
    && (forall i | 0 <= i < |x| :: 0 <= positions[i] < |s| && s[positions[i]] == x[i])
    && (forall i, j | 0 <= i < j < |x| :: positions[i] < positions[j])
  }

  ghost predicate IsSubsequence<T>(x: seq<T>, s: seq<T>) {
    exists positions: seq<int> :: Spells(positions, x, s)
  }

  function Length<T(==)>(a: seq<T>, b: seq<T>): nat
    decreases |a| + |b|
  {
    if a == [] || b == [] then 0
    else if Last(a) == Last(b) then Length(Front(a), Front(b)) + 1
    else if Length(Front(a), b) >= Length(a, Front(b)) then Length(Front(a), b)
    else Length(a, Front(b))
  }

  lemma Cell<T>(a: seq<T>, b: seq<T>, i: int, j: int)
    requires 0 < i <= |a| && 0 < j <= |b|
    ensures Length(a[..i], b[..j]) ==
      if a[i - 1] == b[j - 1] then Length(a[..i - 1], b[..j - 1]) + 1
      else if Length(a[..i - 1], b[..j]) >= Length(a[..i], b[..j - 1]) then Length(a[..i - 1], b[..j])
      else Length(a[..i], b[..j - 1])
  {
    assert a[..i][..i - 1] == a[..i - 1] && b[..j][..j - 1] == b[..j - 1];
  }

  method ComputeLength<T(==)>(a: seq<T>, b: seq<T>) returns (n: nat)
    ensures n == Length(a, b)
  {
    var dp := new nat[|a| + 1, |b| + 1]((_, _) => 0);
    for i := 1 to |a| + 1
      invariant forall x, y | 0 <= x < i && 0 <= y <= |b| :: dp[x, y] == Length(a[..x], b[..y])
      invariant forall x | 0 <= x <= |a| :: dp[x, 0] == 0
    {
      for j := 1 to |b| + 1
        invariant forall x, y | 0 <= x < i && 0 <= y <= |b| :: dp[x, y] == Length(a[..x], b[..y])
        invariant forall y | 0 <= y < j :: dp[i, y] == Length(a[..i], b[..y])
        invariant forall x | 0 <= x <= |a| :: dp[x, 0] == 0
      {
        Cell(a, b, i, j);
        if a[i - 1] == b[j - 1] {
          dp[i, j] := dp[i - 1, j - 1] + 1;
        } else if dp[i - 1, j] >= dp[i, j - 1] {
          dp[i, j] := dp[i - 1, j];
        } else {
          dp[i, j] := dp[i, j - 1];
        }
      }
    }
    assert a[..|a|] == a && b[..|b|] == b;
    return dp[|a|, |b|];
  }

  // ---- optimality

  lemma Widen<T>(x: seq<T>, s: seq<T>, more: seq<T>)
    requires IsSubsequence(x, s)
    ensures IsSubsequence(x, s + more)
  {
    var positions: seq<int> :| Spells(positions, x, s);
    assert Spells(positions, x, s + more);
  }

  lemma Append<T>(x: seq<T>, s: seq<T>, e: T)
    requires IsSubsequence(x, s)
    ensures IsSubsequence(x + [e], s + [e])
  {
    var positions: seq<int> :| Spells(positions, x, s);
    assert Spells(positions + [|s|], x + [e], s + [e]);
  }

  /** Dropping the last symbol of both, or of `s` alone when they differ. */
  lemma DropLast<T>(x: seq<T>, s: seq<T>)
    requires x != [] && IsSubsequence(x, s)
    ensures s != [] && IsSubsequence(Front(x), Front(s))
    ensures Last(x) != Last(s) ==> IsSubsequence(x, Front(s))
  {
    var positions: seq<int> :| Spells(positions, x, s);
    assert 0 <= positions[|x| - 1] < |s|;
    assert Spells(Front(positions), Front(x), Front(s)) by {
      forall i | 0 <= i < |x| - 1 ensures positions[i] < |s| - 1 { assert positions[i] < positions[|x| - 1]; }
    }
    if Last(x) != Last(s) {
      assert positions[|x| - 1] < |s| - 1;
      assert Spells(positions, x, Front(s)) by {
        forall i | 0 <= i < |x| ensures positions[i] < |s| - 1 {
          if i < |x| - 1 { assert positions[i] < positions[|x| - 1]; }
        }
      }
    }
  }

  function Longest<T(==)>(a: seq<T>, b: seq<T>): seq<T>
    decreases |a| + |b|
  {
    if a == [] || b == [] then []
    else if Last(a) == Last(b) then Longest(Front(a), Front(b)) + [Last(a)]
    else if Length(Front(a), b) >= Length(a, Front(b)) then Longest(Front(a), b)
    else Longest(a, Front(b))
  }

  lemma EmptySubsequence<T>(s: seq<T>)
    ensures IsSubsequence([], s)
  {
    assert Spells([], [], s);
  }

  lemma {:induction false} LongestIsCommon<T>(a: seq<T>, b: seq<T>)
    ensures IsSubsequence(Longest(a, b), a) && IsSubsequence(Longest(a, b), b)
    ensures |Longest(a, b)| == Length(a, b)
    decreases |a| + |b|
  {
    if a == [] || b == [] {
      EmptySubsequence(a); EmptySubsequence(b);
    } else {
      assert a == Front(a) + [Last(a)] && b == Front(b) + [Last(b)];
      if Last(a) == Last(b) {
        LongestIsCommon(Front(a), Front(b));
        Append(Longest(Front(a), Front(b)), Front(a), Last(a));
        Append(Longest(Front(a), Front(b)), Front(b), Last(b));
      } else if Length(Front(a), b) >= Length(a, Front(b)) {
        LongestIsCommon(Front(a), b);
        Widen(Longest(a, b), Front(a), [Last(a)]);
      } else {
        LongestIsCommon(a, Front(b));
        Widen(Longest(a, b), Front(b), [Last(b)]);
      }
    }
  }

  lemma {:induction false} NoneIsLonger<T>(x: seq<T>, a: seq<T>, b: seq<T>)
    requires IsSubsequence(x, a) && IsSubsequence(x, b)
    ensures |x| <= Length(a, b)
    decreases |a| + |b|
  {
    if x != [] {
      DropLast(x, a); DropLast(x, b);
      if Last(a) == Last(b) {
        NoneIsLonger(Front(x), Front(a), Front(b));
      } else if Last(x) != Last(a) {
        NoneIsLonger(x, Front(a), b);
        SideLengths(a, b);
      } else {
        NoneIsLonger(x, a, Front(b));
        SideLengths(a, b);
      }
    }
  }

  lemma SideLengths<T>(a: seq<T>, b: seq<T>)
    requires a != [] && b != [] && Last(a) != Last(b)
    ensures Length(a, b) >= Length(Front(a), b) && Length(a, b) >= Length(a, Front(b))
  {}

  /** The table holds the length of a common subsequence, and no common
      subsequence is longer. */
  lemma LengthIsLongest<T>(a: seq<T>, b: seq<T>)
    ensures exists x: seq<T> :: IsSubsequence(x, a) && IsSubsequence(x, b) && |x| == Length(a, b)
    ensures forall x: seq<T> | IsSubsequence(x, a) && IsSubsequence(x, b) :: |x| <= Length(a, b)
  {
    LongestIsCommon(a, b);
    forall x: seq<T> | IsSubsequence(x, a) && IsSubsequence(x, b) ensures |x| <= Length(a, b) {
      NoneIsLonger(x, a, b);
    }
  }

  lemma LengthSymmetric<T>(a: seq<T>, b: seq<T>)
    ensures Length(a, b) == Length(b, a)
  {
    LongestIsCommon(a, b); LongestIsCommon(b, a);
    NoneIsLonger(Longest(a, b), b, a);
    NoneIsLonger(Longest(b, a), a, b);
  }

  lemma {:induction false} LengthBounds<T>(a: seq<T>, b: seq<T>)
    ensures Length(a, b) <= |a| && Length(a, b) <= |b|
    ensures Length(a, b) == |a| == |b| <==> a == b
    decreases |a| + |b|
  {
    if a != [] && b != [] {
      assert a == Front(a) + [Last(a)] && b == Front(b) + [Last(b)];
      LengthBounds(Front(a), Front(b));
      LengthBounds(Front(a), b);
      LengthBounds(a, Front(b));
    }
  }
}
