/** Go's signed 64-bit integers and their wrap-around. */
module Integers {
  const MAX_INT64 := 0x7FFF_FFFF_FFFF_FFFF
  const TWO_TO_THE_64 := 0x1_0000_0000_0000_0000

  /** A Go int64. */
  type int64 = x: int | -0x8000_0000_0000_0000 <= x <= MAX_INT64

  predicate Congruent(a: int, b: int) { (a - b) % TWO_TO_THE_64 == 0 }

  /** What an int64 variable holds after `n` is assigned to it. */
  function Wrap(n: int): (w: int64)
    ensures Congruent(w, n)
    ensures -0x8000_0000_0000_0000 <= n <= MAX_INT64 ==> w == n
  {
    (n + MAX_INT64 + 1) % TWO_TO_THE_64 - MAX_INT64 - 1
  }

  /** Wrapping never raises a non-negative number, and keeps it exactly if it fits. */
  lemma WrapLoses(n: nat)
    ensures Wrap(n) <= n && (Wrap(n) == n <==> n <= MAX_INT64)
  {}

  lemma CongruentAdds(a: int, b: int, c: int, d: int)
    requires Congruent(a, b) && Congruent(c, d)
    ensures Congruent(a + c, b + d)
  {}

  /** Wrapping at every addition is wrapping once at the end. */
  lemma WrapAbsorbs(a: int, b: int)
    ensures Wrap(Wrap(a) + b) == Wrap(a + b)
  {}
}
