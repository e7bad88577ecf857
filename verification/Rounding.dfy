/** Rounding to whole paise, ties to even: what `Decimal.quantize(Decimal("0.01"))` does by default. */
module Rounding {

  function RoundHalfEven(x: real): int {
    var f := x.Floor;
    var rest := x - f as real;
    if rest < 0.5 || (rest == 0.5 && f % 2 == 0) then f else f + 1
  }

  /** The IEEE 754 reading of roundTiesToEven: the nearest integer, the even one of two. */
  predicate NearestEven(n: int, x: real) {
    var off := n as real - x;
    -0.5 <= off <= 0.5 && (off == 0.5 || off == -0.5 ==> n % 2 == 0)
  }

  lemma RoundsToNearest(x: real, n: int)
    ensures RoundHalfEven(x) == n <==> NearestEven(n, x)
  {
  }

  lemma RoundingIsMonotone(x: real, y: real)
    requires x <= y
    ensures RoundHalfEven(x) <= RoundHalfEven(y)
  {
  }

  lemma WholeStays(n: int)
    ensures RoundHalfEven(n as real) == n
  {
  }

  lemma ProductSign(a: real, b: real)
    requires a >= 0.0 && b >= 0.0
    ensures a * b >= 0.0
    ensures a > 0.0 && b > 0.0 ==> a * b > 0.0
  {
  }

  /**
   Two amounts less than one paisa apart round at most one paisa apart. At exactly one paisa they can
   round two apart, from 0.5 to 1.5, so the bound is strict.
   */
  lemma CloseStaysClose(x: real, y: real)
    requires y - x < 1.0
    ensures RoundHalfEven(y) <= RoundHalfEven(x) + 1
    ensures RoundHalfEven(1.5) == RoundHalfEven(0.5) + 2
  {
  }

  lemma HalfRoundsTo(t: int, n: int)
    requires 2 * n == t || (n % 2 == 0 && (2 * n == t - 1 || 2 * n == t + 1))
    ensures RoundHalfEven(t as real / 2.0) == n
  {
  }

  /** Halving an amount and doubling the rounded half: exact when even, one paisa off when odd. */
  lemma HalvesOf(t: nat)
    ensures 2 * RoundHalfEven(t as real / 2.0) - t
            == if t % 2 == 0 then 0 else if t % 4 == 1 then -1 else 1
  {
    if t % 2 == 0 {
      HalfRoundsTo(t, t / 2);
    } else if t % 4 == 1 {
      HalfRoundsTo(t, 2 * (t / 4));
    } else {
      HalfRoundsTo(t, 2 * (t / 4) + 2);
    }
  }
}
