/**
 * Python's built-in `round` on an exact rational `n / d`: round half to even
 * ("banker's rounding"). The scoring engine applies it to percentages and to
 * the weighted mean; here both are exact rationals.
 */
module Rounding {

  /** Distance of `n / d` from the integer `k`, scaled by `2 * d`. */
  function TwiceError(n: int, d: int, k: int): int {
    2 * (n - k * d)
  }

  function Abs(x: int): nat {
    if x < 0 then -x else x
  }

  /** round(n / d) with ties going to the even neighbour. */
  function RoundHalfEven(n: int, d: int): (r: int)
    requires d > 0
    ensures -d <= TwiceError(n, d, r) <= d
    ensures Abs(TwiceError(n, d, r)) == d ==> r % 2 == 0
  {
    var q := n / d;
    var m := n % d;
    assert n - q * d == m;
    assert n - (q + 1) * d == m - d;
    if 2 * m < d then q
    else if 2 * m > d then q + 1
    else if q % 2 == 0 then q
    else q + 1
  }

  /** A non-zero multiple of `d` is at least `d` away from zero. */
  lemma {:induction false} MultipleAtLeast(t: int, d: int)
    requires d > 0 && t != 0
    ensures t > 0 ==> t * d >= d
    ensures t < 0 ==> t * d <= -d
    decreases if t < 0 then -t else t
  {
    if t > 1 {
      MultipleAtLeast(t - 1, d);
      assert t * d == (t - 1) * d + d;
    } else if t < -1 {
      MultipleAtLeast(t + 1, d);
      assert t * d == (t + 1) * d - d;
    }
  }

  /** The rounded value is the nearest integer: no integer is strictly closer. */
  lemma RoundIsNearest(n: int, d: int, k: int)
    requires d > 0
    ensures Abs(TwiceError(n, d, RoundHalfEven(n, d))) <= Abs(TwiceError(n, d, k))
  {
    var r := RoundHalfEven(n, d);
    if k != r {
      var p := (r - k) * d;
      assert p == r * d - k * d;
      MultipleAtLeast(r - k, d);
      assert TwiceError(n, d, k) == TwiceError(n, d, r) + 2 * p;
    }
  }

  /** An exact quotient is returned unchanged: round(k * d / d) == k. */
  lemma RoundExact(k: int, d: int)
    requires d > 0
    ensures RoundHalfEven(k * d, d) == k
  {
  }

  /** Floor division by a positive divisor is monotone. */
  lemma DivMonotone(n1: int, n2: int, d: int)
    requires d > 0 && n1 <= n2
    ensures n1 / d <= n2 / d
  {
    var q1, q2 := n1 / d, n2 / d;
    assert n1 == q1 * d + n1 % d && n2 == q2 * d + n2 % d;
    assert (q1 - q2) * d == q1 * d - q2 * d;
    if q1 > q2 {
      MultipleAtLeast(q1 - q2, d);
      assert false;
    }
  }

  /** Rounding is monotone in the numerator. */
  lemma RoundMonotone(n1: int, n2: int, d: int)
    requires d > 0 && n1 <= n2
    ensures RoundHalfEven(n1, d) <= RoundHalfEven(n2, d)
  {
    var q1, q2 := n1 / d, n2 / d;
    DivMonotone(n1, n2, d);
    assert n1 - q1 * d == n1 % d && n2 - q2 * d == n2 % d;
  }

  /** A ratio in [0, 1] rounds to a percentage in [0, 100]. */
  lemma RoundPercentInRange(a: int, d: int)
    requires d > 0 && 0 <= a <= d
    ensures 0 <= RoundHalfEven(a * 100, d) <= 100
  {
    RoundMonotone(0, a * 100, d);
    RoundExact(0, d);
    RoundMonotone(a * 100, 100 * d, d);
    RoundExact(100, d);
  }
}
