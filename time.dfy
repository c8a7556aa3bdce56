/**
 * Timezone-aware `datetime` values as whole microseconds since the Unix
 * epoch, and the two ways the core turns a span of time into seconds.
 */
module Time {

  /** A point in time, in microseconds since 1970-01-01T00:00:00Z. */
  type Instant = nat

  const MICROS_PER_SECOND: nat := 1_000_000

  function Seconds(n: nat): nat { n * MICROS_PER_SECOND }

  function Minutes(n: nat): nat { Seconds(n * 60) }

  function Days(n: nat): nat { Seconds(n * 86400) }

  /** `int(x / d)`: division that truncates toward zero, as Python's int() of a float does. */
  function TruncDiv(n: int, d: int): (q: int)
    requires d > 0
    ensures 0 <= n ==> 0 <= q * d <= n < q * d + d
    ensures n < 0 ==> q * d - d < n <= q * d <= 0
  {
    if n >= 0 then DivBounds(n, d); n / d
    else DivBounds(-n, d); -((-n) / d)
  }

  lemma DivBounds(n: nat, d: int)
    requires d > 0
    ensures 0 <= (n / d) * d <= n < (n / d) * d + d
  {
    assert n == d * (n / d) + n % d;
  }

  /** Truncation is symmetric about zero, unlike Dafny's Euclidean `/`. */
  lemma TruncDivNegate(n: int, d: int)
    requires d > 0
    ensures TruncDiv(-n, d) == -TruncDiv(n, d)
  {
    var q := TruncDiv(n, d);
    var p := TruncDiv(-n, d);
    if n > 0 {
      assert p * d - d < -n <= p * d && q * d <= n < q * d + d;
      assert -p * d <= n < -p * d + d;
      UniqueQuotient(n, d, q, -p);
    } else if n < 0 {
      assert q * d - d < n <= q * d && p * d <= -n < p * d + d;
      assert -q * d <= -n < -q * d + d;
      UniqueQuotient(-n, d, p, -q);
    }
  }

  lemma UniqueQuotient(n: int, d: int, q1: int, q2: int)
    requires d > 0
    requires q1 * d <= n < q1 * d + d && q2 * d <= n < q2 * d + d
    ensures q1 == q2
  {
    if q1 < q2 {
      MulStep(q1, q2, d);
    } else if q2 < q1 {
      MulStep(q2, q1, d);
    }
  }

  lemma MulStep(a: int, b: int, d: int)
    requires a < b && d > 0
    ensures a * d + d <= b * d
  {
    var k := b - a - 1;
    assert b * d == a * d + k * d + d;
    assert k * d >= 0;
  }

  /** `int((later - earlier).total_seconds())`: whole seconds, truncated toward zero. */
  function ElapsedSeconds(earlier: Instant, later: Instant): int {
    TruncDiv(later - earlier, MICROS_PER_SECOND)
  }

  /** The POSIX timestamp of an instant with its microseconds dropped, as a JWT `exp` claim is. */
  function EpochSeconds(t: Instant): (s: nat)
    ensures Seconds(s) <= t < Seconds(s + 1)
  {
    t / MICROS_PER_SECOND
  }
}
