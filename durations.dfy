/** Python `timedelta` arithmetic on whole microseconds.  A duration is an
    `int` count of microseconds; dividing a `timedelta` by an `int` rounds
    the exact quotient to the nearest microsecond, ties to the even one. */
module Durations {

  const MicrosPerSecond: int := 1_000_000
  const MicrosPerMinute: int := 60 * MicrosPerSecond
  const MicrosPerHour: int := 60 * MicrosPerMinute
  const MicrosPerDay: int := 24 * MicrosPerHour

  /** The rounding rule of `timedelta / int`: `q` is a nearest integer to
      `a / b`, and on a tie it is the even one. */
  ghost predicate NearestHalfEven(a: int, b: int, q: int)
    requires b > 0
  {
    && -b <= 2 * (a - q * b) <= b
    && ((2 * (a - q * b) == b || 2 * (a - q * b) == -b) ==> q % 2 == 0)
  }

  /** `timedelta(microseconds=a) / b` for a positive `int` divisor `b`. */
  function DivRound(a: int, b: int): (q: int)
    requires b > 0
    ensures NearestHalfEven(a, b, q)
  {
    var q0 := a / b;
    var r := a % b;
    assert a == q0 * b + r && 0 <= r < b;
    if 2 * r > b || (2 * r == b && q0 % 2 == 1) then
      assert a - (q0 + 1) * b == r - b;
      q0 + 1
    else
      assert a - q0 * b == r;
      q0
  }

  /** A multiple of `b` that is at least 1 (or at least 2) times it. */
  lemma MulLowerBound(k: int, b: int)
    requires b > 0
    ensures k >= 1 ==> k * b >= b
    ensures k >= 2 ==> k * b >= 2 * b
  {
    if k >= 1 {
      assert k * b == (k - 1) * b + b;
      assert (k - 1) * b >= 0;
    }
    if k >= 2 {
      assert k * b == (k - 2) * b + 2 * b;
      assert (k - 2) * b >= 0;
    }
  }

  /** Of two integers obeying the rounding rule, neither exceeds the other. */
  lemma NearestHalfEvenNotBelow(a: int, b: int, q: int, p: int)
    requires b > 0
    requires NearestHalfEven(a, b, q) && NearestHalfEven(a, b, p)
    ensures q >= p
  {
    if q < p {
      var e, f := a - q * b, a - p * b;
      assert e - f == (p - q) * b;
      MulLowerBound(p - q, b);
      assert false;
    }
  }

  /** The rounding rule determines the quotient: no other integer satisfies it. */
  lemma DivRoundUnique(a: int, b: int, q: int)
    requires b > 0
    requires NearestHalfEven(a, b, q)
    ensures q == DivRound(a, b)
  {
    NearestHalfEvenNotBelow(a, b, q, DivRound(a, b));
    NearestHalfEvenNotBelow(a, b, DivRound(a, b), q);
  }

  /** Division of an exact multiple is exact. */
  lemma DivRoundExact(k: int, b: int)
    requires b > 0
    ensures DivRound(k * b, b) == k
  {
    assert NearestHalfEven(k * b, b, k) by {
      assert k * b - k * b == 0;
    }
    DivRoundUnique(k * b, b, k);
  }

  /** Rounding is symmetric about zero: `-(d / n) == (-d) / n`. */
  lemma DivRoundNegate(a: int, b: int)
    requires b > 0
    ensures DivRound(-a, b) == -DivRound(a, b)
  {
    var q := DivRound(a, b);
    assert -a - (-q) * b == -(a - q * b);
    assert (-q) % 2 == 0 <==> q % 2 == 0;
    DivRoundUnique(-a, b, -q);
  }

  /** Products of a positive divisor with a quotient below zero or above
      a non-negative dividend. */
  lemma ProductBounds(a: int, b: int, q: int)
    requires a >= 0 && b > 0
    ensures q < 0 ==> q * b <= -b
    ensures q > a ==> q * b >= a + b
  {
    if q < 0 {
      MulLowerBound(-q, b);
      assert q * b == -((-q) * b);
    }
    if q > a {
      MulLowerBound(q - a, b);
      assert q * b == (q - a) * b + a * b;
      assert a * b == a * (b - 1) + a;
      assert a * (b - 1) >= 0;
    }
  }

  /** For a non-negative dividend a rounded quotient lies between zero and the dividend. */
  lemma NearestHalfEvenBounds(a: int, b: int, q: int)
    requires a >= 0 && b > 0
    requires NearestHalfEven(a, b, q)
    ensures 0 <= q <= a
  {
    ProductBounds(a, b, q);
  }

  lemma DivRoundBounds(a: int, b: int)
    requires a >= 0 && b > 0
    ensures 0 <= DivRound(a, b) <= a
  {
    NearestHalfEvenBounds(a, b, DivRound(a, b));
  }

  /** Euclidean division is determined by quotient and remainder. */
  lemma DivModOf(a: int, d: int, q: int, r: int)
    requires d > 0 && 0 <= r < d && a == q * d + r
    ensures a / d == q && a % d == r
  {
    var q', r' := a / d, a % d;
    assert (q - q') * d == r' - r;
    if q' < q {
      MulLowerBound(q - q', d);
    } else if q < q' {
      MulLowerBound(q' - q, d);
    }
  }
}
