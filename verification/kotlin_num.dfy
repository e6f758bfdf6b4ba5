/** Kotlin/JVM numeric conversions the source relies on, written out over
    unbounded `int` and exact `real`: `Double.toInt()` truncates toward zero and
    saturates at the 32-bit range, and `Int / Int` truncates toward zero (Dafny's
    own `/` is Euclidean). */
module KotlinNum {

  const IntMin: int := -0x8000_0000
  const IntMax: int := 0x7FFF_FFFF

  predicate InIntRange(n: int) { IntMin <= n <= IntMax }

  /** Truncation of a real toward zero. */
  function Trunc(x: real): (n: int)
    ensures x >= 0.0 ==> n as real <= x < n as real + 1.0
    ensures x < 0.0 ==> n as real - 1.0 < x <= n as real
    ensures 0.0 <= x ==> 0 <= n
    ensures x <= 0.0 ==> n <= 0
  {
    if x >= 0.0 then x.Floor else -((-x).Floor)
  }

  /** `Double.toInt()`: truncation toward zero, clamped to the Int range. */
  function DoubleToInt(x: real): (n: int)
    ensures InIntRange(n)
    ensures IntMin as real <= x < (IntMax + 1) as real ==> n == Trunc(x)
    ensures x >= (IntMax + 1) as real ==> n == IntMax
    ensures x <= (IntMin - 1) as real ==> n == IntMin
  {
    var t := Trunc(x);
    if t > IntMax then IntMax else if t < IntMin then IntMin else t
  }

  /** Kotlin `Int / Int` for the positive divisors the source uses (tile sizes,
      list sizes): the quotient truncated toward zero. */
  function TruncDiv(a: int, b: int): (q: int)
    requires b > 0
    ensures a >= 0 ==> q * b <= a < q * b + b && q >= 0
    ensures a < 0 ==> q * b - b < a <= q * b && q <= 0
  {
    if a >= 0 then a / b else -((-a) / b)
  }

  /** Kotlin `Int % Int` for a positive divisor: the remainder takes the sign
      of the dividend. */
  function TruncRem(a: int, b: int): (r: int)
    requires b > 0
    ensures a == TruncDiv(a, b) * b + r
    ensures a >= 0 ==> 0 <= r < b
    ensures a < 0 ==> -b < r <= 0
  {
    a - TruncDiv(a, b) * b
  }

  lemma MulLe(x: int, y: int, b: int)
    requires x <= y && b >= 0
    ensures x * b <= y * b
  {
    assert y * b - x * b == (y - x) * b;
  }

  lemma MulPred(l: int, n: int)
    ensures l * n == n + (l - 1) * n
  {
  }

  /** A quotient is pinned down by its bracketing products. */
  lemma QuotientUnique(a: int, b: int, q1: int, q2: int)
    requires b > 0
    requires q1 * b <= a < q1 * b + b
    requires q2 * b <= a < q2 * b + b
    ensures q1 == q2
  {
    if q1 < q2 {
      MulLe(q1 + 1, q2, b);
      assert false;
    } else if q2 < q1 {
      MulLe(q2 + 1, q1, b);
      assert false;
    }
  }

  /** Truncating division by a positive divisor is monotone. */
  lemma TruncDivMonotone(a1: int, a2: int, b: int)
    requires a1 <= a2 && b > 0
    ensures TruncDiv(a1, b) <= TruncDiv(a2, b)
  {
    var q1, q2 := TruncDiv(a1, b), TruncDiv(a2, b);
    if q1 > q2 {
      if a1 >= 0 || a2 < 0 {
        MulLe(q2 + 1, q1, b);
        assert false;
      }
    }
  }

  /** `Double.toInt()` is monotone. */
  lemma DoubleToIntMonotone(x: real, y: real)
    requires x <= y
    ensures DoubleToInt(x) <= DoubleToInt(y)
  {
  }

  lemma ModAddLeft(a: int, b: int, m: int)
    requires m > 0
    ensures (a % m + b) % m == (a + b) % m
  {
    var q := a / m;
    assert a == q * m + a % m;
    assert a + b == (a % m + b) + q * m;
    ModShift(a % m + b, q, m);
  }

  lemma ModShift(x: int, q: int, m: int)
    requires m > 0
    ensures (x + q * m) % m == x % m
  {
    var k := (x + q * m) / m;
    var j := x / m;
    assert x + q * m == k * m + (x + q * m) % m;
    assert x == j * m + x % m;
    assert (x + q * m) % m == x % m + (j + q - k) * m;
    if j + q - k > 0 {
      MulLe(1, j + q - k, m);
    } else if j + q - k < 0 {
      MulLe(j + q - k, -1, m);
    }
  }
}
