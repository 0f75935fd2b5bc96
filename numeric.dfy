/** Real-number helpers shared by the measurement code: absolute value,
    min/max, rounding, and the properties of an abstract square root. */
module Numeric {

  function Abs(x: real): real {
    if x < 0.0 then -x else x
  }

  function Max(a: real, b: real): real {
    if a < b then b else a
  }

  function Min(a: real, b: real): real {
    if a < b then a else b
  }

  /** JavaScript's Math.round on finite values: round half up. */
  function RoundHalfUp(x: real): (r: int)
    ensures r as real <= x + 0.5 < r as real + 1.0
  {
    (x + 0.5).Floor
  }

  /** `sqrt` behaves like Math.sqrt / np.sqrt on the non-negative reals. */
  ghost predicate IsSqrt(sqrt: real -> real) {
    forall x: real :: 0.0 <= x ==> 0.0 <= sqrt(x) && sqrt(x) * sqrt(x) == x
  }

  lemma MulLe(a: real, b: real)
    requires 0.0 <= a && 0.0 <= b
    ensures a <= b ==> a * a <= b * b
  {
    if a <= b {
      assert a * a <= a * b <= b * b;
    }
  }

  lemma MulLt(a: real, b: real)
    requires 0.0 <= a && 0.0 <= b
    ensures a < b ==> a * a < b * b
  {
    if a < b {
      var aa, ab, bb := a * a, a * b, b * b;
      assert aa <= ab by { assert ab - aa == a * (b - a); }
      assert ab < bb by { assert bb - ab == b * (b - a); }
    }
  }

  lemma SquareLeSquare(a: real, b: real)
    requires 0.0 <= a && 0.0 <= b && a * a <= b * b
    ensures a <= b
  {
    MulLt(b, a);
  }

  lemma SquareLtSquare(a: real, b: real)
    requires 0.0 <= a && 0.0 <= b && a * a < b * b
    ensures a < b
  {
    MulLe(b, a);
  }

  /** The non-negative square root is unique. */
  lemma SqrtUnique(sqrt: real -> real, x: real, r: real)
    requires IsSqrt(sqrt) && 0.0 <= x && 0.0 <= r && r * r == x
    ensures sqrt(x) == r
  {
    var s := sqrt(x);
    assert 0.0 <= s && s * s == x;
    SquareLeSquare(s, r);
    SquareLeSquare(r, s);
  }

  lemma SqrtOfZero(sqrt: real -> real)
    requires IsSqrt(sqrt)
    ensures sqrt(0.0) == 0.0
  {
    SqrtUnique(sqrt, 0.0, 0.0);
  }

  lemma SqrtPositive(sqrt: real -> real, x: real)
    requires IsSqrt(sqrt) && 0.0 < x
    ensures 0.0 < sqrt(x)
  {
    assert 0.0 <= sqrt(x) && sqrt(x) * sqrt(x) == x;
  }

  lemma SqrtMonotone(sqrt: real -> real, a: real, b: real)
    requires IsSqrt(sqrt) && 0.0 <= a <= b
    ensures sqrt(a) <= sqrt(b)
  {
    assert sqrt(a) * sqrt(a) == a && sqrt(b) * sqrt(b) == b;
    SquareLeSquare(sqrt(a), sqrt(b));
  }

  lemma SqrtStrictMonotone(sqrt: real -> real, a: real, b: real)
    requires IsSqrt(sqrt) && 0.0 <= a < b
    ensures sqrt(a) < sqrt(b)
  {
    assert sqrt(a) * sqrt(a) == a && sqrt(b) * sqrt(b) == b;
    SquareLtSquare(sqrt(a), sqrt(b));
  }

  /** sqrt(a * b) == sqrt(a) * sqrt(b) on non-negative arguments. */
  lemma SqrtOfProduct(sqrt: real -> real, a: real, b: real)
    requires IsSqrt(sqrt) && 0.0 <= a && 0.0 <= b
    ensures sqrt(a * b) == sqrt(a) * sqrt(b)
  {
    var sa, sb := sqrt(a), sqrt(b);
    assert 0.0 <= sa && sa * sa == a;
    assert 0.0 <= sb && sb * sb == b;
    assert (sa * sb) * (sa * sb) == (sa * sa) * (sb * sb);
    SqrtUnique(sqrt, a * b, sa * sb);
  }

  // Small algebraic steps the solver does not take on its own.

  lemma Distribute(a: int, b: int, c: int, d: int)
    ensures (a + b) * (c + d) == a * c + a * d + b * c + b * d
  {}

  lemma SquareOfSum(x: int, y: int)
    ensures (x + y) * (x + y) == x * x + 2 * (x * y) + y * y
  {}

  lemma SquareOfDifference(x: int, y: int)
    ensures (x - y) * (x - y) == x * x - 2 * (x * y) + y * y
  {}

  lemma SquareNonNegative(x: int)
    ensures 0 <= x * x
  {}

  lemma Rearrange(a: int, b: int, c: int, d: int)
    ensures (a * c) * (b * d) == (a * d) * (b * c)
  {}

  lemma SquareOfProduct(x: int, y: int)
    ensures (x * x) * (y * y) == (x * y) * (x * y)
  {}

  /** Lagrange's identity in two dimensions gives Cauchy-Schwarz:
      (a c + b d)^2 <= (a^2 + b^2)(c^2 + d^2). */
  lemma CauchySchwarz2(a: int, b: int, c: int, d: int)
    ensures (a * c + b * d) * (a * c + b * d) <= (a * a + b * b) * (c * c + d * d)
  {
    var ac, bd, ad, bc := a * c, b * d, a * d, b * c;
    Rearrange(a, b, c, d);
    Distribute(a * a, b * b, c * c, d * d);
    SquareOfProduct(a, c); SquareOfProduct(a, d);
    SquareOfProduct(b, c); SquareOfProduct(b, d);
    SquareOfSum(ac, bd);
    SquareOfDifference(ad, bc);
    SquareNonNegative(ad - bc);
  }

  lemma PositiveFactor(x: real, d: real)
    requires 0.0 < d
    ensures 0.0 < x * d ==> 0.0 < x
  {
    if x <= 0.0 {
      assert x * d == -((-x) * d);
    }
  }

  /** A quotient whose numerator is smaller in size than its positive
      denominator lies strictly inside (-1, 1). */
  lemma QuotientBelowOne(n: real, d: real)
    requires 0.0 < d && Abs(n) < d
    ensures Abs(n / d) < 1.0
  {
    var q := n / d;
    assert q * d == n;
    assert (1.0 - q) * d == d - n;
    assert (1.0 + q) * d == d + n;
    PositiveFactor(1.0 - q, d);
    PositiveFactor(1.0 + q, d);
  }

  lemma SquareAsReal(n: int)
    ensures (n * n) as real == (n as real) * (n as real)
  {}

  lemma AbsSquare(x: real)
    ensures Abs(x) * Abs(x) == x * x
  {}

  /** An integer whose square is at most p is at most sqrt(p) in size. */
  lemma RootBound(n: int, p: int, sqrt: real -> real)
    requires IsSqrt(sqrt) && n * n <= p
    ensures Abs(n as real) <= sqrt(p as real)
  {
    SquareNonNegative(n);
    var a, pr := Abs(n as real), p as real;
    AbsSquare(n as real);
    SquareAsReal(n);
    assert a * a <= pr;
    var s := sqrt(pr);
    assert 0.0 <= s && s * s == pr;
    SquareLeSquare(a, s);
  }

  lemma AbsQuotient(n: real, d: real)
    requires 0.0 < d
    ensures Abs(n / d) == Abs(n) / d
  {}

  /** Dividing a non-negative number by a larger positive divisor gives a
      smaller quotient. */
  lemma QuotientAntitone(n: real, a: real, b: real)
    requires 0.0 <= n && 0.0 < a <= b
    ensures n / b <= n / a
  {
    var qa, qb := n / a, n / b;
    assert qa * a == n && qb * b == n;
    assert 0.0 <= qb;
    assert qb * a <= qb * b;
    if qa < qb {
      assert (qb - qa) * a == qb * a - n;
    }
  }

  lemma ZeroSquare(n: int)
    ensures n * n <= 0 ==> n == 0
  {
    if n != 0 {
      assert 0 < n * n by {
        if n < 0 { assert n * n == (-n) * (-n); }
      }
    }
  }

  /** x squared; kept as a function so that sums of squares stay linear
      for the solver. */
  function Sq(x: real): (r: real)
    ensures 0.0 <= r
  {
    x * x
  }

  /** Multiplying by a positive number keeps strict order, both ways. */
  lemma ScaleStrict(a: real, b: real, n: real)
    requires 0.0 < n
    ensures a < b <==> a * n < b * n
  {
    PositiveFactor(b - a, n);
    if a < b {
      assert (b - a) * n == b * n - a * n;
      assert 0.0 < (b - a) * n;
    }
  }

  /** Multiplying by a non-negative number keeps order. */
  lemma ScaleMonotone(a: real, b: real, n: real)
    requires 0.0 <= n && a <= b
    ensures a * n <= b * n
  {
    assert b * n - a * n == (b - a) * n;
  }

  /** A non-negative part over a positive whole lies in [0, 1]. */
  lemma FractionBounds(part: real, whole: real)
    requires 0.0 <= part <= whole && 0.0 < whole
    ensures 0.0 <= part / whole <= 1.0
  {
    var q := part / whole;
    assert q * whole == part;
    ScaleStrict(1.0, q, whole);
    PositiveFactor(-q, whole);
    assert (-q) * whole == -part;
  }
}
