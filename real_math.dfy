/**
 * Exact real arithmetic standing in for Python floats, and the transcendental
 * functions of Python's `math` module.  The model never computes sin, cos, log
 * or sqrt: they arrive as an `Elementary` record, and a lemma that needs one of
 * their laws asks for it through a predicate on that record.
 */
module RealMath {

  /** Python's math.pi, written out to the digits Python prints. */
  const PI: real := 3.141592653589793

  function Min(x: real, y: real): real { if x <= y then x else y }

  function Max(x: real, y: real): real { if x >= y then x else y }

  /** Multiplication, with its sign rules as postconditions. */
  function Product(a: real, b: real): (r: real)
    ensures a >= 0.0 && b >= 0.0 ==> r >= 0.0
    ensures a > 0.0 && b > 0.0 ==> r > 0.0
  {
    a * b
  }

  /** `x ** 2`, written on |x| so that it is evidently positive off zero. */
  function Square(x: real): (s: real)
    ensures s >= 0.0
    ensures x != 0.0 ==> s > 0.0
  {
    if x >= 0.0 then Product(x, x) else Product(-x, -x)
  }

  /** A weight in [0,1] applied to a non-negative quantity stays between 0 and that quantity. */
  lemma Weighted(w: real, x: real)
    requires 0.0 <= w <= 1.0 && x >= 0.0
    ensures 0.0 <= x * w <= x && 0.0 <= w * x <= x
  {
    assert (1.0 - w) * x >= 0.0;
  }

  /** Multiplying by a non-negative factor keeps a non-negative ordering. */
  lemma ScaleUp(x: real, y: real, k: real)
    requires 0.0 <= x <= y && k >= 0.0
    ensures 0.0 <= x * k <= y * k
  {
    assert (y - x) * k >= 0.0;
  }

  lemma PositiveProduct(x: real, y: real)
    requires x > 0.0 && y > 0.0
    ensures x * y > 0.0
  {
  }

  /** Python's float `%`: the floored remainder, whose sign follows the divisor. */
  function FloorMod(x: real, m: real): (r: real)
    requires m > 0.0
    ensures 0.0 <= r < m
  {
    var k := (x / m).Floor;
    var q := x / m;
    assert k as real <= q < k as real + 1.0;
    assert x == m * q;
    var below := q - k as real;
    var above := (k as real + 1.0) - q;
    assert 0.0 <= m * below && 0.0 < m * above;
    assert m * below == x - m * k as real;
    assert m * above == m * k as real + m - x;
    x - m * k as real
  }

  /** The functions of Python's `math` module (and numpy's sqrt) that the simulator calls. */
  datatype Elementary = Elementary(sin: real -> real, cos: real -> real, log: real -> real, sqrt: real -> real)

  /** sin^2 + cos^2 == 1, the only law of the trigonometric pair any lemma here needs. */
  ghost predicate Pythagorean(e: Elementary) {
    forall t :: e.sin(t) * e.sin(t) + e.cos(t) * e.cos(t) == 1.0
  }

  /** The natural logarithm is strictly increasing on the positive reals and vanishes at 1. */
  ghost predicate LogIsIncreasing(e: Elementary) {
    && e.log(1.0) == 0.0
    && forall x, y :: 0.0 < x < y ==> e.log(x) < e.log(y)
  }
}
