/**
  Arithmetic facts and the range of `Math.random` shared by the components.
 */
module Arith {

  /** `Math.PI` as a decimal. */
  const Pi: real := 3.141592653589793

  /** A value `Math.random()` can return. */
  predicate InUnit(r: real) { 0.0 <= r < 1.0 }

  /** Quotient and remainder are the only decomposition with the remainder in `[0, c)`. */
  lemma DivModOf(n: int, c: int, q: int, r: int)
    requires c > 0 && n == q * c + r && 0 <= r < c
    ensures n % c == r
  {
    var q', r' := n / c, n % c;
    assert (q' - q) * c == r - r';
    ZeroMultiple(q' - q, c, r - r');
  }

  /** The only multiple of `c` strictly between `-c` and `c` is zero. */
  lemma ZeroMultiple(d: int, c: int, e: int)
    requires c > 0 && d * c == e && -c < e < c
    ensures d == 0
  {
    if d > 0 {
      MulAtLeast(d, c);
    }
  }

  lemma MulAtLeast(d: int, c: int)
    requires d >= 1 && c > 0
    ensures d * c >= c
  {
  }

  /** Multiplying by a non-negative factor keeps the order. */
  lemma MulMonotone(x: int, y: int, k: int)
    requires x <= y && k >= 0
    ensures x * k <= y * k
  {
    assert y * k == x * k + (y - x) * k;
  }

  lemma MulMonotoneReal(x: real, y: real, k: real)
    requires x <= y && k >= 0.0
    ensures x * k <= y * k
  {
  }

  /** Multiplying by a positive factor keeps the order, strict or not. */
  lemma MulLess(x: real, y: real, k: real)
    requires x <= y && k > 0.0
    ensures x * k <= y * k && (x < y ==> x * k < y * k)
  {
  }
}
