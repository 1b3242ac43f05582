/** Facts about products and quotients. */
module Arithmetic {
  lemma MulMonotone(a: int, b: int, d: int)
    requires d >= 0
    ensures a <= b ==> a * d <= b * d
  {
    if a <= b { assert b * d == a * d + (b - a) * d; }
  }

  /** Quotient and remainder are determined by their equation. */
  lemma DivisionUnique(x: int, q: int, d: int, r: int)
    requires 0 <= r < d
    ensures x == q * d + r <==> x / d == q && x % d == r
  {
    var p := x / d;
    assert x == p * d + x % d;
    MulMonotone(p + 1, q, d);
    MulMonotone(q + 1, p, d);
  }
}
