/** Facts about products and quotients that several modules need. */
module Arithmetic {

  lemma MulStep(a: int, b: int, d: int)
    requires a < b && d >= 1
    ensures a * d + d <= b * d
  {
    assert (b - a - 1) * d >= 0;
  }

  /** Quotient and remainder are determined by the equation. */
  lemma DivUnique(a: int, d: int, q: int, r: int)
    requires d >= 1 && a == q * d + r && 0 <= r < d
    ensures a / d == q && a % d == r
  {
    var q', r' := a / d, a % d;
    if q < q' { MulStep(q, q', d); }
    if q' < q { MulStep(q', q, d); }
  }

  lemma QuotientMonotone(a: int, b: int, d: int)
    requires a <= b && d >= 1
    ensures a / d <= b / d
  {
    if b / d < a / d { MulStep(b / d, a / d, d); }
  }

  /** One divisor more adds one to the quotient. */
  lemma OneMoreDivisor(n: int, d: int)
    requires d >= 1
    ensures 0 <= n < d ==> n / d == 0
    ensures n / d == (n - d) / d + 1
  {
    DivUnique(n, d, (n - d) / d + 1, (n - d) % d);
    if 0 <= n < d { DivUnique(n, d, 0, n); }
  }
}
