/** Facts about products and quotients that the solver needs spelled out. */
module Arithmetic {
  lemma MulMono(k: int, x: int, y: int)
    requires k >= 0 && x <= y
    ensures k * x <= k * y
  {
  }

  lemma Cancel(d: int, p: int, q: int)
    requires d > 0 && d * p < d * q + d
    ensures p <= q
  {
    if q < p {
      MulMono(d, q + 1, p);
    }
  }

  /** The quotient is the only multiple that fits. */
  lemma QuotientIs(x: int, d: int, q: int)
    requires d > 0 && d * q <= x < d * q + d
    ensures x / d == q
  {
    var p := x / d;
    assert x == d * p + x % d;
    Cancel(d, p, q);
    Cancel(d, q, p);
  }

  lemma DivMono(x: int, y: int, d: int)
    requires d > 0 && x <= y
    ensures x / d <= y / d
  {
    var (p, q) := (x / d, y / d);
    assert x == d * p + x % d && y == d * q + y % d;
    Cancel(d, p, q);
  }

  lemma DivShift(x: int, d: int)
    requires d > 0
    ensures (x + d) / d == x / d + 1
  {
    var p := x / d;
    assert x == d * p + x % d;
    assert d * (p + 1) == d * p + d;
    QuotientIs(x + d, d, p + 1);
  }

  /** A whole number of periods that fits is at most the quotient. */
  lemma FitsInQuotient(n: int, d: int, x: int)
    requires d > 0 && n * d <= x
    ensures n <= x / d
  {
    var q := x / d;
    assert x == d * q + x % d;
    Cancel(d, n, q);
  }
}
