/** Quotients and remainders of integers. */
module Division {

  lemma Scale(a: int, b: int, d: int)
    requires a <= b && d >= 0
    ensures a * d <= b * d
  {
  }

  lemma Subtract(a: int, b: int, d: int)
    ensures (a - b) * d == a * d - b * d
  {
  }

  /** Quotient and remainder are unique. */
  lemma Quotient(n: int, d: int, q: int, r: int)
    requires d > 0 && n == q * d + r && 0 <= r < d
    ensures n / d == q && n % d == r
  {
    var q', r' := n / d, n % d;
    Subtract(q, q', d);
    if q > q' {
      Scale(1, q - q', d);
    } else if q < q' {
      Scale(q - q', -1, d);
    }
  }
}
