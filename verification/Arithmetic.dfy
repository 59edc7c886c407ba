/** Division facts the solver needs spelled out. */
module Arithmetic {
  lemma ScaleApart(k: int, d: int)
    requires d > 0
    ensures (k >= 1 ==> k * d >= d) && (k <= -1 ==> k * d <= -d)
  {
  }

  lemma DivisionUnique(n: int, d: int, q: int, r: int)
    requires d > 0 && n == q * d + r && 0 <= r < d
    ensures n / d == q && n % d == r
  {
    var e, f := n / d, n % d;
    assert n == e * d + f;
    assert (q - e) * d == f - r;
    ScaleApart(q - e, d);
  }

  lemma MultipleOf(q: int, d: int)
    requires d > 0
    ensures q * d % d == 0
  {
    DivisionUnique(q * d, d, q, 0);
  }

  lemma Doubled(v: int, p: int)
    ensures v * (2 * p) == 2 * (v * p)
  {
  }
}
