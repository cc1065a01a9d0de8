/** Quotient and remainder are determined by the multiple they bracket. */
module Division {

  lemma NextMultiple(a: int, b: int, d: nat)
    requires a < b
    ensures a * d + d <= b * d
  {
    assert (b - a - 1) * d >= 0;
    assert (b - a - 1) * d == b * d - a * d - d;
  }

  lemma DivModIs(n: int, q: int, r: int, d: nat)
    requires 0 <= r < d && n == q * d + r
    ensures n / d == q && n % d == r
  {
    var t := n / d;
    assert t * d <= n < t * d + d;
    if t > q {
      NextMultiple(q, t, d);
    } else if t < q {
      NextMultiple(t, q, d);
    }
  }

  lemma AddMultiple(a: int, q: int, n: nat)
    requires n > 0
    ensures (a + q * n) % n == a % n
  {
    var x, r := a / n, a % n;
    assert a + q * n == (x + q) * n + r;
    DivModIs(a + q * n, x + q, r, n);
  }
}
