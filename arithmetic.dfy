/** Facts about integer multiplication, division and remainder that the
    grid and round-robin arithmetic rest on. */
module Arithmetic {

  /** Multiplying by a non-negative `n` keeps `a <= b`. */
  lemma MulMono(a: int, b: int, n: int)
    requires a <= b && n >= 0
    ensures a * n <= b * n
  {
  }

  /** `a * n < b * n` with a positive `n` gives `a < b`. */
  lemma MulLess(a: int, b: int, n: int)
    requires n > 0 && a * n < b * n
    ensures a < b
  {
  }

  /** `q` and `r` are the quotient and remainder of `a` by `n`. */
  lemma DivModOf(a: int, n: int, q: int, r: int)
    requires n > 0 && 0 <= r < n && a == q * n + r
    ensures a / n == q && a % n == r
  {
    var q', r' := a / n, a % n;
    assert (q' - q) * n == r - r';
    assert q' - q >= 1 ==> (q' - q) * n >= n;
    assert q' - q <= -1 ==> (q' - q) * n <= -n;
  }

  /** Quotient-remainder pairs are ordered like the numbers they make. */
  lemma QuotientOrder(q: int, r: int, q': int, r': int, n: int)
    requires n > 0 && 0 <= r < n && 0 <= r' < n && q * n + r < q' * n + r'
    ensures q < q' || (q == q' && r < r')
  {
    assert q >= q' + 1 ==> q * n >= q' * n + n by {
      assert (q - q' - 1) * n == q * n - q' * n - n;
      assert q >= q' + 1 ==> (q - q' - 1) * n >= 0;
    }
  }
}
