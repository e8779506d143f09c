/** Euclidean division by a variable divisor. */
module Division {
  /** Quotient and remainder are unique. */
  lemma Unique(k: int, q: int, r: int, q': int, r': int)
    requires k > 0 && 0 <= r < k && 0 <= r' < k && q * k + r == q' * k + r'
    ensures q == q' && r == r'
  {
    var d := q - q';
    assert d * k == r' - r;
    if d > 0 {
      MulAtLeast(d, k);
    } else if d < 0 {
      assert -d * k == r - r';
      MulAtLeast(-d, k);
    }
  }

  lemma MulAtLeast(d: int, k: int)
    requires d > 0 && k > 0
    ensures d * k >= k
  {
  }

  lemma MulGrows(k: int, a: int, b: int)
    requires k > 0 && a < b
    ensures k * a + k <= k * b
  {
    MulAtLeast(b - a, k);
    assert k * b == k * a + (b - a) * k;
  }

  /** Multiples of k on either side of x, by the integer quotient. */
  lemma Around(x: int, k: int)
    requires k > 0
    ensures k * (x / k) <= x < k * (x / k) + k
  {
  }

  lemma Quotient(y: int, k: int, q: int, r: int)
    requires 0 <= r < k && y == q * k + r
    ensures y / k == q && y % k == r
  {
    Unique(k, y / k, y % k, q, r);
  }
}
