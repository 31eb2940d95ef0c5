/** Converting an amount of cash into a whole number of shares. */
module FinUtils {

  /**
   * The number of whole shares that the given cash buys at the given price:
   * zero for a zero price or non-positive cash, otherwise cash/price truncated
   * down to a whole number (never rounded up). A negative price is not guarded
   * against and gives a negative count.
   */
  function CashToShares(assetPrice: real, cash: real): (n: real)
    ensures n == n.Floor as real
    ensures assetPrice == 0.0 || cash <= 0.0 ==> n == 0.0
    ensures assetPrice > 0.0 && cash > 0.0 ==> n >= 0.0
    ensures assetPrice < 0.0 && cash > 0.0 ==> n < 0.0
  {
    if assetPrice == 0.0 || cash <= 0.0 then 0.0
    else
      FloorBounds(cash / assetPrice);
      (cash / assetPrice).Floor as real
  }

  /**
   * At a positive price and with positive cash, the share count n is the whole number
   * with n*price <= cash < (n+1)*price: the shares are affordable and one more is not.
   */
  lemma SharesBounds(p: real, c: real)
    requires p > 0.0 && c > 0.0
    ensures var n := CashToShares(p, c);
      0.0 <= n && n * p <= c < (n + 1.0) * p
  {
    var q := c / p;
    var n := q.Floor as real;
    FloorBounds(q);
    DivMul(c, p);
    assert q > 0.0;
    ScaledBelow(n, q, p, c);
    ScaledAbove(q, n + 1.0, p, c);
  }

  /** The floor of q lies in (q - 1, q]. */
  lemma FloorBounds(q: real)
    ensures q.Floor as real <= q < q.Floor as real + 1.0
  {
  }

  lemma DivMul(c: real, p: real)
    requires p != 0.0
    ensures (c / p) * p == c
  {
  }

  lemma ScaledBelow(a: real, q: real, p: real, c: real)
    requires a <= q && p > 0.0 && q * p == c
    ensures a * p <= c
  {
    MulMono(a, q, p);
  }

  lemma ScaledAbove(q: real, b: real, p: real, c: real)
    requires q < b && p > 0.0 && q * p == c
    ensures c < b * p
  {
    MulMonoStrict(q, b, p);
  }

  lemma MulMono(a: real, b: real, p: real)
    requires a <= b && p > 0.0
    ensures a * p <= b * p
  {
  }

  lemma MulMonoStrict(a: real, b: real, p: real)
    requires a < b && p > 0.0
    ensures a * p < b * p
  {
  }

  /** The test suite's examples: 100/10 gives 10 shares, 109.99/10 gives 10, 100/10.01 gives 9. */
  lemma CashToSharesExamples()
    ensures CashToShares(10.0, 100.0) == 10.0
    ensures CashToShares(10.0, 109.99) == 10.0
    ensures CashToShares(10.01, 100.0) == 9.0
    ensures CashToShares(0.0, 1.0) == 0.0
    ensures CashToShares(100.0, -1.0) == 0.0
  {
    Exact(10.0, 100.0, 10.0);
    Exact(10.0, 109.99, 10.0);
    Exact(10.01, 100.0, 9.0);
  }

  /** Two whole numbers that both satisfy the share bounds are equal. */
  lemma UniqueShares(p: real, c: real, x: real, y: real)
    requires p > 0.0 && x == x.Floor as real && y == y.Floor as real
    requires x * p <= c < (x + 1.0) * p
    requires y * p <= c < (y + 1.0) * p
    ensures x == y
  {
    NotBelow(p, c, x, y);
    NotBelow(p, c, y, x);
  }

  /** A whole number of shares within the upper bound is not below another within the lower bound. */
  lemma NotBelow(p: real, c: real, x: real, y: real)
    requires p > 0.0 && x == x.Floor as real && y == y.Floor as real
    requires c < (x + 1.0) * p && y * p <= c
    ensures y <= x
  {
    CancelBelow(y, x + 1.0, p, c);
    assert y.Floor < x.Floor + 1;
  }

  /** With a positive price, y*p <= c < z*p gives y < z. */
  lemma CancelBelow(y: real, z: real, p: real, c: real)
    requires p > 0.0 && y * p <= c < z * p
    ensures y < z
  {
    if z <= y {
      MulMono(z, y, p);
    }
  }

  /** A whole number n with n*p <= c < (n+1)*p is the share count. */
  lemma Exact(p: real, c: real, n: real)
    requires p > 0.0 && c > 0.0 && n == n.Floor as real
    requires n * p <= c < (n + 1.0) * p
    ensures CashToShares(p, c) == n
  {
    SharesBounds(p, c);
    UniqueShares(p, c, CashToShares(p, c), n);
  }
}
