/** Division of integers. */
module Arithmetic {

  /** Quotient and remainder are determined by their equation. */
  lemma {:induction false} QuotientUnique(n: int, divisor: int, q: int, r: int)
    requires n == q * divisor + r && 0 <= r < divisor
    ensures n / divisor == q && n % divisor == r
  {
    var d := n / divisor - q;
    assert n == (n / divisor) * divisor + n % divisor;
    assert d * divisor == r - n % divisor;
    assert d >= 1 ==> d * divisor >= divisor;
    assert d <= -1 ==> d * divisor <= -divisor;
  }
}
