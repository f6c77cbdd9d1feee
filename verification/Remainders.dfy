/** Division with remainder. */
module Remainders {
  lemma {:induction false} UniqueRemainder(n: int, m: nat, q: int, r: nat)
    requires m > 0 && n == q * m + r && r < m
    ensures n % m == r && n / m == q
  {
    var d := n / m - q;
    assert n == (n / m) * m + n % m;
    assert d * m == r - n % m;
    assert d >= 1 ==> (d - 1) * m >= 0;
    assert d <= -1 ==> (-1 - d) * m >= 0;
  }
}
