/** Powers of two and the uniqueness of quotient and remainder. */
module Arithmetic {

  function Pow2(n: nat): (p: nat)
    ensures p >= 1
  { if n == 0 then 1 else 2 * Pow2(n - 1) }

  lemma MulSmall(d: int, m: int)
    requires -m < d * m < m
    ensures d == 0
  {}

  lemma DivUnique(n: nat, m: nat, q: nat, r: nat)
    requires m > 0 && n == q * m + r && r < m
    ensures n / m == q && n % m == r
  {
    assert (n / m - q) * m == r - n % m;
    MulSmall(n / m - q, m);
  }
}
