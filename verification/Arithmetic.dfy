/** Products, quotients and bounds of integers. */
module Arithmetic {

  function Max(x: int, y: int): int { if x < y then y else x }
  function Min(x: int, y: int): int { if x > y then y else x }

  lemma ProductLe(x: int, y: int, n: nat)
    ensures x <= y ==> x * n <= y * n
  {}

  lemma ProductStep(x: int, y: int, n: nat)
    ensures x < y ==> x * n + n <= y * n
  {
    ProductLe(x + 1, y, n);
    OneMore(x, n);
  }

  lemma OneMore(x: int, n: int)
    ensures (x + 1) * n == x * n + n
  {}

  lemma Commute(x: int, y: int)
    ensures x * y == y * x
  {}

  lemma DivIs(x: nat, n: nat, q: nat)
    requires n > 0 && q * n <= x < (q + 1) * n
    ensures x / n == q
  {
    ProductLe(x / n + 1, q, n);
    ProductLe(q + 1, x / n, n);
  }

  lemma DivMonotone(x: nat, y: nat, n: nat)
    requires n > 0 && x <= y
    ensures x / n <= y / n
  {
    ProductLe(y / n + 1, x / n, n);
  }

  lemma DivBelow(x: nat, n: nat, q: nat)
    requires n > 0 && x < q * n
    ensures x / n < q
  {
    ProductLe(q, x / n, n);
  }
}
