/** Quotients and remainders by a positive number. */
module Quotients {

  /** Multiples of `n` are at least `n` apart. */
  lemma MultiplesApart(n: nat, x: int, y: int)
    ensures x < y ==> x * n + n <= y * n
  {
    if x < y {
      assert (x + 1) * n <= y * n;
    }
  }

  lemma QuotientIs(i: int, q: int, n: nat)
    requires n >= 1 && q * n <= i < q * n + n
    ensures i / n == q && i % n == i - q * n
  {
    assert i == n * (i / n) + i % n;
    MultiplesApart(n, i / n, q);
    MultiplesApart(n, q, i / n);
  }
}
