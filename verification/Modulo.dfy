/** Remainders of natural numbers, from the division identity. */
module Modulo {
  lemma NoMultiple(n: nat, k: int, d: int)
    requires n * k == d && 0 - n < d < n
    ensures k == 0
  {
  }

  lemma DivMod(x: nat, n: nat)
    requires n > 0
    ensures x == n * (x / n) + x % n && 0 <= x % n < n
  {
  }

  /** Two numbers with the same remainder that are less than `n` apart are equal. */
  lemma Congruent(a: nat, b: nat, n: nat)
    requires n > 0 && a % n == b % n && a <= b < a + n
    ensures a == b
  {
    DivMod(a, n);
    DivMod(b, n);
    var k := b / n - a / n;
    assert n * k == n * (b / n) - n * (a / n);
    NoMultiple(n, k, b - a);
  }

  lemma Quotient(q: nat, n: nat, r: nat, x: nat)
    requires r < n && x == n * q + r
    ensures x % n == r
  {
    DivMod(x, n);
    var k := x / n - q;
    assert n * k == n * (x / n) - n * q;
    NoMultiple(n, k, r - x % n);
  }
}
