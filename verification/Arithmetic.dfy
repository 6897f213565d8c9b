/** The few facts about products and quotients that the solver needs to be told. */
module Arithmetic {
  function Min(a: int, b: int): int {
    if a < b then a else b
  }

  function Max(a: int, b: int): int {
    if a > b then a else b
  }

  /** The range of a 32-bit int. */
  predicate FitsInt(n: int) {
    -0x8000_0000 <= n <= 0x7FFF_FFFF
  }

  function Clamp(x: int, low: int, high: int): (c: int)
    ensures low <= high ==> low <= c <= high
  {
    if x < low then low else if x > high then high else x
  }

  lemma Distribute(a: int, b: int, n: int)
    ensures (a + b) * n == a * n + b * n
  {
  }

  lemma MulNonNegative(a: int, n: nat)
    ensures a >= 0 ==> a * n >= 0
  {
  }

  lemma MulOrder(a: int, b: int, n: nat)
    ensures a <= b ==> a * n <= b * n
    ensures a < b ==> a * n + n <= b * n
  {
    Distribute(a, b - a, n);
    MulNonNegative(b - a, n);
    Distribute(a + 1, b - a - 1, n);
    Distribute(a, 1, n);
    MulNonNegative(b - a - 1, n);
  }

  /** Division is determined by its defining equation. */
  lemma DivModIs(x: int, n: nat, q: int, r: nat)
    requires n > 0 && r < n && x == q * n + r
    ensures x / n == q && x % n == r
  {
    assert x == (x / n) * n + x % n;
    MulOrder(x / n, q, n);
    MulOrder(q, x / n, n);
  }
}
