/** Definitions shared by every model. */
module Prelude {
  datatype Option<+T> = None | Some(value: T)

  function Pow2(n: nat): (r: nat)
    ensures r > 0
  {
    if n == 0 then 1 else 2 * Pow2(n - 1)
  }

  lemma MulSign(k: int, n: int)
    requires n > 0
    ensures k >= 1 ==> k * n >= n
    ensures k <= -1 ==> k * n <= -n
  {
    if k >= 1 { assert k * n == (k - 1) * n + n; }
    if k <= -1 { assert k * n == (k + 1) * n - n; }
  }

  /** Quotient and remainder are unique. */
  lemma ModUnique(x: int, n: int, q: int, r: int)
    requires n > 0 && x == q * n + r && 0 <= r < n
    ensures x % n == r && x / n == q
  {
    var k := x / n - q;
    assert k * n == r - x % n;
    MulSign(k, n);
  }

  /** Numbers with the same remainder differ by a multiple, and the other way around. */
  lemma Multiple(x: int, y: int, n: int) returns (z: int)
    requires n > 0 && x % n == y % n
    ensures y - x == n * z
  {
    z := y / n - x / n;
    assert n * (y / n) - n * (x / n) == n * z;
  }

  lemma Shifted(x: int, y: int, n: int, z: int)
    requires n > 0 && y - x == n * z
    ensures x % n == y % n
  {
    assert n * (x / n + z) == n * (x / n) + n * z;
    ModUnique(y, n, x / n + z, x % n);
  }

  lemma SameRest(a: int, b: int, n: int)
    requires n > 0 && a % n == b % n && 0 - n < a - b < n
    ensures a == b
  {
    var z := Multiple(a, b, n);
    MulSign(z, n);
  }

  lemma ModRange(x: int, n: int)
    requires n > 0
    ensures 0 <= x % n < n
  {
  }

  lemma Quotient(x: int, n: int) returns (q: int)
    requires n > 0
    ensures x == n * q + x % n
  {
    q := x / n;
  }

  /** Adding before or after taking the remainder. */
  lemma ModAdd(x: int, y: int, n: int)
    requires n > 0
    ensures (x % n + y) % n == (x + y) % n
  {
    var q := Quotient(x, n);
    Shifted(x % n + y, x + y, n, q);
  }
}
