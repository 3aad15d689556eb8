/** The index arithmetic of the two circular queues: power-of-two sizes and masks. */
module Bits {
  predicate IsPow2(n: nat) {
    n == 1 || (n > 1 && n % 2 == 0 && IsPow2(n / 2))
  }

  lemma Pow2Double(n: nat)
    requires IsPow2(n)
    ensures IsPow2(2 * n)
  {
    assert 2 * n % 2 == 0 && 2 * n / 2 == n;
  }

  /** Bitwise conjunction of unsigned integers. */
  function And(x: nat, y: nat): (r: nat)
    ensures r <= x && r <= y
  {
    if x == 0 || y == 0 then 0
    else 2 * And(x / 2, y / 2) + if x % 2 == 1 && y % 2 == 1 then 1 else 0
  }

  lemma MulSign(n: int, q: int)
    requires n >= 0
    ensures q >= 1 ==> n * q >= n
    ensures q <= -1 ==> n * q <= -n
    ensures q == 0 ==> n * q == 0
  {
  }

  /** Quotient and remainder are unique. */
  lemma ModUnique(x: int, n: nat, q: int, r: int)
    requires 0 <= r < n && x == n * q + r
    ensures x % n == r && x / n == q
  {
    MulSign(n, x / n - q);
    assert n * (x / n - q) == r - x % n;
  }

  lemma ModDistinct(i: int, j: int, n: nat)
    requires 0 < j - i < n
    ensures i % n != j % n
  {
    MulSign(n, j / n - i / n);
    assert j - i == n * (j / n - i / n) + (j % n - i % n);
  }

  lemma ModDouble(x: nat, m: nat)
    requires m > 0
    ensures x % (2 * m) == 2 * ((x / 2) % m) + x % 2
  {
    var q, r := x / 2 / m, (x / 2) % m;
    assert x / 2 == m * q + r;
    assert x == 2 * (m * q) + (2 * r + x % 2);
    assert 2 * (m * q) == (2 * m) * q;
    ModUnique(x, 2 * m, q, 2 * r + x % 2);
  }

  lemma AndOdd(x: nat, y: nat)
    ensures And(x, 2 * y + 1) == 2 * And(x / 2, y) + x % 2
  {
    assert (2 * y + 1) / 2 == y;
  }

  /** Masking with a power of two minus one is reduction modulo that power of two. */
  lemma {:induction false} MaskIsMod(x: nat, n: nat)
    requires IsPow2(n)
    ensures And(x, n - 1) == x % n
    decreases n
  {
    if n > 1 {
      var m := n / 2;
      MaskIsMod(x / 2, m);
      AndOdd(x, m - 1);
      ModDouble(x, m);
    }
  }

  /** Indices less than one array length apart fall into different slots. */
  lemma MaskDistinct(i: nat, j: nat, n: nat)
    requires IsPow2(n) && 0 < j - i < n
    ensures And(i, n - 1) != And(j, n - 1)
  {
    MaskIsMod(i, n);
    MaskIsMod(j, n);
    ModDistinct(i, j, n);
  }
}
