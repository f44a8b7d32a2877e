/** Facts about the remainder that a rotating cursor needs. */
module Modular {
  lemma MulLeast(n: nat, d: int)
    requires d >= 1
    ensures n * d >= n
  {
    assert n * d == n * (d - 1) + n;
  }

  lemma MulOrder(n: nat, a: int, b: int)
    ensures a < b ==> n * a + n <= n * b
  {
    if a < b {
      MulLeast(n, b - a);
      assert n * b == n * a + n * (b - a);
    }
  }

  lemma DivModUnique(x: int, q: int, r: nat, n: nat)
    requires n > 0 && r < n && x == n * q + r
    ensures x % n == r && x / n == q
  {
    MulOrder(n, q, x / n);
    MulOrder(n, x / n, q);
    assert x == n * (x / n) + x % n;
  }

  lemma Period(x: int, n: nat)
    requires n > 0
    ensures (x + n) % n == x % n && (x + n) / n == x / n + 1
  {
    assert x + n == n * (x / n + 1) + x % n;
    DivModUnique(x + n, x / n + 1, x % n, n);
  }

  lemma ModAdd(x: int, y: int, n: nat)
    requires n > 0
    ensures (x % n + y) % n == (x + y) % n
  {
    var z := x % n + y;
    assert x + y == n * (x / n) + z;
    assert n * (x / n) + z == n * (x / n) + n * (z / n) + z % n;
    assert n * (x / n) + n * (z / n) == n * (x / n + z / n);
    DivModUnique(x + y, x / n + z / n, z % n, n);
  }

  lemma Small(x: nat, n: nat)
    requires x < n
    ensures x % n == x && x / n == 0
  {}

  lemma Apart(x: int, y: int, n: nat)
    requires n > 0 && x < y < x + n
    ensures x % n != y % n
  {
    var r, d := x % n, y - x;
    ModAdd(x, d, n);
    if r + d < n {
      Small(r + d, n);
    } else {
      Small(r + d - n, n);
      Period(r + d - n, n);
    }
  }
}
