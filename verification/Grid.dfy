/** Integer grids: the multiples of a positive step. */
module Grid {

  lemma MulPositive(n: int, k: int)
    requires 0 < n && 0 < k
    ensures n <= n * k
  {
  }

  lemma Distribute(n: int, a: int, b: int)
    ensures n * (a - b) == n * a - n * b
  {
  }

  lemma QuotientUnique(n: int, i: int, r: int, j: int, s: int)
    requires 0 <= r < n && 0 <= s < n && n * i + r == n * j + s
    ensures i == j && r == s
  {
    Distribute(n, i, j);
    if i < j {
      Distribute(n, j, i);
      MulPositive(n, j - i);
    } else if j < i {
      MulPositive(n, i - j);
    }
  }

  lemma ModOf(i: int, r: int, n: int)
    requires 0 <= r < n
    ensures (n * i + r) % n == r
  {
    var x := n * i + r;
    assert x == n * (x / n) + x % n;
    QuotientUnique(n, i, r, x / n, x % n);
  }

  lemma GridUnique(a: int, b: int, n: int)
    requires 0 < n && a % n == 0 && b % n == 0 && a <= b < a + n
    ensures a == b
  {
    var i, j := a / n, b / n;
    assert a == n * i;
    assert b == n * j;
    var r := b - a;
    QuotientUnique(n, i, r, j, 0);
  }

  lemma GridUp(a: int, n: int)
    requires 0 < n
    ensures (a + n) % n == a % n
    ensures a % n != 0 ==> (a + (n - a % n)) % n == 0
  {
    var i := a / n;
    var r := a % n;
    assert a == n * i + r;
    assert n * (i + 1) == n * i + n by { Distribute(n, i, -1); }
    ModOf(i + 1, r, n);
    ModOf(i + 1, 0, n);
  }
}
