/** Powers of two, and facts about products and quotients. */
module Arithmetic {
  function Pow2(n: nat): (p: nat)
    ensures p > 0
  {
    if n == 0 then 1 else 2 * Pow2(n - 1)
  }

  lemma MultipleOutgrows(a: int, n: nat)
    ensures a >= 1 ==> a * n >= n
    ensures a <= -1 ==> a * n + n <= 0
  {
    if a >= 1 {
      assert a * n == (a - 1) * n + n;
    }
    if a <= -1 {
      assert -a * n == (-a - 1) * n + n;
    }
  }

  lemma ModUnique(x: nat, n: nat, k: nat, r: nat)
    requires n > 0 && x == k * n + r && r < n
    ensures x % n == r
  {
    var a := x / n - k;
    assert a * n == x / n * n - k * n;
    MultipleOutgrows(a, n);
  }

  lemma Distribute(a: int, b: int, c: int)
    ensures (a + b) * c == a * c + b * c
  {
  }

  lemma Associate(a: int, b: int, c: int)
    ensures a * b * c == a * (b * c)
  {
  }

  lemma {:induction false} ProductGrows(a: nat, b: nat, n: nat)
    requires a <= b
    ensures a * n <= b * n
    decreases b - a
  {
    if a < b {
      Distribute(a, 1, n);
      ProductGrows(a + 1, b, n);
    }
  }

  lemma QuotientUnique(n: nat, d: nat, q: nat, r: nat)
    requires n == q * d + r && r < d
    ensures n / d == q && n % d == r
  {
    ModUnique(n, d, q, r);
    var k: int := q;
    MultipleOutgrows(n / d - k, d);
    Distribute(n / d, -k, d);
  }
}
