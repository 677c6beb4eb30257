module Arith {
  function Min(a: int, b: int): int { if a <= b then a else b }

  function Max(a: int, b: int): int { if a <= b then b else a }

  function Pow2(n: nat): nat { if n == 0 then 1 else 2 * Pow2(n - 1) }

  lemma Product(d: nat, p: nat, q: nat)
    requires q < p
    ensures d * q + d <= d * p
  {
    var k: nat := p - q - 1;
    assert d * p == d * (q + 1 + k) == d * q + d + d * k;
  }

  lemma Monotone(a: nat, b: nat, d: nat)
    requires a <= b && 0 < d
    ensures a / d <= b / d
  {
    var p, q, r, t := a / d, b / d, a % d, b % d;
    assert a == d * p + r && b == d * q + t;
    if q < p { Product(d, p, q); }
  }

  lemma Apart(a: nat, b: nat, d: nat)
    requires a + d <= b && 0 < d
    ensures a / d + 1 <= b / d
  {
    Monotone(a + d, b, d);
    assert (a + d) / d == a / d + 1 by {
      assert a + d == d * (a / d + 1) + a % d;
      Quotient(a + d, d, a / d + 1, a % d);
    }
  }

  lemma Quotient(x: nat, d: nat, q: nat, r: nat)
    requires 0 < d && r < d && x == d * q + r
    ensures x / d == q
  {
    var p := x / d;
    assert x == d * p + x % d;
    if p < q { Product(d, q, p); }
    if q < p { Product(d, p, q); }
  }
}
