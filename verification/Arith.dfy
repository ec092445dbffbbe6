// Arithmetic that several parts need and the solver does not find unaided.
module Arith {

  function Min(a: int, b: int): int {
    if a <= b then a else b
  }

  lemma Scale(factor: nat, a: int, b: int)
    requires a <= b
    ensures factor * a <= factor * b
  {
  }

  lemma Distribute(c: int, a: int, b: int)
    ensures c * (a + b) == c * a + c * b && (a + b) * c == a * c + b * c
  {
  }

  // Quotient and remainder are unique.
  lemma Quotient(x: int, m: nat, q: int, r: int)
    requires 0 <= r < m && x == m * q + r
    ensures x / m == q && x % m == r
  {
    var q', r' := x / m, x % m;
    assert x == m * q' + r';
    if q' < q {
      Scale(m, q' + 1, q);
    } else if q' > q {
      Scale(m, q + 1, q');
    }
  }

  lemma SmallMod(x: int, m: nat)
    requires 0 <= x < m
    ensures x / m == 0 && x % m == x
  {
    Quotient(x, m, 0, x);
  }

  lemma AddMultiple(d: nat, t: int, r: int)
    requires d > 0
    ensures (d * t + r) / d == t + r / d && (d * t + r) % d == r % d
  {
    var q := r / d;
    assert r == d * q + r % d;
    Distribute(d, t, q);
    Quotient(d * t + r, d, t + q, r % d);
  }
}
