/** Facts about integer division that the arithmetic of several components rests on. */
module Arith {

  function Pow2(n: nat): (p: nat)
    ensures p > 0
  {
    if n == 0 then 1 else 2 * Pow2(n - 1)
  }

  lemma Scale(d: int, x: int, y: int)
    requires d >= 0
    ensures x <= y ==> d * x <= d * y
  {
    if x <= y { assert d * y == d * x + d * (y - x); }
  }

  lemma Quotient(v: int, d: int, q: int, r: int)
    requires v == d * q + r && 0 <= r < d
    ensures v / d == q
  {
    var p := v / d;
    assert d * p <= v < d * p + d;
    Scale(d, p + 1, q);
    Scale(d, q + 1, p);
  }

  lemma Remainder(v: int, d: int, q: int, r: int)
    requires v == d * q + r && 0 <= r < d
    ensures v / d == q && v % d == r
  {
    Quotient(v, d, q, r);
  }

  /** Division is the largest factor that fits. */
  lemma Fits(v: int, d: int, q: int)
    requires d > 0
    ensures q <= v / d <==> d * q <= v
  {
    var p := v / d;
    assert d * p <= v < d * p + d;
    Scale(d, q, p);
    Scale(d, p + 1, q);
  }

  lemma DivDiv(v: nat, a: nat, b: nat)
    requires a > 0 && b > 0
    ensures a * b > 0 && v / a / b == v / (a * b)
  {
    var q, r := v / a / b, v / a % b;
    assert v == a * (b * q + r) + v % a;
    Regrouped(a, b, q, r);
    Scale(a, r, b - 1);
    Quotient(v, a * b, q, a * r + v % a);
  }

  lemma Regrouped(a: int, b: int, q: int, r: int)
    ensures a * (b * q + r) == a * b * q + a * r
    ensures a * (b - 1) == a * b - a
  {
  }
}
