/** Multiplication and division facts that the geometry and the noise share. */
module Arithmetic {
  lemma MulPositive(a: nat, b: nat)
    ensures a * b > 0 <==> a > 0 && b > 0
  {
    if a > 0 && b > 0 { assert a * b >= 1; }
  }

  lemma MulMonotone(a: nat, b: nat, c: nat)
    requires a <= b
    ensures a * c <= b * c
  {
    assert b * c == a * c + (b - a) * c;
  }

  lemma MulLess(a: nat, b: nat, c: nat)
    requires a < b && 0 < c
    ensures a * c < b * c
  {
    assert b * c == a * c + (b - a) * c;
  }

  lemma MulBefore(a: nat, b: nat, c: nat)
    requires a < b
    ensures a * c + c <= b * c
  {
    MulMonotone(a + 1, b, c);
    assert (a + 1) * c == a * c + c;
  }

  lemma LessIffMul(a: nat, b: nat, c: nat)
    requires 0 < c
    ensures (a + 1) * c <= b * c <==> a < b
  {
    if a < b { MulMonotone(a + 1, b, c); } else { MulMonotone(b, a, c); assert (a + 1) * c == a * c + c; }
  }

  lemma DivMod(i: nat, d: nat)
    requires 0 < d
    ensures i == i / d * d + i % d && i % d < d
  {
  }

  lemma DivIs(i: nat, d: nat, q: nat)
    requires q * d <= i < q * d + d
    ensures i / d == q && i % d == i - q * d
  {
    var k := i / d;
    DivMod(i, d);
    assert (k + 1) * d == k * d + d && (q + 1) * d == q * d + d;
    if k < q { MulMonotone(k + 1, q, d); }
    if k > q { MulMonotone(q + 1, k, d); }
  }

  lemma DivBelow(i: nat, d: nat, q: nat)
    requires 0 < d && i < q * d
    ensures i / d < q
  {
    var k := i / d;
    DivMod(i, d);
    if k >= q { MulMonotone(q, k, d); }
  }

  lemma CeilingBounds(n: nat, d: nat)
    requires d > 0
    ensures n <= (n + d - 1) / d * d < n + d
  {
    var q, r := (n + d - 1) / d, (n + d - 1) % d;
    assert n + d - 1 == q * d + r;
  }

  lemma DivMonotone(a: nat, b: nat, d: nat)
    requires a <= b && 0 < d
    ensures a / d <= b / d
  {
    var q := b / d;
    DivMod(b, d);
    assert (q + 1) * d == q * d + d;
    DivBelow(a, d, q + 1);
  }
}
