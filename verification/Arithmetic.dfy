/** Facts about products and quotients of natural numbers. */
module Arithmetic {
  lemma MulMonotone(x: int, y: int, k: nat)
    requires x <= y
    ensures x * k <= y * k
  {
  }

  lemma Compare(b: nat, x: int, y: int, a: int)
    requires b * x <= a < b * (y + 1)
    ensures x <= y
  {
    if x > y {
      MulMonotone(y + 1, x, b);
    }
  }

  lemma MulStrict(x: int, y: int, k: nat)
    requires x < y && k > 0
    ensures x * k < y * k
  {
  }

  lemma QuotientBounds(a: nat, b: nat)
    requires b > 0
    ensures b * (a / b) <= a < b * (a / b + 1)
  {
  }

  lemma QuotientIs(a: nat, b: nat, q: nat)
    requires b > 0 && b * q <= a < b * (q + 1)
    ensures a / b == q
  {
    QuotientBounds(a, b);
    Compare(b, q, a / b, a);
    Compare(b, a / b, q, a);
  }

  lemma DivMonotone(a: nat, b: nat, c: nat)
    requires c > 0 && a <= b
    ensures a / c <= b / c
  {
    QuotientBounds(a, c);
    QuotientBounds(b, c);
    Compare(c, a / c, b / c, b);
  }

  lemma Associates(x: int, y: int, z: int)
    ensures x * (y * z) == (x * y) * z
  {
  }

  lemma Distributes(x: int, y: int, z: int)
    ensures (x + y) * z == x * z + y * z
  {
  }

  lemma CancelBounds(a: nat, b: nat, k: nat, q: nat)
    requires b > 0 && k > 0 && b * q <= a < b * (q + 1)
    ensures b * k > 0 && b * k * q <= a * k < b * k * (q + 1)
  {
    MulMonotone(b * q, a, k);
    MulMonotone(a + 1, b * (q + 1), k);
    Associates(b, k, q);
    Associates(b, k, q + 1);
    Associates(b, q, k);
    Associates(b, q + 1, k);
    Distributes(a, 1, k);
    MulMonotone(1, b, k);
  }

  lemma DivCancel(a: nat, b: nat, k: nat)
    requires b > 0 && k > 0
    ensures b * k > 0 && (a * k) / (b * k) == a / b
  {
    var q := a / b;
    QuotientBounds(a, b);
    CancelBounds(a, b, k, q);
    QuotientIs(a * k, b * k, q);
  }

  lemma NestedBounds(a: nat, b: nat, c: nat, p: nat, q: nat)
    requires b > 0 && c > 0 && b * p <= a < b * (p + 1) && c * q <= p < c * (q + 1)
    ensures b * c > 0 && b * c * q <= a < b * c * (q + 1)
  {
    MulMonotone(c * q, p, b);
    MulMonotone(p + 1, c * (q + 1), b);
    Associates(b, c, q);
    Associates(b, c, q + 1);
    MulMonotone(1, b, c);
  }

  lemma DivDiv(a: nat, b: nat, c: nat)
    requires b > 0 && c > 0
    ensures b * c > 0 && a / b / c == a / (b * c)
  {
    var p := a / b;
    var q := p / c;
    QuotientBounds(a, b);
    QuotientBounds(p, c);
    NestedBounds(a, b, c, p, q);
    QuotientIs(a, b * c, q);
  }

  lemma MulBoth(a: nat, b: nat, c: nat, d: nat)
    requires a <= b && c <= d
    ensures a * c <= b * d
  {
    MulMonotone(a, b, c);
    MulMonotone(c, d, b);
  }
}
