/** Field identities over the reals that the quotient of two complex numbers rests on. */
module RealAlgebra {

  lemma DivMul(x: real, r: real)
    requires r != 0.0
    ensures x / r * r == x
  {
  }

  lemma Cancel(p: real, q: real, n: real)
    requires n != 0.0 && p * n == q * n
    ensures p == q
  {
    assert (p - q) * n == 0.0;
  }

  lemma ExpandReal(x: real, y: real, a: real, b: real, c: real, d: real, n: real)
    requires n == c * c + d * d
    requires x * n == a * c + b * d && y * n == -(a * d) + c * b
    ensures (x * c - y * d) * n == a * n
  {
    calc {
      (x * c - y * d) * n;
      (x * n) * c - (y * n) * d;
      (a * c + b * d) * c - (-(a * d) + c * b) * d;
      a * (c * c + d * d);
    }
  }

  lemma ExpandImaginary(x: real, y: real, a: real, b: real, c: real, d: real, n: real)
    requires n == c * c + d * d
    requires x * n == a * c + b * d && y * n == -(a * d) + c * b
    ensures (x * d + y * c) * n == b * n
  {
    calc {
      (x * d + y * c) * n;
      (x * n) * d + (y * n) * c;
      (a * c + b * d) * d + (-(a * d) + c * b) * c;
      b * (c * c + d * d);
    }
  }

  lemma QuotientParts(a: real, b: real, c: real, d: real, n: real, x: real, y: real)
    requires n == c * c + d * d && n != 0.0
    requires x == (a * c + b * d) / n && y == (-(a * d) + c * b) / n
    ensures x * c - y * d == a && x * d + y * c == b
  {
    DivMul(a * c + b * d, n);
    DivMul(-(a * d) + c * b, n);
    ExpandReal(x, y, a, b, c, d, n);
    ExpandImaginary(x, y, a, b, c, d, n);
    Cancel(x * c - y * d, a, n);
    Cancel(x * d + y * c, b, n);
  }
}
