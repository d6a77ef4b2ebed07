/** Bounds and signs of products and quotients that the solver needs to be told. */
module Arithmetic {
  function Max(a: real, b: real): real { if a > b then a else b }

  function Min(a: real, b: real): real { if a < b then a else b }

  // ---- products ----

  lemma NonNegativeProduct(a: real, b: real)
    requires a >= 0.0 && b >= 0.0
    ensures a * b >= 0.0
  {
  }

  lemma PositiveProduct(a: real, b: real)
    requires a > 0.0 && b > 0.0
    ensures a * b > 0.0
  {
  }

  lemma NegativeProduct(a: real, b: real)
    requires a < 0.0 && b > 0.0
    ensures a * b < 0.0
  {
  }

  // The product is named so that the solver does not rewrite a square.
  lemma NamedProduct(a: real, b: real, product: real)
    requires a > 0.0 && b > 0.0 && product == a * b
    ensures product > 0.0
  {
  }

  lemma SquareSign(x: real, square: real)
    requires square == x * x
    ensures square >= 0.0 && (square == 0.0 ==> x == 0.0)
  {
    if x > 0.0 { NamedProduct(x, x, square); } else if x < 0.0 { NamedProduct(-x, -x, square); }
  }

  // ---- quotients ----

  lemma NonNegativeQuotient(a: real, b: real)
    requires a >= 0.0 && b > 0.0
    ensures a / b >= 0.0
  {
  }

  lemma PositiveQuotient(a: real, b: real)
    requires a > 0.0 && b > 0.0
    ensures a / b > 0.0
  {
  }

  lemma DivideBack(q: real, d: real)
    requires d != 0.0
    ensures q * d / d == q
  {
  }

  // A quotient against a bound, without the division.
  lemma QuotientAgainst(a: real, b: real, c: real)
    requires b > 0.0
    ensures a / b <= c <==> a <= c * b
    ensures a / b >= c <==> a >= c * b
  {
    var q := a / b;
    assert q * b == a;
    assert (q - c) * b == q * b - c * b;
    if q > c { PositiveProduct(q - c, b); } else if q < c { NegativeProduct(q - c, b); }
  }

  // Dividing a positive amount by more gives less.
  lemma QuotientFalls(a: real, b: real, c: real)
    requires a > 0.0 && 0.0 < b <= c
    ensures a / c <= a / b
  {
    var x, y := a / b, a / c;
    assert x * b == a && y * c == a;
    PositiveQuotient(a, c);
    NonNegativeProduct(y, c - b);
    assert y * (c - b) == y * c - y * b;
    assert (x - y) * b == x * b - y * b >= 0.0;
    if x < y { NegativeProduct(x - y, b); }
  }
}
