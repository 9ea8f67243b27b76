/** The few nonlinear facts the statistics rest on; everything else is linear in their products. */
module Algebra {

  lemma PositiveProduct(x: real, y: real)
    requires 0.0 < x && 0.0 < y
    ensures 0.0 < x * y
  {
  }

  lemma NonNegativeProduct(x: real, y: real)
    requires 0.0 <= x && 0.0 <= y
    ensures 0.0 <= x * y
  {
  }

  lemma Scale(factor: real, x: real, y: real)
    requires x == y
    ensures factor * x == factor * y
  {
  }

  lemma Quotient(x: real, y: real)
    requires y != 0.0
    ensures x / y * y == x
  {
  }

  lemma SquareNonNegative(x: real)
    ensures 0.0 <= x * x
  {
    if x >= 0.0 {
      NonNegativeProduct(x, x);
    } else {
      NonNegativeProduct(-x, -x);
    }
  }

  lemma ProductIsPositive(x: real, y: real, product: real)
    requires 0.0 < x && 0.0 < y && product == x * y
    ensures 0.0 < product
  {
  }

  lemma SquareMonotone(x: real, y: real)
    requires 0.0 <= x <= y
    ensures x * x <= y * y
  {
    NonNegativeProduct(y - x, y + x);
  }

  lemma SquareStrict(x: real, y: real)
    requires 0.0 <= x < y
    ensures x * x < y * y
  {
    PositiveProduct(y - x, y + x);
  }

  lemma SquareOfProduct(x: real, y: real)
    ensures (x * y) * (x * y) == x * x * (y * y)
  {
  }
}
