/** Arithmetic facts about products of reals that the geometry needs. Each
    lemma is stated over plain reals so that callers meet it by substitution. */
module RealFacts {

  /** The product of two positive reals is positive. */
  lemma MulPositive(x: real, y: real)
    requires 0.0 < x && 0.0 < y
    ensures 0.0 < x * y
  {
  }

  /** A non-zero real has a positive square. */
  lemma SquarePositive(x: real)
    requires x != 0.0
    ensures 0.0 < x * x
  {
    if x < 0.0 {
      MulPositive(-x, -x);
    } else {
      MulPositive(x, x);
    }
  }

  lemma SquareNonNegative(x: real)
    ensures 0.0 <= x * x
  {
    if x != 0.0 {
      SquarePositive(x);
    }
  }

  /** A sum of two squares, not both of zero, is positive. */
  lemma SumOfSquaresPositive(x: real, y: real)
    requires x != 0.0 || y != 0.0
    ensures 0.0 < x * x + y * y
  {
    if x != 0.0 {
      SquarePositive(x);
      SquareNonNegative(y);
    } else {
      SquarePositive(y);
      SquareNonNegative(x);
    }
  }

  /** Two non-negative reals with the same square are equal, so a magnitude
      is determined by the squared length alone. */
  lemma RootUnique(a: real, b: real)
    requires 0.0 <= a && 0.0 <= b && a * a == b * b
    ensures a == b
  {
    if a < b {
      SquareLess(a, b);
    } else if b < a {
      SquareLess(b, a);
    }
  }

  /** Squaring is strictly increasing on the non-negative reals. */
  lemma SquareLess(a: real, b: real)
    requires 0.0 <= a < b
    ensures a * a < b * b
  {
    MulPositive(b - a, b + a);
  }

  /** `(a / b) * b` recovers `a`. */
  lemma DivMul(a: real, b: real)
    requires b != 0.0
    ensures (a / b) * b == a
  {
  }

  /** A real whose product with a positive real is non-negative is itself
      non-negative. */
  lemma NonNegativeFactor(x: real, y: real)
    requires 0.0 < y && 0.0 <= x * y
    ensures 0.0 <= x
  {
  }

  /** A real whose product with a positive real is positive is itself
      positive. */
  lemma PositiveFactor(x: real, y: real)
    requires 0.0 < y && 0.0 < x * y
    ensures 0.0 < x
  {
  }

  /** The product of two non-negative reals is non-negative. */
  lemma MulNonNegative(x: real, y: real)
    requires 0.0 <= x && 0.0 <= y
    ensures 0.0 <= x * y
  {
    if 0.0 < x && 0.0 < y {
      MulPositive(x, y);
    }
  }

  /** A positive factor can be cancelled from both sides of an equation. */
  lemma MulCancel(x: real, y: real, c: real)
    requires 0.0 < c && x * c == y * c
    ensures x == y
  {
    if x < y {
      MulPositive(y - x, c);
    } else if y < x {
      MulPositive(x - y, c);
    }
  }

  /** Squaring is monotone on the non-negative reals. */
  lemma SquareAtMost(a: real, b: real)
    requires 0.0 <= a <= b
    ensures a * a <= b * b
  {
    if a < b {
      SquareLess(a, b);
    }
  }

  /** On the non-negative reals, comparing squares compares the numbers. */
  lemma SquareLessIff(a: real, b: real)
    requires 0.0 <= a && 0.0 <= b
    ensures a < b <==> a * a < b * b
  {
    if a < b {
      SquareLess(a, b);
    } else {
      SquareAtMost(b, a);
    }
  }
}
