/** Option type used wherever the engine returns `null` for "nothing". */
module Options {

  datatype Option<+T> = None | Some(value: T)
}

/** Two-dimensional vectors (engine/Vector2D.java). Java doubles are modelled
    as `real`; `Math.sqrt`, `Math.cos` and `Math.sin` are not computable over
    the reals, so the operations that need them take their results (or the
    square-root function itself) as parameters. */
module Vectors {
  import opened RealFacts

  /** An immutable vector; `x0` is the horizontal and `x1` the vertical
      component (screen coordinates: `x1` grows downwards). */
  datatype Vec = Vec(x0: real, x1: real)

  const Zero: Vec := Vec(0.0, 0.0)

  /** `sqrt` is the non-negative square root on the non-negative reals. */
  ghost predicate IsSqrt(sqrt: real -> real) {
    forall x :: 0.0 <= x ==> 0.0 <= sqrt(x) && sqrt(x) * sqrt(x) == x
  }

  function Abs(x: real): real {
    if x < 0.0 then -x else x
  }

  function Add(a: Vec, b: Vec): (r: Vec)
    ensures Sub(r, b) == a
  {
    Vec(a.x0 + b.x0, a.x1 + b.x1)
  }

  function Sub(a: Vec, b: Vec): Vec {
    Vec(a.x0 - b.x0, a.x1 - b.x1)
  }

  function Dot(a: Vec, b: Vec): real {
    a.x0 * b.x0 + a.x1 * b.x1
  }

  function Scale(v: Vec, k: real): Vec {
    Vec(v.x0 * k, v.x1 * k)
  }

  /** The vector turned a quarter turn; orthogonal to `v`, used to name the
      tangential component of a velocity. */
  function Perp(v: Vec): Vec {
    Vec(-v.x1, v.x0)
  }

  /** The squared length is never negative. */
  lemma DotSelfNonNegative(v: Vec)
    ensures 0.0 <= Dot(v, v)
  {
    SquareNonNegative(v.x0);
    SquareNonNegative(v.x1);
  }

  /** The squared length of a non-zero vector is positive. */
  lemma DotSelfPositive(v: Vec)
    requires v != Zero
    ensures 0.0 < Dot(v, v)
  {
    calc {
      Dot(v, v);
      v.x0 * v.x0 + v.x1 * v.x1;
    > { SumOfSquaresPositive(v.x0, v.x1); }
      0.0;
    }
  }

  /** `getMagnitude` (also used under the name `getLength`). */
  function Magnitude(sqrt: real -> real, v: Vec): (m: real)
    requires IsSqrt(sqrt)
    ensures 0.0 <= m && m * m == Dot(v, v)
    ensures v == Zero ==> m == 0.0
    ensures v != Zero ==> 0.0 < m
  {
    DotSelfNonNegative(v);
    var m := sqrt(Dot(v, v));
    if v == Zero then
      assert Dot(v, v) == 0.0;
      RootUnique(m, 0.0);
      m
    else
      DotSelfPositive(v);
      m
  }

  /** `rotate(theta)` with `c == cos theta` and `s == sin theta`. */
  function Rotate(v: Vec, c: real, s: real): (r: Vec)
    requires c * c + s * s == 1.0
    ensures Dot(r, r) == Dot(v, v)
  {
    var r := Vec(c * v.x0 - s * v.x1, s * v.x0 + c * v.x1);
    assert Dot(r, r) == (c * c + s * s) * Dot(v, v) by {
      assert (c * v.x0 - s * v.x1) * (c * v.x0 - s * v.x1)
          == c * c * (v.x0 * v.x0) - 2.0 * (c * s) * (v.x0 * v.x1) + s * s * (v.x1 * v.x1);
      assert (s * v.x0 + c * v.x1) * (s * v.x0 + c * v.x1)
          == s * s * (v.x0 * v.x0) + 2.0 * (c * s) * (v.x0 * v.x1) + c * c * (v.x1 * v.x1);
    }
    r
  }

  /** `equals`: exact componentwise equality, which is value equality. */
  function Equals(a: Vec, b: Vec): (r: bool)
    ensures r <==> a == b
  {
    a.x0 == b.x0 && a.x1 == b.x1
  }

  const Int32Modulus: int := 0x1_0000_0000

  predicate IsInt32(n: int) {
    -0x8000_0000 <= n < 0x8000_0000
  }

  /** Java `int` addition: the mathematical sum wrapped into 32 bits. */
  function WrapInt32(n: int): (r: int)
    ensures IsInt32(r)
    ensures (r - n) % Int32Modulus == 0
  {
    (n + 0x8000_0000) % Int32Modulus - 0x8000_0000
  }

  /** `hashCode`: the 32-bit sum of the components' `Double.hashCode`
      values. `Double.hashCode` works on the bit pattern of a double, which
      the model does not have, so it is the parameter `doubleHash`. */
  function HashCode(doubleHash: real -> int, v: Vec): (h: int)
    ensures IsInt32(h)
    ensures (h - (doubleHash(v.x0) + doubleHash(v.x1))) % Int32Modulus == 0
  {
    WrapInt32(doubleHash(v.x0) + doubleHash(v.x1))
  }

  // ---------------------------------------------------------------------
  // Properties relating the operations
  // ---------------------------------------------------------------------

  /** `sub` undoes `add`, and `add` undoes `sub`. */
  lemma AddSubInverse(a: Vec, b: Vec)
    ensures Sub(Add(a, b), b) == a
    ensures Add(Sub(a, b), b) == a
  {
  }

  lemma DotSymmetric(a: Vec, b: Vec)
    ensures Dot(a, b) == Dot(b, a)
  {
  }

  /** Dot product distributes over addition and subtraction in its first argument. */
  lemma DotLinear(a: Vec, b: Vec, c: Vec, k: real)
    ensures Dot(Add(a, b), c) == Dot(a, c) + Dot(b, c)
    ensures Dot(Sub(a, b), c) == Dot(a, c) - Dot(b, c)
    ensures Dot(Scale(a, k), c) == k * Dot(a, c)
  {
  }

  lemma ScaleOne(v: Vec)
    ensures Scale(v, 1.0) == v
  {
  }

  lemma ScaleCompose(v: Vec, a: real, b: real)
    ensures Scale(Scale(v, a), b) == Scale(v, a * b)
  {
  }

  /** `dot(v, v)` is the magnitude squared, and scaling by `k` scales the
      magnitude by `|k|`. */
  lemma MagnitudeOfScale(sqrt: real -> real, v: Vec, k: real)
    requires IsSqrt(sqrt)
    ensures Magnitude(sqrt, Scale(v, k)) == Abs(k) * Magnitude(sqrt, v)
  {
    var m := Magnitude(sqrt, v);
    var mk := Magnitude(sqrt, Scale(v, k));
    var a := Abs(k);
    assert mk * mk == a * a * (m * m) by {
      assert Dot(Scale(v, k), Scale(v, k)) == k * k * Dot(v, v);
      assert a * a == k * k;
    }
    assert (a * m) * (a * m) == a * a * (m * m);
    MulNonNegative(a, m);
    RootUnique(mk, a * m);
  }

  /** `rotate` preserves the magnitude (the assertion in `rotate`). */
  lemma RotatePreservesMagnitude(sqrt: real -> real, v: Vec, c: real, s: real)
    requires IsSqrt(sqrt)
    requires c * c + s * s == 1.0
    ensures Magnitude(sqrt, Rotate(v, c, s)) == Magnitude(sqrt, v)
  {
    RootUnique(Magnitude(sqrt, Rotate(v, c, s)), Magnitude(sqrt, v));
  }

  /** Equal vectors have equal hash codes. */
  lemma EqualsImpliesEqualHash(doubleHash: real -> int, a: Vec, b: Vec)
    requires Equals(a, b)
    ensures HashCode(doubleHash, a) == HashCode(doubleHash, b)
  {
  }
}
