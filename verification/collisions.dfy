/** The collision geometry of the engine (engine/Engine.java): the wall,
    rectangle, ball and paddle tests, each of which returns the shortest
    vector that moves the ball out of the overlap (the "MTV"), and the
    collision response that applies it. `getLength` is `getMagnitude`, and
    a ball's centre is its position moved by its radius on both axes. */
module Collisions {
  import opened Options
  import opened Vectors
  import opened RealFacts
  import opened Shapes

  /** What one of the raw tests of the source yields: no overlap (`null`),
      a vector, or a vector whose components are NaN because the source
      scaled the zero vector by a factor it divided by a zero length, an
      infinite factor (zero times infinity is NaN). */
  datatype Mtv = Miss | Push(v: Vec) | NotANumber

  /** The MTV as the rest of the engine sees it once the NaN and zero-length
      results are ruled out. */
  function Sanitize(m: Mtv): (r: Option<Vec>)
    ensures r.Some? <==> m.Push? && m.v != Zero
    ensures r.Some? ==> r.value == m.v
  {
    match m
    case Push(v) => if v == Zero then None else Some(v)
    case _ => None
  }

  /** `Math.copySign`: the magnitude of `magnitude` with the sign of `sign`
      (doubles' signed zero is not modelled: a zero `sign` counts as
      positive). */
  function CopySign(magnitude: real, sign: real): (r: real)
    ensures Abs(r) == Abs(magnitude)
    ensures 0.0 <= sign ==> 0.0 <= r
    ensures sign < 0.0 ==> r <= 0.0
  {
    if 0.0 <= sign then Abs(magnitude) else -Abs(magnitude)
  }

  function Max(a: real, b: real): real {
    if a >= b then a else b
  }

  function Min(a: real, b: real): real {
    if a <= b then a else b
  }

  /** Two circles whose centres are `d` apart and whose radii add up to
      `reach` overlap; with `reach` a radius and `d` the offset from a
      shape, a ball overlaps the shape. */
  predicate Overlaps(d: Vec, reach: real) {
    0.0 < reach && Dot(d, d) < reach * reach
  }

  /** The offset `e` is `dist` long. */
  predicate AtDistance(e: Vec, dist: real) {
    Dot(e, e) == dist * dist
  }

  /** An offset of length `len` reaches within `reach` exactly when `len`
      is less than `reach`. */
  lemma LengthOverlaps(e: Vec, len: real, reach: real)
    requires 0.0 <= len && AtDistance(e, len)
    ensures len < reach <==> Overlaps(e, reach)
  {
    if len < reach {
      SquareLess(len, reach);
    } else if 0.0 < reach {
      SquareAtMost(reach, len);
    }
  }

  // -----------------------------------------------------------------------
  // Walls
  // -----------------------------------------------------------------------

  /** The region of upper-left corners for which a ball of radius `radius`
      lies between the left and right walls and below the top wall. There
      is no bottom wall: a ball that falls out is lost. */
  predicate InsideWalls(position: Vec, radius: real, width: real) {
    0.0 <= position.x0 <= width - 2.0 * radius && 0.0 <= position.x1
  }

  /** The wall vector of `getWallCollision` for a ball whose upper-left
      corner is at `x`, `y`. */
  function WallVector(x: real, y: real, radius: real, width: real): Vec {
    Vec(Max(0.0, -x) + Min(0.0, width - (x + 2.0 * radius)), Max(0.0, -y))
  }

  /** `getWallCollision`: `null` when the wall vector is zero. */
  function WallCollision(b: Ball, width: real): (m: Option<Vec>)
    ensures m.Some? ==> m.value != Zero && 0.0 <= m.value.x1
    ensures 0.0 <= 2.0 * b.radius <= width ==>
              (m.None? <==> InsideWalls(BallPosition(b), b.radius, width))
    ensures 0.0 <= 2.0 * b.radius <= width && m.Some? ==>
              InsideWalls(Add(BallPosition(b), m.value), b.radius, width)
  {
    var v := WallVector(GetX(b.entity), GetY(b.entity), b.radius, width);
    if Equals(v, Zero) then None else Some(v)
  }

  /** Once pushed back, the ball is inside the walls, so the test reports
      nothing on the next look. */
  lemma WallCollisionSettles(b: Ball, width: real)
    requires 0.0 <= 2.0 * b.radius <= width
    ensures var m := WallCollision(b, width);
            m.Some? ==> WallCollision(SetBallPosition(b, Add(BallPosition(b), m.value)), width).None?
  {
  }

  /** `getWallCollision` as the source runs it: `getX`/`getY` read the
      entity's own position, which the ball's constructor and position
      setter never write. */
  function ShadowedWallCollision(b: ShadowedBall, width: real): (m: Option<Vec>)
    ensures b.entity.position == Zero && 0.0 <= 2.0 * b.radius <= width ==> m.None?
  {
    var v := WallVector(GetX(b.entity), GetY(b.entity), b.radius, width);
    if Equals(v, Zero) then None else Some(v)
  }

  /** A ball that has left the field through the left wall goes unnoticed
      by the wall test as written; with one position it is pushed back. */
  lemma ShadowedWallMissesEscapedBall()
    ensures var width, radius, p := 80.0, 1.0, Vec(-5.0, 10.0);
            && !InsideWalls(p, radius, width)
            && ShadowedWallCollision(NewShadowedBall(p, radius), width).None?
            && WallCollision(NewBall(p, radius), width) == Some(Vec(5.0, 0.0))
  {
  }

  // -----------------------------------------------------------------------
  // Collision response
  // -----------------------------------------------------------------------

  function Velocity(b: Ball): Vec {
    b.entity.velocity
  }

  /** The mirror image of `v` in the line orthogonal to the unit vector
      `norm`: `v - norm * (2 (norm . v))`. */
  function Mirror(v: Vec, norm: Vec): Vec {
    Sub(v, Scale(norm, Dot(norm, v) * 2.0))
  }

  /** Dividing a non-zero vector by its length gives a unit vector. */
  lemma NormalizedIsUnit(m: Vec, len: real)
    requires 0.0 < len && len * len == Dot(m, m)
    ensures Dot(Scale(m, 1.0 / len), Scale(m, 1.0 / len)) == 1.0
    ensures Scale(Scale(m, 1.0 / len), len) == m
  {
    var k := 1.0 / len;
    DivMul(1.0, len);
    calc {
      Dot(Scale(m, k), Scale(m, k));
      k * k * Dot(m, m);
      k * k * (len * len);
      (k * len) * (k * len);
      1.0;
    }
    assert Scale(Scale(m, k), len) == Scale(m, k * len);
  }

  /** Mirroring in a unit normal keeps the length, negates the normal
      component and keeps the tangential one. */
  lemma MirrorFacts(v: Vec, norm: Vec)
    requires Dot(norm, norm) == 1.0
    ensures Dot(Mirror(v, norm), Mirror(v, norm)) == Dot(v, v)
    ensures Dot(Mirror(v, norm), norm) == -Dot(v, norm)
    ensures Dot(Mirror(v, norm), Perp(norm)) == Dot(v, Perp(norm))
    ensures Mirror(Mirror(v, norm), norm) == v
  {
    var s := Dot(norm, v);
    var w := Mirror(v, norm);
    calc {
      Dot(w, w);
      Dot(v, v) - 4.0 * s * s + 4.0 * s * s * Dot(norm, norm);
      Dot(v, v);
    }
    calc {
      Dot(w, norm);
      Dot(v, norm) - 2.0 * s * Dot(norm, norm);
      -Dot(v, norm);
    }
    assert Dot(norm, Perp(norm)) == 0.0;
    calc {
      Dot(norm, w);
      Dot(norm, v) - 2.0 * s * Dot(norm, norm);
      -s;
    }
    calc {
      Mirror(w, norm);
      Sub(w, Scale(norm, -s * 2.0));
      v;
    }
  }

  /** `collisionResponse`: the ball is moved by the MTV and its velocity is
      mirrored in the surface the MTV is normal to. */
  function CollisionResponse(sqrt: real -> real, b: Ball, m: Vec): (r: Ball)
    requires IsSqrt(sqrt)
    requires m != Zero
    ensures BallPosition(r) == Add(BallPosition(b), m) && r.radius == b.radius
    ensures Dot(Velocity(r), Velocity(r)) == Dot(Velocity(b), Velocity(b))
    ensures Dot(Velocity(r), m) == -Dot(Velocity(b), m)
    ensures Dot(Velocity(r), Perp(m)) == Dot(Velocity(b), Perp(m))
  {
    var moved := SetBallPosition(b, Add(BallPosition(b), m));
    var len := Magnitude(sqrt, m);
    var norm := Scale(m, 1.0 / len);
    var mirrored := Mirror(Velocity(b), norm);
    ResponseFacts(Velocity(b), m, len);
    SetBallVelocity(moved, mirrored)
  }

  /** The mirrored velocity keeps the length, negates the part along the
      MTV and keeps the part across it. */
  lemma ResponseFacts(v: Vec, m: Vec, len: real)
    requires 0.0 < len && len * len == Dot(m, m)
    ensures var w := Mirror(v, Scale(m, 1.0 / len));
            && Dot(w, w) == Dot(v, v)
            && Dot(w, m) == -Dot(v, m)
            && Dot(w, Perp(m)) == Dot(v, Perp(m))
  {
    var norm := Scale(m, 1.0 / len);
    NormalizedIsUnit(m, len);
    MirrorFacts(v, norm);
    var w := Mirror(v, norm);
    ScaledComponents(v, w, norm, len);
  }

  /** Relations between the components of `v` and `w` along and across
      `norm` carry over to the multiple `norm * len`. */
  lemma ScaledComponents(v: Vec, w: Vec, norm: Vec, len: real)
    requires Dot(w, norm) == -Dot(v, norm)
    requires Dot(w, Perp(norm)) == Dot(v, Perp(norm))
    ensures Dot(w, Scale(norm, len)) == -Dot(v, Scale(norm, len))
    ensures Dot(w, Perp(Scale(norm, len))) == Dot(v, Perp(Scale(norm, len)))
  {
    calc {
      Dot(w, Scale(norm, len));
      len * Dot(w, norm);
      len * -Dot(v, norm);
      -Dot(v, Scale(norm, len));
    }
    assert Perp(Scale(norm, len)) == Scale(Perp(norm), len);
    calc {
      Dot(w, Scale(Perp(norm), len));
      len * Dot(w, Perp(norm));
      len * Dot(v, Perp(norm));
      Dot(v, Scale(Perp(norm), len));
    }
  }

  /** Two responses to the same MTV restore the velocity: the reflection is
      an involution. */
  lemma ResponseTwiceRestoresVelocity(sqrt: real -> real, b: Ball, m: Vec)
    requires IsSqrt(sqrt)
    requires m != Zero
    ensures Velocity(CollisionResponse(sqrt, CollisionResponse(sqrt, b, m), m)) == Velocity(b)
  {
    var len := Magnitude(sqrt, m);
    NormalizedIsUnit(m, len);
    MirrorFacts(Velocity(b), Scale(m, 1.0 / len));
  }

  // -----------------------------------------------------------------------
  // Ball against rectangle
  // -----------------------------------------------------------------------

  /** `Math.copySign` agrees in sign: `a` is zero or has the sign of `s`. */
  predicate SameSign(a: real, s: real) {
    (0.0 <= s ==> 0.0 <= a) && (s < 0.0 ==> a <= 0.0)
  }

  function RectCenter(rect: Rect): Vec {
    Add(Position(rect), Vec(rect.width / 2.0, rect.height / 2.0))
  }

  /** How far `a` lies beyond `half`, or zero when it does not. */
  function Excess(a: real, half: real): real {
    if a > half then a - half else 0.0
  }

  /** The per-axis distance by which the offset `d` reaches beyond the
      half-extents `hw` and `hh`: zero on an axis where it does not. */
  function Beyond(d: Vec, hw: real, hh: real): (o: Vec)
    ensures 0.0 <= o.x0 && 0.0 <= o.x1
  {
    Vec(Excess(Abs(d.x0), hw), Excess(Abs(d.x1), hh))
  }

  /** The offset, per axis and in absolute value, from the rectangle to
      the point `c`: zero on an axis where `c` lies within the rectangle's
      span. Its length is the distance from `c` to the filled rectangle,
      which is the reference the rectangle test is compared against. */
  function Outside(c: Vec, rect: Rect): (o: Vec)
    ensures 0.0 <= o.x0 && 0.0 <= o.x1
  {
    Beyond(Sub(c, RectCenter(rect)), rect.width / 2.0, rect.height / 2.0)
  }

  /** The corner offset, signed like the centre offset `d`, scaled by `k`. */
  function CornerPush(d: Vec, corner: Vec, k: real): Vec {
    Scale(Vec(CopySign(corner.x0, d.x0), CopySign(corner.x1, d.x1)), k)
  }

  /** The corner case of `rectangleIsHit`, for the centre offset `d`, the
      offset `corner` of `|d|` from the nearest corner and its length
      `len`: a ball centred exactly on the corner has `len == 0`, and the
      source scales the zero vector by `-overlap / 0`, an infinite factor,
      and zero times infinity is NaN. */
  function CornerHit(d: Vec, corner: Vec, len: real, r: real): Mtv {
    var overlap := len - r;
    if overlap < 0.0 then
      if len == 0.0 then NotANumber
      else Push(CornerPush(d, corner, -overlap / len))
    else
      Miss
  }

  /** The body of `rectangleIsHit` for a ball of radius `r` whose centre
      is `d` from the centre of a rectangle of half-extents `hw` and `hh`:
      no hit, an edge (top/bottom, then left/right) or a corner. */
  function RectHitAt(sqrt: real -> real, d: Vec, hw: real, hh: real, r: real): Mtv
    requires IsSqrt(sqrt)
  {
    var ax, ay := Abs(d.x0), Abs(d.x1);
    if ax >= hw + r || ay >= hh + r then
      Miss
    else if ax < hw then
      Push(Vec(0.0, CopySign(ay - (hh + r), d.x1)))
    else if ay < hh then
      Push(Vec(CopySign(ax - (hw + r), d.x0), 0.0))
    else
      var corner := Sub(Vec(ax, ay), Vec(hw, hh));
      CornerHit(d, corner, Magnitude(sqrt, corner), r)
  }

  /** `rectangleIsHit` as written. */
  function RectHitRaw(sqrt: real -> real, b: Ball, rect: Rect): Mtv
    requires IsSqrt(sqrt)
  {
    RectHitAt(sqrt, Sub(Center(b), RectCenter(rect)), rect.width / 2.0, rect.height / 2.0, b.radius)
  }

  /** A ball and a rectangle of non-negative size: the preconditions under
      which the rectangle test means what its comments say. */
  predicate Proper(b: Ball, rect: Rect) {
    0.0 < b.radius && 0.0 <= rect.width && 0.0 <= rect.height
  }

  /** A point at least `r` beyond the rectangle on one axis is at least
      `r` away. */
  lemma FarAxis(o: Vec, r: real)
    requires 0.0 < r && 0.0 <= o.x0 && 0.0 <= o.x1 && (r <= o.x0 || r <= o.x1)
    ensures !Overlaps(o, r)
  {
    if r <= o.x0 {
      calc {
        Dot(o, o);
        o.x0 * o.x0 + o.x1 * o.x1;
      >= { SquareNonNegative(o.x1); }
        o.x0 * o.x0;
      >= { SquareAtMost(r, o.x0); }
        r * r;
      }
    } else {
      calc {
        Dot(o, o);
        o.x0 * o.x0 + o.x1 * o.x1;
      >= { SquareNonNegative(o.x0); }
        o.x1 * o.x1;
      >= { SquareAtMost(r, o.x1); }
        r * r;
      }
    }
  }

  /** A point within the rectangle's span on one axis and less than `r`
      beyond it on the other is less than `r` away. */
  lemma NearAxis(o: Vec, r: real)
    requires 0.0 <= o.x0 < r && 0.0 <= o.x1 < r && (o.x0 == 0.0 || o.x1 == 0.0)
    ensures Overlaps(o, r)
  {
    if o.x0 == 0.0 {
      assert o == Vec(0.0, o.x1);
      calc {
        Dot(o, o);
        o.x1 * o.x1;
      < { SquareLess(o.x1, r); }
        r * r;
      }
    } else {
      assert o == Vec(o.x0, 0.0);
      calc {
        Dot(o, o);
        o.x0 * o.x0;
      < { SquareLess(o.x0, r); }
        r * r;
      }
    }
  }

  /** Moving a coordinate in its own direction moves it away from zero by
      the full amount. */
  lemma MoveOutward(x: real, p: real)
    requires SameSign(p, x)
    ensures Abs(x + p) == Abs(x) + Abs(p)
  {
  }

  /** A push after which the ball touches a shape it overlapped before is
      not the zero vector. */
  lemma TouchingPushIsNonZero(d: Vec, v: Vec, hw: real, hh: real, r: real)
    requires Overlaps(Beyond(d, hw, hh), r) && AtDistance(Beyond(Add(d, v), hw, hh), r)
    ensures v != Zero
  {
    assert v == Zero ==> Add(d, v) == d;
  }

  /** Far case: the ball is at least `r` beyond the rectangle on one axis. */
  lemma RectFar(sqrt: real -> real, d: Vec, hw: real, hh: real, r: real)
    requires IsSqrt(sqrt) && 0.0 < r
    requires Abs(d.x0) >= hw + r || Abs(d.x1) >= hh + r
    ensures RectHitAt(sqrt, d, hw, hh, r) == Miss
    ensures !Overlaps(Beyond(d, hw, hh), r)
  {
    FarAxis(Beyond(d, hw, hh), r);
  }

  /** Edge case: the ball is pushed straight out through the edge it
      overlaps, and then touches the rectangle. */
  lemma RectEdge(sqrt: real -> real, d: Vec, hw: real, hh: real, r: real)
    requires IsSqrt(sqrt) && 0.0 < r
    requires Abs(d.x0) < hw + r && Abs(d.x1) < hh + r
    requires Abs(d.x0) < hw || Abs(d.x1) < hh
    ensures var m := RectHitAt(sqrt, d, hw, hh, r);
            && m.Push?
            && Overlaps(Beyond(d, hw, hh), r)
            && SameSign(m.v.x0, d.x0) && SameSign(m.v.x1, d.x1)
            && AtDistance(Beyond(Add(d, m.v), hw, hh), r)
            && m.v != Zero
  {
    var v := RectHitAt(sqrt, d, hw, hh, r).v;
    NearAxis(Beyond(d, hw, hh), r);
    if Abs(d.x0) < hw {
      MoveOutward(d.x1, v.x1);
      assert Beyond(Add(d, v), hw, hh) == Vec(0.0, r);
    } else {
      MoveOutward(d.x0, v.x0);
      assert Beyond(Add(d, v), hw, hh) == Vec(r, 0.0);
    }
    TouchingPushIsNonZero(d, v, hw, hh, r);
  }

  /** Scaling by a non-negative factor keeps the sign and scales the
      magnitude. */
  lemma ScaleSign(a: real, s: real, k: real)
    requires SameSign(a, s) && 0.0 <= k
    ensures SameSign(a * k, s)
    ensures Abs(a * k) == Abs(a) * k
  {
    if 0.0 <= a {
      MulNonNegative(a, k);
    } else {
      MulNonNegative(-a, k);
    }
  }

  /** One axis of a corner push: the offset `e` beyond the rectangle grows
      to `e * q` when the coordinate moves outward by `e * (q - 1)`. */
  lemma CornerAxis(x: real, half: real, e: real, k: real, q: real)
    requires e == Abs(x) - half && 0.0 <= e && 0.0 < k && q == 1.0 + k
    ensures SameSign(CopySign(e, x) * k, x)
    ensures Excess(Abs(x + CopySign(e, x) * k), half) == e * q
  {
    var p := CopySign(e, x) * k;
    ScaleSign(CopySign(e, x), x, k);
    MoveOutward(x, p);
    MulNonNegative(e, k);
  }

  /** `(r - len) / len + 1 == r / len`. */
  lemma GrowthFactor(r: real, len: real)
    requires 0.0 < len
    ensures -(len - r) / len + 1.0 == r / len
  {
    DivMul(-(len - r), len);
    DivMul(r, len);
    MulCancel(-(len - r) / len + 1.0, r / len, len);
  }

  /** Stretching a vector of length `len` by `r / len` gives length `r`. */
  lemma StretchToLength(u: Vec, len: real, r: real)
    requires 0.0 < len && AtDistance(u, len)
    ensures AtDistance(Scale(u, r / len), r)
  {
    var q := r / len;
    DivMul(r, len);
    calc {
      Dot(Scale(u, q), Scale(u, q));
      q * q * Dot(u, u);
      q * q * (len * len);
      (q * len) * (q * len);
      r * r;
    }
  }

  /** The corner push scales the corner offset by `k > 0`, which makes it
      `q = 1 + k = r / len` times longer. */
  lemma CornerFactor(len: real, r: real)
    requires 0.0 < len < r
    ensures 0.0 < -(len - r) / len
    ensures r / len == 1.0 + -(len - r) / len
  {
    DivMul(-(len - r), len);
    PositiveFactor(-(len - r) / len, len);
    GrowthFactor(r, len);
  }

  /** The corner push with factor `k > 0` moves the centre outward on both
      axes and leaves it `q = 1 + k` times as far beyond the corner. */
  lemma CornerPushScales(d: Vec, hw: real, hh: real, corner: Vec, k: real, q: real)
    requires hw <= Abs(d.x0) && hh <= Abs(d.x1)
    requires corner == Vec(Abs(d.x0) - hw, Abs(d.x1) - hh)
    requires 0.0 < k && q == 1.0 + k
    ensures var v := CornerPush(d, corner, k);
            && Beyond(Add(d, v), hw, hh) == Scale(corner, q)
            && SameSign(v.x0, d.x0) && SameSign(v.x1, d.x1)
  {
    var v := CornerPush(d, corner, k);
    assert v.x0 == CopySign(corner.x0, d.x0) * k && v.x1 == CopySign(corner.x1, d.x1) * k;
    CornerAxis(d.x0, hw, corner.x0, k, q);
    CornerAxis(d.x1, hh, corner.x1, k, q);
  }

  /** The corner push, for a centre offset `d` from a rectangle of
      half-extents `hw`, `hh` whose nearest corner is at distance
      `len < r`, points away from the rectangle on both axes and leaves
      the centre exactly `r` from that corner. */
  lemma CornerPushGeometry(d: Vec, hw: real, hh: real, corner: Vec, len: real, r: real)
    requires hw <= Abs(d.x0) && hh <= Abs(d.x1)
    requires corner == Vec(Abs(d.x0) - hw, Abs(d.x1) - hh)
    requires 0.0 < len < r && AtDistance(corner, len)
    ensures var v := CornerPush(d, corner, -(len - r) / len);
            && AtDistance(Beyond(Add(d, v), hw, hh), r)
            && SameSign(v.x0, d.x0) && SameSign(v.x1, d.x1)
  {
    CornerFactor(len, r);
    CornerPushScales(d, hw, hh, corner, -(len - r) / len, r / len);
    StretchToLength(corner, len, r);
  }

  /** The outcome of the corner case: a hit exactly when the corner is
      closer than `r`, NaN exactly when the centre is on the corner. */
  lemma CornerHitOutcome(d: Vec, corner: Vec, len: real, r: real)
    requires 0.0 <= len && (len == 0.0 <==> corner == Zero)
    requires 0.0 < r && (len < r <==> Overlaps(corner, r))
    ensures var m := CornerHit(d, corner, len, r);
            && (m != Miss <==> Overlaps(corner, r))
            && (m == NotANumber <==> corner == Zero)
            && (m.Push? ==> 0.0 < len < r && m.v == CornerPush(d, corner, -(len - r) / len))
  {
  }

  /** Corner case: a hit exactly when the nearest corner is closer than
      `r`, NaN exactly when the centre is on the corner, and otherwise a
      push that points away from the rectangle and leaves the ball
      touching the corner. */
  lemma RectCorner(sqrt: real -> real, d: Vec, hw: real, hh: real, r: real)
    requires IsSqrt(sqrt) && 0.0 < r
    requires hw <= Abs(d.x0) < hw + r && hh <= Abs(d.x1) < hh + r
    ensures var m := RectHitAt(sqrt, d, hw, hh, r);
            && (m != Miss <==> Overlaps(Beyond(d, hw, hh), r))
            && (m == NotANumber <==> Abs(d.x0) == hw && Abs(d.x1) == hh)
            && (m.Push? ==>
                  && SameSign(m.v.x0, d.x0) && SameSign(m.v.x1, d.x1)
                  && AtDistance(Beyond(Add(d, m.v), hw, hh), r)
                  && m.v != Zero)
  {
    var corner := Sub(Vec(Abs(d.x0), Abs(d.x1)), Vec(hw, hh));
    assert corner == Vec(Abs(d.x0) - hw, Abs(d.x1) - hh) == Beyond(d, hw, hh);
    var len := Magnitude(sqrt, corner);
    LengthOverlaps(corner, len, r);
    CornerHitOutcome(d, corner, len, r);
    var m := RectHitAt(sqrt, d, hw, hh, r);
    assert m == CornerHit(d, corner, len, r);
    if m.Push? {
      CornerPushGeometry(d, hw, hh, corner, len, r);
      TouchingPushIsNonZero(d, m.v, hw, hh, r);
    }
  }

  /** The rectangle test over plain values reports an overlap exactly when
      the ball reaches into the rectangle. */
  lemma RectHitAtOverlap(sqrt: real -> real, d: Vec, hw: real, hh: real, r: real)
    requires IsSqrt(sqrt) && 0.0 < r
    ensures RectHitAt(sqrt, d, hw, hh, r) != Miss <==> Overlaps(Beyond(d, hw, hh), r)
  {
    if Abs(d.x0) >= hw + r || Abs(d.x1) >= hh + r {
      RectFar(sqrt, d, hw, hh, r);
    } else if Abs(d.x0) < hw || Abs(d.x1) < hh {
      RectEdge(sqrt, d, hw, hh, r);
    } else {
      RectCorner(sqrt, d, hw, hh, r);
    }
  }

  /** The rectangle test over plain values gives NaN exactly when the
      centre is on a corner. */
  lemma RectHitAtNotANumber(sqrt: real -> real, d: Vec, hw: real, hh: real, r: real)
    requires IsSqrt(sqrt) && 0.0 < r && 0.0 <= hw && 0.0 <= hh
    ensures RectHitAt(sqrt, d, hw, hh, r) == NotANumber <==> Abs(d.x0) == hw && Abs(d.x1) == hh
  {
    if Abs(d.x0) >= hw + r || Abs(d.x1) >= hh + r {
      RectFar(sqrt, d, hw, hh, r);
    } else if Abs(d.x0) < hw || Abs(d.x1) < hh {
      RectEdge(sqrt, d, hw, hh, r);
    } else {
      RectCorner(sqrt, d, hw, hh, r);
    }
  }

  /** Every push of the rectangle test over plain values points away from
      the rectangle and leaves the ball touching it. */
  lemma RectHitAtPush(sqrt: real -> real, d: Vec, hw: real, hh: real, r: real)
    requires IsSqrt(sqrt) && 0.0 < r
    ensures var m := RectHitAt(sqrt, d, hw, hh, r);
            m.Push? ==>
              && SameSign(m.v.x0, d.x0) && SameSign(m.v.x1, d.x1)
              && AtDistance(Beyond(Add(d, m.v), hw, hh), r)
              && m.v != Zero
  {
    if Abs(d.x0) >= hw + r || Abs(d.x1) >= hh + r {
      RectFar(sqrt, d, hw, hh, r);
    } else if Abs(d.x0) < hw || Abs(d.x1) < hh {
      RectEdge(sqrt, d, hw, hh, r);
    } else {
      RectCorner(sqrt, d, hw, hh, r);
    }
  }

  /** The rectangle test reports an overlap (a vector or NaN) exactly when
      the ball's centre is closer to the rectangle than its radius. */
  lemma RectHitDetectsOverlap(sqrt: real -> real, b: Ball, rect: Rect)
    requires IsSqrt(sqrt) && Proper(b, rect)
    ensures RectHitRaw(sqrt, b, rect) != Miss <==> Overlaps(Outside(Center(b), rect), b.radius)
  {
    var d := Sub(Center(b), RectCenter(rect));
    var hw, hh := rect.width / 2.0, rect.height / 2.0;
    var m := RectHitAt(sqrt, d, hw, hh, b.radius);
    var o := Beyond(d, hw, hh);
    RectHitAtOverlap(sqrt, d, hw, hh, b.radius);
    assert m != Miss <==> Overlaps(o, b.radius);
    assert RectHitRaw(sqrt, b, rect) == m;
    assert Outside(Center(b), rect) == o;
  }

  /** Every vector the rectangle test returns points away from the
      rectangle's centre on both axes, leaves the ball exactly touching the
      rectangle, and is therefore never the zero vector. */
  lemma RectPushTouches(sqrt: real -> real, b: Ball, rect: Rect)
    requires IsSqrt(sqrt) && Proper(b, rect)
    ensures var m := RectHitRaw(sqrt, b, rect);
            var d := Sub(Center(b), RectCenter(rect));
            m.Push? ==>
              && SameSign(m.v.x0, d.x0) && SameSign(m.v.x1, d.x1)
              && AtDistance(Outside(Add(Center(b), m.v), rect), b.radius)
              && m.v != Zero
  {
    var c := Center(b);
    var d := Sub(c, RectCenter(rect));
    var m := RectHitRaw(sqrt, b, rect);
    RectHitAtPush(sqrt, d, rect.width / 2.0, rect.height / 2.0, b.radius);
    if m.Push? {
      assert Sub(Add(c, m.v), RectCenter(rect)) == Add(d, m.v);
    }
  }

  /** The rectangle test yields NaN, by scaling the zero corner offset by
      an infinite factor, exactly when the ball's centre lies on one of the
      rectangle's corners. */
  lemma RectHitNotANumber(sqrt: real -> real, b: Ball, rect: Rect)
    requires IsSqrt(sqrt) && Proper(b, rect)
    ensures var d := Sub(Center(b), RectCenter(rect));
            RectHitRaw(sqrt, b, rect) == NotANumber <==>
              Abs(d.x0) == rect.width / 2.0 && Abs(d.x1) == rect.height / 2.0
  {
    var d := Sub(Center(b), RectCenter(rect));
    var hw, hh := rect.width / 2.0, rect.height / 2.0;
    RectHitAtNotANumber(sqrt, d, hw, hh, b.radius);
    assert RectHitRaw(sqrt, b, rect) == RectHitAt(sqrt, d, hw, hh, b.radius);
  }

  /** The push used, in place of the NaN vector, for a ball centred exactly
      on a corner: length `r` along the diagonal pointing away from the
      rectangle (`sqrt(2)` is the parameter's). */
  function DiagonalPush(sqrt: real -> real, d: Vec, r: real): Vec
    requires IsSqrt(sqrt)
  {
    var k := r / sqrt(2.0);
    Vec(CopySign(k, d.x0), CopySign(k, d.x1))
  }

  /** `r / sqrt(2)` squared twice is `r * r`. */
  lemma DiagonalLength(s: real, r: real)
    requires 0.0 < s && s * s == 2.0 && 0.0 < r
    ensures 0.0 < r / s
    ensures (r / s) * (r / s) + (r / s) * (r / s) == r * r
  {
    var k := r / s;
    DivMul(r, s);
    PositiveFactor(k, s);
    calc {
      k * k + k * k;
      k * k * (s * s);
      (k * s) * (k * s);
      r * r;
    }
  }

  /** From a corner, the diagonal push leaves the ball exactly touching
      the rectangle. */
  lemma DiagonalAt(sqrt: real -> real, d: Vec, hw: real, hh: real, r: real)
    requires IsSqrt(sqrt) && 0.0 < r
    requires Abs(d.x0) == hw && Abs(d.x1) == hh
    ensures var v := DiagonalPush(sqrt, d, r);
            && v != Zero && SameSign(v.x0, d.x0) && SameSign(v.x1, d.x1)
            && AtDistance(Beyond(Add(d, v), hw, hh), r)
  {
    var s := sqrt(2.0);
    var k := r / s;
    var v := DiagonalPush(sqrt, d, r);
    DiagonalLength(s, r);
    MoveOutward(d.x0, v.x0);
    MoveOutward(d.x1, v.x1);
    assert Beyond(Add(d, v), hw, hh) == Vec(k, k);
  }

  /** From a corner, the diagonal push leaves the ball exactly touching
      the rectangle; stated for the ball. */
  lemma DiagonalPushTouches(sqrt: real -> real, b: Ball, rect: Rect)
    requires IsSqrt(sqrt) && Proper(b, rect)
    requires var d := Sub(Center(b), RectCenter(rect));
             Abs(d.x0) == rect.width / 2.0 && Abs(d.x1) == rect.height / 2.0
    ensures var d := Sub(Center(b), RectCenter(rect));
            var v := DiagonalPush(sqrt, d, b.radius);
            && v != Zero && SameSign(v.x0, d.x0) && SameSign(v.x1, d.x1)
            && AtDistance(Outside(Add(Center(b), v), rect), b.radius)
  {
    var c := Center(b);
    var d := Sub(c, RectCenter(rect));
    var v := DiagonalPush(sqrt, d, b.radius);
    DiagonalAt(sqrt, d, rect.width / 2.0, rect.height / 2.0, b.radius);
    assert Sub(Add(c, v), RectCenter(rect)) == Add(d, v);
  }

  /** Whatever the sizes, a push of the rectangle test is non-zero, and
      NaN needs a positive radius. */
  lemma RectHitAtNonZero(sqrt: real -> real, d: Vec, hw: real, hh: real, r: real)
    requires IsSqrt(sqrt)
    ensures var m := RectHitAt(sqrt, d, hw, hh, r);
            && (m.Push? ==> m.v != Zero)
            && (m == NotANumber ==> 0.0 < r)
  {
    var ax, ay := Abs(d.x0), Abs(d.x1);
    if ax >= hw + r || ay >= hh + r {
    } else if ax < hw {
      assert CopySign(ay - (hh + r), d.x1) != 0.0;
    } else if ay < hh {
      assert CopySign(ax - (hw + r), d.x0) != 0.0;
    } else {
      RectCorner(sqrt, d, hw, hh, r);
    }
  }

  /** The diagonal push of a positive radius is non-zero. */
  lemma DiagonalNonZero(sqrt: real -> real, d: Vec, r: real)
    requires IsSqrt(sqrt) && 0.0 < r
    ensures DiagonalPush(sqrt, d, r) != Zero
  {
    DiagonalLength(sqrt(2.0), r);
  }

  /** `rectangleIsHit` with the NaN case repaired: a ball centred on a
      corner is pushed out along the diagonal. Whatever the sizes, the
      result is never the zero vector. */
  function RectangleIsHit(sqrt: real -> real, b: Ball, rect: Rect): (m: Option<Vec>)
    requires IsSqrt(sqrt)
    ensures m.Some? ==> m.value != Zero
  {
    RepairedAt(sqrt, Sub(Center(b), RectCenter(rect)), rect.width / 2.0, rect.height / 2.0, b.radius)
  }

  /** The repaired rectangle test over plain values. */
  function RepairedAt(sqrt: real -> real, d: Vec, hw: real, hh: real, r: real): (m: Option<Vec>)
    requires IsSqrt(sqrt)
    ensures m.Some? ==> m.value != Zero
    ensures m.None? <==> RectHitAt(sqrt, d, hw, hh, r) == Miss
  {
    RectHitAtNonZero(sqrt, d, hw, hh, r);
    match RectHitAt(sqrt, d, hw, hh, r)
    case Miss => None
    case Push(v) => Some(v)
    case NotANumber =>
      DiagonalNonZero(sqrt, d, r);
      Some(DiagonalPush(sqrt, d, r))
  }

  /** The repaired rectangle test reports nothing exactly when the source's
      misses: NaN becomes a diagonal push rather than a miss. */
  lemma RectangleIsHitMisses(sqrt: real -> real, b: Ball, rect: Rect)
    requires IsSqrt(sqrt)
    ensures RectangleIsHit(sqrt, b, rect).None? <==> RectHitRaw(sqrt, b, rect) == Miss
  {
  }

  /** The repaired rectangle test reports a vector exactly when the ball
      overlaps the rectangle. */
  lemma RectangleIsHitDetects(sqrt: real -> real, b: Ball, rect: Rect)
    requires IsSqrt(sqrt) && Proper(b, rect)
    ensures RectangleIsHit(sqrt, b, rect).Some? <==> Overlaps(Outside(Center(b), rect), b.radius)
  {
    var raw := RectHitRaw(sqrt, b, rect);
    RectHitDetectsOverlap(sqrt, b, rect);
    RectangleIsHitMisses(sqrt, b, rect);
  }

  /** After the vector of the repaired rectangle test, including the
      diagonal one for a ball centred on a corner, the ball touches the
      rectangle. */
  lemma RectangleIsHitTouches(sqrt: real -> real, b: Ball, rect: Rect)
    requires IsSqrt(sqrt) && Proper(b, rect)
    ensures var m := RectangleIsHit(sqrt, b, rect);
            m.Some? ==> AtDistance(Outside(Add(Center(b), m.value), rect), b.radius)
  {
    var raw := RectHitRaw(sqrt, b, rect);
    if raw == NotANumber {
      RectHitNotANumber(sqrt, b, rect);
      DiagonalPushTouches(sqrt, b, rect);
    } else {
      RectPushTouches(sqrt, b, rect);
    }
  }

  // -----------------------------------------------------------------------
  // Ball against ball
  // -----------------------------------------------------------------------

  /** Pushing the offset `d` of length `len` outward by the overlap
      `reach - len` makes it `reach` long; the push is non-zero and points
      the same way as `d`. */
  lemma PushOutGeometry(d: Vec, len: real, reach: real)
    requires 0.0 < len < reach && AtDistance(d, len)
    ensures var v := Scale(d, -(len - reach) / len);
            && AtDistance(Add(d, v), reach)
            && 0.0 < Dot(v, d)
            && v != Zero
  {
    var k := -(len - reach) / len;
    var v := Scale(d, k);
    CornerFactor(len, reach);
    assert Add(d, v) == Scale(d, reach / len);
    StretchToLength(d, len, reach);
    DotLinear(d, d, d, k);
    MulPositive(len, len);
    MulPositive(k, Dot(d, d));
  }

  /** The overlap test of `ballIsHit` for a centre offset `d` of length
      `len` and a reach (sum of radii) `reach`: when they overlap, `d` is
      scaled by `-overlap / len`, which is infinite for `len == 0`, where
      `d` is the zero vector: the product is NaN. */
  function PushOut(d: Vec, len: real, reach: real): Mtv {
    var overlap := len - reach;
    if overlap < 0.0 then
      if len == 0.0 then NotANumber else Push(Scale(d, -overlap / len))
    else
      Miss
  }

  /** Which of its three outcomes the overlap test gives. */
  lemma PushOutOutcome(d: Vec, len: real, reach: real)
    requires 0.0 <= len && (len == 0.0 <==> d == Zero)
    requires len < reach <==> Overlaps(d, reach)
    ensures var m := PushOut(d, len, reach);
            && (m != Miss <==> Overlaps(d, reach))
            && (m == NotANumber <==> d == Zero && 0.0 < reach)
            && (m.Push? ==> 0.0 < len < reach && m.v == Scale(d, -(len - reach) / len))
  {
    if len < reach {
      assert Overlaps(d, reach);
      if len == 0.0 {
        assert PushOut(d, len, reach) == NotANumber;
      } else {
        assert PushOut(d, len, reach).Push?;
      }
    } else {
      assert !Overlaps(d, reach);
      assert PushOut(d, len, reach) == Miss;
    }
  }

  lemma PushOutFacts(d: Vec, len: real, reach: real)
    requires 0.0 <= len && AtDistance(d, len) && (len == 0.0 <==> d == Zero)
    ensures var m := PushOut(d, len, reach);
            && (m != Miss <==> Overlaps(d, reach))
            && (m == NotANumber <==> d == Zero && 0.0 < reach)
            && (m.Push? ==>
                  && m.v != Zero
                  && AtDistance(Add(d, m.v), reach)
                  && 0.0 < Dot(m.v, d))
  {
    LengthOverlaps(d, len, reach);
    PushOutOutcome(d, len, reach);
    if 0.0 < len < reach {
      PushOutGeometry(d, len, reach);
    }
  }

  /** `ballIsHit` as written. It reports an overlap exactly when the
      centres are less than the sum of the radii apart; the vector is NaN
      when the centres coincide, and otherwise points away from the other
      ball and leaves the two touching. */
  function BallHitRaw(sqrt: real -> real, b: Ball, other: Ball): (m: Mtv)
    requires IsSqrt(sqrt)
    ensures var d := Sub(Center(b), Center(other));
            var reach := b.radius + other.radius;
            m != Miss <==> Overlaps(d, reach)
    ensures var d := Sub(Center(b), Center(other));
            var reach := b.radius + other.radius;
            m == NotANumber <==> d == Zero && 0.0 < reach
    ensures var d := Sub(Center(b), Center(other));
            m.Push? ==> m.v != Zero && 0.0 < Dot(m.v, d)
    ensures var d := Sub(Center(b), Center(other));
            var reach := b.radius + other.radius;
            m.Push? ==> AtDistance(Add(d, m.v), reach)
  {
    var d := Sub(Center(b), Center(other));
    var len := Magnitude(sqrt, d);
    PushOutFacts(d, len, b.radius + other.radius);
    PushOut(d, len, b.radius + other.radius)
  }

  /** After the push of the ball test the two balls touch: their centres
      are exactly the sum of the radii apart. */
  lemma BallPushTouches(sqrt: real -> real, b: Ball, other: Ball)
    requires IsSqrt(sqrt)
    ensures var m := BallHitRaw(sqrt, b, other);
            var reach := b.radius + other.radius;
            m.Push? ==>
              var moved := SetBallPosition(b, Add(BallPosition(b), m.v));
              var e := Sub(Center(moved), Center(other));
              m.v != Zero && AtDistance(e, reach)
  {
    var m := BallHitRaw(sqrt, b, other);
    if m.Push? {
      var d := Sub(Center(b), Center(other));
      var moved := SetBallPosition(b, Add(BallPosition(b), m.v));
      assert Sub(Center(moved), Center(other)) == Add(d, m.v);
    }
  }

  /** `ballIsHit` with the NaN case read as "no collision": the offset of
      coincident centres has no direction to push along. */
  function BallIsHit(sqrt: real -> real, b: Ball, other: Ball): (m: Option<Vec>)
    requires IsSqrt(sqrt)
    ensures var d := Sub(Center(b), Center(other));
            var reach := b.radius + other.radius;
            m.Some? <==> Overlaps(d, reach) && d != Zero
    ensures m.Some? ==> m.value != Zero && BallHitRaw(sqrt, b, other) == Push(m.value)
  {
    Sanitize(BallHitRaw(sqrt, b, other))
  }

  // -----------------------------------------------------------------------
  // Ball against paddle
  // -----------------------------------------------------------------------

  /** The circle the paddle's top is cut from, as the ball that
      `getPaddleCollision` builds: its upper-left corner is the arc centre
      moved back by the radius, so its centre is the arc centre. */
  function ArcBall(p: Rect): (a: Ball)
    requires p.height > 0.0
    ensures Center(a) == ArcCenter(p) && a.radius == ArcRadius(p)
  {
    var radius := ArcRadius(p);
    NewBall(Sub(ArcCenter(p), Vec(radius, radius)), radius)
  }

  /** The bottom-left (`right == false`) or bottom-right corner of the
      paddle's bounding box. */
  function BottomCorner(p: Rect, right: bool): Vec {
    Add(Position(p), Vec(if right then p.width else 0.0, p.height))
  }

  /** The offset of the point `c` from the bottom corner of the paddle on
      its side of the paddle's middle, computed as the source does: from
      the middle of the bottom edge, less half the width with the sign of
      the horizontal offset. */
  function CornerOffset(c: Vec, p: Rect): Vec {
    var bottomMiddle := Add(Position(p), Vec(p.width / 2.0, p.height));
    var diff := Sub(c, bottomMiddle);
    Sub(diff, Vec(CopySign(p.width / 2.0, diff.x0), 0.0))
  }

  /** For a paddle of non-negative width the offset is taken from the
      bottom-right corner when `c` lies right of the middle (or on it) and
      from the bottom-left corner otherwise. */
  lemma CornerOffsetFromCorner(c: Vec, p: Rect)
    requires 0.0 <= p.width
    ensures var right := c.x0 - Position(p).x0 >= p.width / 2.0;
            Sub(c, CornerOffset(c, p)) == BottomCorner(p, right)
  {
  }

  /** Whether the arc push `m` is steep enough that the ball hit the arc
      below the bottom edge, i.e. beside the paddle, where its corner is
      what it touches: the source compares the vertical part of `m`,
      measured on the arc circle, with `h - R`. */
  predicate BelowBottom(sqrt: real -> real, m: Vec, p: Rect)
    requires IsSqrt(sqrt) && m != Zero && p.height > 0.0
  {
    m.x1 / Magnitude(sqrt, m) * ArcRadius(p) > p.height - ArcRadius(p)
  }

  /** The corner re-test of `getPaddleCollision` as written, for a centre
      `len` from the corner (offset `cd`) and a ball of radius `r`. */
  function CornerStepRaw(cd: Vec, len: real, r: real): Mtv {
    if len > r then Miss
    else if len == 0.0 then NotANumber
    else Push(Scale(cd, r / len - 1.0))
  }

  /** The corner re-test repaired: a centre exactly `r` from the corner,
      or on it, is not a collision. A reported push is non-zero and leaves
      the centre exactly `r` from the corner. */
  function CornerStep(cd: Vec, len: real, r: real): (m: Option<Vec>)
    requires 0.0 <= len && len * len == Dot(cd, cd)
    ensures m.Some? <==> 0.0 < len < r
    ensures m.Some? ==> m.value != Zero && AtDistance(Add(cd, m.value), r)
  {
    if len >= r || len == 0.0 then
      None
    else
      CornerCirclePush(cd, len, r);
      Some(Scale(cd, r / len - 1.0))
  }

  /** The repaired corner re-test agrees with the source's except where
      the source yields the zero vector (`len == r`) or NaN (`len == 0`). */
  lemma CornerStepAgrees(cd: Vec, len: real, r: real)
    requires 0.0 <= len && len * len == Dot(cd, cd)
    ensures CornerStep(cd, len, r) == Sanitize(CornerStepRaw(cd, len, r))
    ensures 0.0 < len == r ==> CornerStepRaw(cd, len, r) == Push(Zero)
  {
    if 0.0 < len == r {
      DivMul(len, len);
      MulCancel(len / len, 1.0, len);
      assert Scale(cd, r / len - 1.0) == Zero;
    }
  }

  /** The arc and corner part of `getPaddleCollision` as written: the ball
      is tested against the arc circle, and a push that lands beside the
      paddle is replaced by a push away from the nearer bottom corner, or
      by nothing when the ball is farther than its radius from that
      corner. A ball exactly one radius from the corner gets the zero
      vector, and one centred on it NaN. */
  function ArcOrCornerRaw(sqrt: real -> real, b: Ball, p: Rect): Mtv
    requires IsSqrt(sqrt) && p.height > 0.0
  {
    match BallHitRaw(sqrt, b, ArcBall(p))
    case Miss => Miss
    case NotANumber => NotANumber
    case Push(m) => CornerRetestRaw(sqrt, m, b, p)
  }

  /** What becomes of the arc push `m` in the source: a push that lands
      beside the paddle is replaced by the corner re-test. */
  function CornerRetestRaw(sqrt: real -> real, m: Vec, b: Ball, p: Rect): Mtv
    requires IsSqrt(sqrt) && m != Zero && p.height > 0.0
  {
    if BelowBottom(sqrt, m, p) then
      var cd := CornerOffset(Center(b), p);
      CornerStepRaw(cd, Magnitude(sqrt, cd), b.radius)
    else
      Push(m)
  }

  /** The same with the repaired corner re-test. */
  function CornerRetest(sqrt: real -> real, m: Vec, b: Ball, p: Rect): Option<Vec>
    requires IsSqrt(sqrt) && m != Zero && p.height > 0.0
  {
    if BelowBottom(sqrt, m, p) then
      var cd := CornerOffset(Center(b), p);
      CornerStep(cd, Magnitude(sqrt, cd), b.radius)
    else
      Some(m)
  }

  /** The two re-tests of an arc push agree except where the source's
      yields NaN or the zero vector. */
  lemma CornerRetestAgrees(sqrt: real -> real, m: Vec, b: Ball, p: Rect)
    requires IsSqrt(sqrt) && m != Zero && p.height > 0.0
    ensures CornerRetest(sqrt, m, b, p) == Sanitize(CornerRetestRaw(sqrt, m, b, p))
  {
    if BelowBottom(sqrt, m, p) {
      var cd := CornerOffset(Center(b), p);
      CornerStepAgrees(cd, Magnitude(sqrt, cd), b.radius);
    }
  }

  /** `getPaddleCollision` as written: the bounding box must be hit before
      the arc and the corners are looked at. */
  function PaddleHitRaw(sqrt: real -> real, b: Ball, p: Rect): Mtv
    requires IsSqrt(sqrt) && p.height > 0.0
  {
    if RectHitRaw(sqrt, b, p) == Miss then Miss else ArcOrCornerRaw(sqrt, b, p)
  }

  /** The ball touches the arc circle: its centre is the two radii away
      from the arc centre. */
  predicate TouchesArc(c: Vec, p: Rect, radius: real)
    requires p.height > 0.0
  {
    AtDistance(Sub(c, ArcCenter(p)), ArcRadius(p) + radius)
  }


  /** `r / len - 1` is the outward factor of `ballIsHit`. */
  lemma CornerPushIsPushOut(len: real, r: real)
    requires 0.0 < len
    ensures r / len - 1.0 == -(len - r) / len
  {
    GrowthFactor(r, len);
  }

  /** The push away from a bottom corner that the ball's centre is `len`
      from, `0 < len < r`: non-zero, and it leaves the centre exactly `r`
      from the corner. */
  lemma CornerCirclePush(cd: Vec, len: real, r: real)
    requires 0.0 < len < r && len * len == Dot(cd, cd)
    ensures var v := Scale(cd, r / len - 1.0);
            v != Zero && AtDistance(Add(cd, v), r)
  {
    CornerPushIsPushOut(len, r);
    PushOutGeometry(cd, len, r);
  }

  /** The arc and corner part of the repaired paddle test, for a ball that
      overlaps the bounding box. */
  function ArcOrCornerPush(sqrt: real -> real, b: Ball, p: Rect): Option<Vec>
    requires IsSqrt(sqrt) && p.height > 0.0
  {
    match BallIsHit(sqrt, b, ArcBall(p))
    case None => None
    case Some(m) => CornerRetest(sqrt, m, b, p)
  }

  /** A push of the repaired arc and corner test is non-zero and leaves
      the ball touching the arc circle or the bottom corner. */
  lemma ArcOrCornerPushTouches(sqrt: real -> real, b: Ball, p: Rect)
    requires IsSqrt(sqrt) && p.height > 0.0
    ensures var m := ArcOrCornerPush(sqrt, b, p);
            m.Some? ==>
              && m.value != Zero
              && (|| TouchesArc(Add(Center(b), m.value), p, b.radius)
                  || AtDistance(Add(CornerOffset(Center(b), p), m.value), b.radius))
  {
    match BallIsHit(sqrt, b, ArcBall(p))
    case None =>
    case Some(m) =>
      if !BelowBottom(sqrt, m, p) {
        var d := Sub(Center(b), ArcCenter(p));
        assert Sub(Add(Center(b), m), ArcCenter(p)) == Add(d, m);
        assert TouchesArc(Add(Center(b), m), p, b.radius);
      }
  }

  /** The repaired arc and corner test differs from the source's only
      where the source yields NaN or the zero vector. */
  lemma ArcOrCornerAgrees(sqrt: real -> real, b: Ball, p: Rect)
    requires IsSqrt(sqrt) && p.height > 0.0
    ensures ArcOrCornerPush(sqrt, b, p) == Sanitize(ArcOrCornerRaw(sqrt, b, p))
  {
    var h := BallHitRaw(sqrt, b, ArcBall(p));
    if h.Push? {
      ArcOrCornerOnPush(sqrt, b, p, h.v);
      CornerRetestAgrees(sqrt, h.v, b, p);
    } else {
      ArcOrCornerOnNoPush(sqrt, b, p);
    }
  }

  /** When the arc test misses or yields NaN, the source passes its outcome
      on unchanged and the repaired test reports nothing. */
  lemma ArcOrCornerOnNoPush(sqrt: real -> real, b: Ball, p: Rect)
    requires IsSqrt(sqrt) && p.height > 0.0
    requires !BallHitRaw(sqrt, b, ArcBall(p)).Push?
    ensures ArcOrCornerRaw(sqrt, b, p) == BallHitRaw(sqrt, b, ArcBall(p))
    ensures ArcOrCornerPush(sqrt, b, p) == None
  {
  }

  /** When the arc test pushes by `m`, both versions go on to their corner
      re-test of `m`. */
  lemma ArcOrCornerOnPush(sqrt: real -> real, b: Ball, p: Rect, m: Vec)
    requires IsSqrt(sqrt) && p.height > 0.0
    requires BallHitRaw(sqrt, b, ArcBall(p)) == Push(m)
    ensures m != Zero
    ensures ArcOrCornerRaw(sqrt, b, p) == CornerRetestRaw(sqrt, m, b, p)
    ensures ArcOrCornerPush(sqrt, b, p) == CornerRetest(sqrt, m, b, p)
  {
  }

  /** `getPaddleCollision` with the tangent case repaired: a ball exactly
      one radius from the corner does not collide with it (`>=` where the
      source has `>`), and one centred on the corner, which has no
      direction to be pushed in, is not reported either. A reported vector
      is non-zero, the ball overlapped the paddle's bounding box, and the
      vector leaves the ball touching either the arc circle or the bottom
      corner it was nearer to. */
  function PaddleCollision(sqrt: real -> real, b: Ball, p: Rect): (m: Option<Vec>)
    requires IsSqrt(sqrt) && p.height > 0.0
    ensures m.Some? ==> m.value != Zero
    ensures Proper(b, p) && m.Some? ==> Overlaps(Outside(Center(b), p), b.radius)
    ensures m.Some? ==>
              || TouchesArc(Add(Center(b), m.value), p, b.radius)
              || AtDistance(Add(CornerOffset(Center(b), p), m.value), b.radius)
  {
    ArcOrCornerPushTouches(sqrt, b, p);
    var m := if RectangleIsHit(sqrt, b, p).None? then None else ArcOrCornerPush(sqrt, b, p);
    if Proper(b, p) then
      RectangleIsHitDetects(sqrt, b, p);
      m
    else
      m
  }

  /** The repaired paddle test differs from the source only where the
      source yields NaN or the zero vector: everywhere else they agree. */
  lemma PaddleCollisionAgrees(sqrt: real -> real, b: Ball, p: Rect)
    requires IsSqrt(sqrt) && p.height > 0.0
    ensures PaddleCollision(sqrt, b, p) == Sanitize(PaddleHitRaw(sqrt, b, p))
  {
    if RectHitRaw(sqrt, b, p) == Miss {
      PaddleOnBoxMiss(sqrt, b, p);
    } else {
      PaddleOnBoxHit(sqrt, b, p);
      ArcOrCornerAgrees(sqrt, b, p);
    }
  }

  /** A ball that misses the bounding box collides with the paddle in
      neither version. */
  lemma PaddleOnBoxMiss(sqrt: real -> real, b: Ball, p: Rect)
    requires IsSqrt(sqrt) && p.height > 0.0
    requires RectHitRaw(sqrt, b, p) == Miss
    ensures PaddleHitRaw(sqrt, b, p) == Miss
    ensures PaddleCollision(sqrt, b, p) == None
  {
    RectangleIsHitMisses(sqrt, b, p);
  }

  /** A ball that reaches the bounding box is decided by the arc and
      corner tests in both versions. */
  lemma PaddleOnBoxHit(sqrt: real -> real, b: Ball, p: Rect)
    requires IsSqrt(sqrt) && p.height > 0.0
    requires RectHitRaw(sqrt, b, p) != Miss
    ensures PaddleHitRaw(sqrt, b, p) == ArcOrCornerRaw(sqrt, b, p)
    ensures PaddleCollision(sqrt, b, p) == ArcOrCornerPush(sqrt, b, p)
  {
    RectangleIsHitMisses(sqrt, b, p);
  }

  /** `(a * k) / (k * l) == a / l` for positive `k` and `l`. */
  lemma DivCancelFactor(a: real, k: real, l: real)
    requires 0.0 < k && 0.0 < l
    ensures (a * k) / (k * l) == a / l
  {
    MulPositive(k, l);
    DivMul(a * k, k * l);
    DivMul(a, l);
    assert (a / l) * (k * l) == ((a / l) * l) * k;
    MulCancel((a * k) / (k * l), a / l, k * l);
  }

  /** The push of the ball test points along the centre offset: `d` is
      scaled by a positive factor, so the push is non-zero and has the
      direction of `d`, and its length is the overlap `reach - len`. */
  lemma PushDirection(sqrt: real -> real, d: Vec, len: real, reach: real)
    requires IsSqrt(sqrt) && 0.0 < len < reach && len * len == Dot(d, d)
    ensures 0.0 < -(len - reach) / len
    ensures var v := Scale(d, -(len - reach) / len);
            v != Zero && Magnitude(sqrt, v) == reach - len
  {
    var k := -(len - reach) / len;
    CornerFactor(len, reach);
    ScaledNonZero(sqrt, d, len, k);
    ScaledMagnitude(sqrt, d, len, k);
    DivMul(-(len - reach), len);
  }

  /** The vertical component of the push's unit vector is that of the
      centre offset's: what the corner re-test of the arc push reads. */
  lemma PushUnitVertical(sqrt: real -> real, d: Vec, len: real, reach: real)
    requires IsSqrt(sqrt) && 0.0 < len < reach && len * len == Dot(d, d)
    ensures var v := Scale(d, -(len - reach) / len);
            v != Zero && v.x1 / Magnitude(sqrt, v) == d.x1 / len
  {
    var k := -(len - reach) / len;
    PushDirection(sqrt, d, len, reach);
    DivMul(-(len - reach), len);
    assert Magnitude(sqrt, Scale(d, k)) == k * len;
    DivCancelFactor(d.x1, k, len);
  }

  /** Scaling by a positive factor keeps a non-zero vector non-zero. */
  lemma ScaledNonZero(sqrt: real -> real, d: Vec, len: real, k: real)
    requires IsSqrt(sqrt) && 0.0 < len && len * len == Dot(d, d) && 0.0 < k
    ensures Scale(d, k) != Zero
  {
    ScaledMagnitude(sqrt, d, len, k);
    MulPositive(k, len);
    var v := Scale(d, k);
    var mv := Magnitude(sqrt, v);
    assert mv == k * len;
    assert 0.0 < mv;
    PositiveMagnitude(sqrt, v);
  }

  /** Only the zero vector has length zero. */
  lemma PositiveMagnitude(sqrt: real -> real, v: Vec)
    requires IsSqrt(sqrt)
    ensures v != Zero <==> 0.0 < Magnitude(sqrt, v)
  {
  }

  /** Scaling by a positive `k` a vector of length `len` gives one of
      length `k * len`. */
  lemma ScaledMagnitude(sqrt: real -> real, d: Vec, len: real, k: real)
    requires IsSqrt(sqrt) && 0.0 <= len && len * len == Dot(d, d) && 0.0 < k
    ensures Magnitude(sqrt, Scale(d, k)) == k * len
  {
    MagnitudeOfScale(sqrt, d, k);
    RootUnique(Magnitude(sqrt, d), len);
  }

  /** With the centre offset `(8.6, -20)` from the arc centre of the
      engine's paddle, whose length `len` exceeds 21.7, the arc push is
      steep enough for the corner re-test. */
  lemma SteepEnough(len: real)
    requires 21.7 < len
    ensures -20.0 / len * 20.8 > 1.6 - 20.8
  {
    var u := 20.0 / len;
    DivMul(20.0, len);
    assert -20.0 / len == -u;
    if u * 20.8 >= 19.2 {
      MulNonNegative(u * 20.8 - 19.2, len);
      assert false;
    }
  }

  /** The engine's 16 by 1.6 paddle, placed at the origin. */
  function TangentPaddle(): Rect {
    NewPaddle(Zero, 16.0, 1.6)
  }

  /** A ball of radius 1 beside that paddle whose centre `(16.6, 0.8)` is
      exactly one radius from the paddle's bottom-right corner `(16, 1.6)`. */
  function TangentBall(): Ball {
    NewBall(Vec(15.6, -0.2), 1.0)
  }

  /** The offsets of that ball's centre from the box centre, the arc
      centre and the bottom-right corner. */
  predicate TangentOffsets(b: Ball, p: Rect)
    requires p.height > 0.0
  {
    && p.width == 16.0 && p.height == 1.6 && b.radius == 1.0 && ArcRadius(p) == 20.8
    && Sub(Center(b), RectCenter(p)) == Vec(8.6, 0.0)
    && Sub(Center(b), ArcCenter(p)) == Vec(8.6, -20.0)
    && CornerOffset(Center(b), p) == Vec(0.6, -0.8)
  }

  lemma TangentLayout()
    ensures var b, p := TangentBall(), TangentPaddle();
            && Position(p) == Zero && p.width == 16.0 && p.height == 1.6
            && b.radius == 1.0 && Center(b) == Vec(16.6, 0.8)
  {
  }

  lemma TangentOffsetsFrom(b: Ball, p: Rect)
    requires Position(p) == Zero && p.width == 16.0 && p.height == 1.6
    requires b.radius == 1.0 && Center(b) == Vec(16.6, 0.8)
    ensures TangentOffsets(b, p)
  {
    TangentArc(p);
    TangentCentreOffsets(Center(b), p);
    TangentCornerOffset(Center(b), p);
  }

  lemma TangentArc(p: Rect)
    requires Position(p) == Zero && p.width == 16.0 && p.height == 1.6
    ensures ArcRadius(p) == 20.8
  {
  }

  lemma TangentCentreOffsets(c: Vec, p: Rect)
    requires Position(p) == Zero && p.width == 16.0 && p.height == 1.6
    requires ArcRadius(p) == 20.8
    requires c == Vec(16.6, 0.8)
    ensures Sub(c, RectCenter(p)) == Vec(8.6, 0.0)
    ensures Sub(c, ArcCenter(p)) == Vec(8.6, -20.0)
  {
  }

  lemma TangentCornerOffset(c: Vec, p: Rect)
    requires Position(p) == Zero && p.width == 16.0 && p.height == 1.6
    requires c == Vec(16.6, 0.8)
    ensures CornerOffset(c, p) == Vec(0.6, -0.8)
  {
  }

  /** The ball overlaps the paddle's bounding box. */
  lemma TangentBallHitsBox(sqrt: real -> real, b: Ball, p: Rect)
    requires IsSqrt(sqrt) && p.height > 0.0 && TangentOffsets(b, p)
    ensures RectHitRaw(sqrt, b, p).Push?
  {
    RectEdge(sqrt, Sub(Center(b), RectCenter(p)), p.width / 2.0, p.height / 2.0, b.radius);
  }

  /** The ball overlaps the arc circle, and the arc push is steep enough
      for the corner re-test. */
  lemma TangentBallBelowBottom(sqrt: real -> real, b: Ball, p: Rect)
    requires IsSqrt(sqrt) && p.height > 0.0 && TangentOffsets(b, p)
    ensures var m := BallHitRaw(sqrt, b, ArcBall(p));
            m.Push? && BelowBottom(sqrt, m.v, p)
  {
    var d := Vec(8.6, -20.0);
    var len := Magnitude(sqrt, d);
    assert len * len == 473.96;
    SquareLessIff(21.7, len);
    SquareLessIff(len, 21.8);
    var m := Scale(d, -(len - 21.8) / len);
    assert BallHitRaw(sqrt, b, ArcBall(p)) == Push(m);
    PushUnitVertical(sqrt, d, len, 21.8);
    SteepEnough(len);
  }

  /** The centre is exactly one radius from the corner. */
  lemma TangentCornerStep(sqrt: real -> real, b: Ball, p: Rect)
    requires IsSqrt(sqrt) && p.height > 0.0 && TangentOffsets(b, p)
    ensures var cd := CornerOffset(Center(b), p);
            && CornerStepRaw(cd, Magnitude(sqrt, cd), b.radius) == Push(Zero)
            && CornerStep(cd, Magnitude(sqrt, cd), b.radius) == None
  {
    var cd := Vec(0.6, -0.8);
    RootUnique(Magnitude(sqrt, cd), 1.0);
    CornerStepAgrees(cd, Magnitude(sqrt, cd), 1.0);
  }

  lemma TangentCaseGivesZero(sqrt: real -> real, b: Ball, p: Rect)
    requires IsSqrt(sqrt) && p.height > 0.0 && TangentOffsets(b, p)
    ensures RectHitRaw(sqrt, b, p) != Miss
    ensures PaddleHitRaw(sqrt, b, p) == Push(Zero)
    ensures PaddleCollision(sqrt, b, p) == None
  {
    TangentBallHitsBox(sqrt, b, p);
    TangentBallBelowBottom(sqrt, b, p);
    TangentCornerStep(sqrt, b, p);
    PaddleCollisionAgrees(sqrt, b, p);
  }

  /** A ball of radius 1 that touches the bottom-right corner of the
      engine's 16 by 1.6 paddle from the lower right overlaps the bounding
      box and the arc circle; the source's corner re-test then finds the
      centre exactly one radius from the corner and returns the zero
      vector, which the collision response divides by its length. The
      repaired test reports no collision. */
  lemma PaddleTangentCornerGivesZero(sqrt: real -> real)
    requires IsSqrt(sqrt)
    ensures RectHitRaw(sqrt, TangentBall(), TangentPaddle()) != Miss
    ensures PaddleHitRaw(sqrt, TangentBall(), TangentPaddle()) == Push(Zero)
    ensures PaddleCollision(sqrt, TangentBall(), TangentPaddle()) == None
  {
    TangentLayout();
    TangentOffsetsFrom(TangentBall(), TangentPaddle());
    TangentCaseGivesZero(sqrt, TangentBall(), TangentPaddle());
  }

  // -----------------------------------------------------------------------
  // The ball test with shadowed positions
  // -----------------------------------------------------------------------

  /** `ballIsHit` as the source runs it: both centres are computed from
      `getX`/`getY`, which read the entities' own positions. With both
      entities at the origin the outcome depends on the radii alone. */
  function ShadowedBallHit(sqrt: real -> real, b: ShadowedBall, other: ShadowedBall): (m: Mtv)
    requires IsSqrt(sqrt)
    ensures b.entity.position == Zero && other.entity.position == Zero ==>
              var gap := b.radius - other.radius;
              (m != Miss <==> Overlaps(Vec(gap, gap), b.radius + other.radius))
  {
    BallHitRaw(sqrt, NewBall(b.entity.position, b.radius), NewBall(other.entity.position, other.radius))
  }

  /** The arc test of `getPaddleCollision` as the source runs it never
      fires for the engine's ball of radius 1 and its 16 by 1.6 paddle,
      wherever the two were placed: the ball and the arc ball both read
      the origin, so the test compares the centre (1, 1) with
      (20.8, 20.8), which are 28.0 apart, with the reach 21.8. */
  lemma ShadowedArcTestMisses(sqrt: real -> real, ballAt: Vec, paddleAt: Vec)
    requires IsSqrt(sqrt)
    ensures var p := NewPaddle(paddleAt, 16.0, 1.6);
            var radius := ArcRadius(p);
            var arc := NewShadowedBall(Sub(ArcCenter(p), Vec(radius, radius)), radius);
            ShadowedBallHit(sqrt, NewShadowedBall(ballAt, 1.0), arc) == Miss
  {
    var p := NewPaddle(paddleAt, 16.0, 1.6);
    assert ArcRadius(p) == 20.8;
    assert !Overlaps(Vec(-19.8, -19.8), 21.8);
  }
}
