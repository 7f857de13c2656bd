/** The game objects of the engine: `Entity`, `Rectangle`, `Ball` and
    `Paddle` (engine/Entity.java, Rectangle.java, Ball.java, Paddle.java).
    The Java classes are mutable; here every object is an immutable value
    and every setter returns the updated value. */
module Shapes {
  import opened Vectors
  import opened RealFacts

  /** The state every game object carries. */
  datatype Entity = Entity(acceleration: Vec, velocity: Vec, position: Vec, visible: bool)

  /** The field initialisers of `Entity`: everything zero, not visible. */
  function NewEntity(): (e: Entity)
    ensures e.acceleration == Zero && e.velocity == Zero && e.position == Zero
    ensures !e.visible
  {
    Entity(Zero, Zero, Zero, false)
  }

  function SetAcceleration(e: Entity, a: Vec): Entity {
    e.(acceleration := a)
  }

  function SetVelocity(e: Entity, v: Vec): Entity {
    e.(velocity := v)
  }

  function SetPosition(e: Entity, p: Vec): Entity {
    e.(position := p)
  }

  function SetVisible(e: Entity, visible: bool): Entity {
    e.(visible := visible)
  }

  /** `getX`: the horizontal coordinate of the stored position. */
  function GetX(e: Entity): real {
    e.position.x0
  }

  /** `getY`: the vertical coordinate of the stored position. */
  function GetY(e: Entity): real {
    e.position.x1
  }

  /** Each setter is read back by its getter, and no other field, nor the
      coordinates when the position is not the field set, changes. */
  lemma SettersAreIndependent(e: Entity, a: Vec, v: Vec, p: Vec, visible: bool)
    ensures SetAcceleration(e, a).acceleration == a
    ensures SetAcceleration(e, a) == Entity(a, e.velocity, e.position, e.visible)
    ensures SetVelocity(e, v).velocity == v
    ensures SetVelocity(e, v) == Entity(e.acceleration, v, e.position, e.visible)
    ensures GetX(SetPosition(e, p)) == p.x0 && GetY(SetPosition(e, p)) == p.x1
    ensures SetPosition(e, p) == Entity(e.acceleration, e.velocity, p, e.visible)
    ensures SetVisible(e, visible) == Entity(e.acceleration, e.velocity, e.position, visible)
    ensures GetX(SetVelocity(e, v)) == GetX(e) && GetY(SetAcceleration(e, a)) == GetY(e)
  {
  }

  /** Setters of different fields commute, and a second set of the same
      field overrides the first. */
  lemma SettersCommute(e: Entity, a: Vec, v: Vec, p: Vec, q: Vec)
    ensures SetVelocity(SetPosition(e, p), v) == SetPosition(SetVelocity(e, v), p)
    ensures SetAcceleration(SetVelocity(e, v), a) == SetVelocity(SetAcceleration(e, a), v)
    ensures SetPosition(SetPosition(e, p), q) == SetPosition(e, q)
  {
  }

  // -----------------------------------------------------------------------
  // Rectangle
  // -----------------------------------------------------------------------

  /** An axis-aligned rectangle: `entity.position` is its upper-left corner. */
  datatype Rect = Rect(entity: Entity, width: real, height: real)

  /** The constructor: the entity defaults, with the given position. */
  function NewRect(position: Vec, width: real, height: real): (r: Rect)
    ensures r.entity.position == position && r.width == width && r.height == height
    ensures r.entity.velocity == Zero && r.entity.acceleration == Zero && !r.entity.visible
  {
    Rect(SetPosition(NewEntity(), position), width, height)
  }

  function Position(r: Rect): Vec {
    r.entity.position
  }

  /** `getBounds` returns the rectangle itself. */
  function Bounds(r: Rect): (b: Rect)
    ensures b == r
  {
    r
  }

  function SetWidth(r: Rect, width: real): Rect {
    r.(width := width)
  }

  function SetHeight(r: Rect, height: real): Rect {
    r.(height := height)
  }

  /** `setWidth` changes only the width and `setHeight` only the height. */
  lemma RectSettersAreIndependent(r: Rect, w: real, h: real)
    ensures SetWidth(r, w) == Rect(r.entity, w, r.height)
    ensures SetHeight(r, h) == Rect(r.entity, r.width, h)
    ensures SetWidth(SetHeight(r, h), w) == SetHeight(SetWidth(r, w), h)
    ensures Bounds(SetWidth(r, w)).width == w
  {
  }

  // -----------------------------------------------------------------------
  // Ball
  // -----------------------------------------------------------------------

  /** A ball with one position: `entity.position` is the upper-left corner
      of its bounding square, so `getX`/`getY` and the engine see the same
      place. */
  datatype Ball = Ball(entity: Entity, radius: real)

  function NewBall(position: Vec, radius: real): (b: Ball)
    ensures BallPosition(b) == position && b.radius == radius
    ensures GetX(b.entity) == position.x0 && GetY(b.entity) == position.x1
    ensures b.entity.velocity == Zero
  {
    Ball(SetPosition(NewEntity(), position), radius)
  }

  function BallPosition(b: Ball): Vec {
    b.entity.position
  }

  function SetBallPosition(b: Ball, p: Vec): Ball {
    b.(entity := SetPosition(b.entity, p))
  }

  function SetRadius(b: Ball, radius: real): Ball {
    b.(radius := radius)
  }

  function SetBallVelocity(b: Ball, v: Vec): Ball {
    b.(entity := SetVelocity(b.entity, v))
  }

  /** The centre: the upper-left corner moved by the radius on both axes. */
  function Center(b: Ball): (c: Vec)
    ensures Sub(c, BallPosition(b)) == Vec(b.radius, b.radius)
  {
    Add(BallPosition(b), Vec(b.radius, b.radius))
  }

  /** `getPosition` returns the last position set, `setRadius` changes only
      the radius, and moving a ball moves its centre by the same amount. */
  lemma BallAccessors(b: Ball, p: Vec, radius: real)
    ensures BallPosition(SetBallPosition(b, p)) == p
    ensures SetBallPosition(b, p).radius == b.radius
    ensures SetBallPosition(b, p).entity.velocity == b.entity.velocity
    ensures SetRadius(b, radius) == Ball(b.entity, radius)
    ensures Center(SetBallPosition(b, p)) == Add(p, Vec(b.radius, b.radius))
  {
  }

  /** The ball as the engine writes it: `Ball` declares a second `position`
      field which its constructor and position accessors use, while the
      inherited `getX`/`getY` read the entity's own position. */
  datatype ShadowedBall = ShadowedBall(entity: Entity, radius: real, position: Vec)

  function NewShadowedBall(position: Vec, radius: real): (b: ShadowedBall)
    ensures b.position == position && b.radius == radius
    ensures b.entity == NewEntity()
  {
    ShadowedBall(NewEntity(), radius, position)
  }

  function SetShadowedPosition(b: ShadowedBall, p: Vec): ShadowedBall {
    b.(position := p)
  }

  function SetShadowedRadius(b: ShadowedBall, radius: real): ShadowedBall {
    b.(radius := radius)
  }

  function SetShadowedVelocity(b: ShadowedBall, v: Vec): ShadowedBall {
    b.(entity := SetVelocity(b.entity, v))
  }

  /** The operations a caller can apply to a ball: `setPosition` (the
      overriding one of `Ball`), `setRadius` and `setVelocity`. */
  datatype BallUpdate = MovedTo(p: Vec) | Resized(radius: real) | Accelerated(v: Vec)

  function ApplyShadowed(b: ShadowedBall, u: BallUpdate): ShadowedBall {
    match u
    case MovedTo(p) => SetShadowedPosition(b, p)
    case Resized(radius) => SetShadowedRadius(b, radius)
    case Accelerated(v) => SetShadowedVelocity(b, v)
  }

  function ApplyAllShadowed(b: ShadowedBall, us: seq<BallUpdate>): ShadowedBall
    decreases |us|
  {
    if |us| == 0 then b else ApplyAllShadowed(ApplyShadowed(b, us[0]), us[1..])
  }

  /** Whatever a ball goes through, `getX`/`getY` keep reporting the origin,
      while `getPosition` reports the last position set. */
  lemma {:induction false} ShadowedCoordinatesStayZero(position: Vec, radius: real, us: seq<BallUpdate>)
    ensures var b := ApplyAllShadowed(NewShadowedBall(position, radius), us);
            GetX(b.entity) == 0.0 && GetY(b.entity) == 0.0
  {
    ShadowedEntityPositionInvariant(NewShadowedBall(position, radius), us);
  }

  lemma {:induction false} ShadowedEntityPositionInvariant(b: ShadowedBall, us: seq<BallUpdate>)
    ensures ApplyAllShadowed(b, us).entity.position == b.entity.position
    decreases |us|
  {
    if |us| > 0 {
      ShadowedEntityPositionInvariant(ApplyShadowed(b, us[0]), us[1..]);
    }
  }

  // -----------------------------------------------------------------------
  // Paddle
  // -----------------------------------------------------------------------

  /** A paddle is a rectangle (its bounding box) whose top is the arc of a
      circle through both bottom corners and the middle of the top edge. */
  function NewPaddle(position: Vec, width: real, height: real): (p: Rect)
    ensures Position(p) == position && p.width == width && p.height == height
  {
    NewRect(position, width, height)
  }

  /** `getRadius`: the radius of the circle through a chord of length `w`
      whose sagitta is `h`. */
  function ArcRadius(p: Rect): (radius: real)
    requires p.height > 0.0
    ensures radius * (2.0 * p.height) == p.height * p.height + p.width * p.width / 4.0
  {
    var radius := (p.height * p.height + p.width * p.width / 4.0) / (2.0 * p.height);
    DivMul(p.height * p.height + p.width * p.width / 4.0, 2.0 * p.height);
    radius
  }

  /** `getArcCenter`: straight below the middle of the top edge, one radius
      away from it. */
  function ArcCenter(p: Rect): (c: Vec)
    requires p.height > 0.0
    ensures Sub(c, Position(p)) == Vec(p.width / 2.0, ArcRadius(p))
  {
    Add(Position(p), Vec(p.width / 2.0, ArcRadius(p)))
  }

  /** The argument `getAngle` passes to `asin`: half the chord over the
      radius. */
  function AsinArgument(p: Rect): real
    requires p.height > 0.0
  {
    DivisorPositive(p);
    (p.width / 2.0) / ArcRadius(p)
  }

  lemma DivisorPositive(p: Rect)
    requires p.height > 0.0
    ensures ArcRadius(p) > 0.0
  {
    var h, w, radius := p.height, p.width, ArcRadius(p);
    calc {
      radius * (2.0 * h);
      h * h + w * w / 4.0;
      h * h + (w / 2.0) * (w / 2.0);
    > { SumOfSquaresPositive(h, w / 2.0); }
      0.0;
    }
    PositiveFactor(radius, 2.0 * h);
  }

  /** The radius is never shorter than half the chord: `R - w/2` times `2h`
      is the square `(h - w/2)^2`. */
  lemma RadiusAtLeastHalfWidth(h: real, w: real, radius: real)
    requires h > 0.0
    requires radius * (2.0 * h) == h * h + w * w / 4.0
    ensures w / 2.0 <= radius
  {
    calc {
      (radius - w / 2.0) * (2.0 * h);
      radius * (2.0 * h) - w * h;
      h * h + w * w / 4.0 - w * h;
      (h - w / 2.0) * (h - w / 2.0);
    >= { SquareNonNegative(h - w / 2.0); }
      0.0;
    }
    NonNegativeFactor(radius - w / 2.0, 2.0 * h);
  }

  /** The `asin` argument of `getAngle` lies in (0, 1] for every paddle of
      positive width and height, so the angle is defined. */
  lemma AsinArgumentInRange(p: Rect)
    requires p.height > 0.0 && p.width > 0.0
    ensures 0.0 < AsinArgument(p) <= 1.0
  {
    var radius := ArcRadius(p);
    DivisorPositive(p);
    RadiusAtLeastHalfWidth(p.height, p.width, radius);
    var a := AsinArgument(p);
    assert a * radius == p.width / 2.0 by {
      DivMul(p.width / 2.0, radius);
    }
    PositiveFactor(a, radius);
    if a > 1.0 {
      calc {
        p.width / 2.0;
        a * radius;
      > { MulPositive(a - 1.0, radius); }
        radius;
      }
      assert false;
    }
  }

  /** The circle passes through both bottom corners of the bounding box and
      touches the middle of its top edge: the paddle is the part of the
      box under the arc. */
  lemma ArcThroughCorners(p: Rect)
    requires p.height > 0.0
    ensures var c := ArcCenter(p);
            var radius := ArcRadius(p);
            var bottomLeft := Add(Position(p), Vec(0.0, p.height));
            var bottomRight := Add(Position(p), Vec(p.width, p.height));
            var topMiddle := Add(Position(p), Vec(p.width / 2.0, 0.0));
            && Dot(Sub(bottomLeft, c), Sub(bottomLeft, c)) == radius * radius
            && Dot(Sub(bottomRight, c), Sub(bottomRight, c)) == radius * radius
            && Dot(Sub(topMiddle, c), Sub(topMiddle, c)) == radius * radius
  {
    var h, w, radius := p.height, p.width, ArcRadius(p);
    var c := ArcCenter(p);
    var pos := Position(p);
    CornerEquation(h, w, radius);
    assert Sub(Add(pos, Vec(0.0, h)), c) == Vec(-(w / 2.0), h - radius);
    assert Sub(Add(pos, Vec(w, h)), c) == Vec(w / 2.0, h - radius);
    assert Sub(Add(pos, Vec(w / 2.0, 0.0)), c) == Vec(0.0, -radius);
  }

  /** The chord/sagitta relation restated for a corner: `(w/2)^2 + (h-R)^2
      == R^2`. */
  lemma CornerEquation(h: real, w: real, radius: real)
    requires radius * (2.0 * h) == h * h + w * w / 4.0
    ensures Dot(Vec(-(w / 2.0), h - radius), Vec(-(w / 2.0), h - radius)) == radius * radius
    ensures Dot(Vec(w / 2.0, h - radius), Vec(w / 2.0, h - radius)) == radius * radius
    ensures Dot(Vec(0.0, -radius), Vec(0.0, -radius)) == radius * radius
  {
    calc {
      Dot(Vec(w / 2.0, h - radius), Vec(w / 2.0, h - radius));
      (w / 2.0) * (w / 2.0) + (h - radius) * (h - radius);
      w * w / 4.0 + h * h - radius * (2.0 * h) + radius * radius;
      radius * radius;
    }
    calc {
      Dot(Vec(-(w / 2.0), h - radius), Vec(-(w / 2.0), h - radius));
      (w / 2.0) * (w / 2.0) + (h - radius) * (h - radius);
      radius * radius;
    }
  }
}
