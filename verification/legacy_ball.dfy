/** The ball of the early prototype (src/programming/breakout/Ball.java):
    an oval of equal width and height `size` at `(x, y)` (its upper-left
    corner) that moves by polar steps, remembers its direction in degrees
    (counterclockwise from the positive x axis), and classifies and
    reflects on the borders of the field. */
module LegacyBall {
  import opened Options

  /** The value the direction holds until the first step. */
  const Uninitialised: real := -0.123456

  datatype Ball = Ball(x: real, y: real, size: real, direction: real)

  /** A rectangle as the graphics library describes it: upper-left corner
      and size. */
  datatype Frame = Frame(x: real, y: real, width: real, height: real)

  /** The primary constructor: the direction is not yet set. */
  function NewBall(x: real, y: real, size: real): (b: Ball)
    ensures b.x == x && b.y == y && b.size == size
    ensures GetDirection(b).None?
  {
    Ball(x, y, size, Uninitialised)
  }

  /** The simple constructor: a ball at the origin. */
  function NewBallOfSize(size: real): (b: Ball)
    ensures b == NewBall(0.0, 0.0, size)
  {
    NewBall(0.0, 0.0, size)
  }

  /** `moveInDirection`: records `direction` and makes the library's polar
      move of length `step` in it, with `c` and `s` the cosine and sine of
      the direction. The screen's y axis points down, so a positive sine
      moves the ball up. */
  function MoveInDirection(b: Ball, step: real, direction: real, c: real, s: real): (r: Ball)
    requires c * c + s * s == 1.0
    ensures r.direction == direction && r.size == b.size
    ensures (r.x - b.x) * (r.x - b.x) + (r.y - b.y) * (r.y - b.y) == step * step
    ensures (r.x - b.x) * c - (r.y - b.y) * s == step
  {
    var r := Ball(b.x + step * c, b.y - step * s, b.size, direction);
    assert (step * c) * (step * c) + (step * s) * (step * s) == step * step * (c * c + s * s);
    assert (step * c) * c + (step * s) * s == step * (c * c + s * s);
    r
  }

  /** `getDirection`: the recorded direction, or `None` where the source's
      assertion that it has been set fails. */
  function GetDirection(b: Ball): (d: Option<real>)
    ensures d.Some? <==> b.direction != Uninitialised
    ensures d.Some? ==> d.value == b.direction
  {
    if b.direction != Uninitialised then Some(b.direction) else None
  }

  /** After a step the ball reports the direction of that step, unless the
      step's direction is the sentinel value itself. */
  lemma MoveThenGetDirection(b: Ball, step: real, direction: real, c: real, s: real)
    requires c * c + s * s == 1.0
    ensures direction != Uninitialised ==> GetDirection(MoveInDirection(b, step, direction, c, s)) == Some(direction)
    ensures direction == Uninitialised ==> GetDirection(MoveInDirection(b, step, direction, c, s)).None?
  {
  }

  /** The four borders, and none. */
  datatype Side = Right | Left | Bottom | Top | NoIntersection

  /** The string `getExceedingDirection` returns for a side. */
  function Name(side: Side): string {
    match side
    case Right => "right"
    case Left => "left"
    case Bottom => "bottom"
    case Top => "top"
    case NoIntersection => "no intersection"
  }

  /** `getExceedingDirection`: the first of right, left, bottom and top
      whose border the ball touches or crosses. The right and bottom tests
      compare with the frame's width and height, not with its right and
      bottom edges. */
  function ExceedingDirection(b: Ball, f: Frame): (side: Side)
    ensures side == Right <==> b.x + b.size >= f.width
    ensures side == NoIntersection <==>
              f.x < b.x && b.x + b.size < f.width && f.y < b.y && b.y + b.size < f.height
    ensures side == Left <==> b.x + b.size < f.width && b.x <= f.x
    ensures side == Bottom <==>
              b.x + b.size < f.width && f.x < b.x && b.y + b.size >= f.height
    ensures side == Top <==>
              b.x + b.size < f.width && f.x < b.x && b.y + b.size < f.height && b.y <= f.y
  {
    if b.x + b.size >= f.width then Right
    else if b.x <= f.x then Left
    else if b.y + b.size >= f.height then Bottom
    else if b.y <= f.y then Top
    else NoIntersection
  }

  /** The names are distinct, so the string result identifies the side. */
  lemma NamesAreDistinct(a: Side, b: Side)
    requires a != b
    ensures Name(a) != Name(b)
  {
    assert Name(a)[0] != Name(b)[0];
  }

  /** For a frame at the origin the width is the right edge, so "right"
      means exactly that the ball reaches the right edge; for a frame
      elsewhere a ball well inside it can be reported as exceeding it on
      the right. */
  lemma RightTestUsesWidthAlone()
    ensures var f := Frame(10.0, 0.0, 20.0, 100.0);
            var b := NewBall(20.0, 50.0, 2.0);
            && b.x + b.size < f.x + f.width
            && ExceedingDirection(b, f) == Right
  {
  }

  /** The reflected direction for a border: a vertical border mirrors
      `d` to `180 - d`, a horizontal one to `360 - d`. Reflecting at the
      bottom, or at no border, keeps `d`. */
  function Reflect(d: real, side: Side): real {
    match side
    case Right => 180.0 - d
    case Left => 180.0 - d
    case Top => 360.0 - d
    case _ => d
  }

  /** Each reflection undone by itself. */
  lemma ReflectIsInvolution(d: real, side: Side)
    ensures Reflect(Reflect(d, side), side) == d
  {
  }

  /** `getNewDirection` in a field of width `fieldWidth`: `None` when the
      direction was never set (the source's assertion); otherwise the
      direction reflected on the right, the left or the top border,
      tested in that order. There is no bottom test. */
  function NewDirection(b: Ball, fieldWidth: real): (d: Option<real>)
    ensures d.Some? <==> GetDirection(b).Some?
    ensures d.Some? && b.x + b.size >= fieldWidth ==> d.value == 180.0 - b.direction
    ensures d.Some? && b.x + b.size < fieldWidth && b.x <= 0.0 ==> d.value == 180.0 - b.direction
    ensures d.Some? && b.x + b.size < fieldWidth && b.x > 0.0 && b.y <= 0.0 ==> d.value == 360.0 - b.direction
    ensures d.Some? && b.x + b.size < fieldWidth && b.x > 0.0 && b.y > 0.0 ==> d.value == b.direction
  {
    match GetDirection(b)
    case None => None
    case Some(current) =>
      if b.x + b.size >= fieldWidth then Some(180.0 - current)
      else if b.x <= 0.0 then Some(180.0 - current)
      else if b.y <= 0.0 then Some(360.0 - current)
      else Some(current)
  }

  /** In a field at the origin, the new direction is the reflection at the
      border `getExceedingDirection` names, unless the ball touches the top
      and the bottom at once, where the classification says bottom and the
      reflection uses the top. */
  lemma NewDirectionReflectsAtExceededBorder(b: Ball, fieldWidth: real, fieldHeight: real)
    requires b.direction != Uninitialised
    requires !(b.y <= 0.0 && b.y + b.size >= fieldHeight)
    ensures NewDirection(b, fieldWidth)
            == Some(Reflect(b.direction, ExceedingDirection(b, Frame(0.0, 0.0, fieldWidth, fieldHeight))))
  {
  }

  /** Reflecting twice at the same border restores the direction: a ball
      that stays at a border keeps alternating between two directions. */
  lemma NewDirectionTwice(b: Ball, fieldWidth: real)
    requires b.direction != Uninitialised
    requires NewDirection(b, fieldWidth).value != Uninitialised
    ensures var once := b.(direction := NewDirection(b, fieldWidth).value);
            NewDirection(once, fieldWidth) == Some(b.direction)
  {
  }
}
