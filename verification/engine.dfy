/** The engine's game logic (engine/Engine.java): the state of one round,
    one step of the ball with its collision handling, and the set-up of the
    paddle, the ball and the brick grid. The engine's mutable fields and the
    parts of `GameState` it uses are gathered into one immutable `World`
    value; every step returns the next `World`. */
module Engine {
  import opened Options
  import opened Vectors
  import opened RealFacts
  import opened Shapes
  import opened Collisions

  const FieldWidth: real := 80.0
  const FieldHeight: real := 130.0
  const BallRadius: real := 1.0
  /** The paddle is a fifth of the field wide and a tenth as high as wide. */
  const PaddleLength: real := 0.2 * FieldWidth
  const PaddleHeight: real := 0.1 * PaddleLength
  /** The ball's launch velocity before the random turn, in units per frame. */
  const LaunchVelocity: Vec := Vec(0.0, 2.0)

  /** An entry of the game state's entity list. Java object identity of
      a brick is its `id`. */
  datatype Piece = BrickPiece(id: nat) | BallPiece | PaddlePiece

  datatype Brick = Brick(id: nat, body: Rect)

  /** The engine's ball, paddle and brick list together with the fields of
      the game state it reads and writes: the field size, the pause flag,
      the time factor, the entity list and the list of entities moved in
      the current tick. */
  datatype World = World(
    width: real,
    height: real,
    paused: bool,
    timeFactor: real,
    ball: Ball,
    paddle: Rect,
    bricks: seq<Brick>,
    entities: seq<Piece>,
    moved: seq<Piece>)

  /** `isInField` of the controller: the rectangle lies inside the field. */
  predicate InField(r: Rect, width: real, height: real) {
    var b := Bounds(r);
    && GetX(b.entity) >= 0.0 && GetY(b.entity) >= 0.0
    && GetX(b.entity) + b.width <= width && GetY(b.entity) + b.height <= height
  }

  // -----------------------------------------------------------------------
  // List operations of java.util.ArrayList
  // -----------------------------------------------------------------------

  /** The list without its element at index `k`. */
  function RemoveAt<T>(s: seq<T>, k: nat): (r: seq<T>)
    requires k < |s|
    ensures |r| == |s| - 1
    ensures forall i :: 0 <= i < k ==> r[i] == s[i]
    ensures forall i :: k <= i < |r| ==> r[i] == s[i + 1]
  {
    s[..k] + s[k + 1..]
  }

  /** The index of the first occurrence of `x`. */
  function IndexOf<T(==)>(s: seq<T>, x: T): (k: nat)
    requires x in s
    ensures k < |s| && s[k] == x
    ensures forall i :: 0 <= i < k ==> s[i] != x
  {
    if s[0] == x then 0 else 1 + IndexOf(s[1..], x)
  }

  /** `remove(Object)`: drops the first occurrence, if there is one. */
  function RemoveFirst<T(==)>(s: seq<T>, x: T): (r: seq<T>)
    ensures x !in s ==> r == s
    ensures x in s ==> multiset(r) == multiset(s) - multiset{x}
    ensures x in s ==> r == RemoveAt(s, IndexOf(s, x))
  {
    if x in s then
      var k := IndexOf(s, x);
      assert s == s[..k] + [x] + s[k + 1..];
      RemoveAt(s, k)
    else
      s
  }

  // -----------------------------------------------------------------------
  // Bricks
  // -----------------------------------------------------------------------

  /** The y coordinate of a brick's bottom edge. */
  function Bottom(b: Brick): real {
    GetY(b.body.entity) + b.body.height
  }

  /** `getLowestBrickY`: the largest bottom edge of the bricks, scanned in
      list order. The source starts from negative infinity, which stands
      for `None` here: with no bricks left, nothing is below it. */
  function LowestBrickBottom(bricks: seq<Brick>): (m: Option<real>)
    ensures m.None? <==> |bricks| == 0
    ensures m.Some? ==> forall i :: 0 <= i < |bricks| ==> Bottom(bricks[i]) <= m.value
    ensures m.Some? ==> exists i :: 0 <= i < |bricks| && Bottom(bricks[i]) == m.value
  {
    if |bricks| == 0 then
      None
    else
      var rest := LowestBrickBottom(bricks[..|bricks| - 1]);
      var last := Bottom(bricks[|bricks| - 1]);
      assert forall i :: 0 <= i < |bricks| - 1 ==> bricks[..|bricks| - 1][i] == bricks[i];
      if rest.None? || last > rest.value then Some(last) else rest
  }

  /** The brick test of `getBrickCollison` runs only when the ball's y is
      not greater than the lowest brick bottom. */
  predicate InReach(y: real, lowest: Option<real>) {
    lowest.Some? && y <= lowest.value
  }

  /** `rectangleIsHit` for the engine's ball, as the test `whichBrick`
      puts to each brick. */
  function BrickTest(sqrt: real -> real, ball: Ball): (test: Rect -> Option<Vec>)
    requires IsSqrt(sqrt)
    ensures forall r :: test(r) == RectangleIsHit(sqrt, ball, r)
  {
    r => RectangleIsHit(sqrt, ball, r)
  }

  /** The first brick, in list order, that passes `test`, with the vector
      the test gives (the pair `whichBrick` returns, with the brick given
      by its index). */
  function FirstHit(test: Rect -> Option<Vec>, bricks: seq<Brick>): (h: Option<(nat, Vec)>)
    ensures h.Some? ==> h.value.0 < |bricks| && test(bricks[h.value.0].body) == Some(h.value.1)
    ensures h.Some? ==> forall j :: 0 <= j < h.value.0 ==> test(bricks[j].body).None?
    ensures h.None? ==> forall j :: 0 <= j < |bricks| ==> test(bricks[j].body).None?
  {
    if |bricks| == 0 then
      None
    else
      match test(bricks[0].body)
      case Some(v) => Some((0, v))
      case None =>
        match FirstHit(test, bricks[1..])
        case None => None
        case Some(hit) => Some((hit.0 + 1, hit.1))
  }

  /** `whichBrick`: the loop over the brick list that stops at the first
      brick the test reports. */
  method WhichBrick(test: Rect -> Option<Vec>, bricks: seq<Brick>) returns (h: Option<(nat, Vec)>)
    ensures h == FirstHit(test, bricks)
  {
    var i := 0;
    while i < |bricks|
      invariant 0 <= i <= |bricks|
      invariant forall j :: 0 <= j < i ==> test(bricks[j].body).None?
    {
      var m := test(bricks[i].body);
      if m.Some? {
        return Some((i, m.value));
      }
      i := i + 1;
    }
    return None;
  }

  /** `getBrickCollison`: when the ball is within reach of the bricks and
      overlaps one, the first such brick leaves both the brick list and the
      entity list, and its vector is returned. */
  function BrickCollision(sqrt: real -> real, w: World): (r: (World, Option<Vec>))
    requires IsSqrt(sqrt)
    ensures r.1.Some? ==> r.1.value != Zero
    ensures r.1.None? ==> r.0 == w
    ensures r.0 == w.(bricks := r.0.bricks, entities := r.0.entities)
    ensures r.1.Some? <==>
              && InReach(GetY(w.ball.entity), LowestBrickBottom(w.bricks))
              && exists k :: 0 <= k < |w.bricks| && BrickTest(sqrt, w.ball)(w.bricks[k].body).Some?
    ensures r.1.Some? ==> |r.0.bricks| == |w.bricks| - 1
  {
    if !InReach(GetY(w.ball.entity), LowestBrickBottom(w.bricks)) then
      (w, None)
    else
      match FirstHit(BrickTest(sqrt, w.ball), w.bricks)
      case None => (w, None)
      case Some(hit) =>
        var brick := w.bricks[hit.0];
        (w.(bricks := RemoveAt(w.bricks, hit.0),
            entities := RemoveFirst(w.entities, BrickPiece(brick.id))),
         Some(hit.1))
  }

  /** The brick that goes is the first one the ball overlaps, and it goes
      from both lists; the vector is that brick's. */
  lemma BrickCollisionRemovesFirstHit(sqrt: real -> real, w: World, k: nat)
    requires IsSqrt(sqrt)
    requires InReach(GetY(w.ball.entity), LowestBrickBottom(w.bricks))
    requires k < |w.bricks| && BrickTest(sqrt, w.ball)(w.bricks[k].body).Some?
    requires forall j :: 0 <= j < k ==> BrickTest(sqrt, w.ball)(w.bricks[j].body).None?
    ensures var r := BrickCollision(sqrt, w);
            && r.1 == RectangleIsHit(sqrt, w.ball, w.bricks[k].body)
            && r.0.bricks == RemoveAt(w.bricks, k)
            && r.0.entities == RemoveFirst(w.entities, BrickPiece(w.bricks[k].id))
  {
    FirstHitIsUnique(BrickTest(sqrt, w.ball), w.bricks, k);
  }

  /** The first brick passing the test is the only index with nothing
      before it passing. */
  lemma FirstHitIsUnique(test: Rect -> Option<Vec>, bricks: seq<Brick>, k: nat)
    requires k < |bricks| && test(bricks[k].body).Some?
    requires forall j :: 0 <= j < k ==> test(bricks[j].body).None?
    ensures FirstHit(test, bricks) == Some((k, test(bricks[k].body).value))
  {
  }

  /** No brick is removed while the ball is below the lowest brick. */
  lemma BrickCollisionOutOfReach(sqrt: real -> real, w: World)
    requires IsSqrt(sqrt)
    requires |w.bricks| > 0 && forall i :: 0 <= i < |w.bricks| ==> Bottom(w.bricks[i]) < GetY(w.ball.entity)
    ensures BrickCollision(sqrt, w) == (w, None)
  {
    var lowest := LowestBrickBottom(w.bricks);
    var i :| 0 <= i < |w.bricks| && Bottom(w.bricks[i]) == lowest.value;
    assert !InReach(GetY(w.ball.entity), lowest);
  }

  // -----------------------------------------------------------------------
  // Collision handling and movement
  // -----------------------------------------------------------------------

  /** `handleCollisions`: the wall, then the paddle, then the bricks are
      asked for a vector; the first one given is applied with
      `collisionResponse`, so at most one collision is resolved, and a brick
      is removed only when neither the wall nor the paddle was hit. */
  function HandleCollisions(sqrt: real -> real, w: World): (r: World)
    requires IsSqrt(sqrt) && w.paddle.height > 0.0
    ensures r == w.(ball := r.ball, bricks := r.bricks, entities := r.entities)
    ensures r.ball.radius == w.ball.radius
    ensures Dot(Velocity(r.ball), Velocity(r.ball)) == Dot(Velocity(w.ball), Velocity(w.ball))
    ensures |w.bricks| - 1 <= |r.bricks| <= |w.bricks|
    ensures var wall := WallCollision(w.ball, w.width);
            wall.Some? ==>
              r.ball == CollisionResponse(sqrt, w.ball, wall.value) && r.bricks == w.bricks && r.entities == w.entities
    ensures var wall, pad := WallCollision(w.ball, w.width), PaddleCollision(sqrt, w.ball, w.paddle);
            wall.None? && pad.Some? ==>
              r.ball == CollisionResponse(sqrt, w.ball, pad.value) && r.bricks == w.bricks && r.entities == w.entities
    ensures var wall, pad := WallCollision(w.ball, w.width), PaddleCollision(sqrt, w.ball, w.paddle);
            wall.None? && pad.None? ==>
              var (after, brick) := BrickCollision(sqrt, w);
              && r.bricks == after.bricks && r.entities == after.entities
              && (brick.None? ==> r.ball == w.ball)
              && (brick.Some? ==> r.ball == CollisionResponse(sqrt, w.ball, brick.value))
  {
    var wall := WallCollision(w.ball, w.width);
    if wall.Some? then
      w.(ball := CollisionResponse(sqrt, w.ball, wall.value))
    else
      var pad := PaddleCollision(sqrt, w.ball, w.paddle);
      if pad.Some? then
        w.(ball := CollisionResponse(sqrt, w.ball, pad.value))
      else
        var (after, brick) := BrickCollision(sqrt, w);
        if brick.Some? then
          after.(ball := CollisionResponse(sqrt, w.ball, brick.value))
        else
          after
  }

  /** The ball after `moveBall`'s translation: `position += velocity *
      timeFactor`. */
  function Advance(b: Ball, timeFactor: real): (r: Ball)
    ensures Sub(BallPosition(r), BallPosition(b)) == Scale(Velocity(b), timeFactor)
    ensures Velocity(r) == Velocity(b) && r.radius == b.radius
  {
    SetBallPosition(b, Add(BallPosition(b), Scale(Velocity(b), timeFactor)))
  }

  /** `moveBall`: the ball advances by its velocity scaled by the time
      factor, is recorded as moved, and then collisions are handled. */
  function MoveBall(sqrt: real -> real, w: World): (r: World)
    requires IsSqrt(sqrt) && w.paddle.height > 0.0
    ensures r.moved == w.moved + [BallPiece]
    ensures r == w.(ball := r.ball, bricks := r.bricks, entities := r.entities, moved := r.moved)
    ensures r.ball.radius == w.ball.radius
    ensures Dot(Velocity(r.ball), Velocity(r.ball)) == Dot(Velocity(w.ball), Velocity(w.ball))
    ensures |w.bricks| - 1 <= |r.bricks| <= |w.bricks|
  {
    HandleCollisions(sqrt, w.(ball := Advance(w.ball, w.timeFactor), moved := w.moved + [BallPiece]))
  }

  /** When the advanced ball meets nothing, it keeps its velocity, lands
      exactly at `position + velocity * timeFactor`, and no brick goes. */
  lemma MoveBallUnobstructed(sqrt: real -> real, w: World)
    requires IsSqrt(sqrt) && w.paddle.height > 0.0
    requires var b := Advance(w.ball, w.timeFactor);
             && WallCollision(b, w.width).None?
             && PaddleCollision(sqrt, b, w.paddle).None?
             && forall k :: 0 <= k < |w.bricks| ==> BrickTest(sqrt, b)(w.bricks[k].body).None?
    ensures var r := MoveBall(sqrt, w);
            && BallPosition(r.ball) == Add(BallPosition(w.ball), Scale(Velocity(w.ball), w.timeFactor))
            && Velocity(r.ball) == Velocity(w.ball)
            && r.bricks == w.bricks && r.entities == w.entities
  {
    var moved := w.(ball := Advance(w.ball, w.timeFactor), moved := w.moved + [BallPiece]);
    var (after, brick) := BrickCollision(sqrt, moved);
    assert brick.None?;
  }

  /** The square of the ball's speed. */
  function SquaredSpeed(b: Ball): real {
    Dot(Velocity(b), Velocity(b))
  }

  /** One pass of the run loop's inner body: `moveBall` unless the game is
      paused. */
  function Tick(sqrt: real -> real, w: World): (r: World)
    requires IsSqrt(sqrt) && w.paddle.height > 0.0
    ensures r.paddle == w.paddle && r.paused == w.paused && r.timeFactor == w.timeFactor
    ensures !w.paused ==> r.moved == w.moved + [BallPiece]
    ensures r.ball.radius == w.ball.radius
    ensures SquaredSpeed(r.ball) == SquaredSpeed(w.ball)
    ensures |w.bricks| - 1 <= |r.bricks| <= |w.bricks|
  {
    if w.paused then w else MoveBall(sqrt, w)
  }

  /** `n` passes of the run loop with nothing else happening in between. */
  function Ticks(sqrt: real -> real, w: World, n: nat): (r: World)
    requires IsSqrt(sqrt) && w.paddle.height > 0.0
    ensures r.paddle == w.paddle
    decreases n
  {
    if n == 0 then w else Ticks(sqrt, Tick(sqrt, w), n - 1)
  }

  /** While paused, any number of ticks leaves the whole world, the ball
      and the bricks included, as it was. */
  lemma {:induction false} PausedTicksChangeNothing(sqrt: real -> real, w: World, n: nat)
    requires IsSqrt(sqrt) && w.paddle.height > 0.0 && w.paused
    ensures Ticks(sqrt, w, n) == w
  {
    if n > 0 {
      assert Tick(sqrt, w) == w;
      PausedTicksChangeNothing(sqrt, w, n - 1);
    }
  }

  /** Over any number of ticks the ball keeps its speed and radius, and
      the brick list never grows: each tick removes at most one brick. */
  lemma {:induction false} TicksKeepSpeed(sqrt: real -> real, w: World, n: nat)
    requires IsSqrt(sqrt) && w.paddle.height > 0.0
    ensures var r := Ticks(sqrt, w, n);
            && SquaredSpeed(r.ball) == SquaredSpeed(w.ball)
            && r.ball.radius == w.ball.radius
            && |w.bricks| - n <= |r.bricks| <= |w.bricks|
    decreases n
  {
    if n > 0 {
      var t := Tick(sqrt, w);
      TicksKeepSpeed(sqrt, t, n - 1);
      assert Ticks(sqrt, w, n) == Ticks(sqrt, t, n - 1);
    }
  }

  /** `isRunning` with the ball's position read where it is stored: the
      round goes on while the ball's top is above 110% of the field
      height. The engine's own pause flag is never set, so it does not
      take part. */
  predicate IsRunning(w: World) {
    GetY(w.ball.entity) < w.height * 1.1
  }

  // -----------------------------------------------------------------------
  // Set-up
  // -----------------------------------------------------------------------

  /** `createPaddle` (and the paddle reset at the start of each round): the
      paddle is centred horizontally with one paddle height of room below
      it. */
  function CreatePaddle(width: real, height: real): (p: Rect)
    ensures p.width == PaddleLength && p.height == PaddleHeight
    ensures GetX(p.entity) + p.width / 2.0 == width / 2.0
    ensures GetY(p.entity) + p.height == height - PaddleHeight
    ensures PaddleLength <= width && 2.0 * PaddleHeight <= height ==> InField(p, width, height)
  {
    NewPaddle(Vec((width - PaddleLength) / 2.0, height - PaddleHeight * 2.0), PaddleLength, PaddleHeight)
  }

  /** `createBall` with the random launch angle `theta` given by
      `c == cos theta` and `s == sin theta`. */
  function CreateBall(c: real, s: real): (b: Ball)
    requires c * c + s * s == 1.0
    ensures Center(b) == Vec(FieldWidth / 2.0, FieldHeight / 2.0) && b.radius == BallRadius
    ensures Dot(Velocity(b), Velocity(b)) == Dot(LaunchVelocity, LaunchVelocity)
  {
    var b := NewBall(Vec(FieldWidth / 2.0 - BallRadius, FieldHeight / 2.0 - BallRadius), BallRadius);
    SetBallVelocity(b, Rotate(LaunchVelocity, c, s))
  }

  /** The launch angle is drawn from [-pi/4, pi/4), where `|sin| <= cos`:
      the ball then starts downwards, towards the paddle, at most as fast
      sideways as downwards. */
  lemma LaunchHeadsDown(c: real, s: real)
    requires c * c + s * s == 1.0 && Abs(s) <= c
    ensures var v := Velocity(CreateBall(c, s));
            0.0 < v.x1 && Abs(v.x0) <= v.x1
  {
  }

  /** A new round starts running. */
  lemma CreateBallIsRunning(w: World, c: real, s: real)
    requires c * c + s * s == 1.0
    requires w.ball == CreateBall(c, s) && w.height == FieldHeight
    ensures IsRunning(w)
  {
  }

  /** Moving the ball's top to height `y` ends the round exactly when `y`
      is at or below 110% of the field height, whatever the rest of the
      world holds. */
  lemma RoundEndsBelowField(w: World, x: real, y: real)
    ensures IsRunning(w.(ball := SetBallPosition(w.ball, Vec(x, y)))) <==> y < w.height * 1.1
  {
  }

  /** `isRunning` as the source runs it: `getY` reads the entity's own
      position, which the engine's ball never writes. */
  predicate ShadowedIsRunning(b: ShadowedBall, height: real) {
    GetY(b.entity) < height * 1.1
  }

  /** As written the round never ends: whatever positions, radii and
      velocities the ball is given, `getY` keeps reading 0, which is above
      110% of any positive field height. */
  lemma ShadowedRoundNeverEnds(position: Vec, radius: real, us: seq<BallUpdate>, height: real)
    requires 0.0 < height
    ensures ShadowedIsRunning(ApplyAllShadowed(NewShadowedBall(position, radius), us), height)
  {
    ShadowedCoordinatesStayZero(position, radius, us);
  }

  /** The brick grid: `rows` by `cols` bricks of one size. */
  datatype BrickLayout = BrickLayout(rows: nat, cols: nat, brickWidth: real, brickHeight: real)

  /** The engine's grid: 6 rows of 7 bricks, 8 by 4 units each. */
  const Layout: BrickLayout := BrickLayout(6, 7, 8.0, 4.0)

  /** The horizontal gap: the width left over by the bricks, shared
      equally by the gaps before, between and after the columns. */
  function ColPadding(lay: BrickLayout, width: real): real {
    (width - lay.cols as real * lay.brickWidth) / (lay.cols as real + 1.0)
  }

  /** The vertical gap: the same for the band of 0.33 times the field's
      height at the top. */
  function RowPadding(lay: BrickLayout, height: real): real {
    (height * 0.33 - lay.rows as real * lay.brickHeight) / (lay.rows as real + 1.0)
  }

  /** The brick in row `i` and column `j`. */
  function BrickAt(lay: BrickLayout, width: real, height: real, i: nat, j: nat): (r: Rect)
    ensures r.width == lay.brickWidth && r.height == lay.brickHeight
  {
    var cp := ColPadding(lay, width);
    var rp := RowPadding(lay, height);
    NewRect(Vec(cp + j as real * (lay.brickWidth + cp), rp + i as real * (lay.brickHeight + rp)),
            lay.brickWidth, lay.brickHeight)
  }

  /** The bricks of the engine's grid, cell by cell. */
  function Cells(lay: BrickLayout, width: real, height: real): (cell: (nat, nat) -> Rect)
    ensures forall i, j :: cell(i, j) == BrickAt(lay, width, height, i, j)
  {
    (i: nat, j: nat) => BrickAt(lay, width, height, i, j)
  }

  /** The row-major index of row `i`, column `j` in rows of `cols`. */
  function Index(cols: nat, i: nat, j: nat): nat {
    i * cols + j
  }

  /** The first `n` bricks of row `i` of a grid whose cells are `cell`,
      numbered from `first`. */
  function Row(cell: (nat, nat) -> Rect, i: nat, n: nat, first: nat): seq<Brick> {
    if n == 0 then []
    else Row(cell, i, n - 1, first) + [Brick(first + n - 1, cell(i, n - 1))]
  }

  /** The first `n` rows of `cols` bricks each, row after row, every brick
      numbered with its index. */
  function Grid(cell: (nat, nat) -> Rect, cols: nat, n: nat): seq<Brick> {
    if n == 0 then []
    else
      var prefix := Grid(cell, cols, n - 1);
      prefix + Row(cell, n - 1, cols, |prefix|)
  }

  /** `createBricks`: the nested loops over rows and columns, with the
      running coordinates `x` and `y`. The result is the grid: `rows *
      cols` bricks in row-major order, brick `(i, j)` at index `i * cols +
      j`. */
  method CreateBricks(lay: BrickLayout, width: real, height: real) returns (bricks: seq<Brick>)
    ensures bricks == Grid(Cells(lay, width, height), lay.cols, lay.rows)
    ensures |bricks| == lay.rows * lay.cols
    ensures forall i, j :: 0 <= i < lay.rows && 0 <= j < lay.cols ==>
              && Index(lay.cols, i, j) < |bricks|
              && bricks[Index(lay.cols, i, j)] == Brick(Index(lay.cols, i, j), BrickAt(lay, width, height, i, j))
  {
    var cell := Cells(lay, width, height);
    var rp := RowPadding(lay, height);
    var y := rp;
    bricks := [];
    var i := 0;
    while i < lay.rows
      invariant 0 <= i <= lay.rows
      invariant bricks == Grid(cell, lay.cols, i)
      invariant y == rp + i as real * (lay.brickHeight + rp)
    {
      var row := CreateRow(lay, width, height, i, y, |bricks|);
      bricks := bricks + row;
      y := y + (lay.brickHeight + rp);
      i := i + 1;
    }
    GridShape(cell, lay.cols, lay.rows);
  }

  /** The inner loop of `createBricks`: row `i`, at height `y`, its bricks
      numbered from `first`. */
  method CreateRow(lay: BrickLayout, width: real, height: real, i: nat, y: real, first: nat)
    returns (row: seq<Brick>)
    requires y == RowPadding(lay, height) + i as real * (lay.brickHeight + RowPadding(lay, height))
    ensures row == Row(Cells(lay, width, height), i, lay.cols, first)
  {
    var cell := Cells(lay, width, height);
    var cp := ColPadding(lay, width);
    var x := cp;
    row := [];
    var j := 0;
    while j < lay.cols
      invariant 0 <= j <= lay.cols
      invariant row == Row(cell, i, j, first)
      invariant x == cp + j as real * (lay.brickWidth + cp)
    {
      assert NewRect(Vec(x, y), lay.brickWidth, lay.brickHeight) == BrickAt(lay, width, height, i, j);
      row := row + [Brick(first + j, NewRect(Vec(x, y), lay.brickWidth, lay.brickHeight))];
      x := x + (lay.brickWidth + cp);
      assert (j + 1) as real * (lay.brickWidth + cp) == j as real * (lay.brickWidth + cp) + (lay.brickWidth + cp);
      j := j + 1;
    }
  }

  lemma {:induction false} RowShape(cell: (nat, nat) -> Rect, i: nat, n: nat, first: nat)
    ensures |Row(cell, i, n, first)| == n
    ensures forall j :: 0 <= j < n ==> Row(cell, i, n, first)[j] == Brick(first + j, cell(i, j))
  {
    if n > 0 {
      RowShape(cell, i, n - 1, first);
    }
  }

  lemma {:induction false} GridLength(cell: (nat, nat) -> Rect, cols: nat, n: nat)
    ensures |Grid(cell, cols, n)| == n * cols
  {
    if n > 0 {
      GridLength(cell, cols, n - 1);
      RowShape(cell, n - 1, cols, |Grid(cell, cols, n - 1)|);
      assert n * cols == (n - 1) * cols + cols;
    }
  }

  /** A grid of fewer rows is a prefix of one of more rows. */
  lemma {:induction false} GridPrefix(cell: (nat, nat) -> Rect, cols: nat, m: nat, n: nat)
    requires m <= n
    ensures |Grid(cell, cols, m)| <= |Grid(cell, cols, n)|
    ensures Grid(cell, cols, n)[..|Grid(cell, cols, m)|] == Grid(cell, cols, m)
  {
    if m < n {
      GridPrefix(cell, cols, m, n - 1);
      var prefix := Grid(cell, cols, n - 1);
      assert Grid(cell, cols, n) == prefix + Row(cell, n - 1, cols, |prefix|);
    }
  }

  /** Brick `j` of the last row of a grid of `i + 1` rows. */
  lemma LastRowAt(cell: (nat, nat) -> Rect, cols: nat, i: nat, j: nat)
    requires j < cols
    ensures var k := |Grid(cell, cols, i)| + j;
            k < |Grid(cell, cols, i + 1)| && Grid(cell, cols, i + 1)[k] == Brick(k, cell(i, j))
  {
    var before := Grid(cell, cols, i);
    var row := Row(cell, i, cols, |before|);
    RowShape(cell, i, cols, |before|);
    assert Grid(cell, cols, i + 1) == before + row;
  }

  /** Brick `j` of row `i` follows the rows before it and is numbered with
      its index. */
  lemma GridAt(cell: (nat, nat) -> Rect, cols: nat, n: nat, i: nat, j: nat)
    requires i < n && j < cols
    ensures |Grid(cell, cols, i)| + j < |Grid(cell, cols, n)|
    ensures var k := |Grid(cell, cols, i)| + j;
            Grid(cell, cols, n)[k] == Brick(k, cell(i, j))
  {
    var upTo := Grid(cell, cols, i + 1);
    var g := Grid(cell, cols, n);
    var k := |Grid(cell, cols, i)| + j;
    LastRowAt(cell, cols, i, j);
    GridPrefix(cell, cols, i + 1, n);
    assert g[k] == upTo[k] by {
      assert g[..|upTo|] == upTo;
      assert g[k] == g[..|upTo|][k];
    }
  }

  /** The grid has `rows * cols` bricks in row-major order. */
  lemma GridShape(cell: (nat, nat) -> Rect, cols: nat, n: nat)
    ensures |Grid(cell, cols, n)| == n * cols
    ensures forall i, j :: 0 <= i < n && 0 <= j < cols ==>
              && Index(cols, i, j) < |Grid(cell, cols, n)|
              && Grid(cell, cols, n)[Index(cols, i, j)] == Brick(Index(cols, i, j), cell(i, j))
  {
    GridLength(cell, cols, n);
    forall i, j | 0 <= i < n && 0 <= j < cols
      ensures Index(cols, i, j) < |Grid(cell, cols, n)|
      ensures Grid(cell, cols, n)[Index(cols, i, j)] == Brick(Index(cols, i, j), cell(i, j))
    {
      GridLength(cell, cols, i);
      GridAt(cell, cols, n, i, j);
    }
  }

  /** Neighbouring bricks are one padding apart, the first column starts
      one padding from the left wall and the last column ends one padding
      from the right wall; likewise the rows within the top 0.33 of the height. */
  lemma GridSpacing(lay: BrickLayout, width: real, height: real, i: nat, j: nat)
    requires 0 < lay.cols && 0 < lay.rows
    ensures var cp := ColPadding(lay, width);
            GetX(BrickAt(lay, width, height, i, j + 1).entity)
              == GetX(BrickAt(lay, width, height, i, j).entity) + lay.brickWidth + cp
    ensures var rp := RowPadding(lay, height);
            GetY(BrickAt(lay, width, height, i + 1, j).entity)
              == GetY(BrickAt(lay, width, height, i, j).entity) + lay.brickHeight + rp
    ensures GetX(BrickAt(lay, width, height, i, 0).entity) == ColPadding(lay, width)
    ensures GetX(BrickAt(lay, width, height, i, lay.cols - 1).entity) + lay.brickWidth
              == width - ColPadding(lay, width)
    ensures GetY(BrickAt(lay, width, height, lay.rows - 1, j).entity) + lay.brickHeight
              == height * 0.33 - RowPadding(lay, height)
  {
    var cp := ColPadding(lay, width);
    var rp := RowPadding(lay, height);
    var n := lay.cols as real;
    var m := lay.rows as real;
    DivMul(width - n * lay.brickWidth, n + 1.0);
    DivMul(height * 0.33 - m * lay.brickHeight, m + 1.0);
    assert cp * (n + 1.0) == width - n * lay.brickWidth;
    assert rp * (m + 1.0) == height * 0.33 - m * lay.brickHeight;
    assert (lay.cols - 1) as real == n - 1.0;
    assert (lay.rows - 1) as real == m - 1.0;
  }

  /** The engine's own grid: 42 bricks whose columns leave 3 units at
      each side and between each other. */
  lemma EngineGrid()
    ensures Layout.rows * Layout.cols == 42
    ensures ColPadding(Layout, FieldWidth) == 3.0
  {
  }

  /** The entity list of a fresh round: the bricks in order, then the
      ball, then the paddle. */
  function Pieces(bricks: seq<Brick>): (r: seq<Piece>)
    ensures |r| == |bricks|
    ensures forall i :: 0 <= i < |bricks| ==> r[i] == BrickPiece(bricks[i].id)
  {
    if |bricks| == 0 then [] else Pieces(bricks[..|bricks| - 1]) + [BrickPiece(bricks[|bricks| - 1].id)]
  }

  /** `setGameState`, for the grid `lay` (the engine's is `Layout`): new
      bricks and a new ball (launched at the angle given by `c`, `s`), and
      an entity list holding the bricks, the ball and the paddle. */
  method SetGameState(w: World, lay: BrickLayout, c: real, s: real) returns (r: World)
    requires c * c + s * s == 1.0
    ensures r == w.(bricks := r.bricks, ball := r.ball, entities := r.entities)
    ensures r.bricks == Grid(Cells(lay, w.width, w.height), lay.cols, lay.rows)
    ensures r.ball == CreateBall(c, s)
    ensures r.entities == Pieces(r.bricks) + [BallPiece, PaddlePiece]
    ensures |r.entities| == lay.rows * lay.cols + 2
  {
    var bricks := CreateBricks(lay, w.width, w.height);
    r := w.(bricks := bricks, ball := CreateBall(c, s), entities := Pieces(bricks) + [BallPiece, PaddlePiece]);
  }
}
