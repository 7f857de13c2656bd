# Breakout engine core in Dafny

This project models the physics and input core of the Breakout game's
second-generation engine (`src/programming/breakout/engine`), plus the ball
of the early prototype (`src/programming/breakout/Ball.java`).

The core covers:

- the immutable 2-D vector;
- the entity, rectangle, ball and paddle objects, including the paddle's
  circular arc;
- the collision pipeline: wall, rectangle, ball-against-circle and paddle
  tests, each returning a minimum translation vector (MTV), the reflection
  applied as the collision response, and the wall → paddle → first-brick
  priority;
- the brick grid, paddle and ball set-up;
- the controller's mouse clamping and key handling;
- the prototype's border classification and reflection of directions
  measured in degrees.

Java `double`s are modelled as `real`. `Math.sqrt` becomes a parameter
`sqrt` with the property `IsSqrt` (a non-negative root on non-negative
reals). `cos`/`sin` of a rotation become a pair `c`, `s` with
`c*c + s*s == 1`.

Where the source scales a zero vector by a factor divided by that
vector's zero length, the factor is infinite and the components are zero
times infinity: NaN. That NaN is an explicit
outcome `NotANumber` of the "as written" (`...Raw`) functions. The
repaired functions used by the engine are the raw ones passed through
`Sanitize`: NaN and zero-length pushes become "no collision".

Each Java object is an immutable datatype value. The engine's fields and
the parts of `GameState` it touches are gathered in one `World` record,
and every step maps a `World` to the next.

Modules and files:

- `realfacts.dfy` (`RealFacts`): small facts about real arithmetic.
- `vector2d.dfy`: `Options` (the `Option` type standing for `null`) and
  `Vectors`.
- `shapes.dfy` (`Shapes`): entity, rectangle, ball and paddle.
- `collisions.dfy` (`Collisions`): the collision tests and the response.
- `engine.dfy` (`Engine`): bricks, collision handling, movement, set-up.
- `controller.dfy` (`Controller`): mouse and key handlers.
- `legacy_ball.dfy` (`LegacyBall`): the prototype's ball.

Four facts about the program shape the model:

- the field has no bottom wall;
- `isRunning` is meant to end a round only when the ball falls below
  110% of the field height, and running out of bricks does not end it;
  as written it reads the ball's never-written `getY` and never ends one
  (see "## Findings");
- nothing guards against a zero-length MTV;
- the paddle response is the same MTV reflection as for any other
  surface.

## Model

| member | source | states |
|---|---|---|
| Vectors.Add | src/programming/breakout/engine/Vector2D.java:63-65 | subtracting the second operand from the sum gives back the first |
| Vectors.Sub | src/programming/breakout/engine/Vector2D.java:74-76 | the component-wise difference; `AddSubInverse` proves that `add` undoes it |
| Vectors.Dot | src/programming/breakout/engine/Vector2D.java:81-83 | the scalar product; `DotSymmetric` and `DotLinear` state its algebra, and `Magnitude` ties it to the length |
| Vectors.Scale | src/programming/breakout/engine/Vector2D.java:95-97 | multiplication by a scalar; `ScaleOne`, `ScaleCompose` and `MagnitudeOfScale` state what it does |
| Vectors.AddSubInverse | src/programming/breakout/engine/Vector2D.java:63-76 | `sub` undoes `add` and `add` undoes `sub` |
| Vectors.DotSymmetric | src/programming/breakout/engine/Vector2D.java:81-83 | the dot product does not depend on the order of its operands |
| Vectors.DotLinear | src/programming/breakout/engine/Vector2D.java:81-83 | the dot product distributes over `add` and `sub` and commutes with `scale` in its first operand |
| Vectors.Magnitude | src/programming/breakout/engine/Vector2D.java:88-90 | the magnitude is non-negative, its square is `dot(v, v)`, and it is zero exactly for the zero vector |
| Vectors.ScaleOne | src/programming/breakout/engine/Vector2D.java:95-97 | scaling by 1 is the identity |
| Vectors.ScaleCompose | src/programming/breakout/engine/Vector2D.java:95-97 | scaling by `a` then by `b` is scaling by `a*b` |
| Vectors.MagnitudeOfScale | src/programming/breakout/engine/Vector2D.java:88-97 | scaling by `k` multiplies the magnitude by `abs(k)` |
| Vectors.Rotate | src/programming/breakout/engine/Vector2D.java:103-106 | a rotation by an angle with cosine `c` and sine `s` keeps `dot(v, v)` |
| Vectors.RotatePreservesMagnitude | src/programming/breakout/engine/Vector2D.java:103-110 | the assertion in `rotate` holds: the rotated vector has the same magnitude |
| Vectors.Equals | src/programming/breakout/engine/Vector2D.java:116-119 | `equals` holds exactly when the two vectors are the same value |
| Vectors.WrapInt32 | src/programming/breakout/engine/Vector2D.java:134-136 | Java `int` addition: the result is a 32-bit value congruent to the mathematical sum modulo 2^32 |
| Vectors.HashCode | src/programming/breakout/engine/Vector2D.java:134-136 | the hash is a 32-bit value congruent to the sum of the components' hashes |
| Vectors.EqualsImpliesEqualHash | src/programming/breakout/engine/Vector2D.java:116-136 | vectors that are `equals` have the same `hashCode` |
| Shapes.NewEntity | src/programming/breakout/engine/Entity.java:26-30 | a fresh entity has zero acceleration, velocity and position and is not visible |
| Shapes.SettersAreIndependent | src/programming/breakout/engine/Entity.java:42-100 | each setter is read back by its getter and leaves every other field, and `getX`/`getY` when it is not the position, unchanged |
| Shapes.SettersCommute | src/programming/breakout/engine/Entity.java:42-86 | setters of different fields commute and a second `setPosition` overrides the first |
| Shapes.NewRect | src/programming/breakout/engine/Rectangle.java:25-40 | the constructor stores the given position, width and height and keeps the entity defaults (zero velocity and acceleration) |
| Shapes.Bounds | src/programming/breakout/engine/Rectangle.java:74-76 | `getBounds` is the rectangle itself |
| Shapes.RectSettersAreIndependent | src/programming/breakout/engine/Rectangle.java:52-68 | `setWidth` changes only the width, `setHeight` only the height, and the two commute |
| Shapes.NewBall | src/programming/breakout/engine/Ball.java:30-33 | the constructor stores the given position and radius, seen alike by `getPosition` and `getX`/`getY` |
| Shapes.Center | src/programming/breakout/engine/Engine.java:254 | the centre lies one radius right of and below the upper-left corner |
| Shapes.BallAccessors | src/programming/breakout/engine/Ball.java:45-61 | `getPosition` returns the last position set, `setRadius` changes only the radius, and moving the ball moves its centre alike |
| Shapes.NewShadowedBall | src/programming/breakout/engine/Ball.java:27-33 | the constructor as written fills the ball's own position field and leaves the inherited entity at its defaults |
| Shapes.ShadowedCoordinatesStayZero | src/programming/breakout/engine/Ball.java:28-61 | whatever sequence of position, radius and velocity updates a ball goes through, `getX`/`getY` keep reading the origin |
| Shapes.ShadowedEntityPositionInvariant | src/programming/breakout/engine/Ball.java:52-61 | no update of the ball writes the inherited entity position |
| Shapes.NewPaddle | src/programming/breakout/engine/Paddle.java:14-16 | a paddle is a rectangle with the given position, width and height |
| Shapes.ArcRadius | src/programming/breakout/engine/Paddle.java:21-24 | the radius `R` satisfies `R * 2h == h^2 + w^2/4` (chord and sagitta) |
| Shapes.DivisorPositive | src/programming/breakout/engine/Paddle.java:21-24 | for positive height the arc radius is positive |
| Shapes.ArcCenter | src/programming/breakout/engine/Paddle.java:29-31 | the arc centre is `R` below the middle of the top edge |
| Shapes.ArcThroughCorners | src/programming/breakout/engine/Paddle.java:4-31 | both bottom corners and the middle of the top edge lie on the arc circle, so the paddle is the box cut by the circle |
| Shapes.CornerEquation | src/programming/breakout/engine/Paddle.java:21-24 | `(w/2)^2 + (h-R)^2 == R^2` |
| Shapes.RadiusAtLeastHalfWidth | src/programming/breakout/engine/Paddle.java:36-38 | the radius is never shorter than half the chord |
| Shapes.AsinArgumentInRange | src/programming/breakout/engine/Paddle.java:36-38 | the argument `getAngle` passes to `asin` lies in (0, 1] for every paddle of positive size |
| Collisions.Sanitize | src/programming/breakout/engine/Engine.java:141-145 | the repair in front of `collisionResponse`, which divides by the vector's length: a raw result counts as a collision exactly when it is a non-zero vector, and then it is that vector |
| Collisions.CopySign | src/programming/breakout/engine/Engine.java:287-292 | `Math.copySign`: the magnitude of the first operand with the sign of the second |
| Collisions.WallCollision | src/programming/breakout/engine/Engine.java:156-161 | for a ball that fits the field, `null` exactly when the ball is between the side walls and below the top; otherwise a non-zero vector, never pointing up, that puts the ball back in that region (no bottom wall) |
| Collisions.WallCollisionSettles | src/programming/breakout/engine/Engine.java:156-161 | after the wall push the wall test reports nothing |
| Collisions.ShadowedWallCollision | src/programming/breakout/engine/Engine.java:156-160 | as written, with `getX`/`getY` at the unwritten origin, the wall test never fires for a ball that fits the field |
| Collisions.ShadowedWallMissesEscapedBall | src/programming/breakout/engine/Engine.java:156-161 | a ball beyond the left wall is missed by the wall test as written and pushed back by the corrected one |
| Collisions.NormalizedIsUnit | src/programming/breakout/engine/Engine.java:145 | the MTV divided by its length is a unit vector, and scaling it back gives the MTV |
| Collisions.Mirror | src/programming/breakout/engine/Engine.java:146-148 | the mirrored velocity; `MirrorFacts` states its properties |
| Collisions.MirrorFacts | src/programming/breakout/engine/Engine.java:146-148 | the reflection in a unit normal keeps the length, negates the normal component, keeps the tangential one, and undoes itself |
| Collisions.CollisionResponse | src/programming/breakout/engine/Engine.java:141-150 | the ball moves by the MTV and keeps its radius; its speed is kept, its velocity component along the MTV is negated and the one across it is kept |
| Collisions.ResponseFacts | src/programming/breakout/engine/Engine.java:145-149 | the mirrored velocity keeps its length, negates its part along the MTV and keeps its part across it |
| Collisions.ResponseTwiceRestoresVelocity | src/programming/breakout/engine/Engine.java:141-150 | two responses to the same MTV restore the velocity |
| Collisions.RectFar | src/programming/breakout/engine/Engine.java:281-284 | a ball at least one radius beyond the half-extent on an axis is not a hit and does not overlap |
| Collisions.RectEdge | src/programming/breakout/engine/Engine.java:285-292 | within the rectangle's span on one axis the push is along the other axis only, points away from the centre, is non-zero, and leaves the ball touching the rectangle |
| Collisions.CornerHitOutcome | src/programming/breakout/engine/Engine.java:295-302 | in the corner case: no hit when the corner is at least a radius away, NaN when the centre is on the corner, otherwise a push |
| Collisions.CornerPushGeometry | src/programming/breakout/engine/Engine.java:297-299 | the corner push points away from the rectangle on both axes and leaves the centre exactly one radius from the corner |
| Collisions.RectCorner | src/programming/breakout/engine/Engine.java:293-303 | corner case: a hit exactly when the nearest corner is closer than the radius, NaN exactly on the corner, otherwise a push after which the ball touches the corner |
| Collisions.RectHitAt | src/programming/breakout/engine/Engine.java:280-303 | the body of `rectangleIsHit` as written, over the centre offset and the half-extents; `RectHitAtOverlap`, `RectHitAtNotANumber`, `RectHitAtPush` and `RectHitAtNonZero` state its outcomes |
| Collisions.RectHitAtOverlap | src/programming/breakout/engine/Engine.java:280-303 | the test reports something exactly when the ball reaches into the rectangle |
| Collisions.RectHitAtNotANumber | src/programming/breakout/engine/Engine.java:293-299 | the test gives NaN exactly when the centre is on a corner |
| Collisions.RectHitAtPush | src/programming/breakout/engine/Engine.java:285-299 | every push points away from the rectangle and leaves the ball touching it |
| Collisions.RectHitAtNonZero | src/programming/breakout/engine/Engine.java:280-303 | whatever the sizes, a push is non-zero |
| Collisions.RectHitRaw | src/programming/breakout/engine/Engine.java:272-304 | `rectangleIsHit` as written; `RectHitDetectsOverlap`, `RectPushTouches` and `RectHitNotANumber` state its outcomes |
| Collisions.RectHitDetectsOverlap | src/programming/breakout/engine/Engine.java:272-304 | `rectangleIsHit` reports an overlap exactly when the ball's centre is closer to the filled rectangle than its radius |
| Collisions.RectPushTouches | src/programming/breakout/engine/Engine.java:272-304 | every vector `rectangleIsHit` returns is non-zero, points away from the centre and leaves the ball exactly touching the rectangle |
| Collisions.RectHitNotANumber | src/programming/breakout/engine/Engine.java:293-299 | as written, `rectangleIsHit` yields NaN, the zero corner offset scaled by an infinite factor, exactly when the ball's centre lies on a corner |
| Collisions.DiagonalAt | src/programming/breakout/engine/Engine.java:293-299 | from a corner, the diagonal push leaves the ball exactly touching the rectangle |
| Collisions.DiagonalPushTouches | src/programming/breakout/engine/Engine.java:293-299 | the same, stated for a ball and a rectangle |
| Collisions.DiagonalNonZero | src/programming/breakout/engine/Engine.java:293-299 | the diagonal push is non-zero |
| Collisions.RectangleIsHit | src/programming/breakout/engine/Engine.java:272-304 | the repaired rectangle test never returns the zero vector |
| Collisions.RepairedAt | src/programming/breakout/engine/Engine.java:280-303 | the repaired test over plain values never returns the zero vector |
| Collisions.RectangleIsHitMisses | src/programming/breakout/engine/Engine.java:272-304 | the repaired rectangle test reports nothing exactly when the source's misses |
| Collisions.RectangleIsHitDetects | src/programming/breakout/engine/Engine.java:272-304 | the repaired test reports a vector exactly when the ball overlaps the rectangle |
| Collisions.RectangleIsHitTouches | src/programming/breakout/engine/Engine.java:272-304 | every vector of the repaired test, the diagonal one included, leaves the ball touching the rectangle |
| Collisions.PushOutGeometry | src/programming/breakout/engine/Engine.java:262-263 | pushing an offset outward by the overlap makes it exactly the sum of the radii long, in the same direction |
| Collisions.PushOutOutcome | src/programming/breakout/engine/Engine.java:261-265 | no hit without overlap, NaN for coincident centres, otherwise a push |
| Collisions.PushOutFacts | src/programming/breakout/engine/Engine.java:258-265 | the overlap test's push is non-zero and leaves the offset the sum of the radii long |
| Collisions.BallHitRaw | src/programming/breakout/engine/Engine.java:252-266 | `ballIsHit` reports an overlap exactly when the centres are less than the sum of the radii apart; NaN exactly for coincident centres; otherwise a push along the centre offset |
| Collisions.BallPushTouches | src/programming/breakout/engine/Engine.java:252-266 | after the push the two balls touch |
| Collisions.PushDirection | src/programming/breakout/engine/Engine.java:261-263 | the push is the centre offset scaled by a positive factor: it is non-zero, has the offset's direction, and is exactly as long as the overlap |
| Collisions.PushUnitVertical | src/programming/breakout/engine/Engine.java:223-224 | the vertical component of the push's unit vector, which the corner re-test reads, is that of the centre offset |
| Collisions.BallIsHit | src/programming/breakout/engine/Engine.java:252-266 | the repaired ball test reports a vector exactly when the balls overlap and their centres differ, and then it is the non-zero push of `ballIsHit` |
| Collisions.ArcBall | src/programming/breakout/engine/Engine.java:217-220 | the ball built from the paddle has the arc centre as its centre and the arc radius as its radius |
| Collisions.CornerOffsetFromCorner | src/programming/breakout/engine/Engine.java:226-232 | the corner offset is measured from the bottom corner on the ball's side of the paddle's middle |
| Collisions.CornerStepRaw | src/programming/breakout/engine/Engine.java:233-238 | the corner re-test as written: no collision beyond one radius, otherwise the corner offset scaled by `r/len - 1`; `CornerStepAgrees` relates it to the repair |
| Collisions.CornerStep | src/programming/breakout/engine/Engine.java:233-238 | the repaired corner re-test pushes exactly when the centre is strictly between zero and one radius from the corner, and then leaves it one radius away |
| Collisions.CornerStepAgrees | src/programming/breakout/engine/Engine.java:233-238 | it agrees with the source's re-test except where the source gives NaN, or the zero vector at exactly one radius |
| Collisions.CornerCirclePush | src/programming/breakout/engine/Engine.java:237 | the corner push is non-zero and leaves the centre one radius from the corner |
| Collisions.CornerRetestRaw | src/programming/breakout/engine/Engine.java:223-239 | the source's handling of an arc push: a push steep enough to land beside the paddle goes to the corner re-test, any other is kept; `CornerRetestAgrees` relates it to the repair |
| Collisions.CornerRetestAgrees | src/programming/breakout/engine/Engine.java:223-239 | the repaired treatment of an arc push agrees with the source's except at NaN or the zero vector |
| Collisions.ArcOrCornerPushTouches | src/programming/breakout/engine/Engine.java:216-241 | a push of the arc-or-corner test is non-zero and leaves the ball touching the arc circle or the nearer bottom corner |
| Collisions.ArcOrCornerRaw | src/programming/breakout/engine/Engine.java:216-241 | the arc and corner part of `getPaddleCollision` as written; `ArcOrCornerAgrees` relates it to the repair |
| Collisions.ArcOrCornerOnNoPush | src/programming/breakout/engine/Engine.java:216-222 | when the arc test misses or yields NaN, the source passes that on and the repair reports nothing |
| Collisions.ArcOrCornerOnPush | src/programming/breakout/engine/Engine.java:216-241 | when the arc test pushes, both versions go on to the corner re-test of that push |
| Collisions.ArcOrCornerAgrees | src/programming/breakout/engine/Engine.java:216-241 | the repaired arc-or-corner test agrees with the source's except at NaN or the zero vector |
| Collisions.PaddleCollision | src/programming/breakout/engine/Engine.java:214-246 | a reported vector is non-zero, the ball overlapped the bounding box, and the vector leaves the ball touching the arc circle or the nearer bottom corner |
| Collisions.PaddleHitRaw | src/programming/breakout/engine/Engine.java:214-246 | `getPaddleCollision` as written, with the ball's real position; `PaddleCollisionAgrees` relates it to the repair and `PaddleTangentCornerGivesZero` shows its zero vector |
| Collisions.PaddleOnBoxMiss | src/programming/breakout/engine/Engine.java:215-245 | a ball that misses the bounding box collides with the paddle in neither version |
| Collisions.PaddleOnBoxHit | src/programming/breakout/engine/Engine.java:215-241 | a ball that reaches the bounding box is decided by the arc and corner tests in both versions |
| Collisions.PaddleCollisionAgrees | src/programming/breakout/engine/Engine.java:214-246 | the repaired paddle test agrees with `getPaddleCollision` as written wherever that yields neither NaN nor the zero vector |
| Collisions.TangentCaseGivesZero | src/programming/breakout/engine/Engine.java:233-237 | a ball one radius from the corner of the 16 by 1.6 paddle passes the box and arc tests and gets the zero vector from the source, nothing from the repair |
| Collisions.PaddleTangentCornerGivesZero | src/programming/breakout/engine/Engine.java:233-237 | the concrete paddle and ball of that case |
| Collisions.ShadowedBallHit | src/programming/breakout/engine/Engine.java:252-266 | `ballIsHit` as the source runs it, reading both centres through `getX`/`getY`: with both entities at the origin, it reports an overlap exactly when the radii alone make the offset `(r1 - r2, r1 - r2)` shorter than their sum |
| Collisions.ShadowedArcTestMisses | src/programming/breakout/engine/Engine.java:216-222 | as written, the arc test of the engine's radius-1 ball against its 16 by 1.6 paddle misses wherever the two are |
| Engine.InField | src/programming/breakout/engine/Controller.java:206-212 | the rectangle lies inside the field; `MouseMoved` proves a paddle in the field stays in it |
| Engine.RemoveAt | src/programming/breakout/engine/Engine.java:204 | the list without the element at the index: the elements before it stay, the ones after move down by one |
| Engine.RemoveFirst | src/programming/breakout/engine/Engine.java:205 | removing an element present drops its first occurrence, and so exactly one copy of it; an absent one changes nothing |
| Engine.LowestBrickBottom | src/programming/breakout/engine/Engine.java:347-353 | the largest bottom edge of the bricks: none for no bricks, otherwise an upper bound attained by some brick |
| Engine.FirstHit | src/programming/breakout/engine/Engine.java:310-318 | the first brick in list order that the test reports, with its vector; none when no brick is reported |
| Engine.WhichBrick | src/programming/breakout/engine/Engine.java:310-318 | the loop returns the first brick the test reports |
| Engine.FirstHitIsUnique | src/programming/breakout/engine/Engine.java:310-318 | a reported brick with no reported brick before it is the one found |
| Engine.BrickCollision | src/programming/breakout/engine/Engine.java:197-209 | a vector exactly when the ball is within reach of the bricks and overlaps one; then one brick goes, otherwise nothing changes; only the brick and entity lists change |
| Engine.BrickCollisionRemovesFirstHit | src/programming/breakout/engine/Engine.java:197-209 | the brick removed, from both lists, is the first one overlapped, and the vector is that brick's |
| Engine.BrickCollisionOutOfReach | src/programming/breakout/engine/Engine.java:197-200 | nothing is removed while the ball is below every brick |
| Engine.HandleCollisions | src/programming/breakout/engine/Engine.java:130-139 | wall before paddle before bricks, at most one response; a brick goes only when neither wall nor paddle is hit; radius and speed kept; at most one brick removed |
| Engine.Advance | src/programming/breakout/engine/Engine.java:123-124 | the ball moves by its velocity times the time factor and keeps velocity and radius |
| Engine.MoveBall | src/programming/breakout/engine/Engine.java:122-128 | the ball is recorded as moved; only ball, bricks and entities change; radius and speed kept; at most one brick goes |
| Engine.MoveBallUnobstructed | src/programming/breakout/engine/Engine.java:122-128 | without any collision the ball lands at position plus velocity times time factor and nothing else changes |
| Engine.Tick | src/programming/breakout/engine/Engine.java:94-99 | a tick keeps the paddle, the pause flag and the time factor, the ball's radius and speed, and removes at most one brick |
| Engine.Ticks | src/programming/breakout/engine/Engine.java:94-107 | ticks never move the paddle |
| Engine.PausedTicksChangeNothing | src/programming/breakout/engine/Engine.java:94-99 | while paused any number of ticks leaves the world as it was |
| Engine.TicksKeepSpeed | src/programming/breakout/engine/Engine.java:94-99 | over `n` ticks the ball keeps its speed and radius and at most `n` bricks go |
| Engine.CreatePaddle | src/programming/breakout/engine/Engine.java:367-370 | the paddle is 16 by 1.6, centred horizontally, with one paddle height of room below it, and inside a field it fits in |
| Engine.CreateBall | src/programming/breakout/engine/Engine.java:375-379 | the ball is centred in the field with radius 1 and launched at the speed of `(0, 2)` |
| Engine.LaunchHeadsDown | src/programming/breakout/engine/Engine.java:377 | for an angle in [-pi/4, pi/4] the ball starts downwards, at most as fast sideways as downwards |
| Engine.IsRunning | src/programming/breakout/engine/Engine.java:427-429 | `isRunning` with the ball's position read where it is stored: the round goes on while the ball's top is above 110% of the field height; `RoundEndsBelowField` and `CreateBallIsRunning` state when it ends and that a new round runs |
| Engine.RoundEndsBelowField | src/programming/breakout/engine/Engine.java:427-429 | with the ball's position read where it is stored, moving its top to `y` ends the round exactly when `y` is at least 110% of the field height |
| Engine.ShadowedIsRunning | src/programming/breakout/engine/Engine.java:427-429 | `isRunning` as written, reading `getY` from the entity's own position |
| Engine.ShadowedRoundNeverEnds | src/programming/breakout/engine/Engine.java:427-429 | as written the round never ends: after any updates the ball's `getY` reads 0, below 110% of every positive field height |
| Engine.CreateBallIsRunning | src/programming/breakout/engine/Engine.java:427-429 | a new round is running |
| Engine.BrickAt | src/programming/breakout/engine/Engine.java:396-397 | every brick has the layout's width and height |
| Engine.CreateBricks | src/programming/breakout/engine/Engine.java:384-407 | `rows * cols` bricks in row-major order, brick `(i, j)` at index `i*cols + j` at its grid position |
| Engine.CreateRow | src/programming/breakout/engine/Engine.java:394-402 | the inner loop builds row `i` of the grid |
| Engine.RowShape | src/programming/breakout/engine/Engine.java:394-402 | a row of `n` has `n` bricks, brick `j` in column `j` |
| Engine.GridLength | src/programming/breakout/engine/Engine.java:393-405 | a grid of `n` rows has `n * cols` bricks |
| Engine.GridPrefix | src/programming/breakout/engine/Engine.java:393-405 | a grid of fewer rows is a prefix of one of more |
| Engine.LastRowAt | src/programming/breakout/engine/Engine.java:394-402 | brick `j` of the last row sits after the earlier rows |
| Engine.GridAt | src/programming/breakout/engine/Engine.java:393-405 | brick `(i, j)` sits at its row-major index, numbered by it |
| Engine.GridShape | src/programming/breakout/engine/Engine.java:393-405 | the grid has `rows * cols` bricks and brick `(i, j)` is at index `i*cols + j` |
| Engine.GridSpacing | src/programming/breakout/engine/Engine.java:386-404 | neighbouring bricks are one brick plus one gap apart; the first column starts one gap from the left, the last ends one gap from the right, the last row ends one gap above 0.33 of the field height |
| Engine.EngineGrid | src/programming/breakout/engine/Engine.java:48-51 | the engine's grid has 42 bricks and gaps of 3 units between its columns |
| Engine.Pieces | src/programming/breakout/engine/Engine.java:417 | one entity entry per brick, in brick order |
| Engine.SetGameState | src/programming/breakout/engine/Engine.java:412-422 | new grid, new ball, entity list of the bricks, the ball and the paddle; nothing else changes |
| Controller.Half | src/programming/breakout/engine/Controller.java:110-111 | Java's `int` halving, rounding toward zero |
| Controller.Displacement | src/programming/breakout/engine/Controller.java:114-115 | the displacement is the pixel offset over 500 times the field extent |
| Controller.Confine | src/programming/breakout/engine/Controller.java:119-122 | for an object that fits, the corrected position lies in the field and is the clamped target |
| Controller.ConfineKeepsFittingMoves | src/programming/breakout/engine/Controller.java:119-122 | a move that stays in the field is not corrected |
| Controller.MouseMoved | src/programming/breakout/engine/Controller.java:103-135 | nothing while paused or unfocused; on a free axis the paddle moves to its old coordinate plus the pointer's displacement, clamped to the field; other axes stay; the paddle is recorded as moved exactly when its position changes; a paddle in the field stays in it |
| Controller.CentredPointerMovesNothing | src/programming/breakout/engine/Controller.java:103-133 | a pointer at the component's middle changes nothing |
| Controller.KeyPressed | src/programming/breakout/engine/Controller.java:183-189 | Shift sets the time factor to 0.2, Control to 2, other keys change nothing |
| Controller.KeyReleased | src/programming/breakout/engine/Controller.java:195-200 | releasing Shift or Control restores the factor 1 |
| Controller.PressThenRelease | src/programming/breakout/engine/Controller.java:183-200 | pressing and releasing either key leaves the normal speed |
| Controller.KeyTyped | src/programming/breakout/engine/Controller.java:170-177 | Space, and only Space, flips the pause flag |
| Controller.SpaceTwiceIsIdentity | src/programming/breakout/engine/Controller.java:170-177 | typing the same character twice changes nothing |
| Controller.FocusLost | src/programming/breakout/engine/Controller.java:95-97 | losing the focus pauses and changes nothing else |
| Controller.FocusLostFreezes | src/programming/breakout/engine/Controller.java:95-106 | after losing the focus neither the mouse nor any number of ticks changes the world |
| LegacyBall.NewBall | src/programming/breakout/Ball.java:9-18 | the ball stores position and size, and its direction is not set |
| LegacyBall.NewBallOfSize | src/programming/breakout/Ball.java:21-23 | the simple constructor places the ball at the origin |
| LegacyBall.MoveInDirection | src/programming/breakout/Ball.java:29-32 | the direction is recorded and the ball moves by `step * (cos, -sin)`: `step` far, along the direction with y pointing down |
| LegacyBall.GetDirection | src/programming/breakout/Ball.java:35-38 | the direction, or nothing while it is the sentinel -0.123456 |
| LegacyBall.MoveThenGetDirection | src/programming/breakout/Ball.java:29-38 | after a step `getDirection` returns that step's direction |
| LegacyBall.ExceedingDirection | src/programming/breakout/Ball.java:81-108 | each side is reported exactly when its test holds and the tests before it (right, left, bottom, top, in that order) fail; "no intersection" exactly when the ball is strictly inside; right compares with the width alone |
| LegacyBall.NamesAreDistinct | src/programming/breakout/Ball.java:88-107 | the five strings are pairwise distinct |
| LegacyBall.RightTestUsesWidthAlone | src/programming/breakout/Ball.java:89 | for a frame away from the origin a ball inside it can be reported as exceeding it on the right |
| LegacyBall.ReflectIsInvolution | src/programming/breakout/Ball.java:114-124 | each reflection formula undoes itself |
| LegacyBall.NewDirection | src/programming/breakout/Ball.java:110-138 | nothing while unset; 180-d at the right or left, 360-d at the top, d otherwise (no bottom case) |
| LegacyBall.NewDirectionReflectsAtExceededBorder | src/programming/breakout/Ball.java:81-138 | in a field at the origin the new direction is the reflection at the border `getExceedingDirection` names |
| LegacyBall.NewDirectionTwice | src/programming/breakout/Ball.java:110-138 | reflecting twice at the same border restores the direction |

## Left out

- The run loop's timing is not modelled. This covers `Thread.sleep`, the one-second countdown before a round, the two-second pause after it, the elapsed-time computation (whose sign is inverted) and the `endTick` calls. The model keeps only the pause gate around `moveBall` (`Tick`, `Ticks`).
- `Math.random` in `createBall` is not modelled: the launch angle is a parameter, given as its cosine and sine.
- `sin`, `cos` and `asin` are not modelled; only the bound on the `asin` argument is stated.
- Floating-point rounding is not modelled. Exact-equality checks such as the assertion in `rotate` hold over reals and may fail on doubles.
- Vectors.Equals: reals have no signed zero and no NaN. In Java, `(0.0, y)` equals `(-0.0, y)` under `==`, and a vector with a NaN component is not equal to itself; the model has neither case.
- Vectors.EqualsImpliesEqualHash: holds only because reals have no signed zero. In Java, `(0.0, y)` and `(-0.0, y)` are `equals` but `Double.hashCode` differs on `0.0` and `-0.0`, so the source breaks the `equals`/`hashCode` contract there.
- Collisions.Sanitize: the source has no such step. It hands every non-null vector, NaN and zero included, to `collisionResponse`; the repaired tests go through `Sanitize` instead.
- `GameState.java` is not part of this model. It lacks `endTick`, `addMoved`, `remove`, `getTimeFactor` and `isGameOver`. The fields the engine and controller use are fields of `World`, and `addMoved`/`remove` become appends to and removals from sequences.
- Brick identity (Java object identity) is a brick `id`.
- `getLength` and `Ball.getCenter` are called by the engine but defined in no source file. They are read as `getMagnitude` and as position plus `(radius, radius)`.
- The engine's own `isPaused` flag is never set, so `isRunning` leaves it out.
- The controller's controlled object is the paddle. The free axes are parameters.
- `CollisionHandler.java` is not part of this model: it does not compile.
- `handleRectCollision` and `whichWall` are not modelled: they are never called.
- The view, both `Interface.java` files, `Breakout.java`, `Bricks.java` and the prototype's `Paddle.java` are not modelled: they are rendering and UI.
- The prototype ball's `intersects` and `intersectsBorder` are not modelled: they delegate to graphics-library code that is not visible.
- The controller's `Robot`, cursor, `alignMouse`, `requestFocusInWindow` and `mouseEntered` are not modelled. Neither is `toString`.
- `Main.java`, `DummyEngine.java` and `Pair.java` are left out. `Pair` becomes a tuple holding the brick's index.
- The prototype's `movePolar` is assumed to move by `(step*cos, -step*sin)`: y grows downwards.
- Java assertion failures (`getDirection` before the first step) are modelled as `None`.
- Overflow of `int` event coordinates in `mouseMoved` is not modelled.
- Collisions.BallIsHit: reports no collision for coincident centres, where the source returns NaN.
- Collisions.PaddleCollision: reports no collision for a ball centred exactly on a bottom corner or exactly one radius from it, where the source returns NaN or the zero vector.
- Collisions.RectangleIsHit: pushes a ball centred exactly on a corner out along the diagonal, where the source returns NaN.
- Collisions.CollisionResponse: requires a non-zero MTV. The source divides by the MTV's length, and the repaired tests never return the zero vector.
- Engine.IsRunning: reads the ball's stored position, where the source's `getY` reads a field the ball never writes; `ShadowedIsRunning` models the source as written.
- Engine.HandleCollisions: requires a paddle of positive height, as the arc radius divides by it.
- Engine.SetGameState: takes the brick layout as a parameter. `EngineGrid` states the engine's own 6 by 7 layout.
- Engine.CreateBall: takes the launch angle as its cosine and sine.

## Findings

| source | as written | input that shows it | evidently intended | confidence | as-written member | corrected member |
|---|---|---|---|---|---|---|
| src/programming/breakout/engine/Ball.java:28 | `Ball` declares its own `position`. The constructor and `setPosition` write it, but `getX`/`getY` read the inherited field, which stays at the origin. So `getWallCollision` never sees the ball. The same getters blind `ballIsHit` (lines 254 and 256) the brick test's reach check (line 198) and `isRunning` (line 428; see the last row). In `getPaddleCollision` the arc ball is a `Ball` too, so the arc test compares the centre (1, 1) with (20.8, 20.8), 28.0 apart, against the reach 21.8, and the paddle never collides (`ShadowedArcTestMisses`). | radius 1, position (-5, 10), field width 80: the ball is past the left wall and the wall test returns `null` | the wall test sees the ball's position and pushes it back by (5, 0) | high, not executed | Collisions.ShadowedWallMissesEscapedBall | Collisions.WallCollisionSettles |
| src/programming/breakout/engine/Engine.java:293-299 | the corner branch scales the corner offset by `-overlap / length`; when the ball's centre is exactly on a corner the offset is the zero vector and the factor is infinite, so both components are 0 times infinity, NaN | a brick at (0, 0) of 8 by 4 and a ball of radius 1 whose centre is (8, 4) | a non-zero push that separates the ball | medium, not executed | Collisions.RectHitNotANumber | Collisions.RectangleIsHitTouches |
| src/programming/breakout/engine/Engine.java:233-237 | the corner re-test treats a ball exactly one radius from the corner as colliding (`>` rather than `>=`) and returns the zero vector; `collisionResponse` then divides by its length (line 145). The input reaches line 237 only once the shadowed position of the first row is repaired: `PaddleHitRaw` reads the ball's real position. | the 16 by 1.6 paddle at (0, 0) and a ball of radius 1 centred at (16.6, 0.8) | no collision for a ball that only touches the corner | medium, not executed | Collisions.PaddleTangentCornerGivesZero | Collisions.PaddleCollisionAgrees |
| src/programming/breakout/engine/Engine.java:428 | `isRunning` reads `ball.getY()`, which reads the entity's own position; the engine's `Ball` never writes it, so it stays 0 and `0 < height*1.1` holds forever: the round never ends | field height 80 and a ball moved to (40, 100), below 88 | the round ends once the ball's top falls below 88 | high, not executed | Engine.ShadowedRoundNeverEnds | Engine.RoundEndsBelowField |
