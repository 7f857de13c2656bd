/** The input handling of engine/Controller.java: the mouse moves the
    controlled object (the paddle) within the field, Shift and Control set
    the time factor, Space pauses and resumes, and losing the focus
    pauses. Every handler maps a `World` to the next one. */
module Controller {
  import opened Vectors
  import opened Shapes
  import opened Collisions
  import opened Engine

  /** Pixels of mouse travel per field width (or height). */
  const MouseSensitivity: real := 500.0

  /** The AWT key codes `KeyEvent.VK_SHIFT` and `KeyEvent.VK_CONTROL`. */
  const VkShift: int := 16
  const VkControl: int := 17

  /** The time factors: slowed down, normal, sped up. */
  const SlowFactor: real := 0.2
  const NormalFactor: real := 1.0
  const FastFactor: real := 2.0

  /** The component the mouse moves over: its size in pixels and whether
      it has the keyboard focus. */
  datatype Component = Component(width: int, height: int, hasFocus: bool)

  /** The pointer position of a mouse event, in pixels. */
  datatype MouseEvent = MouseEvent(x: int, y: int)

  /** Java's `int` division by 2, which rounds toward zero (Dafny's `/`
      rounds down). */
  function Half(a: int): (q: int)
    ensures 0 <= a ==> 0 <= a - 2 * q <= 1
    ensures a < 0 ==> -1 <= a - 2 * q <= 0
  {
    if a >= 0 then a / 2 else -((-a) / 2)
  }

  /** The displacement in field units for `moved` pixels along an axis of
      extent `extent`: `moved / 500 * extent`. */
  function Displacement(moved: int, extent: real): (d: real)
    ensures d * MouseSensitivity == moved as real * extent
  {
    moved as real / MouseSensitivity * extent
  }

  /** The correction of `mouseMoved` along one axis: the displacement `d`
      of an object at `pos` of size `size` is cut back so that the object
      stays between 0 and `limit`. */
  function Confine(pos: real, size: real, d: real, limit: real): (c: real)
    ensures size <= limit ==> 0.0 <= pos + c && pos + c + size <= limit
    ensures size <= limit ==> pos + c == Max(0.0, Min(pos + d, limit - size))
  {
    d + Max(0.0, -(pos + d)) - Max(0.0, pos + size + d - limit)
  }

  /** A displacement that keeps the object in the field is left alone. */
  lemma ConfineKeepsFittingMoves(pos: real, size: real, d: real, limit: real)
    requires 0.0 <= pos + d && pos + d + size <= limit
    ensures Confine(pos, size, d, limit) == d
  {
  }

  /** `mouseMoved` with the controlled object the paddle: nothing happens
      while paused or without the focus; otherwise the pointer's offset
      from the component's middle becomes a displacement, confined to the
      field, applied on the free axes only, and the paddle is recorded as
      moved exactly when its position changes. */
  function MouseMoved(w: World, freeX: bool, freeY: bool, comp: Component, ev: MouseEvent): (r: World)
    ensures w.paused || !comp.hasFocus ==> r == w
    ensures r == w.(paddle := r.paddle, moved := r.moved)
    ensures r.paddle == w.paddle.(entity := SetPosition(w.paddle.entity, Position(r.paddle)))
    ensures !freeX ==> GetX(r.paddle.entity) == GetX(w.paddle.entity)
    ensures !freeY ==> GetY(r.paddle.entity) == GetY(w.paddle.entity)
    ensures r.moved == (if Position(r.paddle) == Position(w.paddle) then w.moved else w.moved + [PaddlePiece])
    ensures freeX && w.paddle.width <= w.width && !w.paused && comp.hasFocus ==>
              0.0 <= GetX(r.paddle.entity) && GetX(r.paddle.entity) + r.paddle.width <= w.width
    ensures freeY && w.paddle.height <= w.height && !w.paused && comp.hasFocus ==>
              0.0 <= GetY(r.paddle.entity) && GetY(r.paddle.entity) + r.paddle.height <= w.height
    ensures InField(w.paddle, w.width, w.height) ==> InField(r.paddle, w.width, w.height)
    ensures freeX && !w.paused && comp.hasFocus && w.paddle.width <= w.width ==>
              GetX(r.paddle.entity)
                == Max(0.0, Min(GetX(w.paddle.entity) + Displacement(ev.x - Half(comp.width), w.width),
                                w.width - w.paddle.width))
    ensures freeY && !w.paused && comp.hasFocus && w.paddle.height <= w.height ==>
              GetY(r.paddle.entity)
                == Max(0.0, Min(GetY(w.paddle.entity) + Displacement(ev.y - Half(comp.height), w.height),
                                w.height - w.paddle.height))
  {
    if w.paused || !comp.hasFocus then
      w
    else
      var dx := Displacement(ev.x - Half(comp.width), w.width);
      var dy := Displacement(ev.y - Half(comp.height), w.height);
      var bounds := Bounds(w.paddle);
      var cx := Confine(GetX(bounds.entity), bounds.width, dx, w.width);
      var cy := Confine(GetY(bounds.entity), bounds.height, dy, w.height);
      var newPosition := Vec(GetX(w.paddle.entity) + (if freeX then cx else 0.0),
                             GetY(w.paddle.entity) + (if freeY then cy else 0.0));
      if !Equals(Position(w.paddle), newPosition) then
        w.(paddle := w.paddle.(entity := SetPosition(w.paddle.entity, newPosition)),
           moved := w.moved + [PaddlePiece])
      else
        w
  }

  /** A pointer resting at the component's middle moves nothing and
      records nothing. */
  lemma CentredPointerMovesNothing(w: World, freeX: bool, freeY: bool, comp: Component)
    requires InField(w.paddle, w.width, w.height)
    requires 0 <= comp.width && 0 <= comp.height
    ensures MouseMoved(w, freeX, freeY, comp, MouseEvent(Half(comp.width), Half(comp.height))) == w
  {
    var ev := MouseEvent(Half(comp.width), Half(comp.height));
    if !w.paused && comp.hasFocus {
      var b := Bounds(w.paddle);
      ConfineKeepsFittingMoves(GetX(b.entity), b.width, 0.0, w.width);
      ConfineKeepsFittingMoves(GetY(b.entity), b.height, 0.0, w.height);
      assert Displacement(ev.x - Half(comp.width), w.width) == 0.0;
      assert Displacement(ev.y - Half(comp.height), w.height) == 0.0;
    }
  }

  /** `keyPressed`: Shift slows the game down, Control speeds it up; any
      other key changes nothing. */
  function KeyPressed(w: World, code: int): (r: World)
    ensures r == w.(timeFactor := r.timeFactor)
    ensures code == VkShift ==> r.timeFactor == SlowFactor
    ensures code == VkControl ==> r.timeFactor == FastFactor
    ensures code != VkShift && code != VkControl ==> r == w
  {
    if code == VkShift then w.(timeFactor := SlowFactor)
    else if code == VkControl then w.(timeFactor := FastFactor)
    else w
  }

  /** `keyReleased`: releasing Shift or Control restores the normal speed. */
  function KeyReleased(w: World, code: int): (r: World)
    ensures r == w.(timeFactor := r.timeFactor)
    ensures code == VkShift || code == VkControl ==> r.timeFactor == NormalFactor
    ensures code != VkShift && code != VkControl ==> r == w
  {
    if code == VkShift || code == VkControl then w.(timeFactor := NormalFactor) else w
  }

  /** Pressing and releasing Shift or Control, in any order of the two
      keys, leaves the game at normal speed. */
  lemma PressThenRelease(w: World, pressed: int, released: int)
    requires pressed == VkShift || pressed == VkControl
    requires released == VkShift || released == VkControl
    ensures KeyReleased(KeyPressed(w, pressed), released) == w.(timeFactor := NormalFactor)
  {
  }

  /** `keyTyped`: Space toggles the pause flag; other characters change
      nothing. */
  function KeyTyped(w: World, ch: char): (r: World)
    ensures r == w.(paused := r.paused)
    ensures ch == ' ' <==> r.paused != w.paused
  {
    if ch == ' ' then w.(paused := !w.paused) else w
  }

  /** Typing Space twice changes nothing. */
  lemma SpaceTwiceIsIdentity(w: World, ch: char)
    ensures KeyTyped(KeyTyped(w, ch), ch) == w
  {
  }

  /** `focusLost`: the game pauses, whatever it was doing. */
  function FocusLost(w: World): (r: World)
    ensures r.paused
    ensures r == w.(paused := r.paused)
  {
    w.(paused := true)
  }

  /** Once the focus is lost, neither the mouse nor any number of engine
      ticks changes the world until the game is resumed. */
  lemma {:induction false} FocusLostFreezes(sqrt: real -> real, w: World, n: nat, freeX: bool, freeY: bool,
                                            comp: Component, ev: MouseEvent)
    requires IsSqrt(sqrt) && w.paddle.height > 0.0
    ensures var f := FocusLost(w);
            && MouseMoved(f, freeX, freeY, comp, ev) == f
            && Ticks(sqrt, f, n) == f
  {
    PausedTicksChangeNothing(sqrt, FocusLost(w), n);
  }
}
