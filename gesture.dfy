/**
 * The camera-interaction state of `Engine` (js/engine.js; engine.js holds an identical copy)
 * as a value, and one transition function per event handler. The class `Engines.Engine`
 * performs these transitions in place; the functions here say what each one must produce.
 */
module Gesture {
  import opened Wrappers
  import opened JsMath
  import opened TrigOps

  type Point = p: seq<real> | |p| == 2 witness [0.0, 0.0]
  type Vec3 = v: seq<real> | |v| == 3 witness [0.0, 0.0, 0.0]

  /** `movementType` when it is not null: the strings "rotate" and "pan". */
  datatype Movement = Rotate | Pan

  /** The numbers a pointer event carries: `e.clientX`, `e.clientY`. */
  datatype Pointer = Pointer(clientX: real, clientY: real)

  /**
   * What `getRelativeMousePosition` reads besides the event: the canvas's bounding rectangle,
   * its drawing-buffer size and `window.devicePixelRatio`.
   */
  datatype Viewport = Viewport(left: real, right: real, top: real, bottom: real,
                               width: real, height: real, dpr: real)
  {
    /** No division in the pointer mapping is by zero. */
    predicate MapsPointer() {
      right != left && bottom != top && dpr != 0.0
    }

    /** Nor is any division in the move's scale factors. */
    predicate NonDegenerate() {
      MapsPointer() && width != 0.0 && height != 0.0
    }
  }

  datatype State = State(
    fieldOfViewRadians: real,
    rotation: Vec3,
    translation: Vec3,
    lastPos: Option<Point>,
    moving: bool,
    movementType: Option<Movement>,
    panKeyHold: bool)

  /** The field initialisers of `Engine`. */
  function Initial(): State {
    State(DegToRad(60.0), [DegToRad(30.0), DegToRad(-20.0), DegToRad(0.0)], [0.0, 0.0, -1000.0],
          None, false, None, false)
  }

  /** The zoom limits of the wheel handler, in degrees. */
  const MinZoom: real := 30.0
  const MaxZoom: real := 120.0

  predicate FovInRange(fov: real) {
    DegToRad(MinZoom) <= fov <= DegToRad(MaxZoom)
  }

  /**
   * The invariant every handler keeps: a gesture is in progress exactly when a last position
   * is recorded; panning only happens while Alt is held, and holding Alt excludes rotating;
   * the field of view stays within the zoom limits.
   */
  predicate Consistent(s: State) {
    && (s.moving <==> s.lastPos.Some?)
    && (s.movementType == Some(Pan) ==> s.panKeyHold)
    && (s.panKeyHold ==> s.movementType != Some(Rotate))
    && FovInRange(s.fieldOfViewRadians)
  }

  // ---------------------------------------------------------------- pointer arithmetic

  /**
   * `getRelativeMousePosition(e)`: the pointer in canvas pixels relative to the canvas centre,
   * divided by the device pixel ratio. Each coordinate is proportional to the pointer's
   * offset from the middle of the rectangle.
   */
  function RelativeMousePosition(p: Pointer, vp: Viewport): (r: Point)
    requires vp.MapsPointer()
    ensures r[0] * vp.dpr * (vp.right - vp.left) == vp.width * (p.clientX - (vp.left + vp.right) / 2.0)
    ensures r[1] * vp.dpr * (vp.bottom - vp.top) == vp.height * (p.clientY - (vp.top + vp.bottom) / 2.0)
  {
    [Axis(p.clientX, vp.left, vp.right, vp.width, vp.dpr), Axis(p.clientY, vp.top, vp.bottom, vp.height, vp.dpr)]
  }

  /** One coordinate: c scaled from [lo, hi] to [0, size], recentred and divided by the ratio. */
  function Axis(c: real, lo: real, hi: real, size: real, dpr: real): (r: real)
    requires hi != lo && dpr != 0.0
    ensures r * dpr * (hi - lo) == size * (c - (lo + hi) / 2.0)
  {
    var x := ((c - lo) / (hi - lo)) * size;
    assert x * (hi - lo) == size * (c - lo);
    assert ((x - size / 2.0) / dpr) * dpr == x - size / 2.0;
    (x - size / 2.0) / dpr
  }

  /**
   * The left edge maps to -width / (2 dpr), the right edge to +width / (2 dpr) and the
   * midpoint to 0 (likewise top, bottom and middle vertically).
   */
  lemma PointerMapping(vp: Viewport, clientY: real)
    requires vp.MapsPointer()
    ensures RelativeMousePosition(Pointer(vp.left, clientY), vp)[0] * (2.0 * vp.dpr) == -vp.width
    ensures RelativeMousePosition(Pointer(vp.right, clientY), vp)[0] * (2.0 * vp.dpr) == vp.width
    ensures RelativeMousePosition(Pointer((vp.left + vp.right) / 2.0, clientY), vp)[0] == 0.0
    ensures RelativeMousePosition(Pointer(vp.left, vp.top), vp)[1] * (2.0 * vp.dpr) == -vp.height
    ensures RelativeMousePosition(Pointer(vp.left, vp.bottom), vp)[1] * (2.0 * vp.dpr) == vp.height
    ensures RelativeMousePosition(Pointer(vp.left, (vp.top + vp.bottom) / 2.0), vp)[1] == 0.0
  {
    EdgeMapping(vp.left, vp.right, vp.width, vp.dpr);
    EdgeMapping(vp.top, vp.bottom, vp.height, vp.dpr);
  }

  /** One axis of the pointer mapping: low edge, high edge and midpoint of [lo, hi]. */
  lemma EdgeMapping(lo: real, hi: real, w: real, dpr: real)
    requires hi != lo && dpr != 0.0
    ensures Axis(lo, lo, hi, w, dpr) * (2.0 * dpr) == -w
    ensures Axis(hi, lo, hi, w, dpr) * (2.0 * dpr) == w
    ensures Axis((lo + hi) / 2.0, lo, hi, w, dpr) == 0.0
  {
    var d := hi - lo;
    assert (lo + hi) / 2.0 - lo == d / 2.0;
    assert (d / 2.0) / d == 0.5;
    assert d / d == 1.0;
    assert (-w / 2.0) / dpr * (2.0 * dpr) == -w;
    assert (w - w / 2.0) / dpr * (2.0 * dpr) == w;
  }

  /**
   * The local `sub(a, ...args)`: a copy of a with each argument subtracted from its first two
   * entries, so those entries lose the column totals of the arguments and the rest is kept.
   */
  function SubAll(a: seq<real>, args: seq<seq<real>>): (n: seq<real>)
    requires |a| >= 2 && forall k | 0 <= k < |args| :: |args[k]| >= 2
    ensures n == a[0 := a[0] - ColumnTotal(args, 0)][1 := a[1] - ColumnTotal(args, 1)]
  {
    if |args| == 0 then a
    else
      var n := SubAll(a, args[..|args| - 1]);
      var p := args[|args| - 1];
      n[0 := n[0] - p[0]][1 := n[1] - p[1]]
  }

  /** Entry c of every argument, summed. */
  function ColumnTotal(args: seq<seq<real>>, c: nat): real
    requires forall k | 0 <= k < |args| :: |args[k]| > c
  {
    if |args| == 0 then 0.0 else ColumnTotal(args[..|args| - 1], c) + args[|args| - 1][c]
  }

  /** An argument of the local `mult(a, s)`: an array or a plain number. */
  datatype Operand = Vec(v: seq<real>) | Num(x: real)

  /**
   * `mult(a, s)`: when s is an array the two are swapped first; then two arrays multiply
   * entrywise and an array times a number scales. Two numbers index a number, which gives
   * NaN, as does an array shorter than 2: None.
   */
  function Mult(a: Operand, s: Operand): (r: Option<Point>)
    ensures (a.Vec? || s.Vec?) && (a.Vec? ==> |a.v| >= 2) && (s.Vec? ==> |s.v| >= 2) <==> r.Some?
  {
    if s.Vec? && a.Vec? then
      (if |s.v| < 2 || |a.v| < 2 then None else Some([s.v[0] * a.v[0], s.v[1] * a.v[1]]))
    else if s.Vec? then
      (if |s.v| < 2 then None else Some([s.v[0] * a.x, s.v[1] * a.x]))
    else if a.Vec? then
      (if |a.v| < 2 then None else Some([a.v[0] * s.x, a.v[1] * s.x]))
    else None
  }

  /** Thanks to the swap, `mult` does not depend on the order of its arguments. */
  lemma MultCommutes(a: Operand, s: Operand)
    ensures Mult(a, s) == Mult(s, a)
  {
    if a.Vec? && s.Vec? && |a.v| >= 2 && |s.v| >= 2 {
      var r, r' := Mult(a, s), Mult(s, a);
      assert |r.value| == 2 && |r'.value| == 2;
      assert r.value[0] == r'.value[0] && r.value[1] == r'.value[1];
      assert r.value == r'.value;
    }
  }

  /** Two points multiply entrywise. */
  lemma MultPoints(a: Point, s: Point)
    ensures Mult(Vec(a), Vec(s)) == Some([a[0] * s[0], a[1] * s[1]])
  {
    var r := Mult(Vec(a), Vec(s));
    assert r.Some?;
    assert |r.value| == 2 && r.value[0] == a[0] * s[0] && r.value[1] == a[1] * s[1];
  }

  // ---------------------------------------------------------------- handlers

  /** The wheel handler: zoom in degrees moved by -0.1 per unit of deltaY, clamped to [30, 120]. */
  function Wheel(s: State, deltaY: real): (r: State)
    ensures FovInRange(r.fieldOfViewRadians)
    ensures r == s.(fieldOfViewRadians := r.fieldOfViewRadians)
  {
    var zoom := RadToDeg(s.fieldOfViewRadians) + deltaY * -0.1;
    var zoom' := Min(Max(MinZoom, zoom), MaxZoom);
    DegToRadMonotone(MinZoom, zoom');
    DegToRadMonotone(zoom', MaxZoom);
    s.(fieldOfViewRadians := DegToRad(zoom'))
  }

  /** `startRotateOrPanCamera(e)`: record the pointer and begin a gesture; nothing else changes. */
  function Start(s: State, p: Pointer, vp: Viewport): (r: State)
    requires vp.MapsPointer()
    ensures r.moving && r.lastPos == Some(RelativeMousePosition(p, vp))
    ensures r.movementType == s.movementType && r.panKeyHold == s.panKeyHold
    ensures r.rotation == s.rotation && r.translation == s.translation
    ensures r.fieldOfViewRadians == s.fieldOfViewRadians
  {
    s.(lastPos := Some(RelativeMousePosition(p, vp)), moving := true)
  }

  /** `stopRotateOrPanCamera()`: end the gesture and forget the mode; nothing else changes. */
  function Stop(s: State): (r: State)
    ensures !r.moving && r.lastPos == None && r.movementType == None
    ensures r.panKeyHold == s.panKeyHold && r.rotation == s.rotation
    ensures r.translation == s.translation && r.fieldOfViewRadians == s.fieldOfViewRadians
  {
    s.(moving := false, movementType := None, lastPos := None)
  }

  /** The mousedown handler: pan while Alt is held, else keep the mode or pick rotate; then start. */
  function MouseDown(s: State, p: Pointer, vp: Viewport): (r: State)
    requires vp.MapsPointer()
    ensures r.moving && r.lastPos == Some(RelativeMousePosition(p, vp)) && r.movementType.Some?
    ensures r.panKeyHold == s.panKeyHold && r.rotation == s.rotation
    ensures r.translation == s.translation && r.fieldOfViewRadians == s.fieldOfViewRadians
  {
    var s1 := if s.panKeyHold then s.(movementType := Some(Pan)) else s;
    var s2 := if s1.movementType == None then s1.(movementType := Some(Rotate)) else s1;
    Start(s2, p, vp)
  }

  /**
   * The keydown handler: the first Alt press switches to pan. Afterwards Alt counts as held;
   * the gesture, the camera and the field of view are untouched.
   */
  function KeyDown(s: State, key: string): (r: State)
    ensures key == "Alt" ==> r.panKeyHold && r.movementType == (if s.panKeyHold then s.movementType else Some(Pan))
    ensures r.moving == s.moving && r.lastPos == s.lastPos
    ensures r.rotation == s.rotation && r.translation == s.translation
    ensures r.fieldOfViewRadians == s.fieldOfViewRadians
  {
    if key == "Alt" && !s.panKeyHold then s.(panKeyHold := true, movementType := Some(Pan)) else s
  }

  /**
   * The keyup handler: releasing a held Alt switches to rotate, gesture or not. Afterwards
   * Alt no longer counts as held; the gesture, the camera and the field of view are untouched.
   */
  function KeyUp(s: State, key: string): (r: State)
    ensures key == "Alt" ==> !r.panKeyHold && r.movementType == (if s.panKeyHold then Some(Rotate) else s.movementType)
    ensures r.moving == s.moving && r.lastPos == s.lastPos
    ensures r.rotation == s.rotation && r.translation == s.translation
    ensures r.fieldOfViewRadians == s.fieldOfViewRadians
  {
    if key == "Alt" && s.panKeyHold then s.(panKeyHold := false, movementType := Some(Rotate)) else s
  }

  /** The scale factors `[4 / width, 4 / height]` of a move. */
  function Size(vp: Viewport): Point
    requires vp.width != 0.0 && vp.height != 0.0
  {
    [4.0 / vp.width, 4.0 / vp.height]
  }

  /** `delta = mult(sub(lastPos, pos), size)`. */
  function Delta(last: Point, pos: Point, vp: Viewport): (d: Point)
    requires vp.NonDegenerate()
    ensures d[0] == 4.0 / vp.width * (last[0] - pos[0]) && d[1] == 4.0 / vp.height * (last[1] - pos[1])
  {
    var diff := SubAll(last, [pos]);
    assert ColumnTotal([pos], 0) == pos[0] && ColumnTotal([pos], 1) == pos[1];
    MultPoints(diff, Size(vp));
    Mult(Vec(diff), Vec(Size(vp))).value
  }

  /**
   * `rotateOrPanCamera(e)`: while a gesture is in progress, move the last position to the
   * pointer and apply the delta to the rotation or the translation, as the mode says.
   * The source reads `lastPos` while moving; without one it would throw.
   */
  function RotateOrPan(s: State, p: Pointer, vp: Viewport): (r: State)
    requires s.moving ==> s.lastPos.Some? && vp.NonDegenerate()
    ensures s.moving ==> r.lastPos == Some(RelativeMousePosition(p, vp))
    ensures !s.moving ==> r.lastPos == s.lastPos
    ensures r.moving == s.moving && r.movementType == s.movementType && r.panKeyHold == s.panKeyHold
    ensures r.fieldOfViewRadians == s.fieldOfViewRadians
    ensures r.rotation[2] == s.rotation[2] && r.translation[2] == s.translation[2]
    ensures s.movementType != Some(Rotate) ==> r.rotation == s.rotation
    ensures s.movementType != Some(Pan) ==> r.translation == s.translation
  {
    if !s.moving then s
    else
      var pos := RelativeMousePosition(p, vp);
      var delta := Delta(s.lastPos.value, pos, vp);
      var s1 := s.(lastPos := Some(pos));
      match s.movementType
      case Some(Rotate) =>
        s1.(rotation := s.rotation[0 := s.rotation[0] + delta[1] * 5.0][1 := s.rotation[1] + delta[0] * 5.0])
      case Some(Pan) =>
        s1.(translation := s.translation[0 := s.translation[0] + delta[0] * -500.0][1 := s.translation[1] + delta[1] * 500.0])
      case None => s1
  }

  /** The listeners a user can trigger, with the numbers their handlers read. */
  datatype Event =
    | WheelEvent(deltaY: real)
    | MouseDownEvent(p: Pointer, vp: Viewport)
    | KeyDownEvent(key: string)
    | MouseUpEvent
    | KeyUpEvent(key: string)
    | MouseMoveEvent(p: Pointer, vp: Viewport)
    | TouchStartEvent(touch: Pointer, vp: Viewport)
    | TouchEndEvent
    | TouchMoveEvent(touch: Pointer, vp: Viewport)
  {
    predicate WellFormed() {
      match this
      case MouseDownEvent(_, vp) => vp.MapsPointer()
      case MouseMoveEvent(_, vp) => vp.NonDegenerate()
      case TouchStartEvent(_, vp) => vp.MapsPointer()
      case TouchMoveEvent(_, vp) => vp.NonDegenerate()
      case _ => true
    }
  }

  /** The handler each listener runs; touchend passes a touch that `stop` ignores. */
  function Step(s: State, e: Event): (r: State)
    requires e.WellFormed() && (s.moving ==> s.lastPos.Some?)
    ensures r.moving ==> r.lastPos.Some?
  {
    match e
    case WheelEvent(deltaY) => Wheel(s, deltaY)
    case MouseDownEvent(p, vp) => MouseDown(s, p, vp)
    case KeyDownEvent(key) => KeyDown(s, key)
    case MouseUpEvent => Stop(s)
    case KeyUpEvent(key) => KeyUp(s, key)
    case MouseMoveEvent(p, vp) => RotateOrPan(s, p, vp)
    case TouchStartEvent(t, vp) => Start(s, t, vp)
    case TouchEndEvent => Stop(s)
    case TouchMoveEvent(t, vp) => RotateOrPan(s, t, vp)
  }

  /** A sequence of events handled in order. */
  function Run(s: State, es: seq<Event>): (r: State)
    requires forall k | 0 <= k < |es| :: es[k].WellFormed()
    requires s.moving ==> s.lastPos.Some?
    ensures r.moving ==> r.lastPos.Some?
    decreases |es|
  {
    if |es| == 0 then s else Run(Step(s, es[0]), es[1..])
  }

  // ---------------------------------------------------------------- properties

  /** The initial state is consistent. */
  lemma InitialConsistent()
    ensures Consistent(Initial())
  {
    DegToRadMonotone(MinZoom, 60.0);
    DegToRadMonotone(60.0, MaxZoom);
  }

  /**
   * After any wheel event the field of view is `degToRad(z)` for a zoom z in [30, 120],
   * whatever deltaY is, and nothing else changes.
   */
  lemma WheelClamps(s: State, deltaY: real)
    ensures var z := RadToDeg(Wheel(s, deltaY).fieldOfViewRadians);
      MinZoom <= z <= MaxZoom && Wheel(s, deltaY).fieldOfViewRadians == DegToRad(z)
    ensures FovInRange(Wheel(s, deltaY).fieldOfViewRadians)
    ensures Wheel(s, deltaY) == s.(fieldOfViewRadians := Wheel(s, deltaY).fieldOfViewRadians)
  {
    var zoom := Min(Max(MinZoom, RadToDeg(s.fieldOfViewRadians) + deltaY * -0.1), MaxZoom);
    RadToDegOfDegToRad(zoom);
    DegToRadMonotone(MinZoom, zoom);
    DegToRadMonotone(zoom, MaxZoom);
  }

  /**
   * The new zoom in degrees is the old one less 0.1 per unit of deltaY when that stays within
   * the limits, and the limit it would cross otherwise.
   */
  lemma WheelZoom(s: State, deltaY: real)
    ensures var z := RadToDeg(s.fieldOfViewRadians) - 0.1 * deltaY;
      var w := RadToDeg(Wheel(s, deltaY).fieldOfViewRadians);
      && (MinZoom <= z <= MaxZoom ==> w == z)
      && (z < MinZoom ==> w == MinZoom)
      && (MaxZoom < z ==> w == MaxZoom)
  {
    var zoom := Min(Max(MinZoom, RadToDeg(s.fieldOfViewRadians) + deltaY * -0.1), MaxZoom);
    RadToDegOfDegToRad(zoom);
  }

  /** Scrolling further down never widens the view more than scrolling less. */
  lemma WheelMonotone(s: State, d1: real, d2: real)
    requires d1 <= d2
    ensures Wheel(s, d2).fieldOfViewRadians <= Wheel(s, d1).fieldOfViewRadians
  {
    var z1 := Min(Max(MinZoom, RadToDeg(s.fieldOfViewRadians) + d1 * -0.1), MaxZoom);
    var z2 := Min(Max(MinZoom, RadToDeg(s.fieldOfViewRadians) + d2 * -0.1), MaxZoom);
    DegToRadMonotone(z2, z1);
  }

  /** A wheel event with deltaY 0 leaves a field of view within the limits as it is. */
  lemma WheelStill(s: State)
    requires FovInRange(s.fieldOfViewRadians)
    ensures Wheel(s, 0.0) == s
  {
    var z := RadToDeg(s.fieldOfViewRadians);
    DegToRadOfRadToDeg(s.fieldOfViewRadians);
    DegToRadMonotone(MinZoom, z);
    DegToRadMonotone(z, MaxZoom);
  }

  /**
   * After mousedown a mode is set: pan while Alt is held, otherwise the previous mode if
   * there was one, else rotate; and a gesture is in progress.
   */
  lemma MouseDownMode(s: State, p: Pointer, vp: Viewport)
    requires vp.MapsPointer()
    ensures var r := MouseDown(s, p, vp);
      && r.movementType.Some?
      && r.movementType == (if s.panKeyHold then Some(Pan) else if s.movementType.Some? then s.movementType else Some(Rotate))
      && r.moving && r.lastPos == Some(RelativeMousePosition(p, vp))
  {
  }

  /** A start followed by a stop is just a stop, and stopping twice is stopping once. */
  lemma StartStop(s: State, p: Pointer, vp: Viewport)
    requires vp.MapsPointer()
    ensures Stop(Start(s, p, vp)) == Stop(s)
    ensures Stop(Stop(s)) == Stop(s)
  {
  }

  /** A move while no gesture is in progress changes nothing. */
  lemma IdleMove(s: State, p: Pointer, vp: Viewport)
    requires !s.moving
    ensures RotateOrPan(s, p, vp) == s
  {
  }

  /**
   * A move in rotate mode, with delta = (lastPos - pos) * (4 / width, 4 / height): rotation x
   * grows by 5 delta.y and rotation y by 5 delta.x; rotation z and the translation stay;
   * the last position becomes the pointer.
   */
  lemma RotateMove(s: State, p: Pointer, vp: Viewport)
    requires s.moving && s.lastPos.Some? && vp.NonDegenerate() && s.movementType == Some(Rotate)
    ensures var r, pos := RotateOrPan(s, p, vp), RelativeMousePosition(p, vp);
      var last := s.lastPos.value;
      && r.rotation[0] == s.rotation[0] + 5.0 * (4.0 / vp.height * (last[1] - pos[1]))
      && r.rotation[1] == s.rotation[1] + 5.0 * (4.0 / vp.width * (last[0] - pos[0]))
      && r.rotation[2] == s.rotation[2] && r.translation == s.translation
      && r == s.(lastPos := Some(pos), rotation := r.rotation)
  {
  }

  /**
   * A move in pan mode adds -500 delta.x to translation x and 500 delta.y to translation y;
   * translation z and the rotation stay.
   */
  lemma PanMove(s: State, p: Pointer, vp: Viewport)
    requires s.moving && s.lastPos.Some? && vp.NonDegenerate() && s.movementType == Some(Pan)
    ensures var r, pos := RotateOrPan(s, p, vp), RelativeMousePosition(p, vp);
      var last := s.lastPos.value;
      && r.translation[0] == s.translation[0] - 500.0 * (4.0 / vp.width * (last[0] - pos[0]))
      && r.translation[1] == s.translation[1] + 500.0 * (4.0 / vp.height * (last[1] - pos[1]))
      && r.translation[2] == s.translation[2] && r.rotation == s.rotation
      && r == s.(lastPos := Some(pos), translation := r.translation)
  {
  }

  /** A move in a gesture without a mode only updates the last position. */
  lemma ModelessMove(s: State, p: Pointer, vp: Viewport)
    requires s.moving && s.lastPos.Some? && vp.NonDegenerate() && s.movementType == None
    ensures RotateOrPan(s, p, vp) == s.(lastPos := Some(RelativeMousePosition(p, vp)))
  {
  }

  /**
   * Alt is edge-triggered: a keydown while it is held and any key other than Alt do nothing;
   * a keyup of a held Alt selects rotate even with no gesture in progress.
   */
  lemma AltEdges(s: State, key: string)
    ensures s.panKeyHold ==> KeyDown(s, "Alt") == s
    ensures key != "Alt" ==> KeyDown(s, key) == s && KeyUp(s, key) == s
    ensures s.panKeyHold ==> KeyUp(s, "Alt").movementType == Some(Rotate) && !KeyUp(s, "Alt").panKeyHold
    ensures s.panKeyHold ==> KeyUp(s, "Alt").moving == s.moving
  {
  }

  /** Toggling Alt in the middle of a gesture switches the mode but keeps the gesture going. */
  lemma AltMidGesture(s: State)
    ensures KeyDown(s, "Alt").moving == s.moving && KeyDown(s, "Alt").lastPos == s.lastPos
    ensures KeyUp(s, "Alt").moving == s.moving && KeyUp(s, "Alt").lastPos == s.lastPos
  {
  }

  /** Every handler keeps the invariant. */
  lemma StepConsistent(s: State, e: Event)
    requires e.WellFormed() && Consistent(s)
    ensures Consistent(Step(s, e))
  {
    if e.WheelEvent? {
      WheelClamps(s, e.deltaY);
    }
  }

  /** Any run of events keeps the invariant. */
  lemma {:induction false} RunConsistent(s: State, es: seq<Event>)
    requires forall k | 0 <= k < |es| :: es[k].WellFormed()
    requires Consistent(s)
    ensures Consistent(Run(s, es))
    decreases |es|
  {
    if |es| > 0 {
      StepConsistent(s, es[0]);
      RunConsistent(Step(s, es[0]), es[1..]);
    }
  }

  /** No handler ever changes rotation z or translation z. */
  lemma StepKeepsDepth(s: State, e: Event)
    requires e.WellFormed() && (s.moving ==> s.lastPos.Some?)
    ensures Step(s, e).rotation[2] == s.rotation[2] && Step(s, e).translation[2] == s.translation[2]
  {
  }

  lemma {:induction false} RunKeepsDepth(s: State, es: seq<Event>)
    requires forall k | 0 <= k < |es| :: es[k].WellFormed()
    requires s.moving ==> s.lastPos.Some?
    ensures Run(s, es).rotation[2] == s.rotation[2] && Run(s, es).translation[2] == s.translation[2]
    decreases |es|
  {
    if |es| > 0 {
      StepKeepsDepth(s, es[0]);
      RunKeepsDepth(Step(s, es[0]), es[1..]);
    }
  }

  predicate IsTouch(e: Event) {
    e.TouchStartEvent? || e.TouchEndEvent? || e.TouchMoveEvent?
  }

  /**
   * touchstart never sets a mode, so a touch-only drag begun with no mode moves neither the
   * rotation nor the translation.
   */
  lemma {:induction false} TouchDragWithoutMode(s: State, es: seq<Event>)
    requires forall k | 0 <= k < |es| :: es[k].WellFormed() && IsTouch(es[k])
    requires s.moving ==> s.lastPos.Some?
    requires s.movementType == None
    ensures Run(s, es).movementType == None
    ensures Run(s, es).rotation == s.rotation && Run(s, es).translation == s.translation
    decreases |es|
  {
    if |es| > 0 {
      TouchDragWithoutMode(Step(s, es[0]), es[1..]);
    }
  }

  /**
   * A drag from (100, 100) to (104, 100) in rotate mode on a 400 x 300 canvas at ratio 1:
   * rotation y moves by -0.2 (the pointer went right, lastPos - pos is negative) and
   * rotation x does not move.
   */
  lemma DragRightExample(s: State)
    requires s.movementType == Some(Rotate) && !s.panKeyHold && (s.moving ==> s.lastPos.Some?)
    ensures var vp := Viewport(0.0, 400.0, 0.0, 300.0, 400.0, 300.0, 1.0);
      var r := Run(s, [MouseDownEvent(Pointer(100.0, 100.0), vp), MouseMoveEvent(Pointer(104.0, 100.0), vp)]);
      r.rotation[1] == s.rotation[1] - 0.2 && r.rotation[0] == s.rotation[0]
  {
    var vp := Viewport(0.0, 400.0, 0.0, 300.0, 400.0, 300.0, 1.0);
    var es := [MouseDownEvent(Pointer(100.0, 100.0), vp), MouseMoveEvent(Pointer(104.0, 100.0), vp)];
    var s1 := Step(s, es[0]);
    assert s1.lastPos == Some([-100.0, -50.0]) && s1.moving && s1.movementType == Some(Rotate);
    var pos := RelativeMousePosition(Pointer(104.0, 100.0), vp);
    assert pos == [-96.0, -50.0];
    var delta := Delta(s1.lastPos.value, pos, vp);
    assert delta[0] == -0.04 && delta[1] == 0.0;
    var s2 := Step(s1, es[1]);
    assert s2.rotation[1] == s.rotation[1] - 0.2 && s2.rotation[0] == s.rotation[0];
    assert es[1..][1..] == [];
    assert Run(s, es) == Run(s1, es[1..]) == Run(s2, es[1..][1..]) == s2;
  }
}
