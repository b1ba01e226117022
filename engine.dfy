/**
 * The `Engine` class of js/engine.js (engine.js holds the same class): the camera fields and
 * the event handlers that update them in place, and `Update`, which rebuilds the frame
 * matrix. Every handler is proved to perform the matching transition of `Gesture`.
 */
module Engines {
  import opened Wrappers
  import opened JsMath
  import opened TrigOps
  import M4
  import Rot = Rotate
  import Create
  import Gesture
  import Pipeline

  /**
   * The local `sub(a, ...args)` of `rotateOrPanCamera`: a copy of a from whose first two
   * entries each argument's first two entries are subtracted in turn.
   */
  method SubAll(a: seq<real>, args: seq<seq<real>>) returns (n: array<real>)
    requires |a| >= 2 && forall k | 0 <= k < |args| :: |args[k]| >= 2
    ensures fresh(n) && n[..] == Gesture.SubAll(a, args)
  {
    n := new real[|a|](i requires 0 <= i < |a| => a[i]);
    for k := 0 to |args|
      invariant n[..] == Gesture.SubAll(a, args[..k])
    {
      assert args[..k + 1][..k] == args[..k];
      var p := args[k];
      n[0] := n[0] - p[0];
      n[1] := n[1] - p[1];
    }
    assert args[..|args|] == args;
  }

  /**
   * The first half of `Update`: the perspective projection times `inverse` of the camera
   * matrix, which always exists.
   */
  method ViewProjection(fieldOfViewRadians: real, aspect: real, math: MathLib) returns (vp: array<real>)
    requires aspect != 0.0
    ensures fresh(vp) && vp[..] == M4.Product(
      Create.Perspective(fieldOfViewRadians, aspect, 1.0, 2000.0, math.tan), Pipeline.View(math.hypot))
  {
    var projectionMatrix := Create.Perspective(fieldOfViewRadians, aspect, 1.0, 2000.0, math.tan);
    var cameraMatrix := Create.LookAt([0.0, 0.0, 100.0], [0.0, 0.0, 0.0], [0.0, 1.0, 0.0], math.hypot);
    var viewMatrix, finite := M4.Inverse(cameraMatrix);
    Pipeline.CameraInvertible(math.hypot);
    assert viewMatrix[..] == Pipeline.View(math.hypot);
    vp := M4.Multiply(projectionMatrix, viewMatrix[..]);
  }

  class Engine {
    var fieldOfViewRadians: real
    const rotation: array<real>
    const translation: array<real>
    var lastPos: Option<Gesture.Point>
    var moving: bool
    var movementType: Option<Gesture.Movement>
    var panKeyHold: bool
    /** The last frame matrix `Update` built; none before the first frame. */
    var matrix: Option<M4.Mat4>

    /**
     * The rotation and translation are two distinct three-entry arrays, and a gesture is in
     * progress exactly when a last position is recorded.
     */
    ghost predicate Valid()
      reads this
    {
      && rotation.Length == 3 && translation.Length == 3 && rotation != translation
      && (moving <==> lastPos.Some?)
    }

    /** The camera-interaction state as a value. */
    function Snapshot(): Gesture.State
      reads this, rotation, translation
      requires Valid()
    {
      Gesture.State(fieldOfViewRadians, rotation[..], translation[..], lastPos, moving, movementType, panKeyHold)
    }

    /** The field initialisers (the canvas and WebGL context are not part of this model). */
    constructor ()
      ensures Valid() && Snapshot() == Gesture.Initial() && matrix == None
      ensures fresh(rotation) && fresh(translation)
    {
      fieldOfViewRadians := DegToRad(60.0);
      rotation := new real[3][DegToRad(30.0), DegToRad(-20.0), DegToRad(0.0)];
      translation := new real[3][0.0, 0.0, -1000.0];
      lastPos := None;
      moving := false;
      movementType := None;
      panKeyHold := false;
      matrix := None;
    }

    /** The wheel listener. */
    method OnWheel(deltaY: real)
      requires Valid()
      modifies this
      ensures Valid() && Snapshot() == Gesture.Wheel(old(Snapshot()), deltaY) && matrix == old(matrix)
    {
      var zoom := RadToDeg(fieldOfViewRadians) + deltaY * -0.1;
      zoom := Min(Max(Gesture.MinZoom, zoom), Gesture.MaxZoom);
      fieldOfViewRadians := DegToRad(zoom);
    }

    /** The mousedown listener. */
    method OnMouseDown(p: Gesture.Pointer, vp: Gesture.Viewport)
      requires Valid() && vp.MapsPointer()
      modifies this
      ensures Valid() && Snapshot() == Gesture.MouseDown(old(Snapshot()), p, vp) && matrix == old(matrix)
    {
      if panKeyHold {
        movementType := Some(Gesture.Pan);
      }
      if movementType == None {
        movementType := Some(Gesture.Rotate);
      }
      StartRotateOrPanCamera(p, vp);
    }

    /** The keydown listener. */
    method OnKeyDown(key: string)
      requires Valid()
      modifies this
      ensures Valid() && Snapshot() == Gesture.KeyDown(old(Snapshot()), key) && matrix == old(matrix)
    {
      if key == "Alt" && !panKeyHold {
        panKeyHold := true;
        movementType := Some(Gesture.Pan);
      }
    }

    /** The mouseup listener. */
    method OnMouseUp()
      requires Valid()
      modifies this
      ensures Valid() && Snapshot() == Gesture.Stop(old(Snapshot())) && matrix == old(matrix)
    {
      StopRotateOrPanCamera();
    }

    /** The keyup listener. */
    method OnKeyUp(key: string)
      requires Valid()
      modifies this
      ensures Valid() && Snapshot() == Gesture.KeyUp(old(Snapshot()), key) && matrix == old(matrix)
    {
      if key == "Alt" && panKeyHold {
        panKeyHold := false;
        movementType := Some(Gesture.Rotate);
      }
    }

    /** The mousemove listener. */
    method OnMouseMove(p: Gesture.Pointer, vp: Gesture.Viewport)
      requires Valid() && (moving ==> vp.NonDegenerate())
      modifies this, rotation, translation
      ensures Valid() && Snapshot() == Gesture.RotateOrPan(old(Snapshot()), p, vp) && matrix == old(matrix)
    {
      RotateOrPanCamera(p, vp);
    }

    /** The touchstart listener, given the first touch. */
    method OnTouchStart(touch: Gesture.Pointer, vp: Gesture.Viewport)
      requires Valid() && vp.MapsPointer()
      modifies this
      ensures Valid() && Snapshot() == Gesture.Start(old(Snapshot()), touch, vp) && matrix == old(matrix)
    {
      StartRotateOrPanCamera(touch, vp);
    }

    /** The touchend listener: the touch it passes is ignored. */
    method OnTouchEnd()
      requires Valid()
      modifies this
      ensures Valid() && Snapshot() == Gesture.Stop(old(Snapshot())) && matrix == old(matrix)
    {
      StopRotateOrPanCamera();
    }

    /** The touchmove listener, given the first touch. */
    method OnTouchMove(touch: Gesture.Pointer, vp: Gesture.Viewport)
      requires Valid() && (moving ==> vp.NonDegenerate())
      modifies this, rotation, translation
      ensures Valid() && Snapshot() == Gesture.RotateOrPan(old(Snapshot()), touch, vp) && matrix == old(matrix)
    {
      RotateOrPanCamera(touch, vp);
    }

    method StartRotateOrPanCamera(p: Gesture.Pointer, vp: Gesture.Viewport)
      requires Valid() && vp.MapsPointer()
      modifies this
      ensures Valid() && Snapshot() == Gesture.Start(old(Snapshot()), p, vp) && matrix == old(matrix)
    {
      lastPos := Some(Gesture.RelativeMousePosition(p, vp));
      moving := true;
    }

    method RotateOrPanCamera(p: Gesture.Pointer, vp: Gesture.Viewport)
      requires Valid() && (moving ==> vp.NonDegenerate())
      modifies this, rotation, translation
      ensures Valid() && Snapshot() == Gesture.RotateOrPan(old(Snapshot()), p, vp) && matrix == old(matrix)
    {
      if moving {
        var pos := Gesture.RelativeMousePosition(p, vp);
        var size := Gesture.Size(vp);
        var diff := SubAll(lastPos.value, [pos]);
        Gesture.MultPoints(diff[..], size);
        var delta := Gesture.Mult(Gesture.Vec(diff[..]), Gesture.Vec(size)).value;
        lastPos := Some(pos);
        match movementType {
          case Some(Rotate) =>
            rotation[0] := rotation[0] + delta[1] * 5.0;
            rotation[1] := rotation[1] + delta[0] * 5.0;
          case Some(Pan) =>
            translation[0] := translation[0] + delta[0] * -500.0;
            translation[1] := translation[1] + delta[1] * 500.0;
          case None =>
        }
      }
    }

    method StopRotateOrPanCamera()
      requires Valid()
      modifies this
      ensures Valid() && Snapshot() == Gesture.Stop(old(Snapshot())) && matrix == old(matrix)
    {
      moving := false;
      movementType := None;
      lastPos := None;
    }

    /**
     * `Update()`: rebuild the frame matrix from the camera state, for the canvas's client size
     * and the host's `Math`; the camera state itself is left alone.
     */
    method Update(clientWidth: real, clientHeight: real, math: MathLib)
      requires Valid() && clientWidth != 0.0 && clientHeight != 0.0
      modifies this
      ensures Valid() && Snapshot() == old(Snapshot())
      ensures matrix == Some(Pipeline.Frame(Snapshot(), clientWidth / clientHeight, math))
    {
      ghost var s := Snapshot();
      var aspect := clientWidth / clientHeight;
      var viewProjectionMatrix := ViewProjection(fieldOfViewRadians, aspect, math);
      var translated := M4.Translate(viewProjectionMatrix[..], translation[0], translation[1], translation[2]);
      var m := Rot.X(translated[..], math.cos(rotation[0]), math.sin(rotation[0]));
      m := Rot.Y(m, math.cos(rotation[1]), math.sin(rotation[1]));
      m := Rot.Z(m, math.cos(rotation[2]), math.sin(rotation[2]));
      assert m == Pipeline.Frame(s, aspect, math);
      matrix := Some(m);
    }
  }
}
