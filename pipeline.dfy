/**
 * The matrix `Engine.Update` builds each frame (js/engine.js and engine.js): a perspective
 * projection times the inverse of a fixed camera, translated, then rotated about x, y and z.
 */
module Pipeline {
  import opened Wrappers
  import opened JsMath
  import opened M4
  import Rot = Rotate
  import Create
  import VectorOps
  import Gesture

  /** The fixed camera of `Update`: at (0, 0, 100), looking at the origin, y up. */
  function Camera(hypot: seq<real> -> real): (m: Mat4)
    ensures m[3] == m[7] == m[11] == 0.0
    ensures m[12] == 0.0 && m[13] == 0.0 && m[14] == 100.0 && m[15] == 1.0
  {
    Create.LookAt([0.0, 0.0, 100.0], [0.0, 0.0, 0.0], [0.0, 1.0, 0.0], hypot)
  }

  /** `normalize` keeps exactly the zero entries of a vector zero, whatever the length is. */
  lemma NormalizeKeepsZeros(v: seq<real>, hypot: seq<real> -> real, i: nat)
    requires i < |v|
    ensures VectorOps.Normalize(v, hypot)[i] == 0.0 <==> v[i] == 0.0
  {
  }

  /** A diagonal matrix with a translation column. */
  function Diagonal(a: real, b: real, c: real, tx: real, ty: real, tz: real): Mat4 {
    [a, 0.0, 0.0, 0.0, 0.0, b, 0.0, 0.0, 0.0, 0.0, c, 0.0, tx, ty, tz, 1.0]
  }

  /** Its determinant is the product of the diagonal. */
  lemma DiagonalDeterminant(a: real, b: real, c: real, tx: real, ty: real, tz: real)
    ensures Determinant(Diagonal(a, b, c, tx, ty, tz)) == a * b * c
  {
    var adj := Adjugate(Diagonal(a, b, c, tx, ty, tz));
    assert adj[0] == c * b;
    assert adj[3] == 0.0;
  }

  /** The camera's x direction: y up crossed with a z axis along z. */
  lemma CrossUpZ(zAxis: seq<real>)
    requires |zAxis| == 3 && zAxis[0] == 0.0 && zAxis[1] == 0.0
    ensures VectorOps.Cross([0.0, 1.0, 0.0], zAxis) == [zAxis[2], 0.0, 0.0]
  {
    var r := VectorOps.Cross([0.0, 1.0, 0.0], zAxis);
    assert r[0] == zAxis[2] && r[1] == 0.0 && r[2] == 0.0;
  }

  /** The camera's y direction: a z axis along z crossed with an x axis along x. */
  lemma CrossZX(zAxis: seq<real>, xAxis: seq<real>)
    requires |zAxis| == 3 && zAxis[0] == 0.0 && zAxis[1] == 0.0
    requires |xAxis| == 3 && xAxis[1] == 0.0 && xAxis[2] == 0.0
    ensures VectorOps.Cross(zAxis, xAxis) == [0.0, zAxis[2] * xAxis[0], 0.0]
  {
    var r := VectorOps.Cross(zAxis, xAxis);
    assert r[0] == 0.0 && r[1] == zAxis[2] * xAxis[0] && r[2] == 0.0;
  }

  /** The camera's axes lie along x, y and z, each with a non-zero entry there. */
  lemma CameraAxes(hypot: seq<real> -> real)
    ensures var zAxis := VectorOps.Normalize(VectorOps.Sub([0.0, 0.0, 100.0], [0.0, 0.0, 0.0]), hypot);
      var xAxis := VectorOps.Normalize(VectorOps.Cross([0.0, 1.0, 0.0], zAxis), hypot);
      var yAxis := VectorOps.Normalize(VectorOps.Cross(zAxis, xAxis), hypot);
      && |xAxis| == 3 && xAxis[0] != 0.0 && xAxis[1] == 0.0 && xAxis[2] == 0.0
      && |yAxis| == 3 && yAxis[0] == 0.0 && yAxis[1] != 0.0 && yAxis[2] == 0.0
      && |zAxis| == 3 && zAxis[0] == 0.0 && zAxis[1] == 0.0 && zAxis[2] != 0.0
  {
    var d := VectorOps.Sub([0.0, 0.0, 100.0], [0.0, 0.0, 0.0]);
    assert d == [0.0, 0.0, 100.0];
    var zAxis := VectorOps.Normalize(d, hypot);
    NormalizeKeepsZeros(d, hypot, 0);
    NormalizeKeepsZeros(d, hypot, 1);
    NormalizeKeepsZeros(d, hypot, 2);
    var xd := VectorOps.Cross([0.0, 1.0, 0.0], zAxis);
    CrossUpZ(zAxis);
    var xAxis := VectorOps.Normalize(xd, hypot);
    NormalizeKeepsZeros(xd, hypot, 0);
    NormalizeKeepsZeros(xd, hypot, 1);
    NormalizeKeepsZeros(xd, hypot, 2);
    var yd := VectorOps.Cross(zAxis, xAxis);
    CrossZX(zAxis, xAxis);
    NormalizeKeepsZeros(yd, hypot, 0);
    NormalizeKeepsZeros(yd, hypot, 1);
    NormalizeKeepsZeros(yd, hypot, 2);
  }

  /**
   * The camera has scaled unit axes and the translation (0, 0, 100), for any `Math.hypot`:
   * each axis is scaled by 1 or by 1 / length, and never by zero.
   */
  lemma CameraShape(hypot: seq<real> -> real)
    ensures var m := Camera(hypot);
      m[0] != 0.0 && m[5] != 0.0 && m[10] != 0.0 && m == Diagonal(m[0], m[5], m[10], 0.0, 0.0, 100.0)
  {
    CameraAxes(hypot);
    var zAxis := VectorOps.Normalize(VectorOps.Sub([0.0, 0.0, 100.0], [0.0, 0.0, 0.0]), hypot);
    var xAxis := VectorOps.Normalize(VectorOps.Cross([0.0, 1.0, 0.0], zAxis), hypot);
    var yAxis := VectorOps.Normalize(VectorOps.Cross(zAxis, xAxis), hypot);
    AxesMatrix(xAxis, yAxis, zAxis, [0.0, 0.0, 100.0]);
  }

  /** A `lookAt` matrix whose axes lie along x, y and z is diagonal. */
  lemma AxesMatrix(xAxis: seq<real>, yAxis: seq<real>, zAxis: seq<real>, camPos: seq<real>)
    requires |xAxis| == 3 && xAxis[1] == 0.0 && xAxis[2] == 0.0
    requires |yAxis| == 3 && yAxis[0] == 0.0 && yAxis[2] == 0.0
    requires |zAxis| == 3 && zAxis[0] == 0.0 && zAxis[1] == 0.0
    requires |camPos| == 3
    ensures xAxis + [0.0] + yAxis + [0.0] + zAxis + [0.0] + camPos + [1.0] ==
      Diagonal(xAxis[0], yAxis[1], zAxis[2], camPos[0], camPos[1], camPos[2])
  {
    var m := xAxis + [0.0] + yAxis + [0.0] + zAxis + [0.0] + camPos + [1.0];
    assert |m| == 16;
    assert m[0] == xAxis[0] && m[1] == 0.0 && m[2] == 0.0 && m[3] == 0.0;
    assert m[4] == 0.0 && m[5] == yAxis[1] && m[6] == 0.0 && m[7] == 0.0;
    assert m[8] == 0.0 && m[9] == 0.0 && m[10] == zAxis[2] && m[11] == 0.0;
    assert m[12] == camPos[0] && m[13] == camPos[1] && m[14] == camPos[2] && m[15] == 1.0;
  }

  /** So `inverse` of the camera never divides by zero. */
  lemma CameraInvertible(hypot: seq<real> -> real)
    ensures Determinant(Camera(hypot)) != 0.0 && Inverted(Camera(hypot)).Some?
  {
    var m := Camera(hypot);
    CameraShape(hypot);
    DiagonalDeterminant(m[0], m[5], m[10], 0.0, 0.0, 100.0);
    assert m[0] * m[5] != 0.0;
  }

  /**
   * With a `Math.hypot` that is exact on the three vectors the camera normalizes, the camera
   * is the translation by (0, 0, 100) and the view matrix the translation by (0, 0, -100).
   */
  lemma ExactCamera(hypot: seq<real> -> real)
    requires hypot([0.0, 0.0, 100.0]) == 100.0 && hypot([1.0, 0.0, 0.0]) == 1.0 && hypot([0.0, 1.0, 0.0]) == 1.0
    ensures Camera(hypot) == Translation(0.0, 0.0, 100.0)
    ensures Inverted(Camera(hypot)) == Some(Translation(0.0, 0.0, -100.0))
  {
    var d := VectorOps.Sub([0.0, 0.0, 100.0], [0.0, 0.0, 0.0]);
    assert d == [0.0, 0.0, 100.0];
    var zAxis := VectorOps.Normalize(d, hypot);
    assert zAxis == [0.0, 0.0, 1.0];
    var xd := VectorOps.Cross([0.0, 1.0, 0.0], zAxis);
    assert xd == [1.0, 0.0, 0.0];
    var xAxis := VectorOps.Normalize(xd, hypot);
    assert xAxis == [1.0, 0.0, 0.0];
    var yd := VectorOps.Cross(zAxis, xAxis);
    assert yd == [0.0, 1.0, 0.0];
    assert VectorOps.Normalize(yd, hypot) == [0.0, 1.0, 0.0];
    TranslationEntries(0.0, 0.0, 100.0);
    InvertedTranslation(0.0, 0.0, 100.0);
    assert -100.0 == -(100.0);
  }

  /** `inverse(cameraMatrix)`, the view matrix, which always exists. */
  function View(hypot: seq<real> -> real): (v: Mat4)
    ensures Inverted(Camera(hypot)) == Some(v)
  {
    CameraInvertible(hypot);
    Inverted(Camera(hypot)).value
  }

  /** `this.matrix` after `Update`, for a canvas aspect ratio and the host's `Math`. */
  function Frame(s: Gesture.State, aspect: real, math: MathLib): Mat4
    requires aspect != 0.0
  {
    var projection := Create.Perspective(s.fieldOfViewRadians, aspect, 1.0, 2000.0, math.tan);
    var view := View(math.hypot);
    var m := Translated(Product(projection, view), s.translation[0], s.translation[1], s.translation[2]);
    var r := s.rotation;
    Rot.Z(Rot.Y(Rot.X(m, math.cos(r[0]), math.sin(r[0])), math.cos(r[1]), math.sin(r[1])), math.cos(r[2]), math.sin(r[2]))
  }

  /**
   * The frame is the product P V T Rx Ry Rz, in exactly this order: projection, view,
   * translation, then the rotations about x, y and z.
   */
  lemma FrameIsProductChain(s: Gesture.State, aspect: real, math: MathLib)
    requires aspect != 0.0
    ensures var r, t := s.rotation, s.translation;
      Frame(s, aspect, math) ==
        Product(Product(Product(Product(Product(
          Create.Perspective(s.fieldOfViewRadians, aspect, 1.0, 2000.0, math.tan),
          View(math.hypot)),
          Translation(t[0], t[1], t[2])),
          Rot.RotationX(math.cos(r[0]), math.sin(r[0]))),
          Rot.RotationY(math.cos(r[1]), math.sin(r[1]))),
          Rot.RotationZ(math.cos(r[2]), math.sin(r[2])))
  {
    var r, t := s.rotation, s.translation;
    var pv := Product(Create.Perspective(s.fieldOfViewRadians, aspect, 1.0, 2000.0, math.tan),
                      View(math.hypot));
    TranslatedIsProduct(pv, t[0], t[1], t[2]);
    var m0 := Translated(pv, t[0], t[1], t[2]);
    Rot.RotationsAreProducts(m0, math.cos(r[0]), math.sin(r[0]));
    var m1 := Rot.X(m0, math.cos(r[0]), math.sin(r[0]));
    Rot.RotationsAreProducts(m1, math.cos(r[1]), math.sin(r[1]));
    var m2 := Rot.Y(m1, math.cos(r[1]), math.sin(r[1]));
    Rot.RotationsAreProducts(m2, math.cos(r[2]), math.sin(r[2]));
  }

  /**
   * With no rotation and no translation (and cos 0 = 1, sin 0 = 0) the frame is the
   * view-projection matrix; with an exact `Math.hypot` that is P times the translation by
   * (0, 0, -100).
   */
  lemma FrameAtRest(s: Gesture.State, aspect: real, math: MathLib)
    requires aspect != 0.0 && math.cos(0.0) == 1.0 && math.sin(0.0) == 0.0
    requires s.rotation == [0.0, 0.0, 0.0] && s.translation == [0.0, 0.0, 0.0]
    ensures Frame(s, aspect, math) ==
        Product(Create.Perspective(s.fieldOfViewRadians, aspect, 1.0, 2000.0, math.tan), View(math.hypot))
    ensures var h := math.hypot;
      h([0.0, 0.0, 100.0]) == 100.0 && h([1.0, 0.0, 0.0]) == 1.0 && h([0.0, 1.0, 0.0]) == 1.0 ==>
      Frame(s, aspect, math) ==
        Product(Create.Perspective(s.fieldOfViewRadians, aspect, 1.0, 2000.0, math.tan), Translation(0.0, 0.0, -100.0))
  {
    var pv := Product(Create.Perspective(s.fieldOfViewRadians, aspect, 1.0, 2000.0, math.tan),
                      View(math.hypot));
    TranslatedByZero(pv);
    Rot.ZeroAngle(pv);
    var h := math.hypot;
    if h([0.0, 0.0, 100.0]) == 100.0 && h([1.0, 0.0, 0.0]) == 1.0 && h([0.0, 1.0, 0.0]) == 1.0 {
      ExactCamera(h);
    }
  }

  /**
   * The order of the rotations matters: a quarter turn about x then y is not a quarter turn
   * about y then x.
   */
  lemma RotationOrderMatters()
    ensures Rot.Y(Rot.X(Identity(), 0.0, 1.0), 0.0, 1.0) != Rot.X(Rot.Y(Identity(), 0.0, 1.0), 0.0, 1.0)
  {
    var i := Identity();
    assert i[0] == 1.0 && i[4] == 0.0 && i[8] == 0.0 && i[1] == 0.0 && i[5] == 1.0 && i[9] == 0.0;
    var xy := Rot.Y(Rot.X(i, 0.0, 1.0), 0.0, 1.0);
    var yx := Rot.X(Rot.Y(i, 0.0, 1.0), 0.0, 1.0);
    assert xy[1] != yx[1];
  }
}
