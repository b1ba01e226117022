/**
 * `MatrixOps.Create` of js/math.js: the projection and camera matrices `Update` starts from,
 * both column-major. `Math.tan` and `Math.hypot` come in as parameters.
 */
module Create {
  import opened M4
  import opened VectorOps
  import TrigOps

  /**
   * `Create.perspective(fovRad, aspect, near, far)`: the standard perspective projection.
   * Dividing by `aspect` or by `near - far` when either is 0 gives Infinity, hence the
   * precondition.
   */
  function Perspective(fovRad: real, aspect: real, near: real, far: real, tan: real -> real): (m: Mat4)
    requires aspect != 0.0 && near != far
    ensures m[11] == -1.0 && m[15] == 0.0
    ensures m[1] == m[2] == m[3] == m[4] == m[6] == m[7] == m[8] == m[9] == m[12] == m[13] == 0.0
    ensures m[0] * aspect == m[5] == tan(TrigOps.PI * 0.5 - 0.5 * fovRad)
    ensures m[10] * (near - far) == near + far && m[14] * (near - far) == 2.0 * near * far
  {
    var fov := tan(TrigOps.PI * 0.5 - 0.5 * fovRad);
    var rangeInv := 1.0 / (near - far);
    [fov / aspect, 0.0, 0.0, 0.0,
     0.0, fov, 0.0, 0.0,
     0.0, 0.0, (near + far) * rangeInv, -1.0,
     0.0, 0.0, near * far * rangeInv * 2.0, 0.0]
  }

  /**
   * The projection sends the near plane (z = -near) to depth -1 and the far plane (z = -far)
   * to depth +1: clip depth equals -w there, respectively w, where w = -z.
   */
  lemma PerspectiveDepthRange(fovRad: real, aspect: real, near: real, far: real, tan: real -> real)
    requires aspect != 0.0 && near != far
    ensures var m := Perspective(fovRad, aspect, near, far, tan);
      m[10] * -near + m[14] == -(m[11] * -near) && m[10] * -far + m[14] == m[11] * -far
  {
    var m := Perspective(fovRad, aspect, near, far, tan);
    var d := near - far;
    assert (m[10] * -near + m[14]) * d == -near * (near + far) + 2.0 * near * far;
    assert (m[10] * -near + m[14]) * d == -near * d;
    assert (m[10] * -far + m[14]) * d == -far * (near + far) + 2.0 * near * far;
    assert (m[10] * -far + m[14]) * d == far * d;
  }

  /**
   * `Create.lookAt(camPos, tar, up)`: the camera's axes (each normalized) as the first three
   * columns and its position as the fourth. The spreads make 16 entries for a 3-entry camPos.
   */
  function LookAt(camPos: seq<real>, tar: seq<real>, up: seq<real>, hypot: seq<real> -> real): (m: Mat4)
    requires |camPos| == 3 && |tar| >= 3 && |up| >= 3
    ensures m[3] == m[7] == m[11] == 0.0 && m[15] == 1.0
    ensures m[12..15] == camPos
  {
    var zAxis := Normalize(Sub(camPos, tar), hypot);
    var xAxis := Normalize(Cross(up, zAxis), hypot);
    var yAxis := Normalize(Cross(zAxis, xAxis), hypot);
    xAxis + [0.0] + yAxis + [0.0] + zAxis + [0.0] + camPos + [1.0]
  }

  /** Scaling a vector (which is what `normalize` does) keeps it orthogonal to whatever it was. */
  lemma NormalizeKeepsOrthogonal(v: seq<real>, w: seq<real>, hypot: seq<real> -> real)
    requires |v| == 3 && |w| >= 3 && Dot3(v, w) == 0.0
    ensures Dot3(Normalize(v, hypot), w) == 0.0
  {
    var n, l := Normalize(v, hypot), Len(v, hypot);
    if l > Epsilon {
      assert Dot3(n, w) * l == (n[0] * l) * w[0] + (n[1] * l) * w[1] + (n[2] * l) * w[2];
    }
  }

  /**
   * The three axes `lookAt` writes are pairwise orthogonal, whatever `Math.hypot` returns and
   * even where `normalize` leaves a short vector alone.
   */
  lemma LookAtAxesOrthogonal(camPos: seq<real>, tar: seq<real>, up: seq<real>, hypot: seq<real> -> real)
    requires |camPos| == 3 && |tar| >= 3 && |up| >= 3
    ensures var m := LookAt(camPos, tar, up, hypot);
      Dot3(m[0..3], m[8..11]) == 0.0 && Dot3(m[4..7], m[8..11]) == 0.0 && Dot3(m[4..7], m[0..3]) == 0.0
  {
    var zAxis := Normalize(Sub(camPos, tar), hypot);
    var xAxis := Normalize(Cross(up, zAxis), hypot);
    var yAxis := Normalize(Cross(zAxis, xAxis), hypot);
    CrossOrthogonal(up, zAxis);
    NormalizeKeepsOrthogonal(Cross(up, zAxis), zAxis, hypot);
    CrossOrthogonal(zAxis, xAxis);
    NormalizeKeepsOrthogonal(Cross(zAxis, xAxis), zAxis, hypot);
    NormalizeKeepsOrthogonal(Cross(zAxis, xAxis), xAxis, hypot);
    var m := LookAt(camPos, tar, up, hypot);
    assert m[0..3] == xAxis && m[4..7] == yAxis && m[8..11] == zAxis;
  }
}
