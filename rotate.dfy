/**
 * `MatrixOps.Rotate.X/Y/Z` of js/math.js: post-multiply a column-major 4x4 matrix by a rotation
 * about one axis. The source takes an angle and calls `Math.cos`/`Math.sin` on it; here the
 * cosine and sine are the parameters.
 */
module Rotate {
  import opened M4

  /** `Rotate.X(mat, a)`: columns 1 and 2 are turned into each other, columns 0 and 3 stay. */
  function X(mat: Mat4, cosine: real, sine: real): (r: Mat4)
    ensures r[..4] == mat[..4] && r[12..] == mat[12..]
  {
    seq(16, i requires 0 <= i < 16 =>
      if 4 <= i < 8 then cosine * mat[i] + sine * mat[i + 4]
      else if 8 <= i < 12 then cosine * mat[i] - sine * mat[i - 4]
      else mat[i])
  }

  /** `Rotate.Y(mat, a)`: columns 0 and 2 are turned into each other, columns 1 and 3 stay. */
  function Y(mat: Mat4, cosine: real, sine: real): (r: Mat4)
    ensures r[4..8] == mat[4..8] && r[12..] == mat[12..]
  {
    seq(16, i requires 0 <= i < 16 =>
      if i < 4 then cosine * mat[i] - sine * mat[i + 8]
      else if 8 <= i < 12 then cosine * mat[i] + sine * mat[i - 8]
      else mat[i])
  }

  /** `Rotate.Z(mat, a)`: columns 0 and 1 are turned into each other, columns 2 and 3 stay. */
  function Z(mat: Mat4, cosine: real, sine: real): (r: Mat4)
    ensures r[8..] == mat[8..]
  {
    seq(16, i requires 0 <= i < 16 =>
      if i < 4 then cosine * mat[i] + sine * mat[i + 4]
      else if 4 <= i < 8 then cosine * mat[i] - sine * mat[i - 4]
      else mat[i])
  }

  /** The rotation about the x axis, as a column-major matrix. */
  function RotationX(cosine: real, sine: real): Mat4 {
    Identity()[5 := cosine][6 := sine][9 := -sine][10 := cosine]
  }

  /** The rotation about the y axis. */
  function RotationY(cosine: real, sine: real): Mat4 {
    Identity()[0 := cosine][2 := -sine][8 := sine][10 := cosine]
  }

  /** The rotation about the z axis. */
  function RotationZ(cosine: real, sine: real): Mat4 {
    Identity()[0 := cosine][1 := sine][4 := -sine][5 := cosine]
  }

  lemma XIsProductAt(mat: Mat4, cosine: real, sine: real, row: nat, col: nat)
    requires row < 4 && col < 4
    ensures X(mat, cosine, sine)[4 * col + row] == Product(mat, RotationX(cosine, sine))[4 * col + row]
  {
    SlotOf(row, col);
    SlotOf(0, col);
    SlotOf(1, col);
    SlotOf(2, col);
    SlotOf(3, col);
  }

  lemma YIsProductAt(mat: Mat4, cosine: real, sine: real, row: nat, col: nat)
    requires row < 4 && col < 4
    ensures Y(mat, cosine, sine)[4 * col + row] == Product(mat, RotationY(cosine, sine))[4 * col + row]
  {
    SlotOf(row, col);
    SlotOf(0, col);
    SlotOf(1, col);
    SlotOf(2, col);
    SlotOf(3, col);
  }

  lemma ZIsProductAt(mat: Mat4, cosine: real, sine: real, row: nat, col: nat)
    requires row < 4 && col < 4
    ensures Z(mat, cosine, sine)[4 * col + row] == Product(mat, RotationZ(cosine, sine))[4 * col + row]
  {
    SlotOf(row, col);
    SlotOf(0, col);
    SlotOf(1, col);
    SlotOf(2, col);
    SlotOf(3, col);
  }

  /** Each rotation helper is `multiply(mat, rotation)` with the matching rotation matrix. */
  lemma RotationsAreProducts(mat: Mat4, cosine: real, sine: real)
    ensures X(mat, cosine, sine) == Product(mat, RotationX(cosine, sine))
    ensures Y(mat, cosine, sine) == Product(mat, RotationY(cosine, sine))
    ensures Z(mat, cosine, sine) == Product(mat, RotationZ(cosine, sine))
  {
    forall i | 0 <= i < 16
      ensures X(mat, cosine, sine)[i] == Product(mat, RotationX(cosine, sine))[i]
      ensures Y(mat, cosine, sine)[i] == Product(mat, RotationY(cosine, sine))[i]
      ensures Z(mat, cosine, sine)[i] == Product(mat, RotationZ(cosine, sine))[i]
    {
      XIsProductAt(mat, cosine, sine, i % 4, i / 4);
      YIsProductAt(mat, cosine, sine, i % 4, i / 4);
      ZIsProductAt(mat, cosine, sine, i % 4, i / 4);
    }
  }

  /** With cosine 1 and sine 0 (the angle 0) each helper returns its input. */
  lemma ZeroAngle(mat: Mat4)
    ensures X(mat, 1.0, 0.0) == mat && Y(mat, 1.0, 0.0) == mat && Z(mat, 1.0, 0.0) == mat
  {
  }

  /**
   * For an actual angle (cosine^2 + sine^2 == 1) rotating back by the opposite angle
   * (same cosine, negated sine) undoes each helper.
   */
  lemma RotateBack(mat: Mat4, cosine: real, sine: real)
    requires cosine * cosine + sine * sine == 1.0
    ensures X(X(mat, cosine, sine), cosine, -sine) == mat
    ensures Y(Y(mat, cosine, sine), cosine, -sine) == mat
    ensures Z(Z(mat, cosine, sine), cosine, -sine) == mat
  {
    forall i | 0 <= i < 16
      ensures X(X(mat, cosine, sine), cosine, -sine)[i] == mat[i]
      ensures Y(Y(mat, cosine, sine), cosine, -sine)[i] == mat[i]
      ensures Z(Z(mat, cosine, sine), cosine, -sine)[i] == mat[i]
    {
      UntwistX(mat, cosine, sine, i);
      UntwistY(mat, cosine, sine, i);
      UntwistZ(mat, cosine, sine, i);
    }
  }

  /**
   * Turning the pair (a, b) by an angle gives (p, q); turning (p, q) back by the opposite
   * angle, in either of the two arrangements the helpers use, gives a and b again.
   */
  lemma TurnBack(c: real, s: real, a: real, b: real, p: real, q: real)
    requires c * c + s * s == 1.0 && p == c * a + s * b && q == c * b - s * a
    ensures c * p + -s * q == a && c * q - -s * p == b
  {
    assert c * p == c * c * a + c * s * b && s * q == s * c * b - s * s * a;
    assert c * q == c * c * b - c * s * a && s * p == s * c * a + s * s * b;
    assert c * p + -s * q == (c * c + s * s) * a;
    assert c * q - -s * p == (c * c + s * s) * b;
  }

  lemma UntwistX(mat: Mat4, c: real, s: real, i: nat)
    requires i < 16 && c * c + s * s == 1.0
    ensures X(X(mat, c, s), c, -s)[i] == mat[i]
  {
    var once := X(mat, c, s);
    if 4 <= i < 8 {
      TurnBack(c, s, mat[i], mat[i + 4], once[i], once[i + 4]);
    } else if 8 <= i < 12 {
      TurnBack(c, s, mat[i - 4], mat[i], once[i - 4], once[i]);
    }
  }

  lemma UntwistY(mat: Mat4, c: real, s: real, i: nat)
    requires i < 16 && c * c + s * s == 1.0
    ensures Y(Y(mat, c, s), c, -s)[i] == mat[i]
  {
    var once := Y(mat, c, s);
    if i < 4 {
      TurnBack(c, s, mat[i + 8], mat[i], once[i + 8], once[i]);
    } else if 8 <= i < 12 {
      TurnBack(c, s, mat[i], mat[i - 8], once[i], once[i - 8]);
    }
  }

  lemma UntwistZ(mat: Mat4, c: real, s: real, i: nat)
    requires i < 16 && c * c + s * s == 1.0
    ensures Z(Z(mat, c, s), c, -s)[i] == mat[i]
  {
    var once := Z(mat, c, s);
    if i < 4 {
      TurnBack(c, s, mat[i], mat[i + 4], once[i], once[i + 4]);
    } else if 4 <= i < 8 {
      TurnBack(c, s, mat[i - 4], mat[i], once[i - 4], once[i]);
    }
  }
}
