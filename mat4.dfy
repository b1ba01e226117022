/**
 * The 4x4 matrix helpers `multiply`, `translate` and `inverse` of js/engine.js (copied again in
 * js/math.js). A matrix is a flat list of 16 numbers in column-major order: entry (row, col)
 * sits at index 4 * col + row, so indices 12..14 hold a translation.
 */
module M4 {
  import opened Wrappers

  type Mat4 = m: seq<real> | |m| == 16 witness seq(16, i => 0.0)

  /** Entry (row, col) of a column-major matrix. */
  function At(m: Mat4, row: nat, col: nat): real
    requires row < 4 && col < 4
  {
    m[4 * col + row]
  }

  /**
   * The sum `multiply(a, b)` writes at slot i: with col = i / 4 and row = i % 4, column col of b
   * weighs the four entries of row `row` of a (b's factor written first, as in the source).
   */
  function ProductEntry(a: Mat4, b: Mat4, i: nat): real
    requires i < 16
  {
    var col, row := i / 4, i % 4;
    b[4 * col] * a[row] + b[4 * col + 1] * a[4 + row] + b[4 * col + 2] * a[8 + row] + b[4 * col + 3] * a[12 + row]
  }

  /** The matrix `multiply(a, b)` returns. */
  function Product(a: Mat4, b: Mat4): Mat4 {
    seq(16, i requires 0 <= i < 16 => ProductEntry(a, b, i))
  }

  /** The textbook matrix product entry: row `row` of a times column `col` of b. */
  function RowTimesColumn(a: Mat4, b: Mat4, row: nat, col: nat): real
    requires row < 4 && col < 4
  {
    At(a, row, 0) * At(b, 0, col) + At(a, row, 1) * At(b, 1, col)
      + At(a, row, 2) * At(b, 2, col) + At(a, row, 3) * At(b, 3, col)
  }

  /** `multiply` computes the column-major product a * b. */
  lemma ProductIsMatrixProduct(a: Mat4, b: Mat4, row: nat, col: nat)
    requires row < 4 && col < 4
    ensures At(Product(a, b), row, col) == RowTimesColumn(a, b, row, col)
  {
    var i := 4 * col + row;
    assert i / 4 == col && i % 4 == row;
  }

  function Identity(): Mat4 {
    seq(16, i requires 0 <= i < 16 => if i / 4 == i % 4 then 1.0 else 0.0)
  }

  /** Slot 4 * col + row of a matrix built by `seq` is its entry (row, col). */
  lemma SlotOf(row: nat, col: nat)
    requires row < 4 && col < 4
    ensures (4 * col + row) / 4 == col && (4 * col + row) % 4 == row
  {
  }

  lemma ProductIdentityAt(m: Mat4, row: nat, col: nat)
    requires row < 4 && col < 4
    ensures Product(m, Identity())[4 * col + row] == m[4 * col + row]
    ensures Product(Identity(), m)[4 * col + row] == m[4 * col + row]
  {
    SlotOf(row, col);
    SlotOf(row, 0);
    SlotOf(row, 1);
    SlotOf(row, 2);
    SlotOf(row, 3);
    SlotOf(0, col);
    SlotOf(1, col);
    SlotOf(2, col);
    SlotOf(3, col);
  }

  /** The identity is neutral on both sides of `multiply`. */
  lemma ProductIdentity(m: Mat4)
    ensures Product(m, Identity()) == m
    ensures Product(Identity(), m) == m
  {
    forall i | 0 <= i < 16
      ensures Product(m, Identity())[i] == m[i] && Product(Identity(), m)[i] == m[i]
    {
      ProductIdentityAt(m, i % 4, i / 4);
    }
  }

  /** The matrix of the translation by (tx, ty, tz), the `translation` the comment in `translate` names. */
  function Translation(tx: real, ty: real, tz: real): Mat4 {
    Identity()[12 := tx][13 := ty][14 := tz]
  }

  /**
   * What `translate(m, tx, ty, tz)` writes at slot i: the first three columns of m unchanged,
   * and in the fourth column m's columns combined with weights tx, ty, tz, 1.
   */
  function TranslatedEntry(m: Mat4, tx: real, ty: real, tz: real, i: nat): real
    requires i < 16
  {
    if i < 12 then m[i] else m[i - 12] * tx + m[i - 8] * ty + m[i - 4] * tz + m[i]
  }

  /** The matrix `translate(m, tx, ty, tz)` returns: only the fourth column changes. */
  function Translated(m: Mat4, tx: real, ty: real, tz: real): (r: Mat4)
    ensures r[..12] == m[..12]
  {
    seq(16, i requires 0 <= i < 16 => TranslatedEntry(m, tx, ty, tz, i))
  }

  lemma TranslatedIsProductAt(m: Mat4, tx: real, ty: real, tz: real, row: nat, col: nat)
    requires row < 4 && col < 4
    ensures Translated(m, tx, ty, tz)[4 * col + row] == Product(m, Translation(tx, ty, tz))[4 * col + row]
  {
    SlotOf(row, col);
    SlotOf(0, col);
    SlotOf(1, col);
    SlotOf(2, col);
    SlotOf(3, col);
  }

  /** `translate(m, t)` is `multiply(m, translation(t))`, and copies entries 0..11 unchanged. */
  lemma TranslatedIsProduct(m: Mat4, tx: real, ty: real, tz: real)
    ensures Translated(m, tx, ty, tz) == Product(m, Translation(tx, ty, tz))
    ensures Translated(m, tx, ty, tz)[..12] == m[..12]
  {
    forall i | 0 <= i < 16
      ensures Translated(m, tx, ty, tz)[i] == Product(m, Translation(tx, ty, tz))[i]
    {
      TranslatedIsProductAt(m, tx, ty, tz, i % 4, i / 4);
    }
  }

  /** Translating by zero leaves a matrix as it is. */
  lemma TranslatedByZero(m: Mat4)
    ensures Translated(m, 0.0, 0.0, 0.0) == m
  {
  }

  /** Translating twice is translating once by the sum of the offsets. */
  lemma TranslatedTwice(m: Mat4, sx: real, sy: real, sz: real, ux: real, uy: real, uz: real)
    ensures Translated(Translated(m, sx, sy, sz), ux, uy, uz) == Translated(m, sx + ux, sy + uy, sz + uz)
  {
    var twice, once := Translated(Translated(m, sx, sy, sz), ux, uy, uz), Translated(m, sx + ux, sy + uy, sz + uz);
    forall i | 0 <= i < 16
      ensures twice[i] == once[i]
    {
      if i >= 12 {
        calc {
          twice[i];
          (m[i - 12] * sx + m[i - 8] * sy + m[i - 4] * sz + m[i])
            + m[i - 12] * ux + m[i - 8] * uy + m[i - 4] * uz;
          { assert m[i - 12] * sx + m[i - 12] * ux == m[i - 12] * (sx + ux); }
          once[i];
        }
      }
    }
  }

  /** The unscaled adjugate (transposed cofactor matrix) exactly as `inverse` builds it. */
  function Adjugate(m: Mat4): Mat4 {
    var m00, m01, m02, m03 := m[0], m[1], m[2], m[3];
    var m10, m11, m12, m13 := m[4], m[5], m[6], m[7];
    var m20, m21, m22, m23 := m[8], m[9], m[10], m[11];
    var m30, m31, m32, m33 := m[12], m[13], m[14], m[15];
    var tmp_0, tmp_1, tmp_2, tmp_3 := m22 * m33, m32 * m23, m12 * m33, m32 * m13;
    var tmp_4, tmp_5, tmp_6, tmp_7 := m12 * m23, m22 * m13, m02 * m33, m32 * m03;
    var tmp_8, tmp_9, tmp_10, tmp_11 := m02 * m23, m22 * m03, m02 * m13, m12 * m03;
    var tmp_12, tmp_13, tmp_14, tmp_15 := m20 * m31, m30 * m21, m10 * m31, m30 * m11;
    var tmp_16, tmp_17, tmp_18, tmp_19 := m10 * m21, m20 * m11, m00 * m31, m30 * m01;
    var tmp_20, tmp_21, tmp_22, tmp_23 := m00 * m21, m20 * m01, m00 * m11, m10 * m01;
    [ tmp_0 * m11 + tmp_3 * m21 + tmp_4 * m31 - (tmp_1 * m11 + tmp_2 * m21 + tmp_5 * m31),
      tmp_1 * m01 + tmp_6 * m21 + tmp_9 * m31 - (tmp_0 * m01 + tmp_7 * m21 + tmp_8 * m31),
      tmp_2 * m01 + tmp_7 * m11 + tmp_10 * m31 - (tmp_3 * m01 + tmp_6 * m11 + tmp_11 * m31),
      tmp_5 * m01 + tmp_8 * m11 + tmp_11 * m21 - (tmp_4 * m01 + tmp_9 * m11 + tmp_10 * m21),
      tmp_1 * m10 + tmp_2 * m20 + tmp_5 * m30 - (tmp_0 * m10 + tmp_3 * m20 + tmp_4 * m30),
      tmp_0 * m00 + tmp_7 * m20 + tmp_8 * m30 - (tmp_1 * m00 + tmp_6 * m20 + tmp_9 * m30),
      tmp_3 * m00 + tmp_6 * m10 + tmp_11 * m30 - (tmp_2 * m00 + tmp_7 * m10 + tmp_10 * m30),
      tmp_4 * m00 + tmp_9 * m10 + tmp_10 * m20 - (tmp_5 * m00 + tmp_8 * m10 + tmp_11 * m20),
      tmp_12 * m13 + tmp_15 * m23 + tmp_16 * m33 - (tmp_13 * m13 + tmp_14 * m23 + tmp_17 * m33),
      tmp_13 * m03 + tmp_18 * m23 + tmp_21 * m33 - (tmp_12 * m03 + tmp_19 * m23 + tmp_20 * m33),
      tmp_14 * m03 + tmp_19 * m13 + tmp_22 * m33 - (tmp_15 * m03 + tmp_18 * m13 + tmp_23 * m33),
      tmp_17 * m03 + tmp_20 * m13 + tmp_23 * m23 - (tmp_16 * m03 + tmp_21 * m13 + tmp_22 * m23),
      tmp_14 * m22 + tmp_17 * m32 + tmp_13 * m12 - (tmp_16 * m32 + tmp_12 * m12 + tmp_15 * m22),
      tmp_20 * m32 + tmp_12 * m02 + tmp_19 * m22 - (tmp_18 * m22 + tmp_21 * m32 + tmp_13 * m02),
      tmp_18 * m12 + tmp_23 * m32 + tmp_15 * m02 - (tmp_22 * m32 + tmp_14 * m02 + tmp_19 * m12),
      tmp_22 * m22 + tmp_16 * m02 + tmp_21 * m12 - (tmp_20 * m12 + tmp_23 * m22 + tmp_17 * m02) ]
  }

  /** The determinant, expanded along the first column as `inverse` does (m00 * t0 + ... + m30 * t3). */
  function Determinant(m: Mat4): real {
    var adj := Adjugate(m);
    m[0] * adj[0] + m[4] * adj[1] + m[8] * adj[2] + m[12] * adj[3]
  }

  /** Every entry of m multiplied by d. */
  function Scaled(d: real, m: Mat4): Mat4 {
    seq(16, i requires 0 <= i < 16 => d * m[i])
  }

  /**
   * What `inverse(m)` returns: the adjugate scaled by 1 / det. With det == 0 the source divides
   * by zero and every entry becomes Infinity or NaN, which no real stands for: None.
   */
  function Inverted(m: Mat4): (r: Option<Mat4>)
    ensures r.Some? <==> Determinant(m) != 0.0
    ensures r.Some? ==> |r.value| == 16
  {
    var det := Determinant(m);
    if det == 0.0 then None
    else
      Some(Scaled(1.0 / det, Adjugate(m)))
  }

  /** The entries of a translation matrix, listed. */
  lemma TranslationEntries(tx: real, ty: real, tz: real)
    ensures Translation(tx, ty, tz) == [1.0, 0.0, 0.0, 0.0, 0.0, 1.0, 0.0, 0.0, 0.0, 0.0, 1.0, 0.0, tx, ty, tz, 1.0]
  {
  }

  /** `inverse(translation(t))` is `translation(-t)`: the camera matrix `Update` inverts is one. */
  lemma InvertedTranslation(tx: real, ty: real, tz: real)
    ensures Determinant(Translation(tx, ty, tz)) == 1.0
    ensures Inverted(Translation(tx, ty, tz)) == Some(Translation(-tx, -ty, -tz))
  {
    TranslationEntries(tx, ty, tz);
    TranslationEntries(-tx, -ty, -tz);
    var adj := Adjugate(Translation(tx, ty, tz));
    assert adj == Translation(-tx, -ty, -tz);
    var inv := Inverted(Translation(tx, ty, tz)).value;
    forall i | 0 <= i < 16
      ensures inv[i] == adj[i]
    {
      assert inv[i] == (1.0 / 1.0) * adj[i];
    }
    assert inv == adj;
  }

  /** The identity is its own inverse. */
  lemma InvertedIdentity()
    ensures Inverted(Identity()) == Some(Identity())
  {
    InvertedTranslation(0.0, 0.0, 0.0);
    assert Translation(0.0, 0.0, 0.0) == Identity();
  }

  /** `multiply(a, b)`: fills a fresh array slot by slot with the product a * b. */
  method Multiply(a: Mat4, b: Mat4) returns (dst: array<real>)
    ensures fresh(dst) && dst.Length == 16 && dst[..] == Product(a, b)
  {
    dst := new real[16](i => i as real); // makeArray(16)
    for i := 0 to 16
      invariant forall j | 0 <= j < i :: dst[j] == ProductEntry(a, b, j)
    {
      dst[i] := ProductEntry(a, b, i);
    }
  }

  /**
   * `translate(m, tx, ty, tz)`: copies the first three columns of m and writes the fourth.
   * The source guards the copy with `m !== dst`; dst is always a fresh buffer, so the copy happens.
   */
  method Translate(m: Mat4, tx: real, ty: real, tz: real) returns (dst: array<real>)
    ensures fresh(dst) && dst.Length == 16 && dst[..] == Translated(m, tx, ty, tz)
  {
    dst := new real[16](i => i as real); // makeArray(16)
    for i := 0 to 12
      invariant forall j | 0 <= j < i :: dst[j] == m[j]
    {
      dst[i] := m[i];
    }
    for i := 12 to 16
      invariant forall j | 0 <= j < i :: dst[j] == TranslatedEntry(m, tx, ty, tz, j)
    {
      dst[i] := m[i - 12] * tx + m[i - 8] * ty + m[i - 4] * tz + m[i];
    }
  }

  /** The slot-by-slot writes `dst[i] = d * t_i` that end `inverse`. */
  method WriteScaled(dst: array<real>, d: real, adj: Mat4)
    requires dst.Length == 16
    modifies dst
    ensures dst[..] == Scaled(d, adj)
  {
    for i := 0 to 16
      invariant forall j | 0 <= j < i :: dst[j] == d * adj[j]
    {
      dst[i] := d * adj[i];
    }
    forall j | 0 <= j < 16
      ensures dst[..][j] == Scaled(d, adj)[j]
    {
      assert dst[j] == d * adj[j];
    }
  }

  /**
   * `inverse(m)`: returns the fresh array and whether its entries are finite. When they are,
   * the array holds Inverted(m); when det == 0 the source's entries are all Infinity or NaN,
   * and the model leaves the buffer's content unspecified.
   */
  method Inverse(m: Mat4) returns (dst: array<real>, finite: bool)
    ensures fresh(dst) && dst.Length == 16
    ensures finite <==> Determinant(m) != 0.0
    ensures finite ==> Inverted(m) == Some(dst[..])
  {
    dst := new real[16](i => i as real); // makeArray(16)
    var adj := Adjugate(m);
    var det := m[0] * adj[0] + m[4] * adj[1] + m[8] * adj[2] + m[12] * adj[3];
    finite := det != 0.0;
    if !finite {
      return;
    }
    WriteScaled(dst, 1.0 / det, adj);
    assert det == Determinant(m);
  }
}
