/**
 * `VectorOps` of js/math.js: plain-list vector helpers used by `lookAt`. `Math.hypot` is a
 * parameter; nothing is assumed about it except where a lemma says so.
 */
module VectorOps {
  import Vectors

  /** The threshold below which `normalize` leaves a vector alone. */
  const Epsilon: real := 0.0000001

  /** `VectorOps.len(vec)`: `Math.hypot` of the entries. */
  function Len(vec: seq<real>, hypot: seq<real> -> real): real {
    hypot(vec)
  }

  /** `VectorOps.sub(vec1, vec2)`: maps over vec1, so the result has vec1's length. */
  function Sub(vec1: seq<real>, vec2: seq<real>): (r: seq<real>)
    requires |vec1| <= |vec2|
    ensures |r| == |vec1|
    ensures forall i | 0 <= i < |vec1| :: r[i] == vec1[i] - vec2[i]
  {
    seq(|vec1|, i requires 0 <= i < |vec1| => vec1[i] - vec2[i])
  }

  /**
   * `VectorOps.normalize(vec)`: every entry divided by the length when the length exceeds
   * 1e-7, and the input itself otherwise.
   */
  function Normalize(vec: seq<real>, hypot: seq<real> -> real): (r: seq<real>)
    ensures |r| == |vec|
    ensures Len(vec, hypot) <= Epsilon ==> r == vec
    ensures Len(vec, hypot) > Epsilon ==> forall i | 0 <= i < |vec| :: r[i] * Len(vec, hypot) == vec[i]
  {
    if Len(vec, hypot) > Epsilon then seq(|vec|, i requires 0 <= i < |vec| => vec[i] / Len(vec, hypot)) else vec
  }

  /** `VectorOps.cross(vec1, vec2)`: the cross product of the first three entries. */
  function Cross(vec1: seq<real>, vec2: seq<real>): (r: seq<real>)
    requires |vec1| >= 3 && |vec2| >= 3
    ensures |r| == 3
  {
    [vec1[1] * vec2[2] - vec1[2] * vec2[1],
     vec1[2] * vec2[0] - vec1[0] * vec2[2],
     vec1[0] * vec2[1] - vec1[1] * vec2[0]]
  }

  /** The dot product of two 3-vectors: `Vector.dot` on their first three entries. */
  function Dot3(a: seq<real>, b: seq<real>): (r: real)
    requires |a| >= 3 && |b| >= 3
    ensures |a| == 3 && |b| == 3 ==> r == Vectors.Vector(a).Dot(Vectors.Vector(b))
  {
    assert a[..2][..1] == a[..1] && b[..2][..1] == b[..1];
    assert a[..1][..0] == [] && b[..1][..0] == [];
    assert Vectors.InnerProduct(a[..1], b[..1]) == b[0] * a[0];
    assert |a| == 3 && |b| == 3 ==> Vectors.InnerProduct(a[..2], b[..2]) == b[0] * a[0] + b[1] * a[1];
    a[0] * b[0] + a[1] * b[1] + a[2] * b[2]
  }

  /** The cross product is anti-commutative, and a vector crossed with itself is zero. */
  lemma CrossAntiCommutes(a: seq<real>, b: seq<real>)
    requires |a| >= 3 && |b| >= 3
    ensures Cross(a, b) == Sub([0.0, 0.0, 0.0], Cross(b, a))
    ensures Cross(a, a) == [0.0, 0.0, 0.0]
  {
  }

  /** The cross product is orthogonal to both of its arguments. */
  lemma CrossOrthogonal(a: seq<real>, b: seq<real>)
    requires |a| >= 3 && |b| >= 3
    ensures Dot3(Cross(a, b), a) == 0.0
    ensures Dot3(Cross(a, b), b) == 0.0
  {
  }

  /** `sub(v, v)` is zero. */
  lemma SubSelf(v: seq<real>)
    ensures Sub(v, v) == seq(|v|, i => 0.0)
  {
  }

  /**
   * When `hypot` is the Euclidean length of a 3-vector longer than 1e-7, `normalize` returns a
   * vector of unit length.
   */
  lemma NormalizeUnit(vec: seq<real>, hypot: seq<real> -> real)
    requires |vec| == 3
    requires Len(vec, hypot) > Epsilon
    requires Len(vec, hypot) * Len(vec, hypot) == Dot3(vec, vec)
    ensures Dot3(Normalize(vec, hypot), Normalize(vec, hypot)) == 1.0
  {
    var l, n := Len(vec, hypot), Normalize(vec, hypot);
    assert n[0] * l == vec[0] && n[1] * l == vec[1] && n[2] * l == vec[2];
    calc {
      Dot3(n, n) * (l * l);
      (n[0] * l) * (n[0] * l) + (n[1] * l) * (n[1] * l) + (n[2] * l) * (n[2] * l);
      Dot3(vec, vec);
      1.0 * (l * l);
    }
  }
}
