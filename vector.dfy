/**
 * The `Vector` class of math.js (repeated verbatim in js/math.js): an immutable list of
 * components whose methods build new vectors. Components are reals; `len` goes through
 * `Math.hypot`, which the model takes as a parameter.
 */
module Vectors {
  datatype Vector = Vector(components: seq<real>)
  {
    /**
     * `a.add(b)` maps over b's components, so the result has b's length; a component of a
     * missing at b's index would be `undefined`, which the precondition excludes.
     */
    function Add(other: Vector): (r: Vector)
      requires |other.components| <= |components|
      ensures |r.components| == |other.components|
      ensures forall i | 0 <= i < |r.components| :: r.components[i] == components[i] + other.components[i]
    {
      Vector(seq(|other.components|, i requires 0 <= i < |other.components| => components[i] + other.components[i]))
    }

    /** `a.sub(b)`: componentwise a[i] - b[i] over b's indices. */
    function Sub(other: Vector): (r: Vector)
      requires |other.components| <= |components|
      ensures |r.components| == |other.components|
      ensures forall i | 0 <= i < |r.components| :: r.components[i] == components[i] - other.components[i]
    {
      Vector(seq(|other.components|, i requires 0 <= i < |other.components| => components[i] - other.components[i]))
    }

    /** `scl(k)`: every component multiplied by k. */
    function Scl(scalar: real): (r: Vector)
      ensures |r.components| == |components|
      ensures forall i | 0 <= i < |components| :: r.components[i] == components[i] * scalar
    {
      Vector(seq(|components|, i requires 0 <= i < |components| => components[i] * scalar))
    }

    /** `len()`: `Math.hypot` of the components. */
    function Len(hypot: seq<real> -> real): real {
      hypot(components)
    }

    /**
     * `dot(b)`: `b.components.reduce((acc, c, i) => acc + c * this.components[i], 0)`,
     * the running sum taken from left to right.
     */
    function Dot(other: Vector): (r: real)
      requires |other.components| <= |components|
      ensures r == InnerProduct(components, other.components)
      ensures |other.components| == 0 ==> r == 0.0
    {
      DotFromAdds(components, other.components, 0, 0.0);
      assert other.components[..0] == [];
      DotFrom(components, other.components, 0, 0.0)
    }
  }

  /** The reduce of `dot` from index i on, with accumulator acc. */
  function DotFrom(a: seq<real>, b: seq<real>, i: nat, acc: real): real
    requires |b| <= |a| && i <= |b|
    decreases |b| - i
  {
    if i == |b| then acc else DotFrom(a, b, i + 1, acc + b[i] * a[i])
  }

  /** The textbook inner product, the sum of the products a[i] * b[i] over b's indices. */
  function InnerProduct(a: seq<real>, b: seq<real>): real
    requires |b| <= |a|
  {
    if |b| == 0 then 0.0 else InnerProduct(a[..|b| - 1], b[..|b| - 1]) + b[|b| - 1] * a[|b| - 1]
  }

  /** The reduce from index i with accumulator acc adds the remaining products to acc. */
  lemma {:induction false} DotFromAdds(a: seq<real>, b: seq<real>, i: nat, acc: real)
    requires |b| <= |a| && i <= |b|
    ensures DotFrom(a, b, i, acc) == acc + InnerProduct(a, b) - InnerProduct(a, b[..i])
    decreases |b| - i
  {
    if i < |b| {
      DotFromAdds(a, b, i + 1, acc + b[i] * a[i]);
      assert b[..i + 1][..i] == b[..i];
      assert a[..i + 1][..i] == a[..i];
      PrefixInnerProduct(a, b, i + 1);
      PrefixInnerProduct(a, b, i);
      assert InnerProduct(a, b[..i + 1]) == InnerProduct(a, b[..i]) + b[i] * a[i];
    } else {
      assert b[..i] == b;
    }
  }

  /** Taking the inner product against a prefix of b only reads the same prefix of a. */
  lemma {:induction false} PrefixInnerProduct(a: seq<real>, b: seq<real>, n: nat)
    requires |b| <= |a| && n <= |b|
    ensures InnerProduct(a, b[..n]) == InnerProduct(a[..n], b[..n])
  {
    if n > 0 {
      assert a[..n - 1] == a[..n][..n - 1];
      assert b[..n][..n - 1] == b[..n - 1];
      PrefixInnerProduct(a, b, n - 1);
      assert a[..n - 1][..n - 1] == a[..n - 1];
    }
  }

  /** For vectors of equal length the inner product is symmetric. */
  lemma {:induction false} InnerProductSymmetric(a: seq<real>, b: seq<real>)
    requires |a| == |b|
    ensures InnerProduct(a, b) == InnerProduct(b, a)
  {
    if |b| > 0 {
      InnerProductSymmetric(a[..|b| - 1], b[..|b| - 1]);
    }
  }

  /** `dot` is symmetric for vectors of equal length. */
  lemma DotSymmetric(a: Vector, b: Vector)
    requires |a.components| == |b.components|
    ensures a.Dot(b) == b.Dot(a)
  {
    InnerProductSymmetric(a.components, b.components);
  }

  /** `a.sub(a)` is the zero vector of a's length. */
  lemma SubSelf(a: Vector)
    ensures a.Sub(a).components == seq(|a.components|, i => 0.0)
  {
  }

  /** Subtracting and adding back the same vector is a round trip. */
  lemma SubThenAdd(a: Vector, b: Vector)
    requires |a.components| == |b.components|
    ensures a.Sub(b).Add(b) == a
  {
  }

  /** `add` is commutative for vectors of equal length. */
  lemma AddCommutes(a: Vector, b: Vector)
    requires |a.components| == |b.components|
    ensures a.Add(b) == b.Add(a)
  {
  }

  /** `scl(1)` is the identity, and scaling twice multiplies the factors. */
  lemma SclLaws(a: Vector, k: real, l: real)
    ensures a.Scl(1.0) == a
    ensures a.Scl(k).Scl(l) == a.Scl(k * l)
  {
    forall i | 0 <= i < |a.components|
      ensures a.Scl(k).Scl(l).components[i] == a.Scl(k * l).components[i]
    {
      calc {
        a.Scl(k).Scl(l).components[i];
        (a.components[i] * k) * l;
        a.components[i] * (k * l);
      }
    }
  }

  /** A vector's dot product with itself is never negative. */
  lemma {:induction false} InnerProductSelfNonNegative(a: seq<real>)
    ensures InnerProduct(a, a) >= 0.0
  {
    if |a| > 0 {
      InnerProductSelfNonNegative(a[..|a| - 1]);
    }
  }
}
