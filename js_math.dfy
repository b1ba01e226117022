/**
 * The host's floating-point library, left uninterpreted: the model never computes a cosine,
 * a tangent or a hypotenuse itself; whoever builds a frame passes these functions in.
 */
module JsMath {
  /** `Math.cos`, `Math.sin`, `Math.tan` and `Math.hypot(...components)`. */
  datatype MathLib = MathLib(
    cos: real -> real,
    sin: real -> real,
    tan: real -> real,
    hypot: seq<real> -> real)

  /** `Math.min(a, b)` */
  function Min(a: real, b: real): (r: real)
    ensures r <= a && r <= b && (r == a || r == b)
  {
    if a <= b then a else b
  }

  /** `Math.max(a, b)` */
  function Max(a: real, b: real): (r: real)
    ensures r >= a && r >= b && (r == a || r == b)
  {
    if a >= b then a else b
  }
}
