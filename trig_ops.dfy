/** `TrigOps`: conversion between degrees and radians. */
module TrigOps {
  /** `Math.PI`: the double nearest to pi, read here as an exact positive real. */
  const PI: real := 3.141592653589793

  /** `radToDeg`: the number of degrees in an angle of `r` radians. */
  function RadToDeg(r: real): (d: real)
    ensures d * PI == r * 180.0
  {
    (r * 180.0) / PI
  }

  /** `degToRad`: the number of radians in an angle of `d` degrees. */
  function DegToRad(d: real): (r: real)
    ensures r * 180.0 == d * PI
  {
    (d * PI) / 180.0
  }

  lemma RadToDegOfDegToRad(d: real)
    ensures RadToDeg(DegToRad(d)) == d
  {
  }

  lemma DegToRadOfRadToDeg(r: real)
    ensures DegToRad(RadToDeg(r)) == r
  {
  }

  /** Both conversions are strictly increasing, so they preserve (and reflect) the order of angles. */
  lemma DegToRadMonotone(a: real, b: real)
    ensures a <= b <==> DegToRad(a) <= DegToRad(b)
  {
  }
}
