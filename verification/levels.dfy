/** Conversions between the 0–255 domain of user-facing values and the [0,1]
    working domain, and the saturation applied to curve outputs. */
module Levels {

  /** The top of the 8-bit level domain; every user-facing value is divided by it. */
  const MaxLevel: real := 255.0

  /** Converts a level given in 0–255 to the working domain. Values outside
      0–255 are not rejected; they simply land outside [0,1]. */
  function Normalize(v: real): (r: real)
    ensures r * MaxLevel == v
    ensures 0.0 <= v <= MaxLevel <==> 0.0 <= r <= 1.0
    ensures v < MaxLevel <==> r < 1.0
  {
    v / MaxLevel
  }

  /** Saturates a value to [0,1], as `clip(v, 0, 1)` does: the lower bound is
      applied first and the upper bound second, with no wrap-around. */
  function Clip(v: real): (r: real)
    ensures 0.0 <= r <= 1.0
    ensures 0.0 <= v <= 1.0 ==> r == v
    ensures v < 0.0 ==> r == 0.0
    ensures v > 1.0 ==> r == 1.0
  {
    var raised := if v < 0.0 then 0.0 else v;
    if raised > 1.0 then 1.0 else raised
  }
}
