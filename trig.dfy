/** The floating-point routines of Rust's standard library that the statics
    types call: the constant PI, sin, cos, to_radians and to_degrees.

    Numbers are exact reals. PI is an unspecified constant known only to lie
    between 3.14159 and 3.14160; sin and cos are unspecified total functions.
    to_radians and to_degrees are the library's definitions,
    `x * (PI / 180)` and `x * (180 / PI)`. */
module Trig {

  /** The interval that contains the true value of pi. */
  type PiRange = r: real | 3.14159 < r < 3.14160 witness 3.141592653589793

  /** std::f64::consts::PI, left unspecified beyond its range. */
  const Pi: PiRange

  /** f64::sin and f64::cos, left uninterpreted. */
  const Sin: real -> real
  const Cos: real -> real

  /** f64::to_radians. */
  function ToRadians(deg: real): real
  {
    deg * (Pi / 180.0)
  }

  /** f64::to_degrees. */
  function ToDegrees(rad: real): real
  {
    rad * (180.0 / Pi)
  }

  /** In exact arithmetic the two conversions undo each other. */
  lemma RadiansDegreesRoundTrip(x: real)
    ensures ToDegrees(ToRadians(x)) == x
    ensures ToRadians(ToDegrees(x)) == x
  {
    assert (Pi / 180.0) * (180.0 / Pi) == 1.0;
  }
}
