# statics: angles, masses and force vectors

A Dafny model of the three value types of the Rust library `statics`, a
small toolkit for two-dimensional static-force calculations:

- `Angle` (module `Angles`, `angle.dfy`): an angle tagged `Rad` or `Deg`,
  its conversions `as_rad` and `as_deg`, its conversion to a plain number,
  and its equality, which converts the right operand into the left
  operand's unit and then accepts a difference of strictly less than 1e-10.
- `Mass` (module `Masses`, `mass.dfy`): a mass tagged `Lb` or `G`, the
  conversions `as_gram` (times 453.59237) and `as_lb` (times 0.00220462),
  scaling by a number, subtraction in the minuend's unit, conversion to a
  plain number, and the structural equality and ordering Rust derives.
  `src/mass.rs` is not declared as a module in `src/lib.rs`, so the crate
  does not compile it; it is modelled anyway.
- `Vector` (module `Vectors`, `vector.dfy`): a magnitude and an `Angle`,
  the constructors `unit` and `from_mag_and_angle`, the accessors, and the
  components `vertical` (labelled 0 degrees, magnitude times the sine of
  the angle in radians) and `horizontal` (labelled 90 degrees, magnitude
  times the cosine).
- The standard-library routines these call (module `Trig`, `trig.dfy`):
  `PI`, `sin`, `cos`, `to_radians` and `to_degrees`.

All numbers are exact reals. PI is an unspecified constant known only to
lie strictly between 3.14159 and 3.14160; `sin` and `cos` are unspecified
total functions, so everything proved about the components holds whatever
they return. `to_radians(x)` is `x * (PI / 180)` and `to_degrees(x)` is
`x * (180 / PI)`, as the standard library defines them.

A `Vector` stores its magnitude as a plain `f64` (src/vector.rs:16), so
`unit()` has magnitude `1.0`.

## Model

| member | source | states |
|---|---|---|
| `Trig.RadiansDegreesRoundTrip` | src/angle.rs:20-33 | in exact arithmetic `to_degrees` undoes `to_radians` and the other way round |
| `Angles.ApproxEqMeaning` | src/angle.rs:47-49 | `is_approx_eq` holds iff the difference lies strictly between -1e-10 and 1e-10; it is symmetric and reflexive, and numbers exactly 1e-10 apart fail it |
| `Angles.Angle.AsRad` | src/angle.rs:20-25 | the result is always `Rad`; a `Rad` input comes back unchanged; a `Deg` input is converted with `to_radians` |
| `Angles.Angle.AsDeg` | src/angle.rs:28-33 | the result is always `Deg`; a `Deg` input comes back unchanged; a `Rad` input is converted with `to_degrees` |
| `Angles.ConversionsIdempotent` | src/angle.rs:20-33 | converting an already converted angle again changes nothing |
| `Angles.ConversionsCommute` | src/angle.rs:20-33 | converting through the other unit first gives the same result as converting directly |
| `Angles.RoundTrip` | src/angle.rs:20-33 | a degree angle converted to radians and back, or a radian angle converted to degrees and back, is the original angle |
| `Angles.KnownConversions` | src/angle.rs:70-78 | one degree is pi/180 radians and pi radians are 180 degrees (the two unit tests), and 180 degrees are pi radians (the doc example at line 8) |
| `Angles.ValueIgnoresTag` | src/angle.rs:36-43 | conversion to a number returns the stored number whatever the tag |
| `Angles.EqSameUnit` | src/angle.rs:51-60 | two same-unit angles are equal iff their numbers differ by strictly less than 1e-10 |
| `Angles.EqBoundary` | src/angle.rs:47-49 | same-unit angles exactly 1e-10 apart are not equal |
| `Angles.EqReflexive` | src/angle.rs:51-60 | every angle equals itself |
| `Angles.EqMixedUnits` | src/angle.rs:54-58 | a mixed-unit comparison converts the right operand into the left operand's unit before comparing |
| `Angles.EqConverted` | src/angle.rs:51-60 | an angle equals its own conversion into either unit, on either side of `==` |
| `Angles.DegreeOnLeftIsStricter` | src/angle.rs:52-59 | a mixed pair with degrees on the left is compared against a radian tolerance of 1e-10 * pi/180; with radians on the left, against 1e-10 |
| `Angles.EqNotSymmetric` | src/angle.rs:45-61 | `Rad(0) == Deg(to_degrees(5e-11))` holds but the reverse comparison does not |
| `Angles.SymmetricEqIsSymmetric` | src/angle.rs:45-61 | the corrected equality is symmetric, agrees with `eq` on same-unit pairs and whenever the radian angle is on the left, and relates an angle to its conversions |
| `Masses.Mass.AsGram` | src/mass.rs:10-15 | the result is always `G`; a `G` input comes back unchanged; `Lb(l)` becomes `G(l * 453.59237)` |
| `Masses.Mass.AsLb` | src/mass.rs:17-22 | the result is always `Lb`; an `Lb` input comes back unchanged; `G(g)` becomes `Lb(g * 0.00220462)` |
| `Masses.Mass.Mul` | src/mass.rs:28-33 | scaling keeps the unit tag and multiplies the number by the factor |
| `Masses.Mass.Sub` | src/mass.rs:39-44 | the difference carries the minuend's unit, and adding back the subtrahend converted into that unit gives the minuend |
| `Masses.ConversionsIdempotent` | src/mass.rs:10-22 | converting an already converted mass again changes nothing |
| `Masses.RoundTripDrift` | src/mass.rs:10-22 | a round trip through the other unit scales by exactly 0.9999988107494, so it changes every non-zero mass, by less than two millionths of it |
| `Masses.KnownConversions` | src/mass.rs:61-71 | one pound is within 1.0 of 453 grams and 1000 grams are within 0.1 of 2.2 pounds |
| `Masses.ValueIgnoresTag` | src/mass.rs:47-54 | conversion to a number returns the stored number whatever the tag |
| `Masses.MulIdentityAndComposition` | src/mass.rs:28-33 | scaling by 1 is the identity, two scalings compose into one by the product, scaling by 0 gives zero |
| `Masses.SubZeroAndSelf` | src/mass.rs:39-44 | subtracting a zero mass in either unit returns the minuend; a mass minus itself is zero in its own unit; `Lb(10) - G(0)` is `Lb(10)` |
| `Masses.SubSeesConvertedSubtrahend` | src/mass.rs:39-44 | only the subtrahend's value converted into the minuend's unit matters, not the unit it was given in |
| `Masses.EqIsStructural` | src/mass.rs:3-7 | equality holds exactly for identical values and agrees with `partial_cmp` returning `Equal`; `Lb(1)` is not equal to `G(453.59237)` although it converts to it |
| `Masses.OrderingByUnitThenNumber` | src/mass.rs:3-7 | every `Lb` orders strictly before every `G`; same-unit masses order by their numbers |
| `Masses.OrderingIsTotalOrder` | src/mass.rs:3-7 | the derived `<=` is reflexive, antisymmetric, transitive and total, `<` is `<=` without equality, and `partial_cmp` is antisymmetric |
| `Vectors.Vector.Unit` | src/vector.rs:22-27 | the unit vector has magnitude 1.0 and angle `Deg(0.0)` |
| `Vectors.Vector.FromMagAndAngle` | src/vector.rs:30-43 | the accessors give back exactly the magnitude and angle passed in |
| `Vectors.Vector.Vertical` | src/vector.rs:46-51 | the vertical component is labelled `Deg(0.0)` and has magnitude `mag * sin` of the angle in radians |
| `Vectors.Vector.Horizontal` | src/vector.rs:54-59 | the horizontal component is labelled `Deg(90.0)` and has magnitude `mag * cos` of the angle in radians |
| `Vectors.UnitVector` | src/vector.rs:80-85 | the unit vector's magnitude is 1.0 and its angle equals `Deg(0.0)` under `Angle`'s equality |
| `Vectors.AccessorsReadBack` | src/vector.rs:87-97 | a constructed vector reads back its magnitude, and an angle equal to the one given |
| `Vectors.ComponentAngles` | src/vector.rs:99-113 | read in degrees the components' angles are 0 and 90 whatever the vector, and the vertical label is 0 in radians |
| `Vectors.ComponentsDependOnRadiansOnly` | src/vector.rs:46-59 | two angles with the same radian conversion give identical components |
| `Vectors.ComponentsIgnoreAngleUnit` | src/vector.rs:46-59 | `Deg(d)` and `Rad(d*pi/180)` give identical components, and so does an angle converted into degrees |
| `Vectors.ZeroVectorComponents` | src/vector.rs:46-59 | a zero-magnitude vector has zero-magnitude components whatever sin and cos return |
| `Vectors.ComponentsScale` | src/vector.rs:46-59 | component magnitudes scale linearly with the vector's magnitude |
| `Vectors.ComponentsFormRightTriangle` | src/vector.rs:3-14 | where sin and cos satisfy the Pythagorean identity at the angle, the squared component magnitudes add up to the squared magnitude |

## Left out

- Floating point: IEEE-754 rounding, NaN and infinities are not modelled; all arithmetic is exact over the reals, so the exact-equality unit tests at src/angle.rs:72 and src/angle.rs:78 become exact facts.
- Masses.Mass.PartialCmp: returns an `Ordering` rather than an `Option<Ordering>`, because without NaN the derived comparison of two reals always exists.
- The numeric values of PI, sine and cosine: PI is only bounded and the trigonometric functions are uninterpreted, so the component tests at src/vector.rs:103 (171.0) and src/vector.rs:111 (469.8) are not modelled; their angle halves are covered by `Vectors.ComponentAngles`.
- The test helper `assert_approx_eq` (src/vector.rs:68-78) and the external `extra_asserts` crate (src/mass.rs:59): test plumbing; the tolerances they check are written out in the lemmas.
- src/lib.rs: it only declares modules and re-exports, plus a `2 + 2` test.
- Vector addition: the library does not implement it (only a commented-out test at src/vector.rs:115-118), so the model has none.
- The derived `Debug`, `Clone` and `Copy`: formatting and copying have no counterpart in a model of immutable values.

## Findings

| source | as written | input that shows it | evidently intended | confidence | as-written member | corrected member |
|---|---|---|---|---|---|---|
| src/angle.rs:56-59 | with degrees on the left, a mixed pair is compared in degrees with the same 1e-10 tolerance as in radians, so `eq` is not symmetric | `Rad(0.0) == Deg(d)` holds but `Deg(d) == Rad(0.0)` does not, for `d = to_degrees(5e-11)` (about 2.86e-9) | `==` symmetric, as Rust's `PartialEq` requires: a mixed pair compared in radians whichever side the degree angle is on | medium; not executed | `Angles.EqNotSymmetric` | `Angles.SymmetricEqIsSymmetric` |
