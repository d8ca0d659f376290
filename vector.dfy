/** `Vector` (src/vector.rs): a force given as a magnitude and an angle,
    with its vertical and horizontal components. The magnitude is a plain
    number, as the stored `f64` field is. */
module Vectors {
  import opened Trig
  import Angles

  datatype Vector = Vector(magnitude: real, direction: Angles.Angle)
  {
    /** `unit`: magnitude 1 at 0 degrees. */
    static function Unit(): (v: Vector)
      ensures v.Mag() == 1.0
      ensures v.Angle() == Angles.Deg(0.0)
    {
      Vector(1.0, Angles.Deg(0.0))
    }

    /** `from_mag_and_angle`: the accessors give back exactly what was
        passed in. */
    static function FromMagAndAngle(mag: real, angle: Angles.Angle): (v: Vector)
      ensures v.Mag() == mag && v.Angle() == angle
    {
      Vector(mag, angle)
    }

    /** `mag` */
    function Mag(): real
    {
      magnitude
    }

    /** `angle` */
    function Angle(): Angles.Angle
    {
      direction
    }

    /** The number the components feed to sin and cos: the angle in
        radians. */
    function Radians(): real
    {
      direction.AsRad().Value()
    }

    /** `vertical`: labelled 0 degrees, magnitude scaled by the sine of the
        angle in radians. */
    function Vertical(): (v: Vector)
      ensures v.Angle() == Angles.Deg(0.0)
      ensures v.Mag() == Mag() * Sin(Radians())
    {
      Vector(magnitude * Sin(direction.AsRad().Value()), Angles.Deg(0.0))
    }

    /** `horizontal`: labelled 90 degrees, magnitude scaled by the cosine
        of the angle in radians. */
    function Horizontal(): (v: Vector)
      ensures v.Angle() == Angles.Deg(90.0)
      ensures v.Mag() == Mag() * Cos(Radians())
    {
      Vector(magnitude * Cos(direction.AsRad().Value()), Angles.Deg(90.0))
    }
  }

  /** The unit test on `unit`, with the angle compared by `Angle`'s own
      equality. */
  lemma UnitVector()
    ensures Vector.Unit().Mag() == 1.0
    ensures Vector.Unit().Angle().Eq(Angles.Deg(0.0))
  {
  }

  /** The accessor tests: the magnitude and angle given are read back. */
  lemma AccessorsReadBack(mag: real, angle: Angles.Angle)
    ensures Vector.FromMagAndAngle(mag, angle).Mag() == mag
    ensures Vector.FromMagAndAngle(mag, angle).Angle().Eq(angle)
  {
    Angles.EqReflexive(angle);
  }

  /** The angles of the components are fixed labels, whatever the vector:
      read in degrees they are 0 and 90. */
  lemma ComponentAngles(v: Vector)
    ensures v.Vertical().Angle().AsDeg().Value() == 0.0
    ensures v.Horizontal().Angle().AsDeg().Value() == 90.0
    ensures v.Vertical().Radians() == 0.0
  {
  }

  /** Two angles with the same radian value give the same components. */
  lemma ComponentsDependOnRadiansOnly(mag: real, a: Angles.Angle, b: Angles.Angle)
    requires a.AsRad() == b.AsRad()
    ensures Vector.FromMagAndAngle(mag, a).Vertical() == Vector.FromMagAndAngle(mag, b).Vertical()
    ensures Vector.FromMagAndAngle(mag, a).Horizontal() == Vector.FromMagAndAngle(mag, b).Horizontal()
  {
  }

  /** A vector built in degrees and one built with the same angle in
      radians, or with its angle converted into either unit, have the same
      components. */
  lemma ComponentsIgnoreAngleUnit(mag: real, a: Angles.Angle, d: real)
    ensures Vector.FromMagAndAngle(mag, Angles.Deg(d)).Vertical()
         == Vector.FromMagAndAngle(mag, Angles.Rad(d * Pi / 180.0)).Vertical()
    ensures Vector.FromMagAndAngle(mag, Angles.Deg(d)).Horizontal()
         == Vector.FromMagAndAngle(mag, Angles.Rad(d * Pi / 180.0)).Horizontal()
    ensures Vector.FromMagAndAngle(mag, a.AsDeg()).Vertical() == Vector.FromMagAndAngle(mag, a).Vertical()
    ensures Vector.FromMagAndAngle(mag, a.AsDeg()).Horizontal() == Vector.FromMagAndAngle(mag, a).Horizontal()
  {
    assert d * (Pi / 180.0) == d * Pi / 180.0;
    Angles.ConversionsCommute(a);
  }

  /** A zero vector has zero components whatever sin and cos return. */
  lemma ZeroVectorComponents(a: Angles.Angle)
    ensures Vector.FromMagAndAngle(0.0, a).Vertical().Mag() == 0.0
    ensures Vector.FromMagAndAngle(0.0, a).Horizontal().Mag() == 0.0
  {
  }

  /** Components scale linearly with the magnitude. */
  lemma ComponentsScale(v: Vector, k: real)
    ensures Vector.FromMagAndAngle(k * v.Mag(), v.Angle()).Vertical().Mag() == k * v.Vertical().Mag()
    ensures Vector.FromMagAndAngle(k * v.Mag(), v.Angle()).Horizontal().Mag() == k * v.Horizontal().Mag()
  {
    var s, c := Sin(v.Radians()), Cos(v.Radians());
    assert k * v.Mag() * s == k * (v.Mag() * s);
    assert k * v.Mag() * c == k * (v.Mag() * c);
  }

  /** The two components are the legs of the right triangle whose
      hypotenuse is the vector: where sine and cosine satisfy the
      Pythagorean identity at the vector's angle, the squares of the
      component magnitudes add up to the square of the magnitude. */
  lemma ComponentsFormRightTriangle(v: Vector)
    requires Sin(v.Radians()) * Sin(v.Radians()) + Cos(v.Radians()) * Cos(v.Radians()) == 1.0
    ensures v.Vertical().Mag() * v.Vertical().Mag() + v.Horizontal().Mag() * v.Horizontal().Mag()
         == v.Mag() * v.Mag()
  {
    var m, s, c := v.Mag(), Sin(v.Radians()), Cos(v.Radians());
    calc {
      (m * s) * (m * s) + (m * c) * (m * c);
      m * m * (s * s + c * c);
      m * m;
    }
  }
}
