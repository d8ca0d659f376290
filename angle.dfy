/** `Angle` (src/angle.rs): an angle tagged as radians or degrees, its two
    conversions, its conversion to a plain number and its equality with an
    absolute tolerance of 1e-10. */
module Angles {
  import opened Trig

  /** The absolute tolerance of angle equality. */
  const Tolerance: real := 0.0000000001

  function Abs(x: real): real
  {
    if x < 0.0 then -x else x
  }

  /** The helper `is_approx_eq` nested in `eq`: the two numbers differ by
      strictly less than the tolerance. */
  predicate ApproxEq(l: real, r: real)
  {
    Abs(l - r) < Tolerance
  }

  lemma ApproxEqMeaning(l: real, r: real)
    ensures ApproxEq(l, r) <==> -Tolerance < l - r < Tolerance
    ensures ApproxEq(l, r) <==> ApproxEq(r, l)
    ensures ApproxEq(l, l)
    ensures !ApproxEq(l, l + Tolerance) && !ApproxEq(l + Tolerance, l)
  {
  }

  datatype Angle = Rad(rad: real) | Deg(deg: real)
  {
    /** `as_rad`: always a radian angle; a radian angle comes back unchanged. */
    function AsRad(): (r: Angle)
      ensures r.Rad?
      ensures Rad? ==> r == this
      ensures Deg? ==> r.rad == ToRadians(deg)
    {
      match this
      case Rad(r) => Rad(r)
      case Deg(d) => Rad(ToRadians(d))
    }

    /** `as_deg`: always a degree angle; a degree angle comes back unchanged. */
    function AsDeg(): (r: Angle)
      ensures r.Deg?
      ensures Deg? ==> r == this
      ensures Rad? ==> r.deg == ToDegrees(rad)
    {
      match this
      case Deg(d) => Deg(d)
      case Rad(r) => Deg(ToDegrees(r))
    }

    /** `From<Angle> for f64`: the stored number, whatever the unit. */
    function Value(): real
    {
      match this
      case Rad(r) => r
      case Deg(d) => d
    }

    /** `PartialEq::eq`: same-unit angles compare their numbers; otherwise
        the right operand is first converted into the left operand's unit. */
    predicate Eq(rhs: Angle)
    {
      match this
      case Rad(l) =>
        (match rhs
         case Rad(r) => ApproxEq(l, r)
         case Deg(_) => ApproxEq(l, rhs.AsRad().Value()))
      case Deg(l) =>
        (match rhs
         case Deg(r) => ApproxEq(l, r)
         case Rad(_) => ApproxEq(l, rhs.AsDeg().Value()))
    }

    /** Equality as `eq` evidently intends it, symmetric in its operands:
        same-unit angles compare as `eq` does, and a mixed pair is compared
        in radians whichever operand is the degree one. */
    predicate SymmetricEq(rhs: Angle)
    {
      if Rad? == rhs.Rad? then Eq(rhs)
      else ApproxEq(AsRad().Value(), rhs.AsRad().Value())
    }
  }

  /** Converting twice is converting once. */
  lemma ConversionsIdempotent(a: Angle)
    ensures a.AsRad().AsRad() == a.AsRad()
    ensures a.AsDeg().AsDeg() == a.AsDeg()
  {
  }

  /** Going through the other unit first changes nothing: the conversions
      agree with each other in exact arithmetic. */
  lemma ConversionsCommute(a: Angle)
    ensures a.AsRad().AsDeg() == a.AsDeg()
    ensures a.AsDeg().AsRad() == a.AsRad()
  {
    match a
    case Rad(r) => RadiansDegreesRoundTrip(r);
    case Deg(d) => RadiansDegreesRoundTrip(d);
  }

  /** Round trips through the other unit give back the original angle. */
  lemma RoundTrip(a: Angle)
    ensures a.Deg? ==> a.AsRad().AsDeg() == a
    ensures a.Rad? ==> a.AsDeg().AsRad() == a
  {
    ConversionsCommute(a);
  }

  /** The doc example and the two unit tests, in exact arithmetic:
      one degree is pi/180 radians, pi radians are 180 degrees and 180
      degrees are pi radians. */
  lemma KnownConversions()
    ensures Deg(1.0).AsRad().Value() == Pi / 180.0
    ensures Rad(Pi).AsDeg().Value() == 180.0
    ensures Deg(180.0).AsRad().Value() == Pi
  {
  }

  /** The number is the stored one whatever the tag, so a conversion is
      needed to compare numbers across units. */
  lemma ValueIgnoresTag(x: real)
    ensures Rad(x).Value() == x && Deg(x).Value() == x
  {
  }

  /** Same-unit equality holds exactly when the numbers differ by strictly
      less than the tolerance. */
  lemma EqSameUnit(l: real, r: real)
    ensures Rad(l).Eq(Rad(r)) <==> -Tolerance < l - r < Tolerance
    ensures Deg(l).Eq(Deg(r)) <==> -Tolerance < l - r < Tolerance
  {
  }

  /** Same-unit angles exactly one tolerance apart are not equal, in
      either order. */
  lemma EqBoundary(x: real)
    ensures !Rad(x).Eq(Rad(x + Tolerance)) && !Rad(x + Tolerance).Eq(Rad(x))
    ensures !Deg(x).Eq(Deg(x + Tolerance)) && !Deg(x + Tolerance).Eq(Deg(x))
  {
  }

  /** Every angle equals itself. */
  lemma EqReflexive(a: Angle)
    ensures a.Eq(a)
  {
  }

  /** Mixed-unit equality converts the right operand into the left
      operand's unit. */
  lemma EqMixedUnits(l: real, r: real)
    ensures Rad(l).Eq(Deg(r)) <==> ApproxEq(l, ToRadians(r))
    ensures Deg(l).Eq(Rad(r)) <==> ApproxEq(l, ToDegrees(r))
  {
  }

  /** An angle equals its own conversion into either unit. */
  lemma EqConverted(a: Angle)
    ensures a.Eq(a.AsRad()) && a.Eq(a.AsDeg())
    ensures a.AsRad().Eq(a) && a.AsDeg().Eq(a)
  {
    ConversionsCommute(a);
  }

  /** With degrees on the left, a mixed pair is compared against a radian
      tolerance of only Tolerance * Pi / 180 instead of Tolerance. */
  lemma DegreeOnLeftIsStricter(l: real, r: real)
    ensures Deg(l).Eq(Rad(r)) <==> Abs(ToRadians(l) - r) < Tolerance * (Pi / 180.0)
    ensures Rad(r).Eq(Deg(l)) <==> Abs(ToRadians(l) - r) < Tolerance
  {
    var k := Pi / 180.0;
    var e := l - ToDegrees(r);
    assert ToRadians(l) - r == k * e by {
      RadiansDegreesRoundTrip(r);
      assert r == ToRadians(ToDegrees(r));
    }
    ScaleBelowTolerance(k, e);
  }

  /** Multiplying by a positive factor scales an absolute value and keeps
      it below the equally scaled bound. */
  lemma ScaleBelowTolerance(k: real, e: real)
    requires k > 0.0
    ensures Abs(k * e) < Tolerance * k <==> Abs(e) < Tolerance
  {
    var a, b := Abs(e), Abs(k * e);
    assert b == k * a by {
      if e < 0.0 { assert k * e < 0.0; } else { assert k * e >= 0.0; }
    }
    ScaleLess(k, a, b, Tolerance);
  }

  lemma ScaleLess(k: real, a: real, b: real, t: real)
    requires k > 0.0 && b == k * a
    ensures b < t * k <==> a < t
  {
    assert t * k - b == k * (t - a);
    if a < t {
      assert k * (t - a) > 0.0;
    } else {
      assert k * (a - t) >= 0.0;
    }
  }

  /** `eq` is not symmetric: a radian angle of 0 equals the degree angle
      worth half a tolerance in radians, but not the other way round. */
  lemma EqNotSymmetric()
    ensures Rad(0.0).Eq(Deg(ToDegrees(Tolerance / 2.0)))
    ensures !Deg(ToDegrees(Tolerance / 2.0)).Eq(Rad(0.0))
  {
    RadiansDegreesRoundTrip(Tolerance / 2.0);
    assert 180.0 / Pi > 1.0;
    assert ToDegrees(Tolerance / 2.0) > Tolerance / 2.0 * 1.0;
  }

  /** The corrected equality is symmetric and agrees with `eq` on same-unit
      pairs and whenever the radian angle is on the left. */
  lemma SymmetricEqIsSymmetric(a: Angle, b: Angle)
    ensures a.SymmetricEq(b) <==> b.SymmetricEq(a)
    ensures a.Rad? == b.Rad? ==> (a.SymmetricEq(b) <==> a.Eq(b))
    ensures a.Rad? ==> (a.SymmetricEq(b) <==> a.Eq(b))
    ensures a.SymmetricEq(a.AsDeg()) && a.SymmetricEq(a.AsRad())
  {
    ConversionsCommute(a);
  }
}
