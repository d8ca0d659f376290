/** `Mass` (src/mass.rs): a mass tagged as pounds or grams, its two
    conversions, scaling by a number, subtraction, conversion to a plain
    number, and the structural equality and ordering that Rust derives. */
module Masses {

  /** Grams in a pound, as `as_gram` multiplies. */
  const GramsPerPound: real := 453.59237

  /** Pounds in a gram, as `as_lb` multiplies. */
  const PoundsPerGram: real := 0.00220462

  /** The result of a derived `partial_cmp`; over exact reals it always
      exists, so the `Option` around it is dropped. */
  datatype Ordering = Less | Equal | Greater

  function CompareReals(x: real, y: real): Ordering
  {
    if x < y then Less else if x == y then Equal else Greater
  }

  datatype Mass = Lb(lb: real) | G(g: real)
  {
    /** `as_gram`: always grams; grams unchanged, pounds scaled by
        GramsPerPound. */
    function AsGram(): (r: Mass)
      ensures r.G?
      ensures G? ==> r == this
      ensures Lb? ==> r.g == lb * GramsPerPound
    {
      G(match this
        case Lb(l) => l * GramsPerPound
        case G(g) => g)
    }

    /** `as_lb`: always pounds; pounds unchanged, grams scaled by
        PoundsPerGram. */
    function AsLb(): (r: Mass)
      ensures r.Lb?
      ensures Lb? ==> r == this
      ensures G? ==> r.lb == g * PoundsPerGram
    {
      Lb(match this
         case Lb(l) => l
         case G(g) => g * PoundsPerGram)
    }

    /** `From<Mass> for f64`: the stored number, whatever the unit. */
    function Value(): real
    {
      match this
      case G(g) => g
      case Lb(l) => l
    }

    /** `Mul<f64>`: keeps the unit and multiplies the number. */
    function Mul(rhs: real): (r: Mass)
      ensures r.Lb? == Lb?
      ensures r.Value() == Value() * rhs
    {
      match this
      case Lb(l) => Lb(l * rhs)
      case G(g) => G(g * rhs)
    }

    /** `Sub`: converts the subtrahend into the minuend's unit, then
        subtracts; the result carries the minuend's unit. */
    function Sub(rhs: Mass): (r: Mass)
      ensures r.Lb? == Lb?
      ensures Lb? ==> r.Value() + rhs.AsLb().Value() == Value()
      ensures G? ==> r.Value() + rhs.AsGram().Value() == Value()
    {
      match this
      case Lb(l) => Lb(l - rhs.AsLb().Value())
      case G(g) => G(g - rhs.AsGram().Value())
    }

    /** Derived `PartialEq`: same variant and same number. */
    predicate Eq(rhs: Mass)
    {
      match (this, rhs)
      case (Lb(l), Lb(r)) => l == r
      case (G(l), G(r)) => l == r
      case _ => false
    }

    /** Position of the variant in the declaration, which the derived
        ordering compares first. */
    function Discriminant(): nat
    {
      if Lb? then 0 else 1
    }

    /** Derived `PartialOrd::partial_cmp`: the variant first, then the number. */
    function PartialCmp(rhs: Mass): Ordering
    {
      if Discriminant() != rhs.Discriminant() then
        CompareReals(Discriminant() as real, rhs.Discriminant() as real)
      else
        CompareReals(Value(), rhs.Value())
    }

    /** The derived `<` and `<=`. */
    predicate Lt(rhs: Mass)
    {
      PartialCmp(rhs) == Less
    }

    predicate Le(rhs: Mass)
    {
      PartialCmp(rhs) != Greater
    }
  }

  /** Converting twice is converting once. */
  lemma ConversionsIdempotent(m: Mass)
    ensures m.AsGram().AsGram() == m.AsGram()
    ensures m.AsLb().AsLb() == m.AsLb()
  {
  }

  /** The two factors are not exact reciprocals: a pound-to-gram-to-pound
      round trip scales by 0.9999988107494, so it changes every non-zero
      mass, by less than two millionths of it. */
  lemma RoundTripDrift(l: real)
    ensures Lb(l).AsGram().AsLb() == Lb(l * 0.9999988107494)
    ensures G(l).AsLb().AsGram() == G(l * 0.9999988107494)
    ensures l != 0.0 ==> Lb(l).AsGram().AsLb() != Lb(l)
    ensures -0.000002 * l * l <= (Lb(l).AsGram().AsLb().lb - l) * l <= 0.0
  {
    assert GramsPerPound * PoundsPerGram == 0.9999988107494;
  }

  /** The two unit tests: one pound is within 1.0 of 453 grams, 1000 grams
      are within 0.1 of 2.2 pounds. */
  lemma KnownConversions()
    ensures -1.0 < Lb(1.0).AsGram().Value() - 453.0 < 1.0
    ensures -0.1 < G(1000.0).AsLb().Value() - 2.2 < 0.1
  {
  }

  /** The number is the stored one whatever the tag. */
  lemma ValueIgnoresTag(x: real)
    ensures Lb(x).Value() == x && G(x).Value() == x
  {
  }

  /** Scaling by 1 is the identity, and scalings compose by multiplying. */
  lemma MulIdentityAndComposition(m: Mass, a: real, b: real)
    ensures m.Mul(1.0) == m
    ensures m.Mul(a).Mul(b) == m.Mul(a * b)
    ensures m.Mul(0.0).Value() == 0.0
  {
    match m
    case Lb(l) => assert l * a * b == l * (a * b);
    case G(g) => assert g * a * b == g * (a * b);
  }

  /** Subtracting a zero mass in either unit gives back the minuend, and
      a mass minus itself is zero in its own unit. */
  lemma SubZeroAndSelf(m: Mass)
    ensures m.Sub(Lb(0.0)) == m && m.Sub(G(0.0)) == m
    ensures m.Sub(m) == m.Mul(0.0)
    ensures Lb(10.0).Sub(G(0.0)) == Lb(10.0)
  {
  }

  /** Only the converted value of the subtrahend matters: its unit does not. */
  lemma SubSeesConvertedSubtrahend(m: Mass, n: Mass)
    ensures m.Lb? ==> m.Sub(n) == m.Sub(n.AsLb())
    ensures m.G? ==> m.Sub(n) == m.Sub(n.AsGram())
  {
  }

  /** Equality is structural: it holds exactly for identical values, so a
      pound does not equal its weight in grams. */
  lemma EqIsStructural(m: Mass, n: Mass)
    ensures m.Eq(n) <==> m == n
    ensures m.Eq(n) <==> m.PartialCmp(n) == Equal
    ensures Lb(1.0).AsGram() == G(453.59237) && !Lb(1.0).Eq(G(453.59237))
  {
  }

  /** Every pound mass orders before every gram mass; same-unit masses
      order by their numbers. */
  lemma OrderingByUnitThenNumber(x: real, y: real)
    ensures Lb(x).Lt(G(y)) && !G(y).Le(Lb(x))
    ensures Lb(x).Lt(Lb(y)) <==> x < y
    ensures G(x).Lt(G(y)) <==> x < y
    ensures Lb(x).Le(Lb(y)) <==> x <= y
    ensures G(x).Le(G(y)) <==> x <= y
  {
  }

  /** The derived ordering is a total order on masses. */
  lemma OrderingIsTotalOrder(a: Mass, b: Mass, c: Mass)
    ensures a.Le(a)
    ensures a.Le(b) && b.Le(a) ==> a == b
    ensures a.Le(b) && b.Le(c) ==> a.Le(c)
    ensures a.Le(b) || b.Le(a)
    ensures a.Lt(b) <==> a.Le(b) && !a.Eq(b)
    ensures a.PartialCmp(b) == Less <==> b.PartialCmp(a) == Greater
  {
  }
}
