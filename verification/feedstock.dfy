/** The feed batch: its mass in tonnes and the mass fraction of each metal,
    and the kilograms of each metal it holds. */
module Feedstock {
  import opened Metals

  const KgPerTonne: real := 1000.0

  /** The batch as entered: tonnes of e-waste and, per metal, its mass fraction
      (kilograms of metal per kilogram of feed). */
  datatype Feed = Feed(tonnes: real, fraction: PerMetal<real>)

  /** The batch in kilograms: total feed mass and the mass of each metal in it. */
  datatype FeedMass = FeedMass(feedKg: real, metalKg: PerMetal<real>)

  /** Copper's mass as the source writes it: feed kilograms times fraction,
      then multiplied by 1000 and divided by 1000 again. The extra factor
      changes nothing. */
  function CuMassAsWritten(feedKg: real, cuFraction: real): (kg: real)
    ensures kg == feedKg * cuFraction
  {
    feedKg * cuFraction * 1000.0 / 1000.0
  }

  /** Converts the batch to kilograms of feed and of each metal. */
  function Derive(f: Feed): (m: FeedMass)
    // every metal is converted by the same rule, copper's extra factor included
    ensures forall x: Metal :: m.metalKg.Get(x) == m.feedKg * f.fraction.Get(x)
    // the kilogram figure and the tonne figure describe the same batch
    ensures m.feedKg / KgPerTonne == f.tonnes
  {
    var feedKg := f.tonnes * KgPerTonne;
    FeedMass(feedKg,
             PerMetal(feedKg * f.fraction.au,
                      feedKg * f.fraction.pd,
                      CuMassAsWritten(feedKg, f.fraction.cu)))
  }

  /** With a non-negative batch and fractions in [0, 1], each metal's mass is
      non-negative and no larger than the feed mass. */
  lemma DeriveWithinFeed(f: Feed)
    requires 0.0 <= f.tonnes
    requires AllWithin(f.fraction, 0.0, 1.0)
    ensures 0.0 <= Derive(f).feedKg
    ensures AllNonNegative(Derive(f).metalKg)
    ensures forall x: Metal :: Derive(f).metalKg.Get(x) <= Derive(f).feedKg
  {
    var m := Derive(f);
    var kg := m.feedKg;
    assert 0.0 <= kg;
    assert f.fraction.Get(Au) <= 1.0 && f.fraction.Get(Pd) <= 1.0 && f.fraction.Get(Cu) <= 1.0;
    ScaledByFraction(kg, f.fraction.au);
    ScaledByFraction(kg, f.fraction.pd);
    ScaledByFraction(kg, f.fraction.cu);
  }

  /** A non-negative mass scaled by a fraction in [0, 1] stays between zero and the mass. */
  lemma ScaledByFraction(mass: real, fraction: real)
    requires 0.0 <= mass
    requires 0.0 <= fraction <= 1.0
    ensures 0.0 <= mass * fraction <= mass
  {
    assert mass * fraction <= mass * 1.0;
  }

  /** k times the tonnage of the same feed holds k times as much of every metal. */
  lemma DeriveScales(fraction: PerMetal<real>, tonnes: real, k: real)
    ensures forall x: Metal ::
              Derive(Feed(k * tonnes, fraction)).metalKg.Get(x) == k * Derive(Feed(tonnes, fraction)).metalKg.Get(x)
  {
    var one := Derive(Feed(tonnes, fraction));
    var many := Derive(Feed(k * tonnes, fraction));
    forall x: Metal
      ensures many.metalKg.Get(x) == k * one.metalKg.Get(x)
    {
      assert one.metalKg.Get(x) == (tonnes * KgPerTonne) * fraction.Get(x);
      assert many.metalKg.Get(x) == (k * tonnes * KgPerTonne) * fraction.Get(x);
    }
  }
}
