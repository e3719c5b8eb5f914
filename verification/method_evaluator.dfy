/** One processing method's cost and yield for a feed batch: recovered mass per
    metal, cost per tonne as a flat additive sum, and cost per kilogram, with
    the undefined sentinel wherever the source would produce NaN. */
module MethodEvaluator {
  import opened Metals
  import opened Optional
  import Feedstock

  /** The economic parameters shared by every method of one comparison run. */
  datatype Economics = Economics(
    energyCost: real,         // currency per kWh
    laborCostPerTonne: real,  // currency per tonne of feed
    envCostProxy: real        // currency per tonne of feed
  )

  /** The arguments of one evaluation: the method's own rates and its
      recovery fraction for each metal. */
  datatype MethodProfile = MethodProfile(
    name: string,
    energyKwhPerT: real,
    chemCostPerT: real,
    recovery: PerMetal<real>,
    capexPerT: real
  )

  /** The record one evaluation returns. */
  datatype Evaluation = Evaluation(
    name: string,
    energyKwhPerT: real,
    energyCostTotal: real,
    chemCostPerT: real,
    opCost: real,
    capexPerT: real,
    totalCostPerT: real,
    recoveredKg: PerMetal<real>,
    totalRecoveredMassKg: real,
    costPerKg: PerMetal<Option<real>>,
    costPerKgMixture: Option<real>
  )

  /** Kilograms of each metal recovered: what the feed holds times the recovery fraction. */
  function Recovered(feedKg: PerMetal<real>, recovery: PerMetal<real>): (r: PerMetal<real>)
    ensures forall m: Metal :: r.Get(m) == feedKg.Get(m) * recovery.Get(m)
    // with fractions in [0, 1] no metal is recovered beyond what the feed holds, nor below zero
    ensures AllNonNegative(feedKg) && AllWithin(recovery, 0.0, 1.0)
            ==> forall m: Metal :: 0.0 <= r.Get(m) <= feedKg.Get(m)
  {
    if AllNonNegative(feedKg) && AllWithin(recovery, 0.0, 1.0) then
      ScaledWithinFeed(feedKg, recovery);
      Products(feedKg, recovery)
    else
      Products(feedKg, recovery)
  }

  /** Each metal's feed mass times its fraction. `Evaluate` builds its record
      through this plain definition rather than `Recovered`: the bound in
      `Recovered`'s contract, once in `Evaluate`'s context, exhausts the solver. */
  function Products(feedKg: PerMetal<real>, recovery: PerMetal<real>): PerMetal<real> {
    PerMetal(feedKg.au * recovery.au, feedKg.pd * recovery.pd, feedKg.cu * recovery.cu)
  }

  /** Every metal's feed mass scaled by its fraction lies between zero and that feed mass. */
  lemma ScaledWithinFeed(feedKg: PerMetal<real>, recovery: PerMetal<real>)
    requires AllNonNegative(feedKg)
    requires AllWithin(recovery, 0.0, 1.0)
    ensures forall m: Metal :: 0.0 <= Products(feedKg, recovery).Get(m) <= feedKg.Get(m)
  {
    forall m: Metal
      ensures 0.0 <= Products(feedKg, recovery).Get(m) <= feedKg.Get(m)
    {
      var kg, fraction := feedKg.Get(m), recovery.Get(m);
      Feedstock.ScaledByFraction(kg, fraction);
      assert Products(feedKg, recovery).Get(m) == kg * fraction;
    }
  }

  /** Blended cost per kilogram of the recovered mixture; undefined unless
      something was recovered. */
  function MixtureCost(totalCostPerT: real, totalKg: real): (r: Option<real>)
    ensures r.Some? <==> totalKg > 0.0
    // the blended rate times the batch's recovered kilograms gives back the total cost per tonne
    ensures r.Some? ==> r.value * totalKg == totalCostPerT
  {
    if totalKg > 0.0 then
      DivisionRoundTrip(totalCostPerT, totalKg);
      Some(totalCostPerT / totalKg)
    else
      None
  }

  /** One metal's cost per kilogram as the source writes it: the total cost is
      first allocated by the metal's share of the recovered mass, then divided
      by the metal's own mass. Undefined unless both masses are positive. */
  function MetalCostAsWritten(totalCostPerT: real, metalKg: real, totalKg: real): (r: Option<real>)
    ensures r.Some? <==> metalKg > 0.0 && totalKg > 0.0
    // the share cancels: every recovered metal is charged the blended rate
    ensures r.Some? ==> r == MixtureCost(totalCostPerT, totalKg)
    ensures r.Some? ==> r.value * totalKg == totalCostPerT
  {
    if metalKg > 0.0 && totalKg > 0.0 then
      ShareCancels(totalCostPerT, metalKg, totalKg);
      Some((totalCostPerT * (metalKg / totalKg)) / metalKg)
    else
      None
  }

  /** Evaluates one method on a batch of feed under the shared economics. */
  function Evaluate(feed: Feedstock.FeedMass, econ: Economics, p: MethodProfile): (e: Evaluation)
    // the inputs are echoed unchanged
    ensures e.name == p.name && e.energyKwhPerT == p.energyKwhPerT
    ensures e.chemCostPerT == p.chemCostPerT && e.capexPerT == p.capexPerT
    // recovered mass per metal and in total
    ensures forall m: Metal :: e.recoveredKg.Get(m) == feed.metalKg.Get(m) * p.recovery.Get(m)
    ensures e.recoveredKg == Recovered(feed.metalKg, p.recovery)
    ensures e.totalRecoveredMassKg == e.recoveredKg.au + e.recoveredKg.pd + e.recoveredKg.cu
    // flat additive cost: five components, grouped as operating cost plus capex
    ensures e.energyCostTotal == p.energyKwhPerT * econ.energyCost
    ensures e.totalCostPerT
            == p.energyKwhPerT * econ.energyCost + p.chemCostPerT + econ.laborCostPerTonne
               + econ.envCostProxy + p.capexPerT
    ensures e.totalCostPerT == e.opCost + e.capexPerT
    // blended cost: defined exactly when something was recovered, and then times the recovered
    // kilograms it gives back the total cost per tonne
    ensures e.costPerKgMixture.Some? <==> e.totalRecoveredMassKg > 0.0
    ensures e.costPerKgMixture.Some?
            ==> e.costPerKgMixture.value * e.totalRecoveredMassKg == e.totalCostPerT
    // per metal: defined exactly when that metal and the total are positive, and then equal to the blended cost
    ensures forall m: Metal ::
              e.costPerKg.Get(m).Some? <==> e.recoveredKg.Get(m) > 0.0 && e.totalRecoveredMassKg > 0.0
    ensures forall m: Metal :: e.costPerKg.Get(m).Some? ==> e.costPerKg.Get(m) == e.costPerKgMixture
  {
    var rec := Products(feed.metalKg, p.recovery);
    var energyCostTotal := p.energyKwhPerT * econ.energyCost;
    var opCost := energyCostTotal + p.chemCostPerT + econ.laborCostPerTonne + econ.envCostProxy;
    var totalCostPerT := opCost + p.capexPerT;
    var totalKg := Total(rec);
    var costPerKg := PerMetal(MetalCostAsWritten(totalCostPerT, rec.au, totalKg),
                              MetalCostAsWritten(totalCostPerT, rec.pd, totalKg),
                              MetalCostAsWritten(totalCostPerT, rec.cu, totalKg));
    Evaluation(p.name, p.energyKwhPerT, energyCostTotal, p.chemCostPerT, opCost, p.capexPerT,
               totalCostPerT, rec, totalKg, costPerKg, MixtureCost(totalCostPerT, totalKg))
  }

  /** Dividing by a positive amount and multiplying back returns the original. */
  lemma DivisionRoundTrip(c: real, t: real)
    requires t > 0.0
    ensures (c / t) * t == c
  {
  }

  /** Allocating a cost by the share v/t and then dividing by v is dividing by t. */
  lemma ShareCancels(c: real, v: real, t: real)
    requires v > 0.0 && t > 0.0
    ensures (c * (v / t)) / v == c / t
  {
  }

  /** With non-negative feed masses and recovery fractions in [0, 1], each
      recovered mass lies between zero and what the feed holds, and so does the total. */
  lemma RecoveredWithinFeed(feedKg: PerMetal<real>, recovery: PerMetal<real>)
    requires AllNonNegative(feedKg)
    requires AllWithin(recovery, 0.0, 1.0)
    ensures AllNonNegative(Recovered(feedKg, recovery))
    ensures forall m: Metal :: Recovered(feedKg, recovery).Get(m) <= feedKg.Get(m)
    ensures 0.0 <= Total(Recovered(feedKg, recovery)) <= Total(feedKg)
  {
    var r := Recovered(feedKg, recovery);
    assert r.Get(Au) <= feedKg.Get(Au) && r.Get(Pd) <= feedKg.Get(Pd) && r.Get(Cu) <= feedKg.Get(Cu);
    assert 0.0 <= r.Get(Au) && 0.0 <= r.Get(Pd) && 0.0 <= r.Get(Cu);
  }

  /** A metal present in the feed and recovered at a positive rate (with all
      masses non-negative, exactly a metal whose recovered mass is positive)
      forces the total to be positive, so its cost per kilogram is defined and
      is the blended rate: total cost divided by total recovered mass. */
  lemma RecoveredMetalPaysBlendedRate(feed: Feedstock.FeedMass, econ: Economics, p: MethodProfile, m: Metal)
    requires AllNonNegative(feed.metalKg)
    requires AllWithin(p.recovery, 0.0, 1.0)
    requires feed.metalKg.Get(m) > 0.0 && p.recovery.Get(m) > 0.0
    ensures Evaluate(feed, econ, p).recoveredKg.Get(m) > 0.0
    ensures Evaluate(feed, econ, p).totalRecoveredMassKg > 0.0
    ensures Evaluate(feed, econ, p).costPerKg.Get(m)
            == Some(Evaluate(feed, econ, p).totalCostPerT / Evaluate(feed, econ, p).totalRecoveredMassKg)
  {
    var e := Evaluate(feed, econ, p);
    PositiveProduct(feed.metalKg.Get(m), p.recovery.Get(m));
    assert e.recoveredKg.Get(m) > 0.0;
    RecoveredWithinFeed(feed.metalKg, p.recovery);
    NonNegativeTotal(e.recoveredKg);
    assert e.costPerKg.Get(m) == e.costPerKgMixture;
  }

  /** The product of two positive amounts is positive. */
  lemma PositiveProduct(x: real, y: real)
    requires 0.0 < x && 0.0 < y
    ensures 0.0 < x * y
  {
  }

  /** Any two recovered metals are charged the same rate per kilogram. */
  lemma SameRateForRecoveredMetals(feed: Feedstock.FeedMass, econ: Economics, p: MethodProfile, m: Metal, n: Metal)
    requires AllNonNegative(feed.metalKg)
    requires AllWithin(p.recovery, 0.0, 1.0)
    requires feed.metalKg.Get(m) > 0.0 && p.recovery.Get(m) > 0.0
    requires feed.metalKg.Get(n) > 0.0 && p.recovery.Get(n) > 0.0
    ensures Evaluate(feed, econ, p).costPerKg.Get(m).Some?
    ensures Evaluate(feed, econ, p).costPerKg.Get(m) == Evaluate(feed, econ, p).costPerKg.Get(n)
  {
    RecoveredMetalPaysBlendedRate(feed, econ, p, m);
    RecoveredMetalPaysBlendedRate(feed, econ, p, n);
  }

  /** A metal with nothing recovered gets the undefined sentinel, even when
      another metal was recovered and the blended cost is defined. */
  lemma UnrecoveredMetalIsUndefined(feed: Feedstock.FeedMass, econ: Economics, p: MethodProfile, m: Metal, n: Metal)
    requires AllNonNegative(feed.metalKg)
    requires AllWithin(p.recovery, 0.0, 1.0)
    requires p.recovery.Get(m) == 0.0
    requires feed.metalKg.Get(n) > 0.0 && p.recovery.Get(n) > 0.0
    ensures Evaluate(feed, econ, p).costPerKgMixture.Some?
    ensures Evaluate(feed, econ, p).costPerKg.Get(m) == None
  {
    var e := Evaluate(feed, econ, p);
    assert e.recoveredKg.Get(m) == feed.metalKg.Get(m) * 0.0;
    RecoveredMetalPaysBlendedRate(feed, econ, p, n);
  }

  /** With every recovery fraction zero nothing is recovered, and every cost
      per kilogram, blended or per metal, is the undefined sentinel: the
      division is never attempted. */
  lemma NothingRecoveredAllUndefined(feed: Feedstock.FeedMass, econ: Economics, p: MethodProfile)
    requires p.recovery == PerMetal(0.0, 0.0, 0.0)
    ensures Evaluate(feed, econ, p).totalRecoveredMassKg == 0.0
    ensures Evaluate(feed, econ, p).costPerKgMixture == None
    ensures forall m: Metal :: Evaluate(feed, econ, p).costPerKg.Get(m) == None
  {
    var e := Evaluate(feed, econ, p);
    assert e.recoveredKg.Get(Au) == feed.metalKg.Get(Au) * 0.0;
    assert e.recoveredKg.Get(Pd) == feed.metalKg.Get(Pd) * 0.0;
    assert e.recoveredKg.Get(Cu) == feed.metalKg.Get(Cu) * 0.0;
  }

  /** With non-negative masses and fractions, the blended cost is undefined
      exactly when no metal at all was recovered. */
  lemma MixtureUndefinedIffNothingRecovered(feed: Feedstock.FeedMass, econ: Economics, p: MethodProfile)
    requires AllNonNegative(feed.metalKg)
    requires AllWithin(p.recovery, 0.0, 1.0)
    ensures Evaluate(feed, econ, p).costPerKgMixture == None
            <==> Evaluate(feed, econ, p).recoveredKg == PerMetal(0.0, 0.0, 0.0)
  {
    var e := Evaluate(feed, econ, p);
    RecoveredWithinFeed(feed.metalKg, p.recovery);
    assert e.recoveredKg == Recovered(feed.metalKg, p.recovery);
    NonNegativeTotal(e.recoveredKg);
  }

  /** Worked example: one tonne of feed with 0.5 kg of gold, a method using
      1500 kWh per tonne at 0.06 per kWh, chemicals 30, capex 200, labor 50 and
      environmental proxy 20 per tonne, recovering 95% of the gold. */
  lemma GoldOnlyExample()
    ensures Feedstock.Derive(Feedstock.Feed(1.0, PerMetal(0.0005, 0.0, 0.0))).metalKg == PerMetal(0.5, 0.0, 0.0)
    ensures var e := Evaluate(Feedstock.Derive(Feedstock.Feed(1.0, PerMetal(0.0005, 0.0, 0.0))),
                              Economics(0.06, 50.0, 20.0),
                              MethodProfile("Pyrometallurgy", 1500.0, 30.0, PerMetal(0.95, 0.90, 0.95), 200.0));
            && e.energyCostTotal == 90.0
            && e.opCost == 190.0
            && e.totalCostPerT == 390.0
            && e.recoveredKg == PerMetal(0.475, 0.0, 0.0)
            && e.costPerKgMixture == Some(390.0 / 0.475)
            && e.costPerKg == PerMetal(Some(390.0 / 0.475), None, None)
  {
  }

  /** The blended cost divides a cost per tonne by the batch's recovered
      kilograms, so k times the recovered mass gives 1/k of the rate. */
  lemma MixtureCostScalesInversely(totalCostPerT: real, totalKg: real, k: real)
    requires 0.0 < totalKg && 0.0 < k
    ensures MixtureCost(totalCostPerT, k * totalKg)
            == Some(MixtureCost(totalCostPerT, totalKg).value / k)
  {
    QuotientOfProduct(totalCostPerT, totalKg, k);
  }

  /** Dividing by k * t is dividing by t, then by k. */
  lemma QuotientOfProduct(c: real, t: real, k: real)
    requires 0.0 < t && 0.0 < k
    ensures 0.0 < k * t
    ensures c / (k * t) == (c / t) / k
  {
    var q := c / t;
    assert q * t == c;
    assert (q / k) * (k * t) == q * t;
  }

  /** With the app's default feed and pyrometallurgy inputs, a 2-tonne batch
      has the same cost per tonne as a 1-tonne batch but twice the recovered
      mass, so half the blended cost per kilogram and half each metal's. */
  lemma TwoTonnesHalveCostPerKg()
    ensures var fraction := PerMetal(0.0005, 0.0002, 0.20);
            var econ := Economics(0.06, 50.0, 20.0);
            var pyro := MethodProfile("Pyrometallurgy", 1500.0, 30.0, PerMetal(0.95, 0.90, 0.95), 200.0);
            var one := Evaluate(Feedstock.Derive(Feedstock.Feed(1.0, fraction)), econ, pyro);
            var two := Evaluate(Feedstock.Derive(Feedstock.Feed(2.0, fraction)), econ, pyro);
            && one.totalCostPerT == two.totalCostPerT == 390.0
            && two.totalRecoveredMassKg == 2.0 * one.totalRecoveredMassKg
            && one.costPerKgMixture.Some? && two.costPerKgMixture.Some?
            && two.costPerKgMixture.value == one.costPerKgMixture.value / 2.0
            && two.costPerKg.au.Some? && two.costPerKg.au.value == one.costPerKg.au.value / 2.0
            && two.costPerKg.pd.Some? && two.costPerKg.pd.value == one.costPerKg.pd.value / 2.0
            && two.costPerKg.cu.Some? && two.costPerKg.cu.value == one.costPerKg.cu.value / 2.0
  {
  }
}
