/** One comparison run: the feed batch is converted once and the four methods,
    pyrometallurgy, hydrometallurgy, bioleaching and informal recovery, are
    each evaluated against it under the same economics. */
module Comparison {
  import opened Metals
  import Feedstock
  import MethodEvaluator
  import RecoveryInput
  import Bioleaching

  /** A method's own fields: energy, chemical cost, recovery percentages and
      amortized capex, all per tonne of feed. */
  datatype MethodRates = MethodRates(
    energyKwhPerT: real,
    chemCostPerT: real,
    recoveryPercent: PerMetal<real>,
    capexPerT: real
  )

  /** Recovery percentages stay within the fields' [0, 100] bounds. */
  predicate RatesInRange(r: MethodRates) {
    AllWithin(r.recoveryPercent, 0.0, 100.0)
  }

  /** The profile a non-bioleaching method's evaluation receives. */
  function ProfileOf(name: string, r: MethodRates): (p: MethodEvaluator.MethodProfile)
    requires RatesInRange(r)
    ensures p.name == name && p.capexPerT == r.capexPerT
    ensures p.energyKwhPerT == r.energyKwhPerT && p.chemCostPerT == r.chemCostPerT
    ensures AllWithin(p.recovery, 0.0, 1.0)
    ensures forall m: Metal :: p.recovery.Get(m) * 100.0 == r.recoveryPercent.Get(m)
  {
    MethodEvaluator.MethodProfile(name, r.energyKwhPerT, r.chemCostPerT,
                                  RecoveryInput.FractionsFromPercents(r.recoveryPercent), r.capexPerT)
  }

  /** Evaluates the four methods in their display order. */
  function Compare(feed: Feedstock.Feed, econ: MethodEvaluator.Economics,
                   pyro: MethodRates, hydro: MethodRates, bio: Bioleaching.BioInputs, informal: MethodRates)
    : (r: seq<MethodEvaluator.Evaluation>)
    requires RatesInRange(pyro) && RatesInRange(hydro) && RatesInRange(informal)
    requires Bioleaching.EditsInRange(bio.recoveryEdits)
    ensures |r| == 4
    // every method is evaluated against the same converted batch
    ensures r[0] == MethodEvaluator.Evaluate(Feedstock.Derive(feed), econ, ProfileOf("Pyrometallurgy", pyro))
    ensures r[1] == MethodEvaluator.Evaluate(Feedstock.Derive(feed), econ, ProfileOf("Hydrometallurgy", hydro))
    ensures r[2] == MethodEvaluator.Evaluate(Feedstock.Derive(feed), econ, Bioleaching.Profile(bio))
    ensures r[3] == MethodEvaluator.Evaluate(Feedstock.Derive(feed), econ, ProfileOf("Informal (Egypt)", informal))
    ensures r[0].name == "Pyrometallurgy" && r[1].name == "Hydrometallurgy"
    ensures r[2].name == "Bioleaching (" + bio.microbeChoice + ")" && r[3].name == "Informal (Egypt)"
    ensures r[0].capexPerT == pyro.capexPerT && r[1].capexPerT == hydro.capexPerT
    ensures r[2].capexPerT == bio.capexPerT && r[3].capexPerT == informal.capexPerT
    // labor and the environmental proxy are charged identically to every method
    ensures forall i :: 0 <= i < |r| ==>
              r[i].opCost - r[i].energyCostTotal - r[i].chemCostPerT
              == econ.laborCostPerTonne + econ.envCostProxy
  {
    var mass := Feedstock.Derive(feed);
    [MethodEvaluator.Evaluate(mass, econ, ProfileOf("Pyrometallurgy", pyro)),
     MethodEvaluator.Evaluate(mass, econ, ProfileOf("Hydrometallurgy", hydro)),
     MethodEvaluator.Evaluate(mass, econ, Bioleaching.Profile(bio)),
     MethodEvaluator.Evaluate(mass, econ, ProfileOf("Informal (Egypt)", informal))]
  }

  /** For a physical batch (non-negative mass, fractions in [0, 1]) no method
      recovers more of a metal than the feed holds. */
  lemma NoMethodRecoversMoreThanFed(feed: Feedstock.Feed, econ: MethodEvaluator.Economics,
                                    pyro: MethodRates, hydro: MethodRates, bio: Bioleaching.BioInputs,
                                    informal: MethodRates, i: nat, m: Metal)
    requires RatesInRange(pyro) && RatesInRange(hydro) && RatesInRange(informal)
    requires Bioleaching.EditsInRange(bio.recoveryEdits)
    requires 0.0 <= feed.tonnes && AllWithin(feed.fraction, 0.0, 1.0)
    requires i < 4
    ensures 0.0 <= Compare(feed, econ, pyro, hydro, bio, informal)[i].recoveredKg.Get(m)
                 <= Feedstock.Derive(feed).metalKg.Get(m)
  {
    var mass := Feedstock.Derive(feed);
    Feedstock.DeriveWithinFeed(feed);
    var p :=
      if i == 0 then ProfileOf("Pyrometallurgy", pyro)
      else if i == 1 then ProfileOf("Hydrometallurgy", hydro)
      else if i == 2 then Bioleaching.Profile(bio)
      else ProfileOf("Informal (Egypt)", informal);
    assert Compare(feed, econ, pyro, hydro, bio, informal)[i] == MethodEvaluator.Evaluate(mass, econ, p);
    MethodEvaluator.RecoveredWithinFeed(mass.metalKg, p.recovery);
    assert MethodEvaluator.Evaluate(mass, econ, p).recoveredKg
           == MethodEvaluator.Recovered(mass.metalKg, p.recovery);
  }
}
