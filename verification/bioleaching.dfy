/** How the bioleaching method's parameters are put together: the chosen
    microorganism sets default recoveries and a culture-cost factor, and the
    method's energy, chemical cost and capex are composed from condition costs. */
module Bioleaching {
  import opened Metals
  import opened Optional
  import RecoveryInput
  import MethodEvaluator
  import Feedstock

  const Ferrooxidans: string := "A. ferrooxidans"
  const Thiooxidans: string := "A. thiooxidans"
  const Leptospirillum: string := "Leptospirillum"
  const Consortium: string := "Consortium"

  /** Default input values of the bioleaching fields. */
  const DefaultEnergyBaselineKwhPerT: real := 50.0
  const DefaultReagentsCostPerT: real := 30.0
  const DefaultAerationEnergyKwhPerT: real := 30.0
  const DefaultPhControlCostPerT: real := 20.0
  const DefaultCultureCostPerT: real := 15.0
  const DefaultCapexPerT: real := 50.0

  /** What the microbe choice fixes: default recovery fractions and the factor
      applied to the culture cost. */
  datatype MicrobeDefaults = MicrobeDefaults(recovery: PerMetal<real>, costFactor: real)

  /** The consortium's row, also taken by any choice the table does not name. */
  const ConsortiumDefaults: MicrobeDefaults := MicrobeDefaults(PerMetal(0.55, 0.40, 0.90), 1.4)

  /** The microbe table. Any choice other than the three named species takes
      the consortium's row. */
  function Lookup(choice: string): (d: MicrobeDefaults)
    ensures AllWithin(d.recovery, 0.0, 1.0)
    ensures 0.9 <= d.costFactor <= 1.4
    // for every microbe copper leaches best and palladium worst
    ensures d.recovery.pd < d.recovery.au < d.recovery.cu
    // the consortium recovers at least as much of every metal as any single species, at the highest factor
    ensures forall m: Metal :: d.recovery.Get(m) <= ConsortiumDefaults.recovery.Get(m)
    ensures d.costFactor <= ConsortiumDefaults.costFactor
    // the named species each have their own row; everything else is the consortium
    ensures d == ConsortiumDefaults
            <==> choice != Ferrooxidans && choice != Thiooxidans && choice != Leptospirillum
  {
    if choice == Ferrooxidans then MicrobeDefaults(PerMetal(0.40, 0.30, 0.85), 1.0)
    else if choice == Thiooxidans then MicrobeDefaults(PerMetal(0.30, 0.25, 0.80), 0.9)
    else if choice == Leptospirillum then MicrobeDefaults(PerMetal(0.35, 0.28, 0.82), 1.1)
    else ConsortiumDefaults
  }

  /** The bioleaching fields as entered. `cultureBaseCostPerT` is the culture
      cost before the microbe factor; `energyOverride` is a total energy typed
      over the computed default; `recoveryEdits` are the percentages typed
      over the microbe's defaults. */
  datatype BioInputs = BioInputs(
    microbeChoice: string,
    energyBaselineKwhPerT: real,
    reagentsCostPerT: real,
    aerationEnergyKwhPerT: real,
    pHControlCostPerT: real,
    cultureBaseCostPerT: real,
    energyOverride: Option<real>,
    recoveryEdits: PerMetal<Option<real>>,
    capexPerT: real
  )

  /** Every field left at its default, for the given microbe. */
  function DefaultInputs(choice: string): BioInputs {
    BioInputs(choice, DefaultEnergyBaselineKwhPerT, DefaultReagentsCostPerT,
              DefaultAerationEnergyKwhPerT, DefaultPhControlCostPerT, DefaultCultureCostPerT,
              None, PerMetal(None, None, None), DefaultCapexPerT)
  }

  /** Percentage edits stay within the fields' [0, 100] bounds. */
  predicate EditsInRange(edits: PerMetal<Option<real>>) {
    forall m: Metal :: edits.Get(m).Some? ==> 0.0 <= edits.Get(m).value <= 100.0
  }

  /** Culture and maintenance cost per tonne after the microbe factor. */
  function CultureCost(bio: BioInputs): (c: real)
    // with a positive base cost, a costlier microbe costs more
    ensures 0.0 < bio.cultureBaseCostPerT && Lookup(bio.microbeChoice).costFactor > 1.0
            ==> c > bio.cultureBaseCostPerT
    ensures c / Lookup(bio.microbeChoice).costFactor == bio.cultureBaseCostPerT
  {
    bio.cultureBaseCostPerT * Lookup(bio.microbeChoice).costFactor
  }

  /** Total bioleaching energy per tonne: the typed value if any, else baseline plus aeration. */
  function TotalEnergy(bio: BioInputs): (kwh: real)
    ensures bio.energyOverride.None?
            ==> kwh - bio.aerationEnergyKwhPerT == bio.energyBaselineKwhPerT
    ensures bio.energyOverride.Some? ==> kwh == bio.energyOverride.value
    // aeration only adds to the baseline, never lowers it
    ensures bio.energyOverride.None? && 0.0 <= bio.aerationEnergyKwhPerT
            ==> bio.energyBaselineKwhPerT <= kwh
  {
    bio.energyOverride.GetOr(bio.energyBaselineKwhPerT + bio.aerationEnergyKwhPerT)
  }

  /** Chemical cost per tonne passed to the evaluation: reagents and nutrients,
      pH control, and the factored culture cost. */
  function ChemicalCost(bio: BioInputs): (c: real)
    ensures c - bio.reagentsCostPerT - bio.pHControlCostPerT == CultureCost(bio)
    // whatever the microbe, a non-negative culture cost is charged at between 0.9 and 1.4 times its base
    ensures 0.0 <= bio.cultureBaseCostPerT
            ==> bio.reagentsCostPerT + bio.pHControlCostPerT + 0.9 * bio.cultureBaseCostPerT <= c
                <= bio.reagentsCostPerT + bio.pHControlCostPerT + 1.4 * bio.cultureBaseCostPerT
  {
    bio.reagentsCostPerT + bio.pHControlCostPerT + CultureCost(bio)
  }

  /** The capex argument of the bioleaching call as the source writes it: an
      assignment expression that picks the value it has just bound when that
      value is non-zero, and the same value otherwise. */
  function CapexAsWritten(capexPerT: real): (c: real)
    ensures c == capexPerT
  {
    var bioPerT := capexPerT;
    if bioPerT != 0.0 then bioPerT else capexPerT
  }

  /** Recovery fractions: the microbe's defaults, possibly edited. */
  function Recovery(bio: BioInputs): (r: PerMetal<real>)
    requires EditsInRange(bio.recoveryEdits)
    ensures AllWithin(r, 0.0, 1.0)
    ensures forall m: Metal ::
              bio.recoveryEdits.Get(m).None? ==> r.Get(m) == Lookup(bio.microbeChoice).recovery.Get(m)
    // an edited metal takes the typed percentage as its fraction
    ensures forall m: Metal ::
              bio.recoveryEdits.Get(m).Some? ==> r.Get(m) * 100.0 == bio.recoveryEdits.Get(m).value
  {
    var d := Lookup(bio.microbeChoice).recovery;
    var e := bio.recoveryEdits;
    assert e.Get(Au) == e.au && e.Get(Pd) == e.pd && e.Get(Cu) == e.cu;
    assert d.Get(Au) == d.au && d.Get(Pd) == d.pd && d.Get(Cu) == d.cu;
    PerMetal(RecoveryInput.EditedFraction(d.au, e.au),
             RecoveryInput.EditedFraction(d.pd, e.pd),
             RecoveryInput.EditedFraction(d.cu, e.cu))
  }

  /** The method profile the bioleaching evaluation receives. */
  function Profile(bio: BioInputs): (p: MethodEvaluator.MethodProfile)
    requires EditsInRange(bio.recoveryEdits)
    ensures p.name == "Bioleaching (" + bio.microbeChoice + ")"
    ensures p.energyKwhPerT == TotalEnergy(bio)
    ensures p.chemCostPerT == ChemicalCost(bio)
    ensures p.capexPerT == bio.capexPerT
    ensures AllWithin(p.recovery, 0.0, 1.0)
    ensures p.recovery == Recovery(bio)
  {
    MethodEvaluator.MethodProfile("Bioleaching (" + bio.microbeChoice + ")", TotalEnergy(bio),
                                  ChemicalCost(bio), Recovery(bio), CapexAsWritten(bio.capexPerT))
  }

  /** Worked example for each microbe with every field at its default:
      energy 50 + 30 kWh, chemical cost 30 + 20 + 15 x factor, recoveries
      from the table. */
  lemma DefaultProfiles()
    ensures Profile(DefaultInputs(Ferrooxidans)).chemCostPerT == 65.0
    ensures Profile(DefaultInputs(Thiooxidans)).chemCostPerT == 63.5
    ensures Profile(DefaultInputs(Leptospirillum)).chemCostPerT == 66.5
    ensures Profile(DefaultInputs(Consortium)).chemCostPerT == 71.0
    ensures Profile(DefaultInputs(Ferrooxidans)).energyKwhPerT == 80.0
    ensures Profile(DefaultInputs(Ferrooxidans)).recovery == PerMetal(0.40, 0.30, 0.85)
    ensures Profile(DefaultInputs(Thiooxidans)).recovery == PerMetal(0.30, 0.25, 0.80)
    ensures Profile(DefaultInputs(Leptospirillum)).recovery == PerMetal(0.35, 0.28, 0.82)
    ensures Profile(DefaultInputs(Consortium)).recovery == PerMetal(0.55, 0.40, 0.90)
    ensures Profile(DefaultInputs(Ferrooxidans)).capexPerT == 50.0
  {
  }

  /** Choosing another microbe, all other fields equal, changes the chemical
      cost by the base culture cost times the change in the cost factor. */
  lemma ChemicalCostMicrobeSwap(bio: BioInputs, choice: string)
    ensures ChemicalCost(bio.(microbeChoice := choice)) - ChemicalCost(bio)
            == bio.cultureBaseCostPerT * (Lookup(choice).costFactor - Lookup(bio.microbeChoice).costFactor)
  {
    var other := bio.(microbeChoice := choice);
    assert ChemicalCost(other) - ChemicalCost(bio) == CultureCost(other) - CultureCost(bio);
  }

  /** With no energy override, the bioleaching evaluation's energy cost is the
      baseline's cost plus the aeration's cost at the shared electricity price. */
  lemma DefaultEnergyCostSplits(feed: Feedstock.FeedMass, econ: MethodEvaluator.Economics, bio: BioInputs)
    requires EditsInRange(bio.recoveryEdits)
    requires bio.energyOverride.None?
    ensures MethodEvaluator.Evaluate(feed, econ, Profile(bio)).energyCostTotal
            == bio.energyBaselineKwhPerT * econ.energyCost + bio.aerationEnergyKwhPerT * econ.energyCost
  {
    assert Profile(bio).energyKwhPerT == bio.energyBaselineKwhPerT + bio.aerationEnergyKwhPerT;
  }

  /** With every other field equal and a positive base culture cost, the
      chemical cost ranks the microbes by their factor:
      A. thiooxidans < A. ferrooxidans < Leptospirillum < consortium. */
  lemma ChemicalCostRanksMicrobes(bio: BioInputs)
    requires bio.cultureBaseCostPerT > 0.0
    ensures ChemicalCost(bio.(microbeChoice := Thiooxidans)) < ChemicalCost(bio.(microbeChoice := Ferrooxidans))
    ensures ChemicalCost(bio.(microbeChoice := Ferrooxidans)) < ChemicalCost(bio.(microbeChoice := Leptospirillum))
    ensures ChemicalCost(bio.(microbeChoice := Leptospirillum)) < ChemicalCost(bio.(microbeChoice := Consortium))
  {
    ChemicalCostMicrobeSwap(bio.(microbeChoice := Thiooxidans), Ferrooxidans);
    ChemicalCostMicrobeSwap(bio.(microbeChoice := Ferrooxidans), Leptospirillum);
    ChemicalCostMicrobeSwap(bio.(microbeChoice := Leptospirillum), Consortium);
  }
}
