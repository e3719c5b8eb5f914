# E-waste method comparison: cost and yield rollup

A Dafny model of the calculation core of the EWASTE Streamlit app. The app compares four
ways of recovering gold (Au), palladium (Pd) and copper (Cu) from a batch of electronic
waste: pyrometallurgy, hydrometallurgy, bioleaching and informal (Egypt) recovery. For each
method it reports the kilograms of each metal recovered, the cost per tonne of feed, and
the cost per kilogram of recovered metal.

The model covers:

- **Feed conversion** (`Feedstock`): tonnes of feed and per-metal mass fractions become
  kilograms of feed and of each metal. Copper's redundant `* 1000.0 / 1000.0` is kept
  as written and proved to be an identity.
- **Method evaluation** (`MethodEvaluator.Evaluate`). Recovered mass is feed metal mass
  times the recovery fraction. Cost per tonne is the flat sum of energy cost, chemicals,
  labor, environmental proxy and capex. The blended cost per kilogram of the recovered
  mixture is undefined unless something was recovered. The per-metal cost per kilogram
  keeps the source's formula `(total_cost * (val/total)) / val`; it is undefined unless
  both that metal's mass and the total are positive. The model proves this formula equals
  the blended rate, so every recovered metal is charged the same rate.
- **Recovery inputs** (`RecoveryInput`): percentage fields bounded to [0, 100], divided by 100.
- **Bioleaching composition** (`Bioleaching`). The microbe table gives default recoveries
  and a culture-cost factor; any unlisted choice takes the consortium's row. Culture cost
  is scaled by that factor. Total energy defaults to baseline plus aeration. The chemical
  cost is reagents plus pH control plus culture. The capex argument keeps its
  assignment-expression form, which yields the capex on both branches.
- **A comparison run** (`Comparison.Compare`): the four evaluations against one feed batch.

Arithmetic is over Dafny's `real`. The NaN the source stores for an undefined cost is
`Optional.Option<real>`'s `None`. The module globals that `evaluate_method` reads become
explicit parameters. The feed metal masses are a `Feedstock.FeedMass`. Electricity price,
labor cost and the environmental proxy are a `MethodEvaluator.Economics`.

Conventions of the code that the model keeps:

- Recovery rates are entered as percentages and divided by 100.
- Costs are summed as operating cost (energy + chemicals + labor + environment), then
  capex is added.
- Mass fractions and economic inputs carry no lower bound. So `Evaluate` has no
  non-negativity precondition; only the bound lemmas assume one.
- The per-metal guard tests `> 0` on both the metal's mass and the total. With negative
  inputs, a total that is zero or negative gives the sentinel as well.
- Every cost is per tonne of feed (EWASTE.py:37-38, 43-46, 51-52), but the recovered
  masses are for the whole batch (`feed_kg = feed_tonnes * 1000.0`, EWASTE.py:124). A cost
  per kilogram therefore divides one tonne's cost by a T-tonne batch's metal. It comes out
  scaled by 1/T whenever the feed is not 1 t. The model keeps this as written.
  `MethodEvaluator.TwoTonnesHalveCostPerKg` shows a 2 t batch at the default inputs halving
  the blended cost per kg and the gold, palladium and copper costs per kg.
  `Feedstock.DeriveScales` (metal masses × k) and `MethodEvaluator.MixtureCostScalesInversely`
  (rate ÷ k) are the two ends of the general statement. The step between them through
  `Evaluate` is not proved as one lemma.

## Model

| member | source | states |
|---|---|---|
| Feedstock.CuMassAsWritten | EWASTE.py:127 | copper's `* 1000.0 / 1000.0` leaves feed kg × fraction unchanged |
| Feedstock.Derive | EWASTE.py:124-127 | every metal's kg is feed kg × its fraction, copper included; feed kg converts back to the entered tonnes |
| Feedstock.DeriveScales | EWASTE.py:124-127 | k times the tonnage of the same feed holds k times the mass of every metal |
| Feedstock.DeriveWithinFeed | EWASTE.py:124-127 | with non-negative tonnes and fractions in [0, 1], each metal mass lies between 0 and the feed mass |
| Metals.NonNegativeTotal | EWASTE.py:141 | a sum of non-negative recovered masses is non-negative, bounds each mass, and is zero exactly when every mass is |
| MethodEvaluator.Recovered | EWASTE.py:132-134 | each metal's recovered kg is its feed mass × its fraction; with non-negative feed masses and fractions in [0, 1], no metal is recovered below zero or beyond what the feed holds |
| MethodEvaluator.RecoveredWithinFeed | EWASTE.py:132-134 | with non-negative feed masses and fractions in [0, 1], each recovered mass is in [0, feed mass], and the total lies between 0 and the feed metal total |
| MethodEvaluator.MixtureCost | EWASTE.py:142-145 | defined if and only if total recovered mass > 0; then rate × the batch's recovered kg gives back the total cost per tonne |
| MethodEvaluator.MetalCostAsWritten | EWASTE.py:149 | defined if and only if metal mass > 0 and total > 0; then it equals the blended mixture rate |
| MethodEvaluator.Evaluate | EWASTE.py:130-164 | echoes name, energy, chemicals and capex. Recovered masses are feed × fraction and total is their sum. Total cost is the five-term sum and equals op cost + capex. Mixture and per-metal cost are defined exactly under their guards; a defined per-metal cost equals the mixture cost |
| MethodEvaluator.RecoveredMetalPaysBlendedRate | EWASTE.py:141-149 | for non-negative inputs, a metal in the feed with a positive recovery fraction has positive recovered mass, makes the total positive, and its cost is total cost / total recovered mass |
| MethodEvaluator.SameRateForRecoveredMetals | EWASTE.py:147-149 | any two metals in the feed with positive recovery fractions are charged the same defined rate |
| MethodEvaluator.UnrecoveredMetalIsUndefined | EWASTE.py:142-149 | a metal with zero recovery gets the sentinel even when another metal is recovered and the mixture cost is defined |
| MethodEvaluator.NothingRecoveredAllUndefined | EWASTE.py:141-149 | all recovery fractions 0 ⇒ total 0, and mixture and all per-metal costs are the sentinel |
| MethodEvaluator.MixtureUndefinedIffNothingRecovered | EWASTE.py:141-145 | for non-negative inputs, the mixture cost is undefined exactly when every recovered mass is 0 |
| MethodEvaluator.MixtureCostScalesInversely | EWASTE.py:142-143 | k times the recovered mass at the same cost per tonne gives 1/k of the blended rate |
| MethodEvaluator.TwoTonnesHalveCostPerKg | EWASTE.py:124-149 | with the default feed and pyrometallurgy inputs, 2 t instead of 1 t keeps the cost per tonne at 390, doubles the recovered mass, and halves the blended cost per kg and each metal's cost per kg |
| MethodEvaluator.GoldOnlyExample | EWASTE.py:124-149 | 1 t feed with Au fraction 0.0005 converts to 0.5 kg Au; 95 %, 1500 kWh at 0.06, chem 30, capex 200, labor 50, env 20 ⇒ energy 90, total 390, 0.475 kg Au, only Au costed |
| RecoveryInput.PercentToFraction | EWASTE.py:54 | a percentage in [0, 100] becomes a fraction in [0, 1] that × 100 gives the percentage back |
| RecoveryInput.FractionsFromPercents | EWASTE.py:53-57 | the three percentage fields become fractions in [0, 1], each × 100 equal to its field |
| RecoveryInput.EditedFraction | EWASTE.py:91-93 | the field starts at default × 100 and is read back / 100; left alone, it returns the default exactly |
| Bioleaching.Lookup | EWASTE.py:76-87 | recoveries in [0, 1] with Pd < Au < Cu; factor in [0.9, 1.4]; the consortium row bounds every other row; the result is the consortium row exactly when the choice is not one of the three named species |
| Bioleaching.CultureCost | EWASTE.py:109 | culture cost ÷ microbe factor is the entered base cost; a factor > 1 makes it exceed a positive base |
| Bioleaching.TotalEnergy | EWASTE.py:112 | a typed override wins; with no override, non-negative aeration never brings the total below the baseline |
| Bioleaching.DefaultEnergyCostSplits | EWASTE.py:112 | with no override, the bio evaluation's energy cost is baseline × price + aeration × price |
| Bioleaching.ChemicalCost | EWASTE.py:169 | for a non-negative base culture cost, the chemical cost lies between reagents + pH control + 0.9 × base and the same with 1.4 × base, whatever the microbe |
| Bioleaching.ChemicalCostMicrobeSwap | EWASTE.py:109 | switching microbe with every other field equal changes the chemical cost by base culture cost × the change in factor |
| Bioleaching.CapexAsWritten | EWASTE.py:169 | the assignment-expression conditional yields the capex on both branches |
| Bioleaching.Recovery | EWASTE.py:89-93 | fractions in [0, 1]; an unedited metal keeps the microbe's default; an edited metal's fraction × 100 is the typed percentage |
| Bioleaching.Profile | EWASTE.py:169 | the bio call's name, energy, chemical cost, capex and recovery as composed above |
| Bioleaching.DefaultProfiles | EWASTE.py:70-112 | at default fields, chemical cost is 65 / 63.5 / 66.5 / 71 by microbe; energy is 80 kWh; capex is 50; the recoveries are the table's rows for A. ferrooxidans (0.40, 0.30, 0.85), A. thiooxidans (0.30, 0.25, 0.80), Leptospirillum (0.35, 0.28, 0.82) and the consortium (0.55, 0.40, 0.90) |
| Bioleaching.ChemicalCostRanksMicrobes | EWASTE.py:76-109 | with a positive base culture cost, chemical cost orders A. thiooxidans < A. ferrooxidans < Leptospirillum < Consortium |
| Comparison.ProfileOf | EWASTE.py:167-170 | a method's profile passes through its name, energy, chemical cost and capex unchanged; its fractions are in [0, 1], each × 100 equal to its percentage field |
| Comparison.Compare | EWASTE.py:166-172 | four results in display order, each the evaluation of that method's profile against the same converted batch `Derive(feed)`; names and capex as listed; every method is charged the same labor + environmental proxy |
| Comparison.NoMethodRecoversMoreThanFed | EWASTE.py:124-134 | for a physical batch, no method recovers more of a metal than the feed holds |

## Left out

- Streamlit page setup, sidebar widgets, `fmt` and the currency label
  (page setup and sidebar widgets EWASTE.py:14-112; `fmt` and the label 115-116, 244).
  The widget values become function parameters. The recovery fields' [0, 100] bounds
  (lines 54-56, 63-65, 91-93, 100-102) become preconditions. The feed field's 0.1 t
  minimum (line 28) is not required: the model accepts any tonnage, and the bound
  lemmas assume only a non-negative one.
- Result tables, matplotlib charts and the CSV download (EWASTE.py:174-242). These are
  presentation and file output.
- biorecovery_app.py: a display fragment. Its `organisms` table (pH_opt, T_opt, K_O,
  recovery_max) is defined neither there nor in EWASTE.py.
- Neither file computes a pH/temperature/oxygen response model, so none is modelled.
- IEEE floating point: rounding, associativity, and NaN's comparison behaviour. Arithmetic
  is exact over `real`, and NaN is `None`.
- Line 138 reads `labor_cost_per_t`, but the input is named `labor_cost_per_tonne`
  (line 37). Lines 167-170 read `capex_per_t_pyro`, `_hydro`, `_bio` and `_informal`, but
  the inputs are `capex_per_tonne_*` (lines 43-46). Call arguments are evaluated before
  the function body runs. So as written, the module stops with a NameError at line 167,
  and at line 138 once the capex names are fixed. The model uses the evidently intended inputs: the
  `Economics` labor cost and each method's own capex.
