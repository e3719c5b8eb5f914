/** Recovery rates are entered as percentages bounded to [0, 100] and divided
    by 100; the bioleaching rates start from the microbe's default fraction,
    shown as a percentage, and are read back the same way. */
module RecoveryInput {
  import opened Metals
  import opened Optional

  /** A percentage from a field bounded to [0, 100], as a fraction. */
  function PercentToFraction(percent: real): (f: real)
    requires 0.0 <= percent <= 100.0
    ensures 0.0 <= f <= 1.0
    ensures f * 100.0 == percent
  {
    percent / 100.0
  }

  /** The three recovery fractions of a method from its three percentage fields. */
  function FractionsFromPercents(percent: PerMetal<real>): (f: PerMetal<real>)
    requires AllWithin(percent, 0.0, 100.0)
    ensures AllWithin(f, 0.0, 1.0)
    ensures forall m: Metal :: f.Get(m) * 100.0 == percent.Get(m)
  {
    assert 0.0 <= percent.Get(Au) <= 100.0 && 0.0 <= percent.Get(Pd) <= 100.0
        && 0.0 <= percent.Get(Cu) <= 100.0;
    PerMetal(PercentToFraction(percent.au), PercentToFraction(percent.pd), PercentToFraction(percent.cu))
  }

  /** An editable fraction: the field starts at the default shown as a
      percentage; `edit` is what the user typed, `None` when left alone. */
  function EditedFraction(default: real, edit: Option<real>): (f: real)
    requires 0.0 <= default <= 1.0
    requires edit.Some? ==> 0.0 <= edit.value <= 100.0
    ensures 0.0 <= f <= 1.0
    // a field left alone gives back the default unchanged
    ensures edit.None? ==> f == default
    ensures edit.Some? ==> f * 100.0 == edit.value
  {
    PercentToFraction(edit.GetOr(default * 100.0))
  }
}
