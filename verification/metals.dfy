/** The three tracked metals and a record holding one value per metal. */
module Metals {

  datatype Metal = Au | Pd | Cu

  /** One value for each of gold, palladium and copper, in that order
      (the order in which the rollup lists and sums them). */
  datatype PerMetal<T> = PerMetal(au: T, pd: T, cu: T) {

    function Get(m: Metal): T {
      match m
      case Au => au
      case Pd => pd
      case Cu => cu
    }
  }

  /** Sum over the three metals, added left to right: gold, palladium, copper. */
  function Total(v: PerMetal<real>): real {
    v.au + v.pd + v.cu
  }

  /** Every entry lies in [lo, hi]. */
  predicate AllWithin(v: PerMetal<real>, lo: real, hi: real) {
    forall m: Metal :: lo <= v.Get(m) <= hi
  }

  /** Every entry is non-negative. */
  predicate AllNonNegative(v: PerMetal<real>) {
    forall m: Metal :: 0.0 <= v.Get(m)
  }

  /** A non-negative record has a non-negative total that bounds each entry;
      the total is zero exactly when every entry is. */
  lemma NonNegativeTotal(v: PerMetal<real>)
    requires AllNonNegative(v)
    ensures 0.0 <= Total(v)
    ensures forall m: Metal :: v.Get(m) <= Total(v)
    ensures Total(v) == 0.0 <==> (v.au == 0.0 && v.pd == 0.0 && v.cu == 0.0)
  {
    assert 0.0 <= v.Get(Au) && 0.0 <= v.Get(Pd) && 0.0 <= v.Get(Cu);
  }
}
