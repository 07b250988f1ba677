/**
  The envelope every regressor returns: four columns aligned with the price
  series, and the one band construction they all share
  (`upper = mid + mae`, `lower = mid - mae`, NaN-propagating).
 */
module Bands {
  import opened Numeric

  /** The DataFrame with columns mid, upper, lower and mae. */
  datatype Envelope = Envelope(mid: seq<Num>, upper: seq<Num>, lower: seq<Num>, mae: seq<Num>)
  {
    /** All four columns have the same length. */
    predicate Aligned() {
      |mid| == |upper| == |lower| == |mae|
    }

    function Length(): nat {
      |mid|
    }
  }

  /**
    Bar `t` of an envelope has symmetric bands: upper and lower are defined
    exactly where mid and mae are, and then sit at distance mae on either
    side of mid.
   */
  ghost predicate SymmetricAt(e: Envelope, t: int)
    requires e.Aligned() && 0 <= t < e.Length()
  {
    && (e.upper[t].Some? <==> e.mid[t].Some? && e.mae[t].Some?)
    && (e.lower[t].Some? <==> e.mid[t].Some? && e.mae[t].Some?)
    && (e.upper[t].Some? ==>
          e.upper[t].value - e.mid[t].value == e.mae[t].value
          && e.mid[t].value - e.lower[t].value == e.mae[t].value)
  }

  /** Builds the envelope from its mid line and its mean absolute error. */
  function WithBands(mid: seq<Num>, mae: seq<Num>): (e: Envelope)
    requires |mid| == |mae|
    ensures e.Aligned() && e.Length() == |mid|
    ensures e.mid == mid && e.mae == mae
    ensures forall t :: 0 <= t < |mid| ==> SymmetricAt(e, t)
  {
    Envelope(mid,
             seq(|mid|, t requires 0 <= t < |mid| => Add(mid[t], mae[t])),
             seq(|mid|, t requires 0 <= t < |mid| => Sub(mid[t], mae[t])),
             mae)
  }

  /** A non-negative mae puts the bands on either side of mid. */
  lemma BandsOrdered(e: Envelope, t: int)
    requires e.Aligned() && 0 <= t < e.Length()
    requires SymmetricAt(e, t)
    requires e.upper[t].Some? && 0.0 <= e.mae[t].value
    ensures e.lower[t].value <= e.mid[t].value <= e.upper[t].value
  {
  }
}
