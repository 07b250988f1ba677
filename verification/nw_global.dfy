/**
  `nadaraya_watson` and `nw_envelope_lux`: kernel regression over the whole
  series (every bar is weighted against every other bar, so this smoother
  looks ahead), and an envelope whose half-width is mult times the absolute
  rolling mean of the residual.

  The kernel is a weight function `k` on integer offsets: `k(j - i)` stands
  for `norm.pdf((j - i) / h)`, which is positive and even.
 */
module GlobalSmoother {
  import opened Numeric
  import opened Kernel
  import opened Bands
  import opened Series

  /** The raw weights of bar i against bars 0..n-1. */
  function GlobalWeights(k: int -> real, i: int, n: nat): (r: seq<real>)
    ensures |r| == n
    ensures forall j :: 0 <= j < n ==> r[j] == k(j - i)
  {
    seq(n, j requires 0 <= j < n => k(j - i))
  }

  /**
    `weights /= weights.sum(); m[i] = sum(weights * y)`. A zero weight sum
    makes numpy produce NaN.
   */
  function SmoothedAt(y: seq<real>, k: int -> real, i: int): Num {
    var ws := GlobalWeights(k, i, |y|);
    if Sum(ws) == 0.0 then None else Some(Dot(DivideAll(ws, Sum(ws)), y))
  }

  function NadarayaWatson(y: seq<real>, k: int -> real): (m: seq<Num>)
    ensures |m| == |y|
    ensures forall i :: 0 <= i < |y| ==> m[i] == SmoothedAt(y, k, i)
  {
    seq(|y|, i requires 0 <= i < |y| => SmoothedAt(y, k, i))
  }

  /** The normalised weights sum to one. */
  lemma NormalisedWeightsSumToOne(k: int -> real, i: int, n: nat)
    requires Sum(GlobalWeights(k, i, n)) != 0.0
    ensures Sum(DivideAll(GlobalWeights(k, i, n), Sum(GlobalWeights(k, i, n)))) == 1.0
  {
    SumDivideAll(GlobalWeights(k, i, n), Sum(GlobalWeights(k, i, n)));
    DivSelf(Sum(GlobalWeights(k, i, n)));
  }

  lemma DivSelf(x: real)
    requires x != 0.0
    ensures x / x == 1.0
  {
  }

  /** Normalising first and dividing last give the same value: m[i] is the kernel-weighted mean of y. */
  lemma SmoothedIsWeightedMean(y: seq<real>, k: int -> real, i: int)
    ensures SmoothedAt(y, k, i) == WeightedMean(GlobalWeights(k, i, |y|), y)
  {
    var ws := GlobalWeights(k, i, |y|);
    if Sum(ws) != 0.0 {
      DotDivideAll(ws, y, Sum(ws));
    }
  }

  /** With a positive kernel every smoothed value lies within the range of the whole series. */
  lemma SmoothedWithin(y: seq<real>, k: int -> real, i: int, lo: real, hi: real)
    requires Positive(k) && |y| > 0
    requires forall j :: 0 <= j < |y| ==> lo <= y[j] <= hi
    ensures SmoothedAt(y, k, i).Some?
    ensures lo <= SmoothedAt(y, k, i).value <= hi
  {
    SmoothedIsWeightedMean(y, k, i);
    WeightedMeanBounds(GlobalWeights(k, i, |y|), y, lo, hi);
  }

  /** A constant series is a fixed point of the smoother. */
  lemma ConstantFixedPoint(y: seq<real>, k: int -> real, c: real)
    requires Positive(k)
    requires forall j :: 0 <= j < |y| ==> y[j] == c
    ensures NadarayaWatson(y, k) == Lift(y)
  {
    forall i | 0 <= i < |y|
      ensures SmoothedAt(y, k, i) == Some(c)
    {
      SmoothedWithin(y, k, i, c, c);
    }
  }

  /** `y - mid`. */
  function Residual(y: seq<real>, mid: seq<Num>): (r: seq<Num>)
    requires |mid| == |y|
    ensures |r| == |y|
    ensures forall i :: 0 <= i < |y| ==> r[i] == Sub(Some(y[i]), mid[i])
  {
    seq(|y|, i requires 0 <= i < |y| => Sub(Some(y[i]), mid[i]))
  }

  /** `sqrt(rolling(h).mean() ** 2)`, which is the absolute value of the rolling mean. */
  function Vol(res: seq<Num>, h: nat, i: nat): (v: Num)
    requires i < |res|
    ensures v.Some? ==> 0.0 <= v.value
    ensures v.Some? <==> RollingMean(res, h, i).Some?
  {
    var m := RollingMean(res, h, i);
    if m.Some? then Some(Abs(m.value)) else None
  }

  /** The frame `nw_envelope_lux` returns: mid, upper and lower. */
  datatype Channel = Channel(mid: seq<Num>, upper: seq<Num>, lower: seq<Num>)

  /** The half-width `mult * vol` of bar i. */
  function LuxWidth(y: seq<real>, k: int -> real, h: nat, mult: real, i: nat): (w: Num)
    requires i < |y|
    ensures w.Some? && 0.0 <= mult ==> 0.0 <= w.value
  {
    var v := Vol(Residual(y, NadarayaWatson(y, k)), h, i);
    if v.Some? then NonnegProduct(mult, v.value); Scale(mult, v) else None
  }

  /** `upper = mid + mult * vol`, `lower = mid - mult * vol`. */
  function NwEnvelopeLux(y: seq<real>, k: int -> real, h: nat, mult: real): (c: Channel)
    ensures |c.mid| == |y| && |c.upper| == |y| && |c.lower| == |y|
    ensures c.mid == NadarayaWatson(y, k)
    ensures forall i :: 0 <= i < |y| ==>
              c.upper[i] == Add(c.mid[i], LuxWidth(y, k, h, mult, i)) &&
              c.lower[i] == Sub(c.mid[i], LuxWidth(y, k, h, mult, i))
  {
    var mid := NadarayaWatson(y, k);
    var e := WithBands(mid, seq(|y|, i requires 0 <= i < |y| => LuxWidth(y, k, h, mult, i)));
    Channel(e.mid, e.upper, e.lower)
  }

  /** The band is symmetric about mid, and upper and lower are defined together. */
  lemma LuxSymmetric(y: seq<real>, k: int -> real, h: nat, mult: real, i: nat)
    requires i < |y|
    ensures NwEnvelopeLux(y, k, h, mult).upper[i].Some? <==> NwEnvelopeLux(y, k, h, mult).lower[i].Some?
    ensures NwEnvelopeLux(y, k, h, mult).upper[i].Some? ==>
              NwEnvelopeLux(y, k, h, mult).upper[i].value - NwEnvelopeLux(y, k, h, mult).mid[i].value
              == NwEnvelopeLux(y, k, h, mult).mid[i].value - NwEnvelopeLux(y, k, h, mult).lower[i].value
  {
  }

  /** The bands are NaN for the first h - 1 bars, where `rolling(h)` has no full window. */
  lemma LuxWarmup(y: seq<real>, k: int -> real, h: nat, mult: real, i: nat)
    requires i < |y| && i + 1 < h
    ensures NwEnvelopeLux(y, k, h, mult).upper[i] == None
    ensures NwEnvelopeLux(y, k, h, mult).lower[i] == None
  {
  }

  /** After the warm-up, and with a positive kernel, the bands are defined. */
  lemma LuxDefined(y: seq<real>, k: int -> real, h: nat, mult: real, i: nat)
    requires Positive(k) && 1 <= h <= i + 1 && i < |y|
    ensures NwEnvelopeLux(y, k, h, mult).upper[i].Some?
    ensures NwEnvelopeLux(y, k, h, mult).lower[i].Some?
  {
    var mid := NadarayaWatson(y, k);
    var res := Residual(y, mid);
    var lo := MinOf(y);
    var hi := MaxOf(y);
    forall j | 0 <= j < |y|
      ensures mid[j].Some?
    {
      SmoothedWithin(y, k, j, lo, hi);
    }
    var win := res[i + 1 - h..i + 1];
    assert AllDefined(win) by {
      forall j | 0 <= j < |win| ensures win[j].Some? {
        assert win[j] == res[i + 1 - h + j];
      }
    }
    assert RollingMean(res, h, i).Some?;
    assert LuxWidth(y, k, h, mult, i).Some?;
  }

  /** A non-negative multiplier puts lower <= mid <= upper. */
  lemma LuxOrdered(y: seq<real>, k: int -> real, h: nat, mult: real, i: nat)
    requires 0.0 <= mult && i < |y|
    requires NwEnvelopeLux(y, k, h, mult).upper[i].Some?
    ensures NwEnvelopeLux(y, k, h, mult).lower[i].value <= NwEnvelopeLux(y, k, h, mult).mid[i].value
    ensures NwEnvelopeLux(y, k, h, mult).mid[i].value <= NwEnvelopeLux(y, k, h, mult).upper[i].value
  {
  }

  /** A window of zero residuals has zero volatility. */
  lemma VolOfZeros(res: seq<Num>, h: nat, i: nat)
    requires 1 <= h <= i + 1 && i < |res|
    requires forall j :: i + 1 - h <= j <= i ==> res[j] == Some(0.0)
    ensures Vol(res, h, i) == Some(0.0)
  {
    var win := res[i + 1 - h..i + 1];
    forall j | 0 <= j < |win|
      ensures win[j] == Some(0.0)
    {
      assert win[j] == res[i + 1 - h + j];
    }
    MeanBounds(Values(win), 0.0, 0.0);
  }

  /** A constant series has zero residual, so after the warm-up both bands collapse onto it. */
  lemma LuxConstant(y: seq<real>, k: int -> real, h: nat, mult: real, c: real, i: nat)
    requires Positive(k) && 1 <= h <= i + 1 && i < |y|
    requires forall j :: 0 <= j < |y| ==> y[j] == c
    ensures NwEnvelopeLux(y, k, h, mult).upper[i] == Some(c)
    ensures NwEnvelopeLux(y, k, h, mult).lower[i] == Some(c)
  {
    var mid := NadarayaWatson(y, k);
    var res := Residual(y, mid);
    forall j | 0 <= j < |y|
      ensures res[j] == Some(0.0)
    {
      SmoothedWithin(y, k, j, c, c);
    }
    VolOfZeros(res, h, i);
    assert LuxWidth(y, k, h, mult, i) == Some(0.0);
    SmoothedWithin(y, k, i, c, c);
    assert mid[i] == Some(c);
  }
}
