/**
  `compute_atr` and `atr_stop_loss`: the true range of every bar, Wilder's
  average true range (exponential smoothing with factor 1/n seeded with the
  first true range), and ATR stops at mul ATRs either side of the close.
  The same true range serves the Keltner channel of the TTM squeeze.
 */
module Atr {
  import opened Numeric
  import opened Series

  /**
    `max(high - low, |high - prev_close|, |low - prev_close|)`; on bar 0 the
    previous close is NaN and the row maximum skips it.
   */
  function TrueRangeAt(bars: seq<Bar>, i: nat): (tr: real)
    requires i < |bars|
    ensures bars[i].high - bars[i].low <= tr
    ensures i == 0 ==> tr == bars[i].high - bars[i].low
    ensures i > 0 ==> Abs(bars[i].high - bars[i - 1].close) <= tr && Abs(bars[i].low - bars[i - 1].close) <= tr
    ensures i > 0 ==> tr == bars[i].high - bars[i].low
                      || tr == Abs(bars[i].high - bars[i - 1].close)
                      || tr == Abs(bars[i].low - bars[i - 1].close)
  {
    var range := bars[i].high - bars[i].low;
    if i == 0 then range
    else Max(range, Max(Abs(bars[i].high - bars[i - 1].close), Abs(bars[i].low - bars[i - 1].close)))
  }

  function TrueRange(bars: seq<Bar>): (r: seq<real>)
    ensures |r| == |bars|
    ensures forall i :: 0 <= i < |bars| ==> r[i] == TrueRangeAt(bars, i)
  {
    seq(|bars|, i requires 0 <= i < |bars| => TrueRangeAt(bars, i))
  }

  /** With high >= low on a bar, its true range is non-negative. */
  lemma TrueRangeNonneg(bars: seq<Bar>, i: nat)
    requires i < |bars| && bars[i].low <= bars[i].high
    ensures 0.0 <= TrueRangeAt(bars, i)
  {
  }

  /**
    `tr.ewm(alpha=1/n, adjust=False).mean()`. `1 / n` raises for n = 0 and
    pandas rejects an alpha outside (0, 1], so the source needs n >= 1.
   */
  function ComputeAtr(bars: seq<Bar>, n: int): (atr: seq<real>)
    requires 1 <= n
    ensures |atr| == |bars|
    ensures |bars| > 0 ==> atr[0] == TrueRangeAt(bars, 0)
    ensures forall i :: 1 <= i < |bars| ==> atr[i] == Step(1.0 / (n as real), atr[i - 1], TrueRangeAt(bars, i))
  {
    if |bars| == 0 then []
    else
      SmoothRecurrence(TrueRange(bars), 1.0 / (n as real), TrueRangeAt(bars, 0));
      Smooth(TrueRange(bars), 1.0 / (n as real), TrueRangeAt(bars, 0))
  }

  /** The ATR at bar t stays within any bounds of the true ranges of bars 0..t. */
  lemma AtrWithin(bars: seq<Bar>, n: int, t: nat, lo: real, hi: real)
    requires 1 <= n && t < |bars|
    requires forall j :: 0 <= j <= t ==> lo <= TrueRangeAt(bars, j) <= hi
    ensures lo <= ComputeAtr(bars, n)[t] <= hi
  {
    FactorWithin(n);
    SmoothWithin(TrueRange(bars), 1.0 / (n as real), TrueRangeAt(bars, 0), t, lo, hi);
  }

  /** With high >= low on every bar, the ATR is non-negative. */
  lemma AtrNonneg(bars: seq<Bar>, n: int, t: nat)
    requires 1 <= n && t < |bars|
    requires forall j :: 0 <= j < |bars| ==> bars[j].low <= bars[j].high
    ensures 0.0 <= ComputeAtr(bars, n)[t]
  {
    var tr := TrueRange(bars);
    var hi := MaxOf(tr[..t + 1]);
    forall j | 0 <= j <= t
      ensures 0.0 <= TrueRangeAt(bars, j) <= hi
    {
      assert tr[..t + 1][j] == TrueRangeAt(bars, j);
    }
    AtrWithin(bars, n, t, 0.0, hi);
  }

  /** The ATR never repaints: bar t depends only on bars 0..t. */
  lemma AtrCausal(bars: seq<Bar>, bars2: seq<Bar>, n: int, t: nat)
    requires 1 <= n && t < |bars| && t < |bars2|
    requires bars[..t + 1] == bars2[..t + 1]
    ensures ComputeAtr(bars, n)[t] == ComputeAtr(bars2, n)[t]
  {
    var tr := TrueRange(bars);
    var tr2 := TrueRange(bars2);
    forall j | 0 <= j <= t
      ensures tr[j] == tr2[j]
    {
      assert bars[j] == bars[..t + 1][j];
      assert bars2[j] == bars2[..t + 1][j];
      if j > 0 {
        assert bars[j - 1] == bars[..t + 1][j - 1];
        assert bars2[j - 1] == bars2[..t + 1][j - 1];
      }
    }
    assert tr[..t + 1] == tr2[..t + 1];
    SmoothPrefix(tr, tr2, 1.0 / (n as real), TrueRangeAt(bars, 0), t);
    assert bars[0] == bars[..t + 1][0];
    assert bars2[0] == bars2[..t + 1][0];
  }

  /** The columns `atr_stop_loss` adds to its copy of the frame. */
  datatype AtrStops = AtrStops(atr: seq<real>, stopLong: seq<real>, stopShort: seq<real>)

  /** `stop_long = close - mul * atr`, `stop_short = close + mul * atr`. */
  function AtrStopLoss(bars: seq<Bar>, atrPeriod: int, mul: real): (s: AtrStops)
    requires 1 <= atrPeriod
    ensures |s.atr| == |s.stopLong| == |s.stopShort| == |bars|
    ensures s.atr == ComputeAtr(bars, atrPeriod)
    ensures forall i :: 0 <= i < |bars| ==>
              s.stopShort[i] - bars[i].close == bars[i].close - s.stopLong[i] == mul * s.atr[i]
  {
    var atr := ComputeAtr(bars, atrPeriod);
    AtrStops(atr,
             seq(|bars|, i requires 0 <= i < |bars| => bars[i].close - mul * atr[i]),
             seq(|bars|, i requires 0 <= i < |bars| => bars[i].close + mul * atr[i]))
  }

  /** With mul >= 0 and high >= low everywhere, the long stop is below the close and the short stop above it. */
  lemma StopsOrdered(bars: seq<Bar>, atrPeriod: int, mul: real, i: nat)
    requires 1 <= atrPeriod && 0.0 <= mul && i < |bars|
    requires forall j :: 0 <= j < |bars| ==> bars[j].low <= bars[j].high
    ensures AtrStopLoss(bars, atrPeriod, mul).stopLong[i] <= bars[i].close
    ensures bars[i].close <= AtrStopLoss(bars, atrPeriod, mul).stopShort[i]
  {
    AtrNonneg(bars, atrPeriod, i);
    NonnegProduct(mul, ComputeAtr(bars, atrPeriod)[i]);
  }
}
