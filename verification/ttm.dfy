/**
  `ttm_squeeze` and its parts: Bollinger bands (rolling mean plus or minus
  std times the population standard deviation), the Keltner channel (an
  `adjust=False` EMA plus or minus atr_mult times the rolling mean true
  range), the squeeze flags, and the windowing of the momentum.

  Two numeric routines are parameters: `sqrt` (assumed non-negative on
  non-negative input, with sqrt(0) = 0) and `slope`, the slope that
  `scipy.stats.linregress` fits to a window of closes.
 */
module Ttm {
  import opened Numeric
  import opened Series
  import opened Atr

  ghost predicate SqrtLike(sqrt: real -> real) {
    sqrt(0.0) == 0.0 && forall x :: 0.0 <= x ==> 0.0 <= sqrt(x)
  }

  lemma SquaresNonneg(xs: seq<real>, m: real)
    ensures forall j :: 0 <= j < |xs| ==> 0.0 <= (xs[j] - m) * (xs[j] - m)
  {
    forall j | 0 <= j < |xs| ensures 0.0 <= (xs[j] - m) * (xs[j] - m) {
      var d := xs[j] - m;
      assert 0.0 <= d * d;
    }
  }

  /** Squared deviations from the mean. */
  function SquaredDeviations(xs: seq<real>): (r: seq<real>)
    requires |xs| > 0
    ensures |r| == |xs|
    ensures forall j :: 0 <= j < |xs| ==> 0.0 <= r[j]
  {
    var m := Mean(xs);
    SquaresNonneg(xs, m);
    seq(|xs|, j requires 0 <= j < |xs| => (xs[j] - m) * (xs[j] - m))
  }

  /** `ddof=0`: the population variance, never negative. */
  function PopVariance(xs: seq<real>): (v: real)
    requires |xs| > 0
    ensures 0.0 <= v
  {
    SumOfNonneg(SquaredDeviations(xs));
    Mean(SquaredDeviations(xs))
  }

  /** `close.rolling(w).std(ddof=0)`: NaN until a full window exists. */
  function RollingPopStd(xs: seq<real>, w: nat, i: nat, sqrt: real -> real): Num
    requires i < |xs|
  {
    if w == 0 || i + 1 < w then None else Some(sqrt(PopVariance(xs[i + 1 - w..i + 1])))
  }

  /** The `(sma, upper, lower)` triple of `bollinger_bands`. */
  datatype BandTriple = BandTriple(mid: seq<Num>, upper: seq<Num>, lower: seq<Num>)

  function BollingerBands(close: seq<real>, period: nat, std: real, sqrt: real -> real): (b: BandTriple)
    ensures |b.mid| == |b.upper| == |b.lower| == |close|
    ensures forall i :: 0 <= i < |close| ==>
              b.upper[i] == Add(b.mid[i], Scale(std, RollingPopStd(close, period, i, sqrt))) &&
              b.lower[i] == Sub(b.mid[i], Scale(std, RollingPopStd(close, period, i, sqrt)))
    ensures forall i :: 0 <= i < |close| ==> b.mid[i] == RollingMean(Lift(close), period, i)
  {
    var n := |close|;
    var sma := seq(n, i requires 0 <= i < n => RollingMean(Lift(close), period, i));
    BandTriple(sma,
               seq(n, i requires 0 <= i < n => Add(sma[i], Scale(std, RollingPopStd(close, period, i, sqrt)))),
               seq(n, i requires 0 <= i < n => Sub(sma[i], Scale(std, RollingPopStd(close, period, i, sqrt)))))
  }

  /** The Bollinger bands are NaN for the first period - 1 bars and defined after. */
  lemma BollingerDefinedExactly(close: seq<real>, period: nat, std: real, sqrt: real -> real, i: nat)
    requires i < |close|
    ensures BollingerBands(close, period, std, sqrt).upper[i].Some? <==> 1 <= period <= i + 1
    ensures BollingerBands(close, period, std, sqrt).lower[i].Some? <==> 1 <= period <= i + 1
  {
    if 1 <= period <= i + 1 {
      var win := Lift(close)[i + 1 - period..i + 1];
      assert AllDefined(win) by {
        forall j | 0 <= j < |win| ensures win[j].Some? {
          assert win[j] == Lift(close)[i + 1 - period + j];
        }
      }
    }
  }

  /** upper - sma = sma - lower = std * stdv, which is non-negative for std >= 0. */
  lemma BollingerSymmetric(close: seq<real>, period: nat, std: real, sqrt: real -> real, i: nat)
    requires i < |close| && SqrtLike(sqrt) && 0.0 <= std
    requires BollingerBands(close, period, std, sqrt).upper[i].Some?
    ensures BollingerBands(close, period, std, sqrt).lower[i].Some?
    ensures BollingerBands(close, period, std, sqrt).upper[i].value - BollingerBands(close, period, std, sqrt).mid[i].value
            == BollingerBands(close, period, std, sqrt).mid[i].value - BollingerBands(close, period, std, sqrt).lower[i].value
    ensures BollingerBands(close, period, std, sqrt).lower[i].value <= BollingerBands(close, period, std, sqrt).mid[i].value
  {
    var s := RollingPopStd(close, period, i, sqrt);
    NonnegProduct(std, s.value);
  }

  /** `ewm(span=s, adjust=False)`: alpha = 2 / (s + 1), seeded with the first value. */
  function Ema(xs: seq<real>, span: int): (r: seq<real>)
    requires 1 <= span
    ensures |r| == |xs|
    ensures |xs| > 0 ==> r[0] == xs[0]
    ensures forall i :: 1 <= i < |xs| ==> r[i] == Step(2.0 / ((span + 1) as real), r[i - 1], xs[i])
  {
    if |xs| == 0 then []
    else
      SmoothRecurrence(xs, 2.0 / ((span + 1) as real), xs[0]);
      Smooth(xs, 2.0 / ((span + 1) as real), xs[0])
  }

  /** The `(ema, upper, lower, atr)` of `keltner_channel`. */
  datatype Keltner = Keltner(mid: seq<real>, upper: seq<Num>, lower: seq<Num>, atr: seq<Num>)

  function KeltnerChannel(bars: seq<Bar>, emaPeriod: int, atrPeriod: nat, atrMult: real): (kc: Keltner)
    requires 1 <= emaPeriod
    ensures |kc.mid| == |kc.upper| == |kc.lower| == |kc.atr| == |bars|
    ensures kc.mid == Ema(Closes(bars), emaPeriod)
    ensures forall i :: 0 <= i < |bars| ==> kc.atr[i] == RollingMean(Lift(TrueRange(bars)), atrPeriod, i)
    ensures forall i :: 0 <= i < |bars| ==>
              kc.upper[i] == Add(Some(kc.mid[i]), Scale(atrMult, kc.atr[i])) &&
              kc.lower[i] == Sub(Some(kc.mid[i]), Scale(atrMult, kc.atr[i]))
  {
    var n := |bars|;
    var ema := Ema(Closes(bars), emaPeriod);
    var atr := seq(n, i requires 0 <= i < n => RollingMean(Lift(TrueRange(bars)), atrPeriod, i));
    Keltner(ema,
            seq(n, i requires 0 <= i < n => Add(Some(ema[i]), Scale(atrMult, atr[i]))),
            seq(n, i requires 0 <= i < n => Sub(Some(ema[i]), Scale(atrMult, atr[i]))),
            atr)
  }

  /** The EMA stays within the range of the closes seen so far. */
  lemma EmaWithin(xs: seq<real>, span: int, t: nat, lo: real, hi: real)
    requires 1 <= span && t < |xs|
    requires forall j :: 0 <= j <= t ==> lo <= xs[j] <= hi
    ensures lo <= Ema(xs, span)[t] <= hi
  {
    DivBounds(2.0, (span + 1) as real, 0.0, 1.0);
    SmoothWithin(xs, 2.0 / ((span + 1) as real), xs[0], t, lo, hi);
  }

  /** `(bb_up < kc_up) & (bb_low > kc_low)`: any NaN makes the comparison false. */
  predicate SqueezeOnAt(bb: BandTriple, kc: Keltner, i: nat)
    requires i < |bb.upper| && i < |bb.lower| && i < |kc.upper| && i < |kc.lower|
  {
    Below(bb.upper[i], kc.upper[i]) && Below(kc.lower[i], bb.lower[i])
  }

  /**
    Momentum: NaN for the first `period` bars, then the slope fitted to the
    `period` closes BEFORE bar i.
   */
  function Momentum(close: seq<real>, period: nat, slope: seq<real> -> real): (m: seq<Num>)
    ensures |m| == |close|
    ensures forall i :: 0 <= i < |close| ==> (m[i].Some? <==> period <= i)
    ensures forall i :: period <= i < |close| ==> m[i] == Some(slope(close[i - period..i]))
  {
    seq(|close|, i requires 0 <= i < |close| => if i < period then None else Some(slope(close[i - period..i])))
  }

  /** The momentum of bar i reads only the closes of bars i - period .. i - 1, never bar i itself. */
  lemma MomentumWindow(close: seq<real>, close2: seq<real>, period: nat, slope: seq<real> -> real, i: nat)
    requires i < |close| && i < |close2|
    requires period <= i ==> close[i - period..i] == close2[i - period..i]
    ensures Momentum(close, period, slope)[i] == Momentum(close2, period, slope)[i]
  {
  }

  /** The frame `ttm_squeeze` returns. */
  datatype Squeeze = Squeeze(
    bb: BandTriple, kc: Keltner,
    squeezeOn: seq<bool>, squeezeOff: seq<bool>,
    momentum: seq<Num>)

  function TtmSqueeze(bars: seq<Bar>, bbPeriod: nat, bbStd: real, kcPeriod: int, atrMult: real,
                      momPeriod: nat, sqrt: real -> real, slope: seq<real> -> real): (s: Squeeze)
    requires 1 <= kcPeriod
    ensures |s.squeezeOn| == |s.squeezeOff| == |s.momentum| == |bars|
    ensures s.bb == BollingerBands(Closes(bars), bbPeriod, bbStd, sqrt)
    ensures s.kc == KeltnerChannel(bars, kcPeriod, kcPeriod, atrMult)
    ensures forall i :: 0 <= i < |bars| ==>
              (s.squeezeOn[i] <==> Below(s.bb.upper[i], s.kc.upper[i]) && Below(s.kc.lower[i], s.bb.lower[i]))
    ensures forall i :: 0 <= i < |bars| ==> s.squeezeOff[i] == !s.squeezeOn[i]
    ensures s.momentum == Momentum(Closes(bars), momPeriod, slope)
  {
    var n := |bars|;
    var bb := BollingerBands(Closes(bars), bbPeriod, bbStd, sqrt);
    var kc := KeltnerChannel(bars, kcPeriod, kcPeriod, atrMult);
    var on := seq(n, i requires 0 <= i < n => SqueezeOnAt(bb, kc, i));
    Squeeze(bb, kc, on, seq(n, i requires 0 <= i < n => !on[i]), Momentum(Closes(bars), momPeriod, slope))
  }

  /** During the Bollinger warm-up the squeeze is off. */
  lemma SqueezeOffInWarmup(bars: seq<Bar>, bbPeriod: nat, bbStd: real, kcPeriod: int, atrMult: real,
                           momPeriod: nat, sqrt: real -> real, slope: seq<real> -> real, i: nat)
    requires 1 <= kcPeriod && i < |bars| && i + 1 < bbPeriod
    ensures TtmSqueeze(bars, bbPeriod, bbStd, kcPeriod, atrMult, momPeriod, sqrt, slope).squeezeOff[i]
  {
    BollingerDefinedExactly(Closes(bars), bbPeriod, bbStd, sqrt, i);
  }

  /** A squeeze puts the Bollinger band strictly inside the Keltner channel. */
  lemma SqueezeNested(bars: seq<Bar>, bbPeriod: nat, bbStd: real, kcPeriod: int, atrMult: real,
                      momPeriod: nat, sqrt: real -> real, slope: seq<real> -> real, i: nat)
    requires 1 <= kcPeriod && i < |bars|
    requires TtmSqueeze(bars, bbPeriod, bbStd, kcPeriod, atrMult, momPeriod, sqrt, slope).squeezeOn[i]
    ensures BollingerBands(Closes(bars), bbPeriod, bbStd, sqrt).upper[i].Some?
    ensures KeltnerChannel(bars, kcPeriod, kcPeriod, atrMult).upper[i].Some?
    ensures BollingerBands(Closes(bars), bbPeriod, bbStd, sqrt).upper[i].value
            < KeltnerChannel(bars, kcPeriod, kcPeriod, atrMult).upper[i].value
    ensures KeltnerChannel(bars, kcPeriod, kcPeriod, atrMult).lower[i].value
            < BollingerBands(Closes(bars), bbPeriod, bbStd, sqrt).lower[i].value
  {
  }
}
