/**
  The signal rules of `strategy.py`: the RSI column (14-bar mean gain over
  mean loss), the RSI trend and side tables, `ris_handel`, `macd_handel`
  and the squeeze-plus-RSI rule `boll_kc_handel`.
 */
module Strategy {
  import opened Numeric
  import opened Series
  import opened Ttm

  /** The RSI averaging window. */
  const RsiWindow: nat := 14

  /**
    `delta.where(delta > 0, 0)`: the rise from the previous close, else 0.
    Bar 0's NaN difference fails the test and so also becomes 0.
   */
  function Gain(closes: seq<real>, i: nat): (g: real)
    requires i < |closes|
    ensures 0.0 <= g
  {
    if 0 < i && closes[i] - closes[i - 1] > 0.0 then closes[i] - closes[i - 1] else 0.0
  }

  /** `-delta.where(delta < 0, 0)`: the fall from the previous close, else 0. */
  function Loss(closes: seq<real>, i: nat): (l: real)
    requires i < |closes|
    ensures 0.0 <= l
  {
    if 0 < i && closes[i] - closes[i - 1] < 0.0 then closes[i - 1] - closes[i] else 0.0
  }

  /** Gain and loss split each close-to-close change into its two signed parts, at most one of them non-zero. */
  lemma GainLossSplit(closes: seq<real>, i: nat)
    requires 0 < i < |closes|
    ensures Gain(closes, i) - Loss(closes, i) == closes[i] - closes[i - 1]
    ensures Gain(closes, i) == 0.0 || Loss(closes, i) == 0.0
  {
  }

  function Gains(closes: seq<real>): (r: seq<real>)
    ensures |r| == |closes|
    ensures forall i :: 0 <= i < |closes| ==> r[i] == Gain(closes, i)
  {
    seq(|closes|, i requires 0 <= i < |closes| => Gain(closes, i))
  }

  function Losses(closes: seq<real>): (r: seq<real>)
    ensures |r| == |closes|
    ensures forall i :: 0 <= i < |closes| ==> r[i] == Loss(closes, i)
  {
    seq(|closes|, i requires 0 <= i < |closes| => Loss(closes, i))
  }

  predicate NonnegOrNaN(x: Num) {
    x.Some? ==> 0.0 <= x.value
  }

  /**
    `100 - 100 / (1 + gain / loss)` in float arithmetic on non-negative
    averages: a zero loss makes rs infinite and the RSI 100, unless the
    gain is zero too, when rs and the RSI are NaN.
   */
  function RsiOf(gain: Num, loss: Num): (r: Num)
    requires NonnegOrNaN(gain) && NonnegOrNaN(loss)
    ensures r.Some? <==> gain.Some? && loss.Some? && (gain.value != 0.0 || loss.value != 0.0)
    ensures r.Some? ==> 0.0 <= r.value <= 100.0
    ensures r.Some? ==> (r.value == 100.0 <==> loss.value == 0.0)
  {
    if gain.None? || loss.None? then None
    else if loss.value == 0.0 then (if gain.value == 0.0 then None else Some(100.0))
    else
      var rs := gain.value / loss.value;
      NonnegQuotient(gain.value, loss.value);
      DivBounds(100.0, 1.0 + rs, 0.0, 100.0);
      assert 100.0 / (1.0 + rs) != 0.0;
      Some(100.0 - 100.0 / (1.0 + rs))
  }

  /** Where it is finite, the RSI is the gains' share of all movement, in percent. */
  lemma RsiIsGainShare(g: real, l: real)
    requires 0.0 <= g && 0.0 < l
    ensures RsiOf(Some(g), Some(l)) == Some(100.0 * g / (g + l))
  {
    var rs := g / l;
    assert rs * l == g;
    var q := 100.0 / (1.0 + rs);
    NonnegQuotient(g, l);
    assert q * (1.0 + rs) == 100.0;
    assert (1.0 + rs) * l == l + g;
    assert q * (l + g) == 100.0 * l by {
      assert q * (l + g) == q * ((1.0 + rs) * l);
      assert q * ((1.0 + rs) * l) == (q * (1.0 + rs)) * l;
    }
    assert (100.0 - q) * (g + l) == 100.0 * g;
    QuotientOfProduct(100.0 - q, g + l, 100.0 * g);
  }

  lemma QuotientOfProduct(a: real, b: real, c: real)
    requires b != 0.0 && a * b == c
    ensures a == c / b
  {
  }

  /** A rolling mean of non-negative values is non-negative (or NaN). */
  lemma RollingMeanNonneg(xs: seq<real>, w: nat, i: nat)
    requires i < |xs|
    requires forall j :: 0 <= j < |xs| ==> 0.0 <= xs[j]
    ensures NonnegOrNaN(RollingMean(Lift(xs), w, i))
  {
    if w != 0 && w <= i + 1 {
      var win := Lift(xs)[i + 1 - w..i + 1];
      if AllDefined(win) {
        var vs := Values(win);
        forall j | 0 <= j < |vs| ensures 0.0 <= vs[j] <= MaxOf(vs) {
          assert vs[j] == xs[i + 1 - w + j];
        }
        MeanBounds(vs, 0.0, MaxOf(vs));
      }
    }
  }

  /** The `rsi` column. */
  function RsiSeries(closes: seq<real>): (r: seq<Num>)
    ensures |r| == |closes|
    ensures forall i :: 0 <= i < |closes| ==> r[i].Some? ==> 0.0 <= r[i].value <= 100.0
  {
    seq(|closes|, i requires 0 <= i < |closes| => RsiAt(closes, i))
  }

  function RsiAt(closes: seq<real>, i: nat): (r: Num)
    requires i < |closes|
    ensures r.Some? ==> 0.0 <= r.value <= 100.0
  {
    RollingMeanNonneg(Gains(closes), RsiWindow, i);
    RollingMeanNonneg(Losses(closes), RsiWindow, i);
    RsiOf(RollingMean(Lift(Gains(closes)), RsiWindow, i), RollingMean(Lift(Losses(closes)), RsiWindow, i))
  }

  /** The RSI needs fourteen bars: it is NaN on bars 0..12. */
  lemma RsiWarmup(closes: seq<real>, i: nat)
    requires i < |closes| && i + 1 < RsiWindow
    ensures RsiSeries(closes)[i] == None
  {
  }

  /** After the warm-up the RSI is NaN exactly on a flat stretch: fourteen bars with no change at all. */
  lemma RsiDefinedUnlessFlat(closes: seq<real>, i: nat)
    requires RsiWindow <= i + 1 <= |closes|
    ensures RsiSeries(closes)[i].Some? <==>
              exists j :: i + 1 - RsiWindow <= j <= i && (Gain(closes, j) != 0.0 || Loss(closes, j) != 0.0)
  {
    var g := Gains(closes);
    var l := Losses(closes);
    var lo := i + 1 - RsiWindow;
    var gw := Lift(g)[lo..i + 1];
    var lw := Lift(l)[lo..i + 1];
    assert AllDefined(gw) by {
      forall j | 0 <= j < |gw| ensures gw[j].Some? { assert gw[j] == Lift(g)[lo + j]; }
    }
    assert AllDefined(lw) by {
      forall j | 0 <= j < |lw| ensures lw[j].Some? { assert lw[j] == Lift(l)[lo + j]; }
    }
    var gv := Values(gw);
    var lv := Values(lw);
    forall j | 0 <= j < RsiWindow ensures gv[j] == Gain(closes, lo + j) && lv[j] == Loss(closes, lo + j) {
      assert gw[j] == Lift(g)[lo + j];
      assert lw[j] == Lift(l)[lo + j];
    }
    MeanZeroIff(gv);
    MeanZeroIff(lv);
    if exists j :: lo <= j <= i && (Gain(closes, j) != 0.0 || Loss(closes, j) != 0.0) {
      var j :| lo <= j <= i && (Gain(closes, j) != 0.0 || Loss(closes, j) != 0.0);
      assert gv[j - lo] != 0.0 || lv[j - lo] != 0.0;
    }
  }

  /** A mean of non-negative values is zero exactly when every value is. */
  lemma MeanZeroIff(s: seq<real>)
    requires |s| > 0
    requires forall j :: 0 <= j < |s| ==> 0.0 <= s[j]
    ensures Mean(s) == 0.0 <==> forall j :: 0 <= j < |s| ==> s[j] == 0.0
  {
    SumOfNonneg(s);
  }

  /** `rsi_trend`'s three outcomes: '上涨', '下跌', '横盘整理'. */
  datatype Trend = Rising | Falling | Ranging

  /** The last RSI value; `iloc[-1]` raises on an empty column. */
  function Last(rsi: seq<Num>): Num
    requires |rsi| > 0
  {
    rsi[|rsi| - 1]
  }

  function RsiTrend(rsi: seq<Num>): (t: Trend)
    requires |rsi| > 0
    ensures t == Rising <==> Below(Some(60.0), Last(rsi))
    ensures t == Falling <==> Below(Last(rsi), Some(40.0))
    ensures t == Ranging ==> Last(rsi).None? || 40.0 <= Last(rsi).value <= 60.0
  {
    var r := Last(rsi);
    if Below(Some(60.0), r) then Rising
    else if Below(r, Some(40.0)) then Falling
    else Ranging
  }

  /** The `side` values of `rsi_side` and `ris_handel`. */
  datatype Side = Buy | Sell | No

  /**
    `rsi_side`, statement by statement. The overbought/oversold branch and
    the counter-trend sell are overwritten by the closing if/else, so only
    a buy in a rising trend or 'no' can come out.
   */
  method RsiSide(rsi: seq<Num>, trend: Trend) returns (side: Side)
    requires |rsi| > 0
    ensures side == Buy <==> Below(Last(rsi), Some(40.0)) && trend == Rising
    ensures side != Sell
  {
    var r := Last(rsi);
    var early: Option<Side> := None;
    if Below(Some(80.0), r) {
      early := Some(Sell);
    } else if Below(r, Some(20.0)) {
      early := Some(Buy);
    }
    if Below(Some(60.0), r) && trend == Falling {
      early := Some(Sell);
    }
    if Below(r, Some(40.0)) && trend == Rising {
      side := Buy;
    } else {
      side := No;
    }
  }

  /** `ris_handel`: a rising trend needs RSI above 60 and a buy needs it below 40, so the answer is always 'no'. */
  method RisHandel(rsi: seq<Num>) returns (side: Side)
    requires |rsi| > 0
    ensures side == No
  {
    var trend := RsiTrend(rsi);
    side := RsiSide(rsi, trend);
  }

  /** `macd_handel` computes a local side but returns nothing: the result is always None. */
  method MacdHandel(macdSignal: seq<Num>) returns (r: Option<Side>)
    requires |macdSignal| > 0
    ensures r == None
  {
    // the source computes this side and then drops it, returning nothing
    var side: Option<Side> := None;
    var s := macdSignal[|macdSignal| - 1];
    if Below(Some(0.0), s) && Below(s, Some(5.0)) {
      side := Some(Buy);
    }
    r := None;
  }

  /** `x >= c`, false when x is NaN. */
  predicate AtLeast(x: Num, c: real) {
    x.Some? && c <= x.value
  }

  /** `x <= c`, false when x is NaN. */
  predicate AtMost(x: Num, c: real) {
    x.Some? && x.value <= c
  }

  /** Squeeze on, RSI falling back under 80 from at least 80, and a bearish last bar. */
  predicate SellSetup(squeezeOn: bool, rsiPrev: Num, rsiLast: Num, last: Bar) {
    squeezeOn && AtLeast(rsiPrev, 80.0) && Below(rsiLast, Some(80.0)) && last.close < last.open
  }

  /** Squeeze on, RSI rising above 20 from at most 20, and a bullish last bar. */
  predicate BuySetup(squeezeOn: bool, rsiPrev: Num, rsiLast: Num, last: Bar) {
    squeezeOn && AtMost(rsiPrev, 20.0) && Below(Some(20.0), rsiLast) && last.close > last.open
  }

  /** The calls of `boll_kc_handel`: 'SELL', 'BUY', 'HOLD'. */
  datatype Call = SellCall | BuyCall | HoldCall

  /**
    `boll_kc_handel` on a frame with an `rsi` column: the squeeze flag of the
    last bar of `ttm_squeeze` with its default parameters, the last two RSI
    values (`iloc[-2]` needs two rows) and the last bar's candle.
   */
  function BollKcHandel(bars: seq<Bar>, rsi: seq<Num>, sqrt: real -> real, slope: seq<real> -> real): (c: Call)
    requires 2 <= |bars| && |rsi| == |bars|
    ensures var on := TtmSqueeze(bars, 20, 2.0, 20, 1.5, 20, sqrt, slope).squeezeOn[|bars| - 1];
            && (c == SellCall <==> SellSetup(on, rsi[|bars| - 2], rsi[|bars| - 1], bars[|bars| - 1]))
            && (c == BuyCall <==> BuySetup(on, rsi[|bars| - 2], rsi[|bars| - 1], bars[|bars| - 1]))
            && (!on ==> c == HoldCall)
  {
    var on := TtmSqueeze(bars, 20, 2.0, 20, 1.5, 20, sqrt, slope).squeezeOn[|bars| - 1];
    var n := |bars|;
    SetupsExclusive(on, rsi[n - 2], rsi[n - 1], bars[n - 1]);
    if SellSetup(on, rsi[n - 2], rsi[n - 1], bars[n - 1]) then SellCall
    else if BuySetup(on, rsi[n - 2], rsi[n - 1], bars[n - 1]) then BuyCall
    else HoldCall
  }

  /** The sell and buy setups never hold together. */
  lemma SetupsExclusive(on: bool, rsiPrev: Num, rsiLast: Num, last: Bar)
    ensures !(SellSetup(on, rsiPrev, rsiLast, last) && BuySetup(on, rsiPrev, rsiLast, last))
  {
  }
}
