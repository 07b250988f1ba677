/**
  `halftrend`: the HalfTrend line and its trend flag, computed bar by bar.
  A bar whose close is above the previous HalfTrend value turns the trend
  up and the line becomes the rolling maximum of the lows; any other bar
  (including a comparison against NaN) turns it down and the line becomes
  the rolling minimum of the highs. Bands sit at channel_deviation times
  the 10-bar mean absolute change of the line on either side, and a buy
  (sell) signal marks a flip from down to up (up to down).
 */
module HalfTrend {
  import opened Numeric
  import opened Bands
  import opened Series

  const Up: int := 1
  const Down: int := -1

  /** The trend flag of bar i: 0 on bar 0, then up or down by the previous line value. */
  function TrendAt(bars: seq<Bar>, amplitude: nat, i: nat): (t: int)
    requires i < |bars|
    ensures i == 0 ==> t == 0
    ensures i > 0 ==> t == Up || t == Down
    decreases i, 0
  {
    if i == 0 then 0
    else if Below(LineAt(bars, amplitude, i - 1), Some(bars[i].close)) then Up
    else Down
  }

  /** The HalfTrend value of bar i: 0 on bar 0, then the rolling extreme the trend selects. */
  function LineAt(bars: seq<Bar>, amplitude: nat, i: nat): Num
    requires i < |bars|
    decreases i, 1
  {
    if i == 0 then Some(0.0)
    else if TrendAt(bars, amplitude, i) == Up then RollingMax(Lows(bars), amplitude, i)
    else RollingMin(Highs(bars), amplitude, i)
  }

  /** After bar 0 the trend follows the breakout test and picks the rolling extreme the line shows. */
  lemma TrendSelectsLine(bars: seq<Bar>, amplitude: nat)
    ensures forall i :: 1 <= i < |bars| ==>
              (TrendAt(bars, amplitude, i) == Up <==> Below(LineAt(bars, amplitude, i - 1), Some(bars[i].close))) &&
              LineAt(bars, amplitude, i) ==
                (if TrendAt(bars, amplitude, i) == Up then RollingMax(Lows(bars), amplitude, i)
                 else RollingMin(Highs(bars), amplitude, i))
  {
  }

  /** `abs(HalfTrend.diff())`: NaN on bar 0 and wherever the line is NaN. */
  function LineChange(line: seq<Num>, i: nat): (d: Num)
    requires i < |line|
    ensures d.Some? ==> 0.0 <= d.value
    ensures d.Some? <==> 0 < i && line[i].Some? && line[i - 1].Some?
  {
    if i == 0 then None
    else
      var s := Sub(line[i], line[i - 1]);
      if s.Some? then Some(Abs(s.value)) else None
  }

  /** The columns `halftrend` adds to the frame. */
  datatype HtFrame = HtFrame(
    maxLow: seq<Num>, minHigh: seq<Num>,
    line: seq<Num>, trend: seq<int>,
    upper: seq<Num>, lower: seq<Num>,
    buy: seq<bool>, sell: seq<bool>)

  /** The length of the bands' rolling mean. */
  const BandWindow: nat := 10

  /** The column `HalfTrend.diff().abs()`. */
  function Changes(line: seq<Num>): (c: seq<Num>)
    ensures |c| == |line|
    ensures forall i :: 0 <= i < |line| ==> c[i] == LineChange(line, i)
  {
    seq(|line|, i requires 0 <= i < |line| => LineChange(line, i))
  }

  /** The half-width of the channel at bar i: cd times the 10-bar mean absolute change of the line. */
  function Width(line: seq<Num>, cd: real, i: nat): Num
    requires i < |line|
  {
    Scale(cd, RollingMean(Changes(line), BandWindow, i))
  }

  /** The bands: the line plus or minus its half-width. */
  function Channel(line: seq<Num>, cd: real): (e: Envelope)
    ensures e.Aligned() && e.Length() == |line| && e.mid == line
    ensures forall i :: 0 <= i < |line| ==> e.mae[i] == Width(line, cd, i)
    ensures forall i :: 0 <= i < |line| ==> SymmetricAt(e, i)
  {
    WithBands(line, seq(|line|, i requires 0 <= i < |line| => Width(line, cd, i)))
  }

  /** A channel deviation cd >= 0 gives a non-negative half-width wherever it is defined. */
  lemma WidthNonneg(line: seq<Num>, cd: real, i: nat)
    requires i < |line| && 0.0 <= cd
    ensures Width(line, cd, i).Some? ==> 0.0 <= Width(line, cd, i).value
  {
    var c := Changes(line);
    forall j | 0 <= j < |c| && c[j].Some? ensures 0.0 <= c[j].value {
      assert c[j] == LineChange(line, j);
    }
    RollingMeanNonnegNum(c, BandWindow, i);
    ScaleNonneg(cd, RollingMean(c, BandWindow, i));
  }

  /** Marks the bars where the trend turns from `from` to `to`. */
  function Flips(trend: seq<int>, from: int, to: int): (r: seq<bool>)
    ensures |r| == |trend|
    ensures forall i :: 0 <= i < |trend| ==> (r[i] <==> 0 < i && trend[i - 1] == from && trend[i] == to)
  {
    seq(|trend|, i requires 0 <= i < |trend| => 0 < i && trend[i - 1] == from && trend[i] == to)
  }

  /**
    The whole indicator, for a frame of at least one bar. On an empty frame
    pandas reindexes the frame to the one-element `ht` list, so the source
    returns a single row with NaN prices; that row is not modelled.
   */
  function Compute(bars: seq<Bar>, amplitude: nat, channelDeviation: real): (f: HtFrame)
    requires 1 <= |bars|
    ensures |f.maxLow| == |f.minHigh| == |f.line| == |f.trend| == |bars|
    ensures |f.upper| == |f.lower| == |f.buy| == |f.sell| == |bars|
    ensures f.trend[0] == 0 && f.line[0] == Some(0.0)
    ensures forall i :: 0 <= i < |bars| ==>
              f.maxLow[i] == RollingMax(Lows(bars), amplitude, i) &&
              f.minHigh[i] == RollingMin(Highs(bars), amplitude, i)
    ensures forall i :: 1 <= i < |bars| ==>
              (f.trend[i] == Up <==> Below(f.line[i - 1], Some(bars[i].close))) &&
              (f.trend[i] == Up || f.trend[i] == Down) &&
              f.line[i] == (if f.trend[i] == Up then f.maxLow[i] else f.minHigh[i])
    ensures forall i {:trigger f.upper[i]} :: 0 <= i < |bars| ==>
              f.upper[i] == Add(f.line[i], Width(f.line, channelDeviation, i))
    ensures forall i {:trigger f.lower[i]} :: 0 <= i < |bars| ==>
              f.lower[i] == Sub(f.line[i], Width(f.line, channelDeviation, i))
    ensures forall i :: 0 <= i < |bars| ==>
              f.buy[i] == (0 < i && f.trend[i - 1] == Down && f.trend[i] == Up) &&
              f.sell[i] == (0 < i && f.trend[i - 1] == Up && f.trend[i] == Down)
  {
    TrendSelectsLine(bars, amplitude);
    var n := |bars|;
    var line := seq(n, i requires 0 <= i < n => LineAt(bars, amplitude, i));
    var trend := seq(n, i requires 0 <= i < n => TrendAt(bars, amplitude, i));
    var e := Channel(line, channelDeviation);
    HtFrame(
      seq(n, i requires 0 <= i < n => RollingMax(Lows(bars), amplitude, i)),
      seq(n, i requires 0 <= i < n => RollingMin(Highs(bars), amplitude, i)),
      line, trend, e.upper, e.lower, Flips(trend, Down, Up), Flips(trend, Up, Down))
  }

  /** A bar is never both a buy and a sell signal. */
  lemma SignalsExclusive(bars: seq<Bar>, amplitude: nat, cd: real, i: nat)
    requires 1 <= |bars| && i < |bars|
    ensures !(Compute(bars, amplitude, cd).buy[i] && Compute(bars, amplitude, cd).sell[i])
  {
  }

  /**
    A buy signal means the close broke above the previous HalfTrend value,
    which must therefore have been defined.
   */
  lemma BuyMeansBreakout(bars: seq<Bar>, amplitude: nat, cd: real, i: nat)
    requires 1 <= |bars| && i < |bars|
    requires Compute(bars, amplitude, cd).buy[i]
    ensures Compute(bars, amplitude, cd).line[i - 1].Some?
    ensures Compute(bars, amplitude, cd).line[i - 1].value < bars[i].close
  {
  }

  /** Once `amplitude` bars exist the line is defined whichever way the trend points. */
  lemma LineDefined(bars: seq<Bar>, amplitude: nat, cd: real, i: nat)
    requires 1 <= |bars| && i < |bars|
    requires 1 <= amplitude <= i + 1
    ensures Compute(bars, amplitude, cd).line[i].Some?
  {
  }

  /** During the line's first `amplitude - 1` bars, the trend after bar 0 points down. */
  lemma WarmupTrendsDown(bars: seq<Bar>, amplitude: nat, cd: real, i: nat)
    requires 1 <= |bars| && 2 <= i < |bars| && i < amplitude
    ensures Compute(bars, amplitude, cd).trend[i] == Down
  {
    assert LineAt(bars, amplitude, i - 1) == None;
  }

  /**
    The channel is symmetric about the line: both bands are defined at the
    same bars, at equal distance channel_deviation times the 10-bar mean
    absolute change of the line.
   */
  lemma BandsSymmetric(bars: seq<Bar>, amplitude: nat, cd: real, i: nat)
    requires 1 <= |bars| && i < |bars|
    ensures var f := Compute(bars, amplitude, cd);
            && (f.upper[i].Some? <==> f.line[i].Some? && Width(f.line, cd, i).Some?)
            && (f.lower[i].Some? <==> f.upper[i].Some?)
            && (f.upper[i].Some? ==>
                  f.upper[i].value - f.line[i].value == Width(f.line, cd, i).value
                  && f.line[i].value - f.lower[i].value == Width(f.line, cd, i).value)
  {
  }

  /** With channel_deviation >= 0, the line lies between the bands wherever they are defined. */
  lemma BandsOrdered(bars: seq<Bar>, amplitude: nat, cd: real, i: nat)
    requires 1 <= |bars| && i < |bars| && 0.0 <= cd
    requires Compute(bars, amplitude, cd).upper[i].Some?
    ensures var f := Compute(bars, amplitude, cd);
            f.lower[i].value <= f.line[i].value <= f.upper[i].value
  {
    var f := Compute(bars, amplitude, cd);
    WidthNonneg(f.line, cd, i);
  }

  /**
    The bands need ten defined line changes and the change of bar 0 is NaN,
    so they are NaN on bars 0..9.
   */
  lemma BandsWarmup(bars: seq<Bar>, amplitude: nat, cd: real, i: nat)
    requires 1 <= |bars| && i < |bars| && i < BandWindow
    ensures Compute(bars, amplitude, cd).upper[i] == None
    ensures Compute(bars, amplitude, cd).lower[i] == None
  {
  }
}
