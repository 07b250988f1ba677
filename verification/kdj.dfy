/**
  `compute_kdj`: the stochastic oscillator. RSV compares the close with the
  highest high and lowest low of the last n bars (fewer at the start), K
  smooths RSV with factor 1/m1 from a seed of 50, D smooths K with factor
  1/m2 from 50, and J = 3K - 2D. The source works on a copy of the frame;
  here the result is simply a new value.
 */
module Kdj {
  import opened Numeric
  import opened Series

  const Seed: real := 50.0

  /** `high.rolling(n, min_periods=1).max()`. */
  function Highest(bars: seq<Bar>, n: nat, i: nat): real
    requires 1 <= n && i < |bars|
  {
    RollingMaxFrom1(Highs(bars), n, i)
  }

  /** `low.rolling(n, min_periods=1).min()`. */
  function Lowest(bars: seq<Bar>, n: nat, i: nat): real
    requires 1 <= n && i < |bars|
  {
    RollingMinFrom1(Lows(bars), n, i)
  }

  /**
    `(close - lowest) / denom * 100`, where a zero range becomes NaN and the
    NaN is then filled with 0.
   */
  function RsvAt(bars: seq<Bar>, n: nat, i: nat): (r: real)
    requires 1 <= n && i < |bars|
    ensures Highest(bars, n, i) == Lowest(bars, n, i) ==> r == 0.0
    ensures Highest(bars, n, i) != Lowest(bars, n, i) ==>
              r == (bars[i].close - Lowest(bars, n, i)) / (Highest(bars, n, i) - Lowest(bars, n, i)) * 100.0
  {
    var denom := Highest(bars, n, i) - Lowest(bars, n, i);
    if denom == 0.0 then 0.0 else (bars[i].close - Lowest(bars, n, i)) / denom * 100.0
  }

  function Rsv(bars: seq<Bar>, n: nat): (r: seq<real>)
    requires 1 <= n
    ensures |r| == |bars|
    ensures forall i :: 0 <= i < |bars| ==> r[i] == RsvAt(bars, n, i)
  {
    seq(|bars|, i requires 0 <= i < |bars| => RsvAt(bars, n, i))
  }

  /** The columns `compute_kdj` adds. */
  datatype KdjFrame = KdjFrame(rsv: seq<real>, k: seq<real>, d: seq<real>, j: seq<real>)

  /**
    The indicator. `1.0 / m1` and `1.0 / m2` raise for a zero factor, and a
    rolling window needs n >= 1.
   */
  function ComputeKdj(bars: seq<Bar>, n: nat, m1: int, m2: int): (f: KdjFrame)
    requires 1 <= n && m1 != 0 && m2 != 0
    ensures |f.rsv| == |f.k| == |f.d| == |f.j| == |bars|
    ensures f.rsv == Rsv(bars, n)
    ensures |bars| > 0 ==> f.k[0] == Seed && f.d[0] == Seed
    ensures forall i :: 1 <= i < |bars| ==> f.k[i] == Step(1.0 / (m1 as real), f.k[i - 1], f.rsv[i])
    ensures forall i :: 1 <= i < |bars| ==> f.d[i] == Step(1.0 / (m2 as real), f.d[i - 1], f.k[i])
    ensures forall i :: 0 <= i < |bars| ==> f.j[i] == 3.0 * f.k[i] - 2.0 * f.d[i]
  {
    var rsv := Rsv(bars, n);
    var k := Smooth(rsv, 1.0 / (m1 as real), Seed);
    var d := Smooth(k, 1.0 / (m2 as real), Seed);
    SmoothRecurrence(rsv, 1.0 / (m1 as real), Seed);
    SmoothRecurrence(k, 1.0 / (m2 as real), Seed);
    KdjFrame(rsv, k, d, seq(|bars|, i requires 0 <= i < |bars| => 3.0 * k[i] - 2.0 * d[i]))
  }

  /**
    RSV locates the close inside the n-bar range: going back from the
    percentage to a price gives the close again.
   */
  lemma RsvLocatesClose(bars: seq<Bar>, n: nat, i: nat)
    requires 1 <= n && i < |bars|
    requires Highest(bars, n, i) != Lowest(bars, n, i)
    ensures Lowest(bars, n, i) + RsvAt(bars, n, i) / 100.0 * (Highest(bars, n, i) - Lowest(bars, n, i)) == bars[i].close
  {
    Locate(Lowest(bars, n, i), Highest(bars, n, i), bars[i].close, RsvAt(bars, n, i));
  }

  /** A percentage r of the way from lo to hi, taken back to a price. */
  lemma Locate(lo: real, hi: real, c: real, r: real)
    requires hi != lo && r == (c - lo) / (hi - lo) * 100.0
    ensures lo + r / 100.0 * (hi - lo) == c
  {
    assert r / 100.0 == (c - lo) / (hi - lo);
  }

  /** The n-bar high is at least the n-bar low when every bar has high >= low. */
  lemma HighestAtLeastLowest(bars: seq<Bar>, n: nat, i: nat)
    requires 1 <= n && i < |bars|
    requires forall b :: 0 <= b < |bars| ==> bars[b].low <= bars[b].high
    ensures Lowest(bars, n, i) <= Highest(bars, n, i)
  {
    RollingFrom1Brackets(Highs(bars), n, i);
    RollingFrom1Brackets(Lows(bars), n, i);
  }

  lemma ScaledRatioWithin(num: real, den: real)
    requires 0.0 <= num <= den && 0.0 < den
    ensures 0.0 <= num / den * 100.0 <= 100.0
  {
    DivBounds(num, den, 0.0, 1.0);
  }

  /**
    When every close lies within its bar's range, RSV lies in [0, 100]
    (the range the source's comment promises).
   */
  lemma RsvWithin(bars: seq<Bar>, n: nat, i: nat)
    requires 1 <= n && i < |bars|
    requires forall b :: 0 <= b < |bars| ==> bars[b].low <= bars[b].close <= bars[b].high
    ensures 0.0 <= RsvAt(bars, n, i) <= 100.0
  {
    var hi, lo, c := Highest(bars, n, i), Lowest(bars, n, i), bars[i].close;
    assert lo <= c <= hi by {
      RollingFrom1Brackets(Highs(bars), n, i);
      RollingFrom1Brackets(Lows(bars), n, i);
    }
    if hi - lo != 0.0 {
      ScaledRatioWithin(c - lo, hi - lo);
    }
  }

  /**
    With closes inside their bars and smoothing factors m1, m2 >= 1, K and
    D stay in [0, 100] on every bar.
   */
  lemma KdWithin(bars: seq<Bar>, n: nat, m1: int, m2: int, t: nat)
    requires 1 <= n && 1 <= m1 && 1 <= m2 && t < |bars|
    requires forall b :: 0 <= b < |bars| ==> bars[b].low <= bars[b].close <= bars[b].high
    ensures 0.0 <= ComputeKdj(bars, n, m1, m2).k[t] <= 100.0
    ensures 0.0 <= ComputeKdj(bars, n, m1, m2).d[t] <= 100.0
  {
    var rsv := Rsv(bars, n);
    forall b | 0 <= b < |bars|
      ensures 0.0 <= rsv[b] <= 100.0
    {
      RsvWithin(bars, n, b);
    }
    FactorWithin(m1);
    FactorWithin(m2);
    var k := Smooth(rsv, 1.0 / (m1 as real), Seed);
    forall b | 0 <= b < |bars|
      ensures 0.0 <= k[b] <= 100.0
    {
      SmoothWithin(rsv, 1.0 / (m1 as real), Seed, b, 0.0, 100.0);
    }
    SmoothWithin(k, 1.0 / (m2 as real), Seed, t, 0.0, 100.0);
  }
}
