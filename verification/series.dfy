/**
  Price bars and the pandas window operations the indicators are built from:
  trailing windows, rolling max/min/mean (with pandas' `min_periods` rules
  and NaN handling), and the first-order recursive smoothing shared by
  `ewm(adjust=False)`, Wilder's ATR and the KDJ recurrences.
 */
module Series {
  import opened Numeric

  /** One OHLC row of the price DataFrame. */
  datatype Bar = Bar(open: real, high: real, low: real, close: real)

  function Closes(bars: seq<Bar>): (r: seq<real>)
    ensures |r| == |bars|
    ensures forall i :: 0 <= i < |bars| ==> r[i] == bars[i].close
  {
    seq(|bars|, i requires 0 <= i < |bars| => bars[i].close)
  }

  function Highs(bars: seq<Bar>): (r: seq<real>)
    ensures |r| == |bars|
    ensures forall i :: 0 <= i < |bars| ==> r[i] == bars[i].high
  {
    seq(|bars|, i requires 0 <= i < |bars| => bars[i].high)
  }

  function Lows(bars: seq<Bar>): (r: seq<real>)
    ensures |r| == |bars|
    ensures forall i :: 0 <= i < |bars| ==> r[i] == bars[i].low
  {
    seq(|bars|, i requires 0 <= i < |bars| => bars[i].low)
  }

  /** First index of the trailing window of length `w` ending at `i`, clipped at 0. */
  function WindowStart(w: nat, i: nat): nat {
    if i + 1 >= w then i + 1 - w else 0
  }

  /** `rolling(w, min_periods=1).max()`: defined from bar 0 on. */
  function RollingMaxFrom1(xs: seq<real>, w: nat, i: nat): real
    requires 1 <= w && i < |xs|
  {
    MaxOf(xs[WindowStart(w, i)..i + 1])
  }

  /** `rolling(w, min_periods=1).min()`. */
  function RollingMinFrom1(xs: seq<real>, w: nat, i: nat): real
    requires 1 <= w && i < |xs|
  {
    MinOf(xs[WindowStart(w, i)..i + 1])
  }

  /** The current bar always lies inside its own trailing window. */
  lemma RollingFrom1Brackets(xs: seq<real>, w: nat, i: nat)
    requires 1 <= w && i < |xs|
    ensures RollingMinFrom1(xs, w, i) <= xs[i] <= RollingMaxFrom1(xs, w, i)
  {
    var win := xs[WindowStart(w, i)..i + 1];
    assert win[|win| - 1] == xs[i];
  }

  /** `rolling(w).max()` (min_periods = w): NaN until a full window exists. */
  function RollingMax(xs: seq<real>, w: nat, i: nat): Num
    requires i < |xs|
  {
    if w == 0 || i + 1 < w then None else Some(MaxOf(xs[i + 1 - w..i + 1]))
  }

  /** `rolling(w).min()` (min_periods = w). */
  function RollingMin(xs: seq<real>, w: nat, i: nat): Num
    requires i < |xs|
  {
    if w == 0 || i + 1 < w then None else Some(MinOf(xs[i + 1 - w..i + 1]))
  }

  predicate AllDefined(xs: seq<Num>) {
    forall j :: 0 <= j < |xs| ==> xs[j].Some?
  }

  function Values(xs: seq<Num>): (r: seq<real>)
    requires AllDefined(xs)
    ensures |r| == |xs|
    ensures forall j :: 0 <= j < |xs| ==> r[j] == xs[j].value
  {
    seq(|xs|, j requires 0 <= j < |xs| && AllDefined(xs) => xs[j].value)
  }

  /**
    `rolling(w).mean()` with the default min_periods = w: NaN until a full
    window exists and NaN whenever a NaN lies inside the window.
   */
  function RollingMean(xs: seq<Num>, w: nat, i: nat): Num
    requires i < |xs|
  {
    if w == 0 || i + 1 < w then None
    else
      var win := xs[i + 1 - w..i + 1];
      if AllDefined(win) then Some(Mean(Values(win))) else None
  }

  /** The strict rolling mean of a column with no negative value is never negative. */
  lemma RollingMeanNonnegNum(xs: seq<Num>, w: nat, i: nat)
    requires i < |xs|
    requires forall j :: 0 <= j < |xs| && xs[j].Some? ==> 0.0 <= xs[j].value
    ensures RollingMean(xs, w, i).Some? ==> 0.0 <= RollingMean(xs, w, i).value
  {
    if w != 0 && w <= i + 1 {
      var win := xs[i + 1 - w..i + 1];
      if AllDefined(win) {
        var vs := Values(win);
        forall j | 0 <= j < |vs| ensures 0.0 <= vs[j] <= MaxOf(vs) {
          assert vs[j] == xs[i + 1 - w + j].value;
        }
        MeanBounds(vs, 0.0, MaxOf(vs));
      }
    }
  }

  /** Number of non-NaN entries. */
  function CountDefined(xs: seq<Num>): nat {
    if |xs| == 0 then 0 else (if xs[0].Some? then 1 else 0) + CountDefined(xs[1..])
  }

  /** Sum of the non-NaN entries. */
  function SumDefined(xs: seq<Num>): real {
    if |xs| == 0 then 0.0 else (if xs[0].Some? then xs[0].value else 0.0) + SumDefined(xs[1..])
  }

  /** pandas `mean()` of a window with min_periods = 1: NaN entries are skipped. */
  function MeanSkipNaN(xs: seq<Num>): Num {
    if CountDefined(xs) == 0 then None else Some(SumDefined(xs) / (CountDefined(xs) as real))
  }

  /** `rolling(w, min_periods=1).mean()`. */
  function RollingMeanSkipNaN(xs: seq<Num>, w: nat, i: nat): Num
    requires 1 <= w && i < |xs|
  {
    MeanSkipNaN(xs[WindowStart(w, i)..i + 1])
  }

  /** Some entry is defined, so the NaN-skipping mean has something to average. */
  lemma {:induction false} CountDefinedPositive(xs: seq<Num>, j: int)
    requires 0 <= j < |xs| && xs[j].Some?
    ensures 0 < CountDefined(xs)
  {
    if j > 0 {
      CountDefinedPositive(xs[1..], j - 1);
    }
  }

  lemma {:induction false} SumDefinedAtLeast(xs: seq<Num>, lo: real)
    requires forall j :: 0 <= j < |xs| && xs[j].Some? ==> lo <= xs[j].value
    ensures (CountDefined(xs) as real) * lo <= SumDefined(xs)
  {
    if |xs| > 0 {
      SumDefinedAtLeast(xs[1..], lo);
    }
  }

  lemma {:induction false} SumDefinedAtMost(xs: seq<Num>, hi: real)
    requires forall j :: 0 <= j < |xs| && xs[j].Some? ==> xs[j].value <= hi
    ensures SumDefined(xs) <= (CountDefined(xs) as real) * hi
  {
    if |xs| > 0 {
      SumDefinedAtMost(xs[1..], hi);
    }
  }

  /**
    The NaN-skipping mean is defined as soon as one entry is, and lies
    between any bounds of the defined entries.
   */
  lemma MeanSkipNaNWithin(xs: seq<Num>, j: int, lo: real, hi: real)
    requires 0 <= j < |xs| && xs[j].Some?
    requires forall i :: 0 <= i < |xs| && xs[i].Some? ==> lo <= xs[i].value <= hi
    ensures MeanSkipNaN(xs).Some?
    ensures lo <= MeanSkipNaN(xs).value <= hi
  {
    CountDefinedPositive(xs, j);
    SumDefinedAtLeast(xs, lo);
    SumDefinedAtMost(xs, hi);
    DivBounds(SumDefined(xs), CountDefined(xs) as real, lo, hi);
  }

  /** Only a lower bound on the defined entries is needed for a lower bound on the mean. */
  lemma MeanSkipNaNAtLeast(xs: seq<Num>, lo: real)
    requires forall i :: 0 <= i < |xs| && xs[i].Some? ==> lo <= xs[i].value
    ensures MeanSkipNaN(xs).Some? ==> lo <= MeanSkipNaN(xs).value
  {
    if CountDefined(xs) > 0 {
      SumDefinedAtLeast(xs, lo);
      DivBounds(SumDefined(xs), CountDefined(xs) as real, lo, SumDefined(xs) / (CountDefined(xs) as real));
    }
  }

  /** A rolling mean over a column without negative values is not negative. */
  lemma RollingMeanSkipNaNNonneg(xs: seq<Num>, w: nat, i: nat)
    requires 1 <= w && i < |xs|
    requires forall j :: 0 <= j < |xs| && xs[j].Some? ==> 0.0 <= xs[j].value
    ensures RollingMeanSkipNaN(xs, w, i).Some? ==> 0.0 <= RollingMeanSkipNaN(xs, w, i).value
  {
    var win := xs[WindowStart(w, i)..i + 1];
    forall j | 0 <= j < |win| && win[j].Some?
      ensures 0.0 <= win[j].value
    {
      assert win[j] == xs[WindowStart(w, i) + j];
    }
    MeanSkipNaNAtLeast(win, 0.0);
  }

  /** Without NaNs the NaN-skipping mean is the plain mean. */
  lemma {:induction false} MeanSkipNaNNoNaN(xs: seq<Num>)
    requires |xs| > 0 && AllDefined(xs)
    ensures MeanSkipNaN(xs) == Some(Mean(Values(xs)))
  {
    CountSumNoNaN(xs);
  }

  lemma {:induction false} CountSumNoNaN(xs: seq<Num>)
    requires AllDefined(xs)
    ensures CountDefined(xs) == |xs|
    ensures SumDefined(xs) == Sum(Values(xs))
  {
    if |xs| > 0 {
      assert AllDefined(xs[1..]) by {
        forall j | 0 <= j < |xs| - 1 ensures xs[1..][j].Some? {
          assert xs[1..][j] == xs[j + 1];
        }
      }
      CountSumNoNaN(xs[1..]);
      assert Values(xs)[1..] == Values(xs[1..]);
    }
  }

  /** One step of first-order smoothing: move a fraction `alpha` of the way to `x`. */
  function Step(alpha: real, prev: real, x: real): real {
    (1.0 - alpha) * prev + alpha * x
  }

  /**
    First-order recursive smoothing at bar `i`: the seed at bar 0, then one
    `Step` per bar. This is pandas `ewm(alpha, adjust=False)` when the seed
    is xs[0], and the recurrences of Wilder's ATR and of the KDJ lines.
   */
  function SmoothAt(xs: seq<real>, alpha: real, init: real, i: nat): real
    requires i < |xs|
  {
    if i == 0 then init else Step(alpha, SmoothAt(xs, alpha, init, i - 1), xs[i])
  }

  /** The whole smoothed column. */
  function Smooth(xs: seq<real>, alpha: real, init: real): (r: seq<real>)
    ensures |r| == |xs|
    ensures forall i :: 0 <= i < |xs| ==> r[i] == SmoothAt(xs, alpha, init, i)
  {
    seq(|xs|, i requires 0 <= i < |xs| => SmoothAt(xs, alpha, init, i))
  }

  /** A step with 0 <= alpha <= 1 never falls below a bound both of its inputs respect. */
  lemma StepAbove(a: real, x: real, y: real, lo: real)
    requires 0.0 <= a <= 1.0 && lo <= x && lo <= y
    ensures lo <= Step(a, x, y)
  {
    var b, u, v := 1.0 - a, x - lo, y - lo;
    NonnegProduct(b, u);
    NonnegProduct(a, v);
    assert Step(a, x, y) - lo == b * u + a * v;
  }

  /** A step with 0 <= alpha <= 1 never rises above a bound both of its inputs respect. */
  lemma StepBelow(a: real, x: real, y: real, hi: real)
    requires 0.0 <= a <= 1.0 && x <= hi && y <= hi
    ensures Step(a, x, y) <= hi
  {
    var b, u, v := 1.0 - a, hi - x, hi - y;
    NonnegProduct(b, u);
    NonnegProduct(a, v);
    assert hi - Step(a, x, y) == b * u + a * v;
  }

  /** A step with 0 <= alpha <= 1 is a convex combination. */
  lemma StepWithin(a: real, x: real, y: real, lo: real, hi: real)
    requires 0.0 <= a <= 1.0
    requires lo <= x <= hi && lo <= y <= hi
    ensures lo <= Step(a, x, y) <= hi
  {
    StepAbove(a, x, y, lo);
    StepBelow(a, x, y, hi);
  }

  /** The factor 1/m of a smoothing with period m >= 1 is in [0, 1]. */
  lemma FactorWithin(m: int)
    requires 1 <= m
    ensures 0.0 <= 1.0 / (m as real) <= 1.0
  {
    DivBounds(1.0, m as real, 0.0, 1.0);
  }

  /** Consecutive entries of the smoothed column are related by one `Step`. */
  lemma SmoothRecurrence(xs: seq<real>, alpha: real, init: real)
    ensures |xs| > 0 ==> Smooth(xs, alpha, init)[0] == init
    ensures forall i :: 1 <= i < |xs| ==>
              Smooth(xs, alpha, init)[i] == Step(alpha, Smooth(xs, alpha, init)[i - 1], xs[i])
  {
  }

  /**
    Smoothing never leaves the range of its inputs: if the seed and the
    inputs of bars 1..t lie in [lo, hi], so does the smoothed value at t.
   */
  lemma {:induction false} SmoothWithin(xs: seq<real>, alpha: real, init: real, t: nat, lo: real, hi: real)
    requires 0.0 <= alpha <= 1.0
    requires t < |xs|
    requires lo <= init <= hi
    requires forall j :: 1 <= j <= t ==> lo <= xs[j] <= hi
    ensures lo <= SmoothAt(xs, alpha, init, t) <= hi
  {
    if t > 0 {
      SmoothWithin(xs, alpha, init, t - 1, lo, hi);
      StepWithin(alpha, SmoothAt(xs, alpha, init, t - 1), xs[t], lo, hi);
    }
  }

  /** Smoothing is causal: bar `i` depends only on the input up to bar `i`. */
  lemma {:induction false} SmoothPrefix(xs: seq<real>, ys: seq<real>, alpha: real, init: real, i: nat)
    requires i < |xs| && i < |ys|
    requires xs[..i + 1] == ys[..i + 1]
    ensures SmoothAt(xs, alpha, init, i) == SmoothAt(ys, alpha, init, i)
  {
    if i > 0 {
      assert xs[..i] == ys[..i] by {
        assert xs[..i] == xs[..i + 1][..i];
        assert ys[..i] == ys[..i + 1][..i];
      }
      SmoothPrefix(xs, ys, alpha, init, i - 1);
      assert xs[i] == xs[..i + 1][i];
      assert ys[i] == ys[..i + 1][i];
    }
  }
}
