/**
  `nwe_norepaint`: the non-repainting endpoint envelope. At every bar t the
  mid is the kernel-weighted mean of the last L = min(W, t + 1) prices,
  weighted by k(0), k(1), ... from the newest price back, where
  W = min(window, 500). The mae is the rolling mean over W bars
  (min_periods = 1, NaN skipped) of |src - mid|, times mult.
 */
module Endpoint {
  import opened Numeric
  import opened Kernel
  import opened Bands
  import opened Series
  import opened WindowFit
  import opened LastBar

  /** The Pine script loops over at most 500 bars. */
  const PineCap: nat := 500

  /** `W = min(window, 500)`. */
  function Cap(window: int): (W: nat)
    requires 1 <= window
    ensures 1 <= W <= PineCap
    ensures W <= window
    ensures W == window || W == PineCap
  {
    MinNat(window as nat, PineCap)
  }

  /** `w[:L]`: the endpoint weights k(0), ..., k(L-1). */
  function EndpointWeights(k: int -> real, L: nat): (r: seq<real>)
    ensures |r| == L
    ensures forall i :: 0 <= i < L ==> r[i] == k(i)
  {
    seq(L, i requires 0 <= i < L => k(i))
  }

  /** The number of bars the mid of bar t averages. */
  function Reach(W: nat, t: nat): (L: nat)
    requires 1 <= W
    ensures 1 <= L <= W && L <= t + 1
    ensures L == W || L == t + 1
  {
    MinNat(W, t + 1)
  }

  function EndpointMid(src: seq<real>, k: int -> real, W: nat, t: nat): Num
    requires 1 <= W && t < |src|
  {
    WeightedMean(EndpointWeights(k, Reach(W, t)), Lookback(src, t, Reach(W, t)))
  }

  /** `abs(src - mid)`. */
  function Errors(src: seq<real>, k: int -> real, W: nat): (r: seq<Num>)
    requires 1 <= W
    ensures |r| == |src|
    ensures forall t :: 0 <= t < |src| ==> r[t] == AbsDiff(src[t], EndpointMid(src, k, W, t))
    ensures forall t :: 0 <= t < |src| && r[t].Some? ==> 0.0 <= r[t].value
  {
    seq(|src|, t requires 0 <= t < |src| => AbsDiff(src[t], EndpointMid(src, k, W, t)))
  }

  /**
    The envelope. pandas raises for a rolling window below 1, so the source
    only returns for window >= 1.
   */
  function NoRepaint(src: seq<real>, k: int -> real, mult: real, window: int): (e: Envelope)
    requires 1 <= window
    ensures e.Aligned() && e.Length() == |src|
    ensures forall t :: 0 <= t < |src| ==> SymmetricAt(e, t)
    ensures forall t :: 0 <= t < |src| ==> e.mid[t] == EndpointMid(src, k, Cap(window), t)
  {
    var W := Cap(window);
    var err := Errors(src, k, W);
    WithBands(seq(|src|, t requires 0 <= t < |src| => EndpointMid(src, k, W, t)),
              seq(|src|, t requires 0 <= t < |src| => Scale(mult, RollingMeanSkipNaN(err, W, t))))
  }

  /** The mae column at bar t: mult times the NaN-skipping rolling mean of the errors. */
  lemma NoRepaintMaeAt(src: seq<real>, k: int -> real, mult: real, window: int, t: nat)
    requires 1 <= window && t < |src|
    ensures NoRepaint(src, k, mult, window).mae[t]
            == Scale(mult, RollingMeanSkipNaN(Errors(src, k, Cap(window)), Cap(window), t))
  {
  }

  /** Windows of 500 bars or more all behave like 500. */
  lemma NoRepaintCap(src: seq<real>, k: int -> real, mult: real, window: int)
    requires PineCap <= window
    ensures NoRepaint(src, k, mult, window) == NoRepaint(src, k, mult, PineCap)
  {
  }

  /** The mid of bar s reads only src[s - L + 1..s]. */
  lemma EndpointMidPrefix(src: seq<real>, src2: seq<real>, k: int -> real, W: nat, t: nat, s: nat)
    requires 1 <= W && s <= t < |src| && t < |src2|
    requires src[..t + 1] == src2[..t + 1]
    ensures EndpointMid(src, k, W, s) == EndpointMid(src2, k, W, s)
  {
    var L := Reach(W, s);
    forall x | s - L < x <= s
      ensures src[x] == src2[x]
    {
      assert src[x] == src[..t + 1][x];
      assert src2[x] == src2[..t + 1][x];
    }
    assert Lookback(src, s, L) == Lookback(src2, s, L);
  }

  /**
    The envelope never repaints: every column at bar t is a function of the
    prices up to bar t only, so appending bars cannot change it.
   */
  lemma NoRepaintCausal(src: seq<real>, src2: seq<real>, k: int -> real, mult: real, window: int, t: nat)
    requires 1 <= window
    requires t < |src| && t < |src2|
    requires src[..t + 1] == src2[..t + 1]
    ensures NoRepaint(src, k, mult, window).mid[t] == NoRepaint(src2, k, mult, window).mid[t]
    ensures NoRepaint(src, k, mult, window).mae[t] == NoRepaint(src2, k, mult, window).mae[t]
    ensures NoRepaint(src, k, mult, window).upper[t] == NoRepaint(src2, k, mult, window).upper[t]
    ensures NoRepaint(src, k, mult, window).lower[t] == NoRepaint(src2, k, mult, window).lower[t]
  {
    var W := Cap(window);
    var err := Errors(src, k, W);
    var err2 := Errors(src2, k, W);
    forall s | 0 <= s <= t
      ensures err[s] == err2[s]
    {
      EndpointMidPrefix(src, src2, k, W, t, s);
      assert src[s] == src[..t + 1][s];
      assert src2[s] == src2[..t + 1][s];
    }
    assert err[WindowStart(W, t)..t + 1] == err2[WindowStart(W, t)..t + 1];
    EndpointMidPrefix(src, src2, k, W, t, t);
  }

  /**
    With a positive kernel the mid of every bar is defined and lies between
    the least and greatest of the prices it averages.
   */
  lemma NoRepaintWithin(src: seq<real>, k: int -> real, mult: real, window: int, t: nat, lo: real, hi: real)
    requires 1 <= window && Positive(k)
    requires t < |src|
    requires forall j :: t - Reach(Cap(window), t) < j <= t ==> lo <= src[j] <= hi
    ensures NoRepaint(src, k, mult, window).mid[t].Some?
    ensures lo <= NoRepaint(src, k, mult, window).mid[t].value <= hi
  {
    var L := Reach(Cap(window), t);
    var vs := Lookback(src, t, L);
    forall j | 0 <= j < L
      ensures lo <= vs[j] <= hi
    {
      assert vs[j] == src[t - j];
    }
    WeightedMeanBounds(EndpointWeights(k, L), vs, lo, hi);
  }

  /** The mid of bar t is defined under a positive kernel. */
  lemma EndpointMidDefined(src: seq<real>, k: int -> real, W: nat, t: nat)
    requires 1 <= W && Positive(k) && t < |src|
    ensures EndpointMid(src, k, W, t).Some?
  {
    var L := Reach(W, t);
    var vs := Lookback(src, t, L);
    var lo := MinOf(vs);
    var hi := MaxOf(vs);
    WeightedMeanBounds(EndpointWeights(k, L), vs, lo, hi);
  }

  /** With a positive kernel every column of every bar is defined. */
  lemma NoRepaintDefined(src: seq<real>, k: int -> real, mult: real, window: int, t: nat)
    requires 1 <= window && Positive(k)
    requires t < |src|
    ensures NoRepaint(src, k, mult, window).mid[t].Some?
    ensures NoRepaint(src, k, mult, window).mae[t].Some?
  {
    var W := Cap(window);
    EndpointMidDefined(src, k, W, t);
    var err := Errors(src, k, W);
    var win := err[WindowStart(W, t)..t + 1];
    assert win[t - WindowStart(W, t)] == err[t];
    CountDefinedPositive(win, t - WindowStart(W, t));
    NoRepaintMaeAt(src, k, mult, window, t);
  }

  /** A non-negative multiplier gives a non-negative mae, hence lower <= mid <= upper. */
  lemma NoRepaintMaeNonneg(src: seq<real>, k: int -> real, mult: real, window: int, t: nat)
    requires 1 <= window && 0.0 <= mult
    requires t < |src|
    requires NoRepaint(src, k, mult, window).mae[t].Some?
    ensures 0.0 <= NoRepaint(src, k, mult, window).mae[t].value
  {
    var W := Cap(window);
    NoRepaintMaeAt(src, k, mult, window, t);
    ErrorMeanNonneg(src, k, W, t);
    ScaleNonneg(mult, RollingMeanSkipNaN(Errors(src, k, W), W, t));
  }

  /** The rolling mean of absolute errors is never negative. */
  lemma ErrorMeanNonneg(src: seq<real>, k: int -> real, W: nat, t: nat)
    requires 1 <= W && t < |src|
    ensures RollingMeanSkipNaN(Errors(src, k, W), W, t).Some? ==> 0.0 <= RollingMeanSkipNaN(Errors(src, k, W), W, t).value
  {
    RollingMeanSkipNaNNonneg(Errors(src, k, W), W, t);
  }

  /** The endpoint mean of a constant stretch is that constant. */
  lemma EndpointMidConstant(src: seq<real>, k: int -> real, W: nat, t: nat, c: real)
    requires 1 <= W && Positive(k) && t < |src|
    requires forall j :: 0 <= j < |src| ==> src[j] == c
    ensures EndpointMid(src, k, W, t) == Some(c)
  {
    var L := Reach(W, t);
    var vs := Lookback(src, t, L);
    forall j | 0 <= j < L
      ensures c <= vs[j] <= c
    {
      assert vs[j] == src[t - j];
    }
    WeightedMeanBounds(EndpointWeights(k, L), vs, c, c);
  }

  /** A constant series is fitted exactly, so every absolute error is 0. */
  lemma ErrorsOfConstant(src: seq<real>, k: int -> real, W: nat, c: real)
    requires 1 <= W && Positive(k)
    requires forall j :: 0 <= j < |src| ==> src[j] == c
    ensures forall s :: 0 <= s < |src| ==> Errors(src, k, W)[s] == Some(0.0)
  {
    forall s | 0 <= s < |src|
      ensures Errors(src, k, W)[s] == Some(0.0)
    {
      EndpointMidConstant(src, k, W, s, c);
    }
  }

  /** A constant series gives mid = c and mae = 0 at every bar. */
  lemma NoRepaintConstant(src: seq<real>, k: int -> real, mult: real, window: int, c: real, t: nat)
    requires 1 <= window && Positive(k)
    requires forall j :: 0 <= j < |src| ==> src[j] == c
    requires t < |src|
    ensures NoRepaint(src, k, mult, window).mid[t] == Some(c)
    ensures NoRepaint(src, k, mult, window).mae[t] == Some(0.0)
  {
    var W := Cap(window);
    var err := Errors(src, k, W);
    ErrorsOfConstant(src, k, W, c);
    var start := WindowStart(W, t);
    var win := err[start..t + 1];
    forall i | 0 <= i < |win|
      ensures win[i] == Some(0.0)
    {
      assert win[i] == err[start + i];
    }
    EndpointMidConstant(src, k, W, t, c);
    MeanSkipNaNWithin(win, t - start, 0.0, 0.0);
    assert RollingMeanSkipNaN(err, W, t) == Some(0.0);
    NoRepaintMaeAt(src, k, mult, window, t);
  }

  /**
    At the final bar, and for windows within the cap, the endpoint mid is
    the same number the repainting envelope shows there (its offset-0 fit),
    provided the kernel is even: k(0 - j) = k(j).
   */
  lemma EndpointMatchesLastBar(src: seq<real>, k: int -> real, mult: real, window: int)
    requires 1 <= window <= PineCap && Even(k)
    requires 0 < |src|
    ensures NoRepaint(src, k, mult, window).mid[|src| - 1] == RepaintOnLast(src, k, mult, window).mid[|src| - 1]
  {
    var n := |src|;
    var L := Span(window, n);
    assert Reach(Cap(window), n - 1) == L;
    forall j | 0 <= j < L
      ensures EndpointWeights(k, L)[j] == RowWeights(k, 0, L)[j]
    {
      assert j + (0 - j) == 0;
    }
    assert EndpointWeights(k, L) == RowWeights(k, 0, L);
  }
}
