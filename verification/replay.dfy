/**
  `nwe_repaint_full_history`: every bar t in turn is treated as the last
  bar, the window of L = min(window, t + 1) bars ending at t is fitted, and
  local fit i overwrites position t - i. What survives at a position is the
  fit of the LAST pass that reaches it.
 */
module HistoryReplay {
  import opened Numeric
  import opened Kernel
  import opened Bands
  import opened WindowFit
  import opened LastBar

  /**
    The pass that writes position p last among passes 0..t-1: pass s
    reaches p exactly when p <= s <= p + window - 1, so the last one is
    min(t - 1, p + window - 1).
   */
  function LastWriter(window: int, t: nat, p: nat): (s: nat)
    requires 1 <= window && p < t
    ensures p <= s < t
    ensures s - p < Span(window, s + 1)
  {
    if p + window - 1 < t - 1 then p + window - 1 else t - 1
  }

  /** The fit pass s performs. */
  function PassFit(src: seq<real>, k: int -> real, mult: real, window: int, s: nat): Fit
    requires s < |src|
  {
    FitWindow(src, k, mult, s, Span(window, s + 1))
  }

  /** mid at position p once passes 0..t-1 are done (NaN if no pass reached it). */
  function MidAfter(src: seq<real>, k: int -> real, mult: real, window: int, t: nat, p: nat): Num
    requires t <= |src|
  {
    if window <= 0 || t <= p then None
    else PassFit(src, k, mult, window, LastWriter(window, t, p)).mids[LastWriter(window, t, p) - p]
  }

  /** mae at position p once passes 0..t-1 are done. */
  function MaeAfter(src: seq<real>, k: int -> real, mult: real, window: int, t: nat, p: nat): Num
    requires t <= |src|
  {
    if window <= 0 || t <= p then None
    else PassFit(src, k, mult, window, LastWriter(window, t, p)).mae
  }

  /** The envelope the replay leaves behind, position by position. */
  function Replayed(src: seq<real>, k: int -> real, mult: real, window: int): (e: Envelope)
    ensures e.Aligned() && e.Length() == |src|
    ensures forall p :: 0 <= p < |src| ==> SymmetricAt(e, p)
  {
    WithBands(seq(|src|, p requires 0 <= p < |src| => MidAfter(src, k, mult, window, |src|, p)),
              seq(|src|, p requires 0 <= p < |src| => MaeAfter(src, k, mult, window, |src|, p)))
  }

  /** Pass t overwrites positions t - L + 1 .. t and leaves the rest alone. */
  lemma PassEffect(src: seq<real>, k: int -> real, mult: real, window: int, t: nat, p: nat)
    requires t < |src|
    ensures MidAfter(src, k, mult, window, t + 1, p) ==
              if t - Span(window, t + 1) < p <= t then PassFit(src, k, mult, window, t).mids[t - p]
              else MidAfter(src, k, mult, window, t, p)
    ensures MaeAfter(src, k, mult, window, t + 1, p) ==
              if t - Span(window, t + 1) < p <= t then PassFit(src, k, mult, window, t).mae
              else MaeAfter(src, k, mult, window, t, p)
  {
    if 0 < window && p <= t {
      LastWriterStep(window, t, p);
    }
  }

  /** Adding pass t makes t the last writer of its window and changes no other position's. */
  lemma LastWriterStep(window: int, t: nat, p: nat)
    requires 1 <= window && p <= t
    ensures t - Span(window, t + 1) < p ==> LastWriter(window, t + 1, p) == t
    ensures p <= t - Span(window, t + 1) ==> p < t && LastWriter(window, t + 1, p) == LastWriter(window, t, p)
  {
    if p <= t - Span(window, t + 1) {
      // L is the whole window here, so p's last writer comes before t
      assert Span(window, t + 1) == window;
    }
  }

  /**
    One pass's inner loop: local fit i goes to position t - i for i < L,
    with its bands; every other position keeps what it had.
   */
  method WritePass(mid: seq<Num>, mae: seq<Num>, upper: seq<Num>, lower: seq<Num>, fit: Fit, t: nat, L: nat)
    returns (mid': seq<Num>, mae': seq<Num>, upper': seq<Num>, lower': seq<Num>)
    requires |mae| == |mid| && |upper| == |mid| && |lower| == |mid|
    requires t < |mid| && L <= t + 1 && L <= |fit.mids|
    ensures |mid'| == |mid| && |mae'| == |mid| && |upper'| == |mid| && |lower'| == |mid|
    ensures forall p :: 0 <= p < |mid| ==> mid'[p] == if t - L < p <= t then fit.mids[t - p] else mid[p]
    ensures forall p :: 0 <= p < |mid| ==> mae'[p] == if t - L < p <= t then fit.mae else mae[p]
    ensures forall p :: 0 <= p < |mid| ==>
              upper'[p] == if t - L < p <= t then Add(fit.mids[t - p], fit.mae) else upper[p]
    ensures forall p :: 0 <= p < |mid| ==>
              lower'[p] == if t - L < p <= t then Sub(fit.mids[t - p], fit.mae) else lower[p]
  {
    mid', mae', upper', lower' := mid, mae, upper, lower;
    var i := 0;
    while i < L
      invariant 0 <= i <= L
      invariant |mid'| == |mid| && |mae'| == |mid| && |upper'| == |mid| && |lower'| == |mid|
      invariant forall p :: 0 <= p < |mid| ==> mid'[p] == if t - i < p <= t then fit.mids[t - p] else mid[p]
      invariant forall p :: 0 <= p < |mid| ==> mae'[p] == if t - i < p <= t then fit.mae else mae[p]
      invariant forall p :: 0 <= p < |mid| ==>
                  upper'[p] == if t - i < p <= t then Add(fit.mids[t - p], fit.mae) else upper[p]
      invariant forall p :: 0 <= p < |mid| ==>
                  lower'[p] == if t - i < p <= t then Sub(fit.mids[t - p], fit.mae) else lower[p]
    {
      var pos := t - i;
      mid' := mid'[pos := fit.mids[i]];
      upper' := upper'[pos := Add(fit.mids[i], fit.mae)];
      lower' := lower'[pos := Sub(fit.mids[i], fit.mae)];
      mae' := mae'[pos := fit.mae];
      i := i + 1;
    }
  }

  /** Writing pass t's fit over the state after passes 0..t-1 gives the state after passes 0..t. */
  lemma NextPass(src: seq<real>, k: int -> real, mult: real, window: int, t: nat, mid: seq<Num>, mae: seq<Num>)
    requires t < |src| && |mid| == |src| && |mae| == |src|
    requires forall p :: 0 <= p < |src| ==>
               mid[p] == if t - Span(window, t + 1) < p <= t then PassFit(src, k, mult, window, t).mids[t - p]
                         else MidAfter(src, k, mult, window, t, p)
    requires forall p :: 0 <= p < |src| ==>
               mae[p] == if t - Span(window, t + 1) < p <= t then PassFit(src, k, mult, window, t).mae
                         else MaeAfter(src, k, mult, window, t, p)
    ensures forall p :: 0 <= p < |src| ==> mid[p] == MidAfter(src, k, mult, window, t + 1, p)
    ensures forall p :: 0 <= p < |src| ==> mae[p] == MaeAfter(src, k, mult, window, t + 1, p)
  {
    forall p | 0 <= p < |src|
      ensures mid[p] == MidAfter(src, k, mult, window, t + 1, p)
      ensures mae[p] == MaeAfter(src, k, mult, window, t + 1, p)
    {
      PassEffect(src, k, mult, window, t, p);
    }
  }

  /** The four columns as they stand once passes 0..t-1 are done. */
  ghost predicate StateAfter(src: seq<real>, k: int -> real, mult: real, window: int, t: nat,
                             mid: seq<Num>, mae: seq<Num>, upper: seq<Num>, lower: seq<Num>)
    requires t <= |src|
  {
    && |mid| == |src| && |mae| == |src| && |upper| == |src| && |lower| == |src|
    && (forall p :: 0 <= p < |src| ==> mid[p] == MidAfter(src, k, mult, window, t, p))
    && (forall p :: 0 <= p < |src| ==> mae[p] == MaeAfter(src, k, mult, window, t, p))
    && (forall p :: 0 <= p < |src| ==> upper[p] == Add(mid[p], mae[p]) && lower[p] == Sub(mid[p], mae[p]))
  }

  /** An all-NaN column of length n. */
  function Nans(n: nat): (r: seq<Num>)
    ensures |r| == n && forall p :: 0 <= p < n ==> r[p] == None
  {
    seq(n, _ => None)
  }

  /** Before any pass every column is NaN. */
  lemma NothingWritten(src: seq<real>, k: int -> real, mult: real, window: int)
    ensures StateAfter(src, k, mult, window, 0, Nans(|src|), Nans(|src|), Nans(|src|), Nans(|src|))
  {
  }

  /** Columns holding every position's final value are the replayed envelope. */
  lemma ReplayedColumns(src: seq<real>, k: int -> real, mult: real, window: int, e: Envelope)
    requires StateAfter(src, k, mult, window, |src|, e.mid, e.mae, e.upper, e.lower)
    ensures e == Replayed(src, k, mult, window)
  {
    var n := |src|;
    var mids := seq(n, p requires 0 <= p < n => MidAfter(src, k, mult, window, n, p));
    var maes := seq(n, p requires 0 <= p < n => MaeAfter(src, k, mult, window, n, p));
    var r := WithBands(mids, maes);
    assert r == Replayed(src, k, mult, window);
    assert e.mid == mids;
    assert e.mae == maes;
    assert e.upper == r.upper;
    assert e.lower == r.lower;
  }

  /** Pass t of the replay: the state after passes 0..t-1 becomes the state after passes 0..t. */
  method ReplayPass(src: seq<real>, k: int -> real, mult: real, window: int, t: nat,
                    mid: seq<Num>, mae: seq<Num>, upper: seq<Num>, lower: seq<Num>)
    returns (mid': seq<Num>, mae': seq<Num>, upper': seq<Num>, lower': seq<Num>)
    requires t < |src|
    requires StateAfter(src, k, mult, window, t, mid, mae, upper, lower)
    ensures StateAfter(src, k, mult, window, t + 1, mid', mae', upper', lower')
  {
    var L := Span(window, t + 1);
    var fit := PassFit(src, k, mult, window, t);
    mid', mae', upper', lower' := WritePass(mid, mae, upper, lower, fit, t, L);
    NextPass(src, k, mult, window, t, mid', mae');
  }

  /** The replay's loops: an outer pass per bar, an inner loop of overwrites. */
  method ReplayLoops(src: seq<real>, k: int -> real, mult: real, window: int)
    returns (mid: seq<Num>, mae: seq<Num>, upper: seq<Num>, lower: seq<Num>)
    ensures StateAfter(src, k, mult, window, |src|, mid, mae, upper, lower)
  {
    mid, mae, upper, lower := Nans(|src|), Nans(|src|), Nans(|src|), Nans(|src|);
    NothingWritten(src, k, mult, window);
    var t := 0;
    while t < |src|
      invariant 0 <= t <= |src|
      invariant StateAfter(src, k, mult, window, t, mid, mae, upper, lower)
    {
      mid, mae, upper, lower := ReplayPass(src, k, mult, window, t, mid, mae, upper, lower);
      t := t + 1;
    }
  }

  /** The replay as the source runs it leaves behind exactly the replayed envelope. */
  method RepaintFullHistory(src: seq<real>, k: int -> real, mult: real, window: int) returns (e: Envelope)
    ensures e == Replayed(src, k, mult, window)
  {
    var mid, mae, upper, lower := ReplayLoops(src, k, mult, window);
    e := Envelope(mid, upper, lower, mae);
    ReplayedColumns(src, k, mult, window, e);
  }

  /** What the replay leaves at p: the fit of p's last writer. */
  lemma ReplayedAt(src: seq<real>, k: int -> real, mult: real, window: int, p: nat)
    requires 1 <= window && p < |src|
    ensures Replayed(src, k, mult, window).mid[p]
            == PassFit(src, k, mult, window, LastWriter(window, |src|, p)).mids[LastWriter(window, |src|, p) - p]
    ensures Replayed(src, k, mult, window).mae[p] == PassFit(src, k, mult, window, LastWriter(window, |src|, p)).mae
  {
  }

  /**
    On the last min(window, n) positions the replay agrees with computing
    the envelope once at the final bar.
   */
  lemma ReplayTail(src: seq<real>, k: int -> real, mult: real, window: int, p: int)
    requires |src| - Span(window, |src|) <= p < |src|
    ensures Replayed(src, k, mult, window).mid[p] == RepaintOnLast(src, k, mult, window).mid[p]
    ensures Replayed(src, k, mult, window).mae[p] == RepaintOnLast(src, k, mult, window).mae[p]
  {
    assert LastWriter(window, |src|, p) == |src| - 1;
  }

  /**
    Further back, position p keeps the fit of pass p + window - 1, in which
    it is the OLDEST bar of the window: the value shown there was computed
    with window - 1 bars that came after it.
   */
  lemma ReplayLooksAhead(src: seq<real>, k: int -> real, mult: real, window: int, p: nat)
    requires 1 <= window && p + window <= |src|
    ensures Replayed(src, k, mult, window).mid[p] == LocalMid(src, k, p + window - 1, window, window - 1)
  {
  }

  /** With a positive kernel and window >= 1 every position ends up populated. */
  lemma ReplayDefined(src: seq<real>, k: int -> real, mult: real, window: int, p: int)
    requires Positive(k) && 1 <= window
    requires 0 <= p < |src|
    ensures Replayed(src, k, mult, window).mid[p].Some?
    ensures Replayed(src, k, mult, window).mae[p].Some?
  {
    var s := LastWriter(window, |src|, p);
    var L := Span(window, s + 1);
    assert 1 <= L <= s + 1 && s - p < L;
    FitDefined(src, k, mult, s, L);
    assert PassFit(src, k, mult, window, s) == FitWindow(src, k, mult, s, L);
    ReplayedAt(src, k, mult, window, p);
  }

  /** A constant series is replayed as mid = c, mae = 0 everywhere. */
  lemma ReplayConstant(src: seq<real>, k: int -> real, mult: real, window: int, c: real, p: int)
    requires Positive(k) && 1 <= window
    requires forall j :: 0 <= j < |src| ==> src[j] == c
    requires 0 <= p < |src|
    ensures Replayed(src, k, mult, window).mid[p] == Some(c)
    ensures Replayed(src, k, mult, window).mae[p] == Some(0.0)
  {
    var s := LastWriter(window, |src|, p);
    var f := PassFit(src, k, mult, window, s);
    assert f.mids[s - p] == Some(c) && f.mae == Some(0.0) by {
      var L := Span(window, s + 1);
      assert 1 <= L <= s + 1 && s - p < L;
      FitConstant(src, k, mult, s, L, c);
    }
    ReplayedAt(src, k, mult, window, p);
  }
}
