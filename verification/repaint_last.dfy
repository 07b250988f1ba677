/**
  `nwe_repaint_on_last`: the envelope computed once, with the final bar as
  the "last" bar. Only the last L = min(window, n) positions are populated;
  position n-1-i receives local fit i, and every populated position shares
  one mae. There is no 500-bar cap on this path.
 */
module LastBar {
  import opened Numeric
  import opened Kernel
  import opened Bands
  import opened WindowFit

  /**
    `L = min(window, n)`. A zero window leaves `range(L)` empty; a negative
    one makes `np.full(L, ...)` raise, and is treated here like zero.
   */
  function Span(window: int, n: nat): (L: nat)
    ensures L <= n
    ensures window <= 0 ==> L == 0
    ensures 0 < window ==> L == n || L == window
    ensures 0 < window ==> L <= window
  {
    if window <= 0 then 0 else if window < n then window else n
  }

  /** The fit of the final window, with L = Span(window, n). */
  function LastFit(src: seq<real>, k: int -> real, mult: real, window: int): (f: Fit)
    ensures |f.mids| == Span(window, |src|)
  {
    FitWindow(src, k, mult, |src| - 1, Span(window, |src|))
  }

  /** Local fit i placed at position n-1-i; the first n-|mids| positions stay NaN. */
  function Placed(mids: seq<Num>, n: nat): (col: seq<Num>)
    requires |mids| <= n
    ensures |col| == n
    ensures forall p :: 0 <= p < n - |mids| ==> col[p] == None
    ensures forall p :: n - |mids| <= p < n ==> col[p] == mids[n - 1 - p]
  {
    seq(n, p requires 0 <= p < n => if p < n - |mids| then None else mids[n - 1 - p])
  }

  /** The one mae shared by the last L positions; NaN before them. */
  function Shared(mae: Num, L: nat, n: nat): (col: seq<Num>)
    requires L <= n
    ensures |col| == n
    ensures forall p :: 0 <= p < n - L ==> col[p] == None
    ensures forall p :: n - L <= p < n ==> col[p] == mae
  {
    seq(n, p requires 0 <= p < n => if p < n - L then None else mae)
  }

  function RepaintOnLast(src: seq<real>, k: int -> real, mult: real, window: int): (e: Envelope)
    ensures e.Aligned() && e.Length() == |src|
    ensures forall p :: 0 <= p < |src| ==> SymmetricAt(e, p)
    ensures forall p :: 0 <= p < |src| - Span(window, |src|) ==> e.mid[p] == None && e.mae[p] == None
    ensures forall p :: |src| - Span(window, |src|) <= p < |src| ==>
              e.mid[p] == LocalMid(src, k, |src| - 1, Span(window, |src|), |src| - 1 - p)
  {
    var f := LastFit(src, k, mult, window);
    WithBands(Placed(f.mids, |src|), Shared(f.mae, |f.mids|, |src|))
  }

  /** A populated position holds the final window's local fit for it and the shared mae. */
  lemma RepaintOnLastAt(src: seq<real>, k: int -> real, mult: real, window: int, p: int)
    requires |src| - Span(window, |src|) <= p < |src|
    ensures RepaintOnLast(src, k, mult, window).mid[p] == LastFit(src, k, mult, window).mids[|src| - 1 - p]
    ensures RepaintOnLast(src, k, mult, window).mae[p] == LastFit(src, k, mult, window).mae
  {
    var f := LastFit(src, k, mult, window);
    assert RepaintOnLast(src, k, mult, window).mid[p] == Placed(f.mids, |src|)[p];
    assert RepaintOnLast(src, k, mult, window).mae[p] == Shared(f.mae, |f.mids|, |src|)[p];
  }

  /**
    With a positive kernel, a position is populated exactly when it is one
    of the last min(window, n) bars, and then its mae is populated too.
   */
  lemma RepaintOnLastDefined(src: seq<real>, k: int -> real, mult: real, window: int, p: int)
    requires Positive(k)
    requires 0 <= p < |src|
    ensures RepaintOnLast(src, k, mult, window).mid[p].Some? <==> p >= |src| - Span(window, |src|)
    ensures RepaintOnLast(src, k, mult, window).mae[p].Some? <==> p >= |src| - Span(window, |src|)
  {
    var L := Span(window, |src|);
    var e := RepaintOnLast(src, k, mult, window);
    if p >= |src| - L {
      var f := LastFit(src, k, mult, window);
      assert f.mids[|src| - 1 - p].Some? && f.mae.Some? by {
        FitDefined(src, k, mult, |src| - 1, L);
      }
      RepaintOnLastAt(src, k, mult, window, p);
    } else {
      assert e.mid[p] == None && e.mae[p] == None;
    }
  }

  /** All populated positions carry the same mae. */
  lemma RepaintOnLastSharedMae(src: seq<real>, k: int -> real, mult: real, window: int, p: int, q: int)
    requires |src| - Span(window, |src|) <= p < |src|
    requires |src| - Span(window, |src|) <= q < |src|
    ensures RepaintOnLast(src, k, mult, window).mae[p] == RepaintOnLast(src, k, mult, window).mae[q]
  {
  }

  /** A populated mid lies between the least and greatest price of the final window. */
  lemma RepaintOnLastWithin(src: seq<real>, k: int -> real, mult: real, window: int, p: int, lo: real, hi: real)
    requires Positive(k)
    requires |src| - Span(window, |src|) <= p < |src|
    requires forall j :: |src| - Span(window, |src|) <= j < |src| ==> lo <= src[j] <= hi
    ensures RepaintOnLast(src, k, mult, window).mid[p].Some?
    ensures lo <= RepaintOnLast(src, k, mult, window).mid[p].value <= hi
  {
    var f := LastFit(src, k, mult, window);
    var m := f.mids[|src| - 1 - p];
    assert m.Some? && lo <= m.value <= hi by {
      LocalMidWithin(src, k, |src| - 1, Span(window, |src|), |src| - 1 - p, lo, hi);
    }
    RepaintOnLastAt(src, k, mult, window, p);
  }

  /** A constant series gives mid = c and mae = 0 on every populated position. */
  lemma RepaintOnLastConstant(src: seq<real>, k: int -> real, mult: real, window: int, c: real, p: int)
    requires Positive(k)
    requires forall j :: 0 <= j < |src| ==> src[j] == c
    requires |src| - Span(window, |src|) <= p < |src|
    ensures RepaintOnLast(src, k, mult, window).mid[p] == Some(c)
    ensures RepaintOnLast(src, k, mult, window).mae[p] == Some(0.0)
  {
    var f := LastFit(src, k, mult, window);
    assert f.mids[|src| - 1 - p] == Some(c) && f.mae == Some(0.0) by {
      FitConstant(src, k, mult, |src| - 1, Span(window, |src|), c);
    }
    RepaintOnLastAt(src, k, mult, window, p);
  }
}
