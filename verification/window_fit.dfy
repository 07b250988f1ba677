/**
  The local kernel fit both repainting variants of the envelope perform on a
  window of L bars ending at bar `e`: for every offset i in 0..L-1 a
  weighted mean of src[e], src[e-1], ..., src[e-L+1] with weights
  k(i - j), then the mean absolute error of those fits against the prices
  they sit on, scaled by `mult`.
 */
module WindowFit {
  import opened Numeric
  import opened Kernel

  /** Weights of offset `i` against offsets 0..L-1: k(i - j). */
  function RowWeights(k: int -> real, i: int, L: nat): (r: seq<real>)
    ensures |r| == L
    ensures forall j :: 0 <= j < L ==> r[j] == k(i - j)
  {
    seq(L, j requires 0 <= j < L => k(i - j))
  }

  /** The fitted value at offset `i` of the window ending at bar `e`. NaN when the weights sum to 0. */
  function LocalMid(src: seq<real>, k: int -> real, e: int, L: nat, i: int): Num
    requires L <= e + 1 <= |src|
  {
    WeightedMean(RowWeights(k, i, L), Lookback(src, e, L))
  }

  /** The fitted values of offsets 0..L-1 (`nwe` / `nwe_local`). */
  function LocalMids(src: seq<real>, k: int -> real, e: int, L: nat): (r: seq<Num>)
    requires L <= e + 1 <= |src|
    ensures |r| == L
    ensures forall i :: 0 <= i < L ==> r[i] == LocalMid(src, k, e, L, i)
  {
    seq(L, i requires 0 <= i < L => LocalMid(src, k, e, L, i))
  }

  /**
    The running `sae` after the first m offsets: the sum of
    |src[e - i] - mids[i]| for i < m, accumulated in order. One NaN fit
    makes it NaN for good.
   */
  function SumAbsErr(src: seq<real>, mids: seq<Num>, e: int, m: nat): (r: Num)
    requires m <= |mids| && m <= e + 1 <= |src|
    ensures r.Some? <==> forall i :: 0 <= i < m ==> mids[i].Some?
    ensures r.Some? ==> 0.0 <= r.value
    ensures r.Some? ==> forall i :: 0 <= i < m ==> Abs(src[e - i] - mids[i].value) <= r.value
  {
    if m == 0 then Some(0.0)
    else Add(SumAbsErr(src, mids, e, m - 1), AbsDiff(src[e - (m - 1)], mids[m - 1]))
  }

  /** The result of fitting one window: the local mids and the scaled mae. */
  datatype Fit = Fit(mids: seq<Num>, mae: Num)

  /**
    `sae = (sae / L) * mult if L > 0 else nan` over the window of L bars
    ending at `e`.
   */
  function FitWindow(src: seq<real>, k: int -> real, mult: real, e: int, L: nat): (f: Fit)
    requires L <= e + 1 <= |src|
    ensures |f.mids| == L
    ensures forall i :: 0 <= i < L ==> f.mids[i] == LocalMid(src, k, e, L, i)
    ensures f.mae.Some? <==> L > 0 && forall i :: 0 <= i < L ==> f.mids[i].Some?
    ensures f.mae.Some? && 0.0 <= mult ==> 0.0 <= f.mae.value
    ensures f.mae.Some? ==> f.mae.value == SumAbsErr(src, f.mids, e, L).value / (L as real) * mult
  {
    var mids := LocalMids(src, k, e, L);
    var sae := SumAbsErr(src, mids, e, L);
    if L > 0 && sae.Some? then
      NonnegQuotient(sae.value, L as real);
      NonnegProduct(sae.value / (L as real), mult);
      Fit(mids, Some((sae.value / (L as real)) * mult))
    else Fit(mids, None)
  }

  /**
    A fitted value is NaN exactly when its weights sum to zero; with a
    positive kernel that never happens, and the fit lies between the least
    and the greatest price of the window.
   */
  lemma LocalMidWithin(src: seq<real>, k: int -> real, e: int, L: nat, i: int, lo: real, hi: real)
    requires 1 <= L <= e + 1 <= |src|
    requires Positive(k)
    requires forall j :: e - L < j <= e ==> lo <= src[j] <= hi
    ensures LocalMid(src, k, e, L, i).Some?
    ensures lo <= LocalMid(src, k, e, L, i).value <= hi
  {
    var ws := RowWeights(k, i, L);
    var vs := Lookback(src, e, L);
    forall j | 0 <= j < L
      ensures lo <= vs[j] <= hi
    {
      assert vs[j] == src[e - j];
    }
    WeightedMeanBounds(ws, vs, lo, hi);
  }

  /** With a positive kernel and a non-empty window every fit, and the mae, is defined. */
  lemma FitDefined(src: seq<real>, k: int -> real, mult: real, e: int, L: nat)
    requires 1 <= L <= e + 1 <= |src|
    requires Positive(k)
    ensures forall i :: 0 <= i < L ==> FitWindow(src, k, mult, e, L).mids[i].Some?
    ensures FitWindow(src, k, mult, e, L).mae.Some?
  {
    var lo := MinOf(src[e - L + 1..e + 1]);
    var hi := MaxOf(src[e - L + 1..e + 1]);
    forall j | e - L < j <= e
      ensures lo <= src[j] <= hi
    {
      assert src[j] == src[e - L + 1..e + 1][j - (e - L + 1)];
    }
    forall i | 0 <= i < L
      ensures LocalMid(src, k, e, L, i).Some?
    {
      LocalMidWithin(src, k, e, L, i, lo, hi);
    }
  }

  /** Fits that reproduce the prices they sit on leave no error. */
  lemma {:induction false} SumAbsErrExact(src: seq<real>, mids: seq<Num>, e: int, m: nat)
    requires m <= |mids| && m <= e + 1 <= |src|
    requires forall i :: 0 <= i < m ==> mids[i] == Some(src[e - i])
    ensures SumAbsErr(src, mids, e, m) == Some(0.0)
  {
    if m > 0 {
      SumAbsErrExact(src, mids, e, m - 1);
    }
  }

  /** The accumulated error is 0 exactly when every fit reproduces the price it sits on. */
  lemma SumAbsErrZeroIff(src: seq<real>, mids: seq<Num>, e: int, m: nat)
    requires m <= |mids| && m <= e + 1 <= |src|
    ensures SumAbsErr(src, mids, e, m) == Some(0.0) <==> forall i :: 0 <= i < m ==> mids[i] == Some(src[e - i])
  {
    if forall i :: 0 <= i < m ==> mids[i] == Some(src[e - i]) {
      SumAbsErrExact(src, mids, e, m);
    }
  }

  /**
    With mult != 0 and a defined mae, the mae is 0 exactly when every local
    fit of the window equals the price it sits on.
   */
  lemma FitExactIff(src: seq<real>, k: int -> real, mult: real, e: int, L: nat)
    requires L <= e + 1 <= |src| && mult != 0.0
    requires FitWindow(src, k, mult, e, L).mae.Some?
    ensures FitWindow(src, k, mult, e, L).mae.value == 0.0 <==>
              forall i :: 0 <= i < L ==> FitWindow(src, k, mult, e, L).mids[i] == Some(src[e - i])
  {
    var f := FitWindow(src, k, mult, e, L);
    var sae := SumAbsErr(src, f.mids, e, L);
    assert L > 0 && sae.Some?;
    assert f.mae.value == 0.0 <==> sae == Some(0.0) by {
      ZeroScaledIff(sae.value, L as real, mult);
    }
    SumAbsErrZeroIff(src, f.mids, e, L);
  }

  lemma ZeroScaledIff(x: real, d: real, mult: real)
    requires d != 0.0 && mult != 0.0
    ensures x / d * mult == 0.0 <==> x == 0.0
  {
    if x / d * mult == 0.0 {
      assert x / d == 0.0;
      assert x == x / d * d;
    }
  }

  /**
    A window of constant prices c is fitted exactly: every local mid is c
    and the mae is 0.
   */
  lemma FitConstant(src: seq<real>, k: int -> real, mult: real, e: int, L: nat, c: real)
    requires 1 <= L <= e + 1 <= |src|
    requires Positive(k)
    requires forall j :: e - L < j <= e ==> src[j] == c
    ensures forall i :: 0 <= i < L ==> FitWindow(src, k, mult, e, L).mids[i] == Some(c)
    ensures FitWindow(src, k, mult, e, L).mae == Some(0.0)
  {
    var mids := LocalMids(src, k, e, L);
    forall i | 0 <= i < L
      ensures mids[i] == Some(c)
    {
      LocalMidWithin(src, k, e, L, i, c, c);
    }
    SumAbsErrExact(src, mids, e, L);
  }
}
