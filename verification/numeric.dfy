/**
  Numeric helpers shared by every indicator: a NaN-aware float, sums,
  dot products and weighted means over real sequences, with the bound
  lemmas that the kernel regressions rely on.
 */
module Numeric {

  /** The conventional Some/None datatype. */
  datatype Option<+T> = None | Some(value: T)

  /** A numpy/pandas float. `None` stands for NaN. */
  type Num = Option<real>

  function MinNat(a: nat, b: nat): nat {
    if a <= b then a else b
  }

  function Abs(x: real): real {
    if x < 0.0 then -x else x
  }

  function Max(a: real, b: real): real {
    if a < b then b else a
  }

  function Min(a: real, b: real): real {
    if a < b then a else b
  }

  /** numpy `a + b`: NaN if either side is NaN. */
  function Add(a: Num, b: Num): Num {
    if a.Some? && b.Some? then Some(a.value + b.value) else None
  }

  /** numpy `a - b`. */
  function Sub(a: Num, b: Num): Num {
    if a.Some? && b.Some? then Some(a.value - b.value) else None
  }

  /** numpy `c * a` for a plain scalar `c`. */
  function Scale(c: real, a: Num): Num {
    if a.Some? then Some(c * a.value) else None
  }

  /** numpy `abs(a - b)` where `a` is a plain price. */
  function AbsDiff(a: real, b: Num): Num {
    if b.Some? then Some(Abs(a - b.value)) else None
  }

  /** numpy `a < b`: false whenever a NaN takes part. */
  predicate Below(a: Num, b: Num) {
    a.Some? && b.Some? && a.value < b.value
  }

  /** Lifts a NaN-free column into the NaN-aware type. */
  function Lift(xs: seq<real>): (r: seq<Num>)
    ensures |r| == |xs|
    ensures forall i :: 0 <= i < |xs| ==> r[i] == Some(xs[i])
  {
    seq(|xs|, i requires 0 <= i < |xs| => Some(xs[i]))
  }

  function Sum(s: seq<real>): real {
    if |s| == 0 then 0.0 else s[0] + Sum(s[1..])
  }

  function Dot(ws: seq<real>, vs: seq<real>): real
    requires |ws| == |vs|
  {
    if |ws| == 0 then 0.0 else ws[0] * vs[0] + Dot(ws[1..], vs[1..])
  }

  function Mean(s: seq<real>): real
    requires |s| > 0
  {
    Sum(s) / (|s| as real)
  }

  /** `sum(w * v) / sum(w)`, NaN when the weights sum to zero. */
  function WeightedMean(ws: seq<real>, vs: seq<real>): Num
    requires |ws| == |vs|
  {
    if Sum(ws) == 0.0 then None else Some(Dot(ws, vs) / Sum(ws))
  }

  /** The values a bar `e` looks back on: src[e], src[e-1], ..., src[e-L+1]. */
  function Lookback(src: seq<real>, e: int, L: nat): (r: seq<real>)
    requires L <= e + 1 <= |src|
    ensures |r| == L
    ensures forall j :: 0 <= j < L ==> r[j] == src[e - j]
  {
    seq(L, j requires 0 <= j < L => src[e - j])
  }

  /** Element-wise `ws / c` (numpy broadcasting). */
  function DivideAll(ws: seq<real>, c: real): (r: seq<real>)
    requires c != 0.0
    ensures |r| == |ws|
    ensures forall i :: 0 <= i < |ws| ==> r[i] == ws[i] / c
  {
    if |ws| == 0 then [] else [ws[0] / c] + DivideAll(ws[1..], c)
  }

  /** Largest element of a non-empty sequence. */
  function MaxOf(s: seq<real>): (m: real)
    requires |s| > 0
    ensures forall j :: 0 <= j < |s| ==> s[j] <= m
    ensures exists j :: 0 <= j < |s| && s[j] == m
  {
    if |s| == 1 then s[0]
    else
      var rest := MaxOf(s[1..]);
      assert forall j :: 1 <= j < |s| ==> s[j] == s[1..][j - 1];
      if s[0] < rest then rest else s[0]
  }

  /** Smallest element of a non-empty sequence. */
  function MinOf(s: seq<real>): (m: real)
    requires |s| > 0
    ensures forall j :: 0 <= j < |s| ==> m <= s[j]
    ensures exists j :: 0 <= j < |s| && s[j] == m
  {
    if |s| == 1 then s[0]
    else
      var rest := MinOf(s[1..]);
      assert forall j :: 1 <= j < |s| ==> s[j] == s[1..][j - 1];
      if rest < s[0] then rest else s[0]
  }

  lemma MulLeft(a: real, x: real, y: real)
    requires 0.0 <= a && x <= y
    ensures a * x <= a * y
  {
  }

  /** Scaling a non-negative value by a non-negative factor keeps it non-negative. */
  lemma ScaleNonneg(c: real, a: Num)
    requires 0.0 <= c
    requires a.Some? ==> 0.0 <= a.value
    ensures Scale(c, a).Some? ==> 0.0 <= Scale(c, a).value
  {
    if a.Some? {
      NonnegProduct(c, a.value);
    }
  }

  lemma NonnegProduct(a: real, b: real)
    ensures 0.0 <= a && 0.0 <= b ==> 0.0 <= a * b
  {
  }

  lemma NonnegQuotient(a: real, b: real)
    requires 0.0 <= a && 0.0 < b
    ensures 0.0 <= a / b
  {
  }

  lemma Distribute(a: real, x: real, y: real)
    ensures a * (x + y) == a * x + a * y
  {
  }

  lemma {:induction false} SumBounds(s: seq<real>, lo: real, hi: real)
    requires forall i :: 0 <= i < |s| ==> lo <= s[i] <= hi
    ensures (|s| as real) * lo <= Sum(s) <= (|s| as real) * hi
  {
    if |s| > 0 {
      SumBounds(s[1..], lo, hi);
    }
  }

  /** A sum of non-negative terms is non-negative, and zero exactly when every term is. */
  lemma {:induction false} SumOfNonneg(s: seq<real>)
    requires forall j :: 0 <= j < |s| ==> 0.0 <= s[j]
    ensures 0.0 <= Sum(s)
    ensures Sum(s) == 0.0 <==> forall j :: 0 <= j < |s| ==> s[j] == 0.0
  {
    if |s| > 0 {
      SumOfNonneg(s[1..]);
      assert forall j :: 1 <= j < |s| ==> s[j] == s[1..][j - 1];
    }
  }

  /** A mean lies between the least and the greatest value averaged. */
  lemma MeanBounds(s: seq<real>, lo: real, hi: real)
    requires |s| > 0
    requires forall i :: 0 <= i < |s| ==> lo <= s[i] <= hi
    ensures lo <= Mean(s) <= hi
  {
    SumBounds(s, lo, hi);
    DivBounds(Sum(s), |s| as real, lo, hi);
  }

  lemma DivBounds(d: real, s: real, lo: real, hi: real)
    requires 0.0 < s
    requires lo * s <= d <= hi * s
    ensures lo <= d / s <= hi
  {
    assert d / s * s == d;
    if d / s < lo {
      MulLeft(s, d / s, lo);
    }
    if hi < d / s {
      MulLeft(s, hi, d / s);
    }
  }

  lemma {:induction false} SumPositive(ws: seq<real>)
    requires |ws| > 0
    requires forall i :: 0 <= i < |ws| ==> 0.0 < ws[i]
    ensures 0.0 < Sum(ws)
  {
    if |ws| > 1 {
      SumPositive(ws[1..]);
    } else {
      assert ws[1..] == [];
    }
  }

  /**
    A non-negatively weighted sum of values in [lo, hi] lies between lo and
    hi times the total weight.
   */
  lemma {:induction false} DotBounds(ws: seq<real>, vs: seq<real>, lo: real, hi: real)
    requires |ws| == |vs|
    requires forall i :: 0 <= i < |ws| ==> 0.0 <= ws[i]
    requires forall i :: 0 <= i < |vs| ==> lo <= vs[i] <= hi
    ensures lo * Sum(ws) <= Dot(ws, vs) <= hi * Sum(ws)
  {
    if |ws| > 0 {
      DotBounds(ws[1..], vs[1..], lo, hi);
      DotStep(lo, hi, ws[0], vs[0], Sum(ws[1..]), Dot(ws[1..], vs[1..]));
      assert Sum(ws) == ws[0] + Sum(ws[1..]);
      assert Dot(ws, vs) == ws[0] * vs[0] + Dot(ws[1..], vs[1..]);
    }
  }

  lemma DotStep(lo: real, hi: real, w: real, v: real, rest: real, restDot: real)
    requires 0.0 <= w && lo <= v <= hi
    requires lo * rest <= restDot <= hi * rest
    ensures lo * (w + rest) <= w * v + restDot <= hi * (w + rest)
  {
    MulLeft(w, lo, v);
    MulLeft(w, v, hi);
    Distribute(lo, w, rest);
    Distribute(hi, w, rest);
  }

  /**
    With positive weights, a weighted mean is defined and lies between the
    least and the greatest value it averages.
   */
  lemma WeightedMeanBounds(ws: seq<real>, vs: seq<real>, lo: real, hi: real)
    requires |ws| == |vs| > 0
    requires forall i :: 0 <= i < |ws| ==> 0.0 < ws[i]
    requires forall i :: 0 <= i < |vs| ==> lo <= vs[i] <= hi
    ensures WeightedMean(ws, vs).Some?
    ensures lo <= WeightedMean(ws, vs).value <= hi
  {
    SumPositive(ws);
    DotBounds(ws, vs, lo, hi);
    DivBounds(Dot(ws, vs), Sum(ws), lo, hi);
  }

  lemma {:induction false} SumDivideAll(ws: seq<real>, c: real)
    requires c != 0.0
    ensures Sum(DivideAll(ws, c)) == Sum(ws) / c
  {
    if |ws| > 0 {
      SumDivideAll(ws[1..], c);
      assert DivideAll(ws, c)[1..] == DivideAll(ws[1..], c);
    }
  }

  lemma {:induction false} DotDivideAll(ws: seq<real>, vs: seq<real>, c: real)
    requires c != 0.0
    requires |ws| == |vs|
    ensures Dot(DivideAll(ws, c), vs) == Dot(ws, vs) / c
  {
    if |ws| > 0 {
      DotDivideAll(ws[1..], vs[1..], c);
      assert DivideAll(ws, c)[1..] == DivideAll(ws[1..], c);
      assert (ws[0] / c) * vs[0] == (ws[0] * vs[0]) / c;
    }
  }
}
