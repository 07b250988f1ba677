/**
  `backtest_halftrend`: a stop-and-reverse state machine over the HalfTrend
  signals. From flat, a buy opens a long and a sell opens a short at the
  bar's close. Once in the market, the opposite signal closes the position
  (recording its profit) and opens the reverse one at the same close.
 */
module Backtest {
  import opened Numeric
  import opened Series
  import opened HalfTrend

  /** What the backtest reads from one row: the close and the two signal flags. */
  datatype Tick = Tick(close: real, buy: bool, sell: bool)

  /** The rows of a frame `halftrend` has filled in. */
  function Ticks(bars: seq<Bar>, f: HtFrame): (r: seq<Tick>)
    requires |f.buy| == |bars| && |f.sell| == |bars|
    ensures |r| == |bars|
    ensures forall i :: 0 <= i < |bars| ==> r[i] == Tick(bars[i].close, f.buy[i], f.sell[i])
  {
    seq(|bars|, i requires 0 <= i < |bars| => Tick(bars[i].close, f.buy[i], f.sell[i]))
  }

  /** The backtest's running state: position, entry price, profits recorded so far. */
  datatype Book = Book(position: int, entry: real, profits: seq<real>)

  const Start: Book := Book(0, 0.0, [])

  predicate ValidPosition(b: Book) {
    b.position == -1 || b.position == 0 || b.position == 1
  }

  /**
    One iteration of the loop. From flat, a sell opens a short and
    otherwise a buy opens a long (the sell test runs second and wins); a
    long meeting a sell, or a short meeting a buy, records the closed
    trade's profit and reverses at the close; everything else keeps the book.
   */
  function Step(b: Book, t: Tick): (r: Book)
    ensures b.position == 0 && t.sell ==> r == Book(-1, t.close, b.profits)
    ensures b.position == 0 && t.buy && !t.sell ==> r == Book(1, t.close, b.profits)
    ensures b.position == 1 && t.sell ==> r == Book(-1, t.close, b.profits + [t.close - b.entry])
    ensures b.position == -1 && t.buy ==> r == Book(1, t.close, b.profits + [b.entry - t.close])
    ensures !(b.position == 0 && (t.buy || t.sell)) && !(b.position == 1 && t.sell) && !(b.position == -1 && t.buy) ==> r == b
    ensures ValidPosition(b) ==> ValidPosition(r)
    ensures b.position != 0 ==> r.position != 0
    ensures b.position == 0 ==> r.profits == b.profits
    ensures |b.profits| <= |r.profits| <= |b.profits| + 1
    ensures r.profits[..|b.profits|] == b.profits
    ensures |r.profits| == |b.profits| + 1 ==>
              && b.position != 0
              && r.position == -b.position
              && r.entry == t.close
              && r.profits[|b.profits|] == (if b.position == 1 then t.close - b.entry else b.entry - t.close)
    ensures b.position != 0 && |r.profits| == |b.profits| ==> r == b
  {
    if b.position == 0 then
      var entered := if t.buy then Book(1, t.close, b.profits) else b;
      if t.sell then Book(-1, t.close, entered.profits) else entered
    else if b.position == 1 && t.sell then
      Book(-1, t.close, b.profits + [t.close - b.entry])
    else if b.position == -1 && t.buy then
      Book(1, t.close, b.profits + [b.entry - t.close])
    else b
  }

  /** The state after the loop has seen `ticks`. */
  function Run(ticks: seq<Tick>): (r: Book)
    ensures |r.profits| <= |ticks|
  {
    if |ticks| == 0 then Start else Step(Run(ticks[..|ticks| - 1]), ticks[|ticks| - 1])
  }

  /** The position is always -1, 0 or 1. */
  lemma {:induction false} RunValid(ticks: seq<Tick>)
    ensures ValidPosition(Run(ticks))
  {
    if |ticks| > 0 {
      RunValid(ticks[..|ticks| - 1]);
    }
  }

  /**
    The backtest always follows the latest signal: after a bar with only a
    sell signal it is short, after one with only a buy signal it is long.
   */
  lemma LatestSignalDecides(ticks: seq<Tick>)
    requires |ticks| > 0
    ensures ticks[|ticks| - 1].sell && !ticks[|ticks| - 1].buy ==> Run(ticks).position == -1
    ensures ticks[|ticks| - 1].buy && !ticks[|ticks| - 1].sell ==> Run(ticks).position == 1
  {
    RunValid(ticks[..|ticks| - 1]);
  }

  /** Once in the market the backtest never returns to flat. */
  lemma {:induction false} NeverFlatAgain(ticks: seq<Tick>, m: nat)
    requires m <= |ticks|
    requires Run(ticks[..m]).position != 0
    ensures Run(ticks).position != 0
  {
    if m < |ticks| {
      assert ticks[..|ticks| - 1][..m] == ticks[..m];
      NeverFlatAgain(ticks[..|ticks| - 1], m);
    } else {
      assert ticks[..m] == ticks;
    }
  }

  /** Profits are only ever appended: the profits after a prefix are a prefix of the final ones. */
  lemma {:induction false} ProfitsGrow(ticks: seq<Tick>, m: nat)
    requires m <= |ticks|
    ensures |Run(ticks[..m]).profits| <= |Run(ticks).profits|
    ensures Run(ticks).profits[..|Run(ticks[..m]).profits|] == Run(ticks[..m]).profits
  {
    if m < |ticks| {
      assert ticks[..|ticks| - 1][..m] == ticks[..m];
      ProfitsGrow(ticks[..|ticks| - 1], m);
    } else {
      assert ticks[..m] == ticks;
    }
  }

  /** While flat nothing is recorded: the first entry has no profit. */
  lemma {:induction false} FlatRecordsNothing(ticks: seq<Tick>)
    requires Run(ticks).position == 0
    ensures Run(ticks).profits == []
  {
    if |ticks| > 0 {
      var prev := Run(ticks[..|ticks| - 1]);
      if prev.position == 0 {
        FlatRecordsNothing(ticks[..|ticks| - 1]);
      }
    }
  }

  /** Number of strictly positive profits. */
  function Wins(ps: seq<real>): (w: nat)
    ensures w <= |ps|
  {
    if |ps| == 0 then 0 else (if ps[0] > 0.0 then 1 else 0) + Wins(ps[1..])
  }

  /** The dictionary the backtest returns. */
  datatype Report = Report(totalProfit: real, winRate: real, trades: nat)

  /** `np.sum(profits)`, `np.mean([p > 0 ...]) if profits else 0`, `len(profits)`. */
  function Summarise(ps: seq<real>): (r: Report)
    ensures r.trades == |ps|
    ensures r.totalProfit == Sum(ps)
    ensures 0.0 <= r.winRate <= 1.0
    ensures |ps| == 0 ==> r.winRate == 0.0
  {
    if |ps| == 0 then Report(0.0, 0.0, 0)
    else
      DivBounds(Wins(ps) as real, |ps| as real, 0.0, 1.0);
      Report(Sum(ps), (Wins(ps) as real) / (|ps| as real), |ps|)
  }

  lemma {:induction false} AllWins(ps: seq<real>)
    ensures Wins(ps) == |ps| <==> forall i :: 0 <= i < |ps| ==> ps[i] > 0.0
  {
    if |ps| > 0 {
      AllWins(ps[1..]);
      assert forall i :: 1 <= i < |ps| ==> ps[i] == ps[1..][i - 1];
    }
  }

  lemma {:induction false} NoWins(ps: seq<real>)
    ensures Wins(ps) == 0 <==> forall i :: 0 <= i < |ps| ==> ps[i] <= 0.0
  {
    if |ps| > 0 {
      NoWins(ps[1..]);
      assert forall i :: 1 <= i < |ps| ==> ps[i] == ps[1..][i - 1];
    }
  }

  /** The win rate is 1 exactly when every trade won, and 0 exactly when none did. */
  lemma WinRateExtremes(ps: seq<real>)
    requires |ps| > 0
    ensures Summarise(ps).winRate == 1.0 <==> forall i :: 0 <= i < |ps| ==> ps[i] > 0.0
    ensures Summarise(ps).winRate == 0.0 <==> forall i :: 0 <= i < |ps| ==> ps[i] <= 0.0
  {
    AllWins(ps);
    NoWins(ps);
    RatioOne(Wins(ps) as real, |ps| as real);
    RatioZero(Wins(ps) as real, |ps| as real);
  }

  lemma RatioOne(a: real, b: real)
    requires 0.0 < b
    ensures a / b == 1.0 <==> a == b
  {
  }

  lemma RatioZero(a: real, b: real)
    requires 0.0 < b
    ensures a / b == 0.0 <==> a == 0.0
  {
  }

  /** `backtest_halftrend` on a frame `halftrend` has filled in. */
  function BacktestHalftrend(bars: seq<Bar>, f: HtFrame): (r: Report)
    requires |f.buy| == |bars| && |f.sell| == |bars|
    ensures r.trades == |Run(Ticks(bars, f)).profits|
    ensures 0.0 <= r.winRate <= 1.0
  {
    Summarise(Run(Ticks(bars, f)).profits)
  }
}
