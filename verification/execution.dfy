/**
  The trading decision of `execute_intelligent_trade` in `order.py`, with
  the exchange calls replaced by the list of market orders it would place,
  in order: each order is a side, an amount of contracts and the
  `reduceOnly` flag. Around it: the closing side and the stop-loss /
  take-profit orders of `set_stop_loss_take_profit`, and the pnl written
  to the trade record.
 */
module Execution {
  import opened Numeric
  import opened Sizing

  datatype OrderSide = BuySide | SellSide

  /** A market order as `create_market_order` receives it. */
  datatype Order = Order(side: OrderSide, amount: real, reduceOnly: bool)

  datatype PositionSide = Long | Short

  /** What `get_current_position` reports. */
  datatype Position = Position(side: PositionSide, size: real, entry: real)

  /** `signal_data['signal']`; any other string is `Unknown`. */
  datatype Action = BuyAction | SellAction | HoldAction | Unknown

  /** The smallest size difference worth adjusting a same-side position for. */
  const AdjustThreshold: real := 0.01

  /** The position side a signal opens. */
  function Target(a: Action): PositionSide
    requires a == BuyAction || a == SellAction
  {
    if a == BuyAction then Long else Short
  }

  /** The order side that opens (or adds to) a position on `s`. */
  function OpenSide(s: PositionSide): OrderSide {
    if s == Long then BuySide else SellSide
  }

  /** `close_side = 'sell' if position_side == 'long' else 'buy'`: the side that reduces a position. */
  function CloseSide(s: PositionSide): (o: OrderSide)
    ensures o != OpenSide(s)
  {
    if s == Long then SellSide else BuySide
  }

  /**
    A BUY or SELL against the current position. An opposite position with
    contracts is closed in full and then the target is opened; a same-side
    position is topped up or trimmed by the rounded difference when that
    difference reaches 0.01; otherwise the target is opened directly.
   */
  function TradeOrders(a: Action, current: Option<Position>, size: real, round2: real -> real): (os: seq<Order>)
    requires a == BuyAction || a == SellAction
    ensures |os| <= 2
    ensures current.None? ==> os == [Order(OpenSide(Target(a)), size, false)]
    ensures forall j :: 0 <= j < |os| && !os[j].reduceOnly ==> os[j].side == OpenSide(Target(a))
    ensures forall j :: 0 < j < |os| ==> !os[j].reduceOnly && os[0].reduceOnly
  {
    var target := Target(a);
    var side := OpenSide(target);
    if current.Some? && current.value.side != target then
      if current.value.size > 0.0 then
        [Order(side, current.value.size, true), Order(side, size, false)]
      else
        [Order(side, size, false)]
    else if current.Some? then
      var diff := size - current.value.size;
      if Abs(diff) >= AdjustThreshold then
        if diff > 0.0 then [Order(side, round2(diff), false)]
        else [Order(CloseSide(target), round2(Abs(diff)), true)]
      else []
    else
      [Order(side, size, false)]
  }

  /**
    The market orders `execute_intelligent_trade` places (before the retry
    path): none for a LOW-confidence signal, none in test mode, none for
    HOLD or an unknown signal.
   */
  function MarketOrders(cfg: Config, a: Action, confidence: Confidence, current: Option<Position>,
                        size: real, round2: real -> real): (os: seq<Order>)
    ensures (confidence == Low || cfg.testMode) ==> os == []
    ensures (a == HoldAction || a == Unknown) ==> os == []
    ensures |os| <= 2
  {
    if confidence == Low && !cfg.testMode then []
    else if cfg.testMode then []
    else if a == BuyAction || a == SellAction then TradeOrders(a, current, size, round2)
    else []
  }

  /** Contracts held, signed: long positive, short negative. */
  function Exposure(p: Option<Position>): real {
    if p.None? then 0.0 else if p.value.side == Long then p.value.size else -p.value.size
  }

  /** The exposure after a list of filled market orders. */
  function Fill(e: real, os: seq<Order>): real
    decreases |os|
  {
    if |os| == 0 then e
    else Fill(if os[0].side == BuySide then e + os[0].amount else e - os[0].amount, os[1..])
  }

  /** `round(x, 2)` is within half a cent of x. */
  ghost predicate RoundsToCents(round2: real -> real) {
    forall x :: -0.005 <= round2(x) - x <= 0.005
  }

  /**
    The orders bring the exposure to the target: to exactly `size` contracts
    on the signal's side when opening or reversing, and to within the 0.01
    threshold of it when adjusting a same-side position.
   */
  lemma ReachesTarget(a: Action, current: Option<Position>, size: real, round2: real -> real)
    requires a == BuyAction || a == SellAction
    requires current.Some? ==> 0.0 < current.value.size
    requires RoundsToCents(round2)
    ensures var want := if a == BuyAction then size else -size;
            var got := Fill(Exposure(current), TradeOrders(a, current, size, round2));
            -AdjustThreshold < got - want < AdjustThreshold
    ensures current.None? || current.value.side != Target(a) ==>
              Fill(Exposure(current), TradeOrders(a, current, size, round2)) == (if a == BuyAction then size else -size)
  {
    var os := TradeOrders(a, current, size, round2);
    var e := Exposure(current);
    var sign := if a == BuyAction then 1.0 else -1.0;
    if current.Some? && current.value.side != Target(a) {
      // e is -sign * current size; the close adds it back, the open adds sign * size
      assert e == -sign * current.value.size;
      FillTwo(e, os);
    } else if current.Some? {
      var diff := size - current.value.size;
      assert e == sign * current.value.size;
      if Abs(diff) >= AdjustThreshold {
        var r := if diff > 0.0 then round2(diff) else round2(Abs(diff));
        assert -0.005 <= r - Abs(diff) <= 0.005;
        FillOne(e, os);
      } else {
        assert Fill(e, os) == e;
      }
    } else {
      FillOne(e, os);
    }
  }

  lemma FillOne(e: real, os: seq<Order>)
    requires |os| == 1
    ensures Fill(e, os) == if os[0].side == BuySide then e + os[0].amount else e - os[0].amount
  {
    assert os[1..] == [];
  }

  lemma FillTwo(e: real, os: seq<Order>)
    requires |os| == 2
    ensures Fill(e, os) == Fill(if os[0].side == BuySide then e + os[0].amount else e - os[0].amount, [os[1]])
  {
    assert os[1..] == [os[1]];
  }

  /** Reversing: two orders on the signal's side, first a reduce-only close of the whole position, then the open. */
  lemma ReversalShape(cfg: Config, a: Action, confidence: Confidence, current: Option<Position>, size: real, round2: real -> real)
    requires a == BuyAction || a == SellAction
    requires confidence != Low && !cfg.testMode
    requires current.Some? && current.value.side != Target(a) && current.value.size > 0.0
    ensures MarketOrders(cfg, a, confidence, current, size, round2)
            == [Order(OpenSide(Target(a)), current.value.size, true), Order(OpenSide(Target(a)), size, false)]
  {
  }

  /** From flat: exactly one opening order of the target size. */
  lemma FlatOpensOnce(cfg: Config, a: Action, confidence: Confidence, size: real, round2: real -> real)
    requires a == BuyAction || a == SellAction
    requires confidence != Low && !cfg.testMode
    ensures MarketOrders(cfg, a, confidence, None, size, round2) == [Order(OpenSide(Target(a)), size, false)]
  {
  }

  /**
    Same side: at most one order, for the rounded size difference. Growing
    the position never uses reduce-only, shrinking always does and trades
    on the closing side, and a difference under 0.01 places nothing.
   */
  lemma SameSideAdjusts(cfg: Config, a: Action, confidence: Confidence, current: Option<Position>, size: real, round2: real -> real)
    requires a == BuyAction || a == SellAction
    requires confidence != Low && !cfg.testMode
    requires current.Some? && current.value.side == Target(a)
    ensures var os := MarketOrders(cfg, a, confidence, current, size, round2);
            && |os| <= 1
            && (|os| == 0 <==> Abs(size - current.value.size) < AdjustThreshold)
            && (|os| == 1 ==> (os[0].reduceOnly <==> size < current.value.size))
            && (|os| == 1 && os[0].reduceOnly ==> os[0].side == CloseSide(Target(a)))
            && (|os| == 1 && !os[0].reduceOnly ==> os[0].side == OpenSide(Target(a)))
            && (|os| == 1 ==> os[0].amount == round2(Abs(size - current.value.size)))
  {
  }

  /** A stop-loss or take-profit order: reduce-only on the closing side. */
  datatype Protective = StopLoss(side: OrderSide, size: real, trigger: real)
                      | TakeProfit(side: OrderSide, size: real, trigger: real)

  /** Python truthiness of an optional price: missing and 0 are both false. */
  predicate Truthy(p: Option<real>) {
    p.Some? && p.value != 0.0
  }

  /**
    `set_stop_loss_take_profit`: a stop-loss order when a stop price is
    given, then a take-profit order when a target is given, both against
    the position for its whole size.
   */
  function ProtectiveOrders(side: PositionSide, size: real, stopLoss: Option<real>, takeProfit: Option<real>): (ps: seq<Protective>)
    ensures |ps| == (if Truthy(stopLoss) then 1 else 0) + (if Truthy(takeProfit) then 1 else 0)
    ensures forall j :: 0 <= j < |ps| ==> ps[j].side == CloseSide(side) && ps[j].size == size
    ensures forall j :: 0 <= j < |ps| ==> (ps[j].StopLoss? <==> j == 0 && Truthy(stopLoss))
  {
    (if Truthy(stopLoss) then [StopLoss(CloseSide(side), size, stopLoss.value)] else [])
    + (if Truthy(takeProfit) then [TakeProfit(CloseSide(side), size, takeProfit.value)] else [])
  }

  /**
    HOLD refreshes protection on an open position when a price is given;
    after a trade, the position then reported gets protection the same way.
    The early returns for a LOW-confidence signal and for test mode come
    first and place nothing.
   */
  function ProtectionAfter(cfg: Config, a: Action, confidence: Confidence, current: Option<Position>,
                           after: Option<Position>, stopLoss: Option<real>, takeProfit: Option<real>): (ps: seq<Protective>)
    ensures (confidence == Low || cfg.testMode) ==> ps == []
    ensures !Truthy(stopLoss) && !Truthy(takeProfit) ==> ps == []
    ensures a == HoldAction ==> (ps != [] ==> current.Some? && current.value.size > 0.0)
    ensures a != HoldAction ==> (ps != [] ==> after.Some? && after.value.size > 0.0)
  {
    if confidence == Low || cfg.testMode then []
    else
      var p := if a == HoldAction then current else after;
      if p.Some? && p.value.size > 0.0 then ProtectiveOrders(p.value.side, p.value.size, stopLoss, takeProfit)
      else []
  }

  /**
    A HOLD on an open position, past the early returns, protects exactly
    that position: a stop-loss at the given stop price when there is one,
    then a take-profit at the given target, both closing its whole size.
   */
  lemma HoldProtectsCurrent(cfg: Config, confidence: Confidence, current: Option<Position>, after: Option<Position>,
                            stopLoss: Option<real>, takeProfit: Option<real>)
    requires confidence != Low && !cfg.testMode
    requires current.Some? && current.value.size > 0.0
    ensures var ps := ProtectionAfter(cfg, HoldAction, confidence, current, after, stopLoss, takeProfit);
            var close := CloseSide(current.value.side);
            && (Truthy(stopLoss) ==> ps[0] == StopLoss(close, current.value.size, stopLoss.value))
            && (Truthy(takeProfit) ==> ps[|ps| - 1] == TakeProfit(close, current.value.size, takeProfit.value))
            && |ps| == (if Truthy(stopLoss) then 1 else 0) + (if Truthy(takeProfit) then 1 else 0)
  {
  }

  /**
    The `pnl` of the trade record: when the position reported after the
    trade is on the other side, the old position's profit at the signal
    price; zero otherwise, including when no position is reported after.
   */
  function RecordedPnl(cfg: Config, current: Option<Position>, after: Option<Position>, price: real): (pnl: real)
    ensures pnl != 0.0 ==> current.Some? && after.Some? && current.value.side != after.value.side
    ensures current.Some? && after.Some? && current.value.side != after.value.side ==>
              pnl == (if current.value.side == Long then price - current.value.entry else current.value.entry - price)
                     * current.value.size * ContractSizeOr(cfg)
  {
    if current.Some? && after.Some? && current.value.side != after.value.side then
      if current.value.side == Long then (price - current.value.entry) * current.value.size * ContractSizeOr(cfg)
      else (current.value.entry - price) * current.value.size * ContractSizeOr(cfg)
    else 0.0
  }

  /** A reversed position records a gain exactly when the price moved its way. */
  lemma PnlSign(cfg: Config, current: Option<Position>, after: Option<Position>, price: real)
    requires current.Some? && after.Some? && current.value.side != after.value.side
    requires 0.0 < current.value.size && 0.0 < ContractSizeOr(cfg)
    ensures 0.0 < RecordedPnl(cfg, current, after, price) <==>
              (if current.value.side == Long then current.value.entry < price else price < current.value.entry)
  {
    var k := current.value.size * ContractSizeOr(cfg);
    assert 0.0 < k;
    var d := if current.value.side == Long then price - current.value.entry else current.value.entry - price;
    assert RecordedPnl(cfg, current, after, price) == d * current.value.size * ContractSizeOr(cfg);
    ProductSign(d, current.value.size, ContractSizeOr(cfg));
  }

  lemma ProductSign(d: real, s: real, c: real)
    requires 0.0 < s && 0.0 < c
    ensures 0.0 < d * s * c <==> 0.0 < d
  {
    assert 0.0 < s * c;
    assert d * s * c == d * (s * c);
  }
}
