/**
  Position sizing in `order.py` (`calculate_intelligent_position`): a USDT
  budget from the base amount and three multipliers (signal confidence,
  trend strength, RSI extremes), capped by a fraction of the free balance,
  turned into contracts and rounded to two decimals, with a floor at the
  minimum amount. Any exception on that path switches to an emergency
  formula; an exception there escapes, which is `None` here.

  The exchange's balance is a parameter (`None` when fetching it fails)
  and Python's `round(x, 2)` is the parameter `round2`.
 */
module Sizing {
  import opened Numeric

  /** `signal_data['confidence']`; any other string is `Unrated`. */
  datatype Confidence = High | Medium | Low | Unrated

  /** `trend_analysis['overall']`: the two strong trends and anything else. */
  datatype MarketTrend = StrongUp | StrongDown | OtherTrend

  /**
    The part of `TRADE_CONFIG` sizing and execution read. Keys missing
    from the dictionary are `None` and take the source's defaults.
   */
  datatype Config = Config(
    enabled: bool, baseUsdt: real,
    highMult: real, mediumMult: real, lowMult: real,
    maxPositionRatio: real, trendMult: real, leverage: real,
    contractSize: Option<real>, minAmount: Option<real>, testMode: bool)

  /** The configuration the module ships with: no `contract_size` and no `min_amount` key. */
  const Shipped: Config := Config(true, 100.0, 1.5, 1.0, 0.5, 50.0, 1.2, 10.0, None, None, false)

  /** Contracts traded when intelligent sizing is switched off. */
  const FixedContracts: real := 0.1

  /** `rsi` when the technical data lacks it. */
  const DefaultRsi: real := 50.0

  function MinAmount(cfg: Config): real {
    if cfg.minAmount.Some? then cfg.minAmount.value else 0.01
  }

  /** The contract multiplier of the emergency formula and the pnl record. */
  function ContractSizeOr(cfg: Config): real {
    if cfg.contractSize.Some? then cfg.contractSize.value else 0.01
  }

  function ConfidenceMultiplier(cfg: Config, c: Confidence): real {
    match c
    case High => cfg.highMult
    case Medium => cfg.mediumMult
    case Low => cfg.lowMult
    case Unrated => 1.0
  }

  function TrendMultiplier(cfg: Config, t: MarketTrend): real {
    if t == StrongUp || t == StrongDown then cfg.trendMult else 1.0
  }

  /** Size down by 0.7 in overbought (> 75) or oversold (< 25) territory. */
  function RsiMultiplier(rsi: Option<real>): real {
    var r := if rsi.Some? then rsi.value else DefaultRsi;
    if r > 75.0 || r < 25.0 then 0.7 else 1.0
  }

  /** With the shipped configuration the multipliers take exactly the documented values. */
  lemma ShippedMultipliers(c: Confidence, t: MarketTrend, rsi: Option<real>)
    ensures ConfidenceMultiplier(Shipped, c) == (match c case High => 1.5 case Medium => 1.0 case Low => 0.5 case Unrated => 1.0)
    ensures TrendMultiplier(Shipped, t) == (if t == OtherTrend then 1.0 else 1.2)
    ensures RsiMultiplier(rsi) == 0.7 <==> rsi.Some? && (rsi.value > 75.0 || rsi.value < 25.0)
    ensures RsiMultiplier(rsi) == 0.7 || RsiMultiplier(rsi) == 1.0
  {
  }

  /** `base_usdt` scaled by the three multipliers; a neutral signal asks for the base amount itself. */
  function Suggested(cfg: Config, c: Confidence, t: MarketTrend, rsi: Option<real>): (usdt: real)
    ensures c == Unrated && t == OtherTrend && rsi.None? ==> usdt == cfg.baseUsdt
  {
    cfg.baseUsdt * ConfidenceMultiplier(cfg, c) * TrendMultiplier(cfg, t) * RsiMultiplier(rsi)
  }

  /** Overbought or oversold RSI cuts the budget to 70% of what a neutral RSI would ask for. */
  lemma SuggestedRsiDamping(cfg: Config, c: Confidence, t: MarketTrend, rsi: Option<real>)
    ensures rsi.Some? && (rsi.value > 75.0 || rsi.value < 25.0) ==> Suggested(cfg, c, t, rsi) == 0.7 * Suggested(cfg, c, t, None)
    ensures rsi.Some? && 25.0 <= rsi.value <= 75.0 ==> Suggested(cfg, c, t, rsi) == Suggested(cfg, c, t, None)
  {
  }

  /** With the shipped configuration the suggested budget lies between 35 and 180 USDT. */
  lemma ShippedSuggestedRange(c: Confidence, t: MarketTrend, rsi: Option<real>)
    ensures 35.0 <= Suggested(Shipped, c, t, rsi) <= 180.0
  {
    ShippedMultipliers(c, t, rsi);
  }

  /** `min(suggested_usdt, usdt_balance * max_position_ratio)`. */
  function FinalUsdt(suggested: real, balance: real, ratio: real): (f: real)
    ensures f <= suggested && f <= balance * ratio
    ensures f == suggested || f == balance * ratio
  {
    Min(suggested, balance * ratio)
  }

  /**
    The main path: `None` when it raises (balance unavailable, no
    `contract_size` key, or a zero divisor), otherwise the rounded
    contract count, raised to the minimum amount when below it.
   */
  function MainPath(cfg: Config, c: Confidence, t: MarketTrend, rsi: Option<real>,
                    price: real, balance: Option<real>, round2: real -> real): (r: Option<real>)
    ensures r.Some? <==> balance.Some? && cfg.contractSize.Some? && price * cfg.contractSize.value != 0.0
    ensures r.Some? ==> MinAmount(cfg) <= r.value
    ensures r.Some? && MinAmount(cfg) < r.value ==>
              r.value == round2(FinalUsdt(Suggested(cfg, c, t, rsi), balance.value, cfg.maxPositionRatio)
                                / (price * cfg.contractSize.value))
    ensures r.Some? ==>
              r.value == Max(round2(FinalUsdt(Suggested(cfg, c, t, rsi), balance.value, cfg.maxPositionRatio)
                                    / (price * cfg.contractSize.value)), MinAmount(cfg))
  {
    if balance.None? || cfg.contractSize.None? || price * cfg.contractSize.value == 0.0 then None
    else
      var finalUsdt := FinalUsdt(Suggested(cfg, c, t, rsi), balance.value, cfg.maxPositionRatio);
      var contracts := round2(finalUsdt / (price * cfg.contractSize.value));
      if contracts < MinAmount(cfg) then Some(MinAmount(cfg)) else Some(contracts)
  }

  /**
    The emergency formula: `round(max(base * leverage / (price * cs), min), 2)`
    with the contract size defaulting to 0.01. A zero price raises again,
    and that exception escapes.
   */
  function Fallback(cfg: Config, price: real, round2: real -> real): (r: Option<real>)
    ensures r.Some? <==> price * ContractSizeOr(cfg) != 0.0
  {
    if price * ContractSizeOr(cfg) == 0.0 then None
    else Some(round2(Max(cfg.baseUsdt * cfg.leverage / (price * ContractSizeOr(cfg)), MinAmount(cfg))))
  }

  /** `calculate_intelligent_position`. */
  function PositionSize(cfg: Config, c: Confidence, t: MarketTrend, rsi: Option<real>,
                        price: real, balance: Option<real>, round2: real -> real): (r: Option<real>)
    ensures !cfg.enabled ==> r == Some(FixedContracts)
    ensures cfg.enabled && MainPath(cfg, c, t, rsi, price, balance, round2).Some? ==> r == MainPath(cfg, c, t, rsi, price, balance, round2)
    ensures cfg.enabled && MainPath(cfg, c, t, rsi, price, balance, round2).None? ==> r == Fallback(cfg, price, round2)
  {
    if !cfg.enabled then Some(FixedContracts)
    else
      var main := MainPath(cfg, c, t, rsi, price, balance, round2);
      if main.Some? then main else Fallback(cfg, price, round2)
  }

  /** Rounding to two decimals is monotone and keeps the minimum amount as it is. */
  ghost predicate RoundKeepsFloor(round2: real -> real, floor: real) {
    round2(floor) == floor && forall x, y :: x <= y ==> round2(x) <= round2(y)
  }

  /** On either path the returned size is at least the minimum amount. */
  lemma SizeAtLeastMin(cfg: Config, c: Confidence, t: MarketTrend, rsi: Option<real>,
                       price: real, balance: Option<real>, round2: real -> real)
    requires cfg.enabled && RoundKeepsFloor(round2, MinAmount(cfg))
    requires PositionSize(cfg, c, t, rsi, price, balance, round2).Some?
    ensures MinAmount(cfg) <= PositionSize(cfg, c, t, rsi, price, balance, round2).value
  {
    if MainPath(cfg, c, t, rsi, price, balance, round2).None? {
      var x := cfg.baseUsdt * cfg.leverage / (price * ContractSizeOr(cfg));
      assert round2(MinAmount(cfg)) <= round2(Max(x, MinAmount(cfg)));
    }
  }

  /**
    The shipped configuration has no `contract_size`, so the main path
    always raises and the emergency formula decides: 100 * 10 USDT at a
    contract size of 0.01, floored at 0.01 contracts.
   */
  lemma ShippedUsesFallback(c: Confidence, t: MarketTrend, rsi: Option<real>,
                            price: real, balance: Option<real>, round2: real -> real)
    ensures PositionSize(Shipped, c, t, rsi, price, balance, round2) == Fallback(Shipped, price, round2)
    ensures price != 0.0 ==>
              PositionSize(Shipped, c, t, rsi, price, balance, round2) == Some(round2(Max(1000.0 / (price * 0.01), 0.01)))
    ensures price == 0.0 ==> PositionSize(Shipped, c, t, rsi, price, balance, round2).None?
  {
  }
}
