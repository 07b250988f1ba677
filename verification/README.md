# Trading indicators and order logic of an OKX trading bot, in Dafny

This project models the computational core of a Python crypto-trading bot for
OKX perpetual swaps, and proves properties of that model. It covers:

- **Nadaraya–Watson envelope** (`nw_new.py`). A Gaussian-kernel regression
  of the price with a band of ± the mean absolute error. It comes in three
  variants:
  - the causal endpoint method (`nwe_norepaint`);
  - the fit computed once at the final bar (`nwe_repaint_on_last`);
  - the replay that treats every bar in turn as the last one and overwrites
    earlier values (`nwe_repaint_full_history`).

  The crossing-arrow scanner `generate_signals` is modelled as well.
- **Global smoother and its envelope** (`nw.py`): `nadaraya_watson` and
  `nw_envelope_lux`.
- **Indicators:**
  - HalfTrend with its stop-and-reverse backtest (`halftrend.py`);
  - KDJ (`kdj_strategy.py`);
  - Wilder's ATR and ATR stops (`atr.py`);
  - the TTM squeeze with Bollinger bands, Keltner channel, squeeze flags and
    momentum window (`ttm_strategy.py`).
- **Decision rules:**
  - the RSI column and the RSI / squeeze signal rules (`strategy.py`);
  - position sizing, the market orders a signal produces, stop-loss and
    take-profit placement, the recorded pnl, and the instrument-id rewrite
    (`order.py`).

Series are `seq<real>`. A pandas NaN is `None` of `Numeric.Num = Option<real>`.
Arithmetic propagates `None`, and a comparison involving `None` is false, as
in numpy.

Some numerical routines are left abstract as parameters, and lemmas assume
only what they need about them:
- `math.exp`, with `exp(0) = 1` and `exp > 0`;
- `norm.pdf`, as a positive weight function;
- `sqrt`, which is non-negative with `sqrt(0) = 0`;
- `linregress`'s slope;
- `round(x, 2)`.

The exchange is replaced by its answers, passed in as values: the free
balance and the position reported before and after a trade. Order placement
becomes the list of orders that would be sent.

Modules follow the source files:

| source | modules |
|---|---|
| `nw_new.py` | `Kernel`, `Bands`, `WindowFit`, `Endpoint`, `LastBar`, `HistoryReplay`, `Crossings` |
| `nw.py` | `GlobalSmoother` |
| `halftrend.py` | `HalfTrend`, `Backtest` |
| `kdj_strategy.py` | `Kdj` |
| `atr.py` | `Atr` |
| `ttm_strategy.py` | `Ttm` |
| `strategy.py` | `Strategy` |
| `order.py` | `Sizing`, `Execution`, `Instrument` |
| shared pandas/numpy operations | `Numeric`, `Series` |

The replay follows the code:
- Position `p` keeps the value written by pass `min(n-1, p+window-1)`, the last
  pass whose window reaches it (`HistoryReplay.LastWriter`). It does not keep
  the value from pass `p`.
- Further back than the final window, the value shown at `p` was therefore
  fitted with `window-1` later bars (`HistoryReplay.ReplayLooksAhead`).
- The 500-bar cap exists only on the endpoint path (`Endpoint.Cap`). The two
  repainting paths use `window` as given (`LastBar.Span`).

## Model

| member | source | states |
|---|---|---|
| Kernel.Gauss | nw_new.py:19-23 | The Gaussian weight is strictly positive, and equals 1 at offset 0, when exp(0) = 1 and exp > 0 |
| Kernel.GaussEven | nw.py:60-61 | gauss(-x, h) = gauss(x, h): the kernel is even in the offset |
| Kernel.GaussKernelShape | nw_new.py:41-43 | The weight table i ↦ gauss(i, h) is positive everywhere, even, and 1 at offset 0 |
| Bands.WithBands | nw_new.py:57-58 | upper and lower are defined exactly where mid and mae are, and then sit at distance mae on either side of mid; mid and mae are kept as given |
| Bands.BandsOrdered | nw_new.py:57-58 | A non-negative mae gives lower ≤ mid ≤ upper |
| WindowFit.SumAbsErr | nw_new.py:86 | The accumulated sae is defined iff every local fit so far is defined (one NaN fit poisons it); it is ≥ 0 and bounds every term \|src[e−i] − fit i\| it has summed |
| WindowFit.FitWindow | nw_new.py:77-88 | Window mae is defined iff L > 0 and every local fit is defined, and then equals sae / L · mult; it is ≥ 0 when mult ≥ 0; local fit i is the kernel mean for offset i |
| WindowFit.LocalMidWithin | nw_new.py:80-84 | With a positive kernel a local fit is defined and lies between any lower and upper bound of the window's prices |
| WindowFit.FitDefined | nw_new.py:84-88 | With a positive kernel and L ≥ 1, all local fits and the mae are defined |
| WindowFit.SumAbsErrExact | nw_new.py:86 | Fits equal to the prices they sit on give sae = 0 |
| WindowFit.SumAbsErrZeroIff | nw_new.py:86 | sae = 0 iff every local fit equals the price it sits on |
| WindowFit.FitExactIff | nw_new.py:77-88 | With mult ≠ 0 and a defined mae, mae = 0 iff every local fit equals the price it sits on |
| WindowFit.FitConstant | nw_new.py:77-88 | A constant window c is fitted as c everywhere, with mae 0 |
| LastBar.Span | nw_new.py:71 | L = min(window, n): L ≤ n, L ≤ window, and L is one of the two (no 500 cap) |
| LastBar.RepaintOnLast | nw_new.py:63-102 | Columns are aligned with the series; bands are symmetric at every bar; the first n − L positions are NaN; position p holds local fit n−1−p of the final window |
| LastBar.RepaintOnLastAt | nw_new.py:95-100 | A populated position p holds local fit n−1−p of the final window and that window's shared mae |
| LastBar.RepaintOnLastDefined | nw_new.py:71-100 | With a positive kernel, mid[p] and mae[p] are defined iff p is among the last min(window, n) bars |
| LastBar.RepaintOnLastSharedMae | nw_new.py:95-100 | Every populated position carries the same mae |
| LastBar.RepaintOnLastWithin | nw_new.py:77-85 | A populated mid lies within the price range of the final window |
| LastBar.RepaintOnLastConstant | nw_new.py:77-100 | A constant series gives mid = c and mae = 0 on every populated position |
| HistoryReplay.LastWriter | nw_new.py:128-149 | The last pass before t that writes p is in [p, t), and p is inside that pass's window |
| HistoryReplay.Replayed | nw_new.py:144-149 | The replayed columns are aligned and their bands are symmetric at every bar |
| HistoryReplay.PassEffect | nw_new.py:144-149 | Pass t rewrites exactly positions t−L+1..t with its fit and mae, and leaves every other position as it was |
| HistoryReplay.RepaintFullHistory | nw_new.py:105-151 | The nested overwrite loops leave, at every position, the value of its last writer |
| HistoryReplay.WritePass | nw_new.py:144-149 | The inner loop gives positions t−L+1..t local fit t−p, the pass's mae and the bands around them, and leaves every other position as it was |
| HistoryReplay.NextPass | nw_new.py:128-149 | Overwriting the state after t passes with pass t's window gives, at every position, the state after t+1 passes |
| HistoryReplay.NothingWritten | nw_new.py:114-118 | Before any pass, four all-NaN columns are the state after 0 passes |
| HistoryReplay.ReplayPass | nw_new.py:128-149 | One outer pass turns the state after t passes into the state after t+1 passes |
| HistoryReplay.ReplayLoops | nw_new.py:114-149 | After all n passes every column holds its last writer's value, with upper = mid + mae and lower = mid − mae |
| HistoryReplay.ReplayedColumns | nw_new.py:144-151 | Columns holding every position's last-writer value are exactly the replayed envelope |
| HistoryReplay.ReplayedAt | nw_new.py:144-149 | Position p ends with local fit s−p and the mae of pass s, where s is its last writer |
| HistoryReplay.ReplayTail | nw_new.py:128-149 | On the last min(window, n) positions the replay equals `nwe_repaint_on_last` |
| HistoryReplay.ReplayLooksAhead | nw_new.py:128-149 | If p + window ≤ n, mid[p] is the oldest-offset fit of the window ending at p + window − 1 |
| HistoryReplay.ReplayDefined | nw_new.py:128-149 | With a positive kernel and window ≥ 1, every position ends up defined |
| HistoryReplay.ReplayConstant | nw_new.py:132-149 | A constant series is replayed as mid = c, mae = 0 everywhere |
| Endpoint.Cap | nw_new.py:41 | W = min(window, 500): 1 ≤ W ≤ 500, W ≤ window, and W is one of the two |
| Endpoint.Reach | nw_new.py:48 | L = min(W, t+1): 1 ≤ L ≤ W, L ≤ t+1, and L is one of the two |
| Endpoint.NoRepaint | nw_new.py:31-60 | Columns are aligned; bands are symmetric at every bar; mid[t] is the kernel-weighted mean of the last L prices, with weights k(0..L−1) from the newest price back |
| Endpoint.NoRepaintMaeAt | nw_new.py:53-55 | mae[t] is mult times the NaN-skipping rolling mean of the absolute errors over the capped window |
| Endpoint.Errors | nw_new.py:53-54 | The absolute error column is aligned with the series and never negative where defined |
| Endpoint.NoRepaintCap | nw_new.py:41 | Every window ≥ 500 gives the same envelope as 500 |
| Endpoint.EndpointMidPrefix | nw_new.py:47-51 | mid at bar s depends only on prices up to bar s |
| Endpoint.NoRepaintCausal | nw_new.py:47-58 | Series agreeing up to bar t give the same mid, mae, upper and lower at t: appending bars never repaints |
| Endpoint.NoRepaintWithin | nw_new.py:47-51 | With a positive kernel, mid[t] is defined and within the range of the prices it averages |
| Endpoint.EndpointMidDefined | nw_new.py:49-51 | With a positive kernel, mid[t] is never NaN |
| Endpoint.NoRepaintDefined | nw_new.py:47-55 | With a positive kernel, mid and mae are defined at every bar |
| Endpoint.NoRepaintMaeNonneg | nw_new.py:54-55 | mult ≥ 0 gives mae ≥ 0 |
| Endpoint.ErrorMeanNonneg | nw_new.py:54-55 | The NaN-skipping rolling mean of the absolute errors is ≥ 0 where defined |
| Endpoint.NoRepaintConstant | nw_new.py:47-55 | A constant series gives mid = c and mae = 0 at every bar |
| Endpoint.EndpointMidConstant | nw_new.py:47-51 | With a positive kernel, the endpoint mean of a constant series is that constant |
| Endpoint.ErrorsOfConstant | nw_new.py:53-54 | With a positive kernel, a constant series has absolute error 0 at every bar |
| Endpoint.EndpointMatchesLastBar | nw_new.py:47-51 | With an even kernel and window ≤ 500, the endpoint mid at the final bar equals the repaint-on-last mid there |
| Crossings.SignalAt | nw_new.py:175-183 | The arrow at a bar is −1, 0 or 1 |
| Crossings.GenerateSignals | nw_new.py:157-184 | The output has the series' length; sig[0] = 0; sig[i] is the crossing of bars i−1 → i judged against bar i−1's bands, 0 unless mid[i−1], mid[i], mae[i−1] are defined |
| Crossings.CrossesExclusive | nw_new.py:180-183 | The bullish and bearish crossings never hold together, so the order of the two writes never matters |
| Crossings.NoArrowWithoutMove | nw_new.py:180-183 | Equal consecutive prices never give an arrow |
| Crossings.ArrowDirection | nw_new.py:180-183 | A bearish arrow means the price fell; a bullish arrow means it rose |
| GlobalSmoother.NadarayaWatson | nw.py:18-27 | The smoothed series has the input's length, and m[i] is the normalised-weight sum about bar i |
| GlobalSmoother.NormalisedWeightsSumToOne | nw.py:23-24 | The normalised weights of every bar sum to 1 |
| GlobalSmoother.SmoothedIsWeightedMean | nw.py:22-25 | m[i] equals the kernel-weighted mean of the whole series about bar i |
| GlobalSmoother.SmoothedWithin | nw.py:22-25 | With a positive kernel, m[i] is defined and within min(y)..max(y) |
| GlobalSmoother.ConstantFixedPoint | nw.py:22-25 | A constant series is a fixed point of the smoother |
| GlobalSmoother.Vol | nw.py:49 | vol = √(rolling mean²) is ≥ 0 and defined exactly where the rolling mean of the residual is |
| GlobalSmoother.LuxWidth | nw.py:51-52 | The half-width k·vol is ≥ 0 when k ≥ 0 |
| GlobalSmoother.NwEnvelopeLux | nw.py:30-58 | mid is the smoother's output, upper = mid + k·vol and lower = mid − k·vol |
| GlobalSmoother.LuxSymmetric | nw.py:51-52 | upper and lower are defined together, with upper − mid = mid − lower |
| GlobalSmoother.LuxWarmup | nw.py:49 | The bands are NaN for the first h − 1 bars |
| GlobalSmoother.LuxDefined | nw.py:49-52 | With a positive kernel the bands are defined from bar h − 1 on |
| GlobalSmoother.LuxOrdered | nw.py:49-52 | k ≥ 0 gives lower ≤ mid ≤ upper |
| GlobalSmoother.VolOfZeros | nw.py:49 | A window of zero residuals has vol 0 |
| GlobalSmoother.LuxConstant | nw.py:43-52 | A constant series has both bands on the price after the warm-up |
| Series.RollingFrom1Brackets | kdj_strategy.py:24-25 | The min_periods=1 rolling min ≤ x[i] ≤ rolling max |
| Series.SmoothRecurrence | kdj_strategy.py:53-55 | The smoothed column starts at the seed and each later entry is one step (1−α)·prev + α·x from the previous entry |
| Series.SmoothWithin | kdj_strategy.py:53-55 | With 0 ≤ α ≤ 1, smoothing stays within any bounds of the seed and the inputs seen so far |
| Series.SmoothPrefix | atr.py:29 | Smoothing is causal: inputs agreeing up to i give the same value at i |
| Series.FactorWithin | kdj_strategy.py:48-51 | A smoothing factor 1/m with m ≥ 1 lies in [0, 1] |
| HalfTrend.TrendAt | halftrend.py:24-28 | trend[0] = 0, and later trends are 1 or −1 |
| HalfTrend.TrendSelectsLine | halftrend.py:24-36 | After bar 0 the trend is up iff the previous line value is defined and below the close, and the line takes the rolling max of lows when up and the rolling min of highs when down |
| HalfTrend.LineChange | halftrend.py:42 | abs(HalfTrend.diff()) is ≥ 0, and is defined iff i > 0 and both line values are defined |
| HalfTrend.Channel | halftrend.py:42-43 | The band frame keeps the line as its middle, is aligned with it, has half-width cd · (10-bar mean of \|Δline\|) at every bar, and is symmetric about the line |
| HalfTrend.Compute | halftrend.py:8-49 | See the list after this table |
| HalfTrend.SignalsExclusive | halftrend.py:46-47 | No bar is both a buy and a sell |
| HalfTrend.BuyMeansBreakout | halftrend.py:25-26 | A buy means the previous HalfTrend value was defined and below the close |
| HalfTrend.LineDefined | halftrend.py:18-36 | Once `amplitude` bars exist the line is defined |
| HalfTrend.WarmupTrendsDown | halftrend.py:24-28 | While the previous line is NaN (bars 2..amplitude−1) the trend is −1: NaN comparisons are false |
| HalfTrend.BandsSymmetric | halftrend.py:42-43 | UpperBand is defined iff HalfTrend and the width cd · (10-bar mean of \|Δline\|) are, LowerBand iff UpperBand is, and UpperBand − HalfTrend = HalfTrend − LowerBand = that width |
| HalfTrend.WidthNonneg | halftrend.py:42 | cd ≥ 0 gives a non-negative half-width wherever it is defined |
| HalfTrend.BandsOrdered | halftrend.py:42-43 | With cd ≥ 0, a defined UpperBand gives LowerBand ≤ HalfTrend ≤ UpperBand |
| HalfTrend.BandsWarmup | halftrend.py:42-43 | The bands are NaN on bars 0..9 |
| Backtest.Step | halftrend.py:61-81 | See the list after this table |
| Backtest.Run | halftrend.py:61-81 | Each row records at most one profit, so there are never more profits than rows |
| Backtest.RunValid | halftrend.py:57-81 | The position is always −1, 0 or 1 |
| Backtest.LatestSignalDecides | halftrend.py:62-81 | After the last row, a sell-only signal leaves the position short (−1) and a buy-only signal leaves it long (1) |
| Backtest.NeverFlatAgain | halftrend.py:62-81 | Once in the market the backtest never returns to flat |
| Backtest.ProfitsGrow | halftrend.py:71-81 | The profit list only grows: the list after a prefix of rows is a prefix of the final list |
| Backtest.FlatRecordsNothing | halftrend.py:62-69 | While flat, no profit is recorded (the first entry records none) |
| Backtest.Summarise | halftrend.py:83-90 | Trades = number of profits; Total Profit = their sum; Win Rate in [0,1], and 0 with no trades |
| Backtest.Wins | halftrend.py:84 | The number of winning trades never exceeds the number of trades |
| Backtest.AllWins | halftrend.py:84 | Every trade is a win iff the win count equals the trade count |
| Backtest.NoWins | halftrend.py:84 | The win count is 0 iff every profit is ≤ 0 |
| Backtest.WinRateExtremes | halftrend.py:84 | Win Rate = 1 iff every trade won; Win Rate = 0 iff none did |
| Backtest.BacktestHalftrend | halftrend.py:55-90 | Trades is the number of profits the stop-and-reverse loop records over the frame, and the win rate is in [0,1] |
| Kdj.RsvAt | kdj_strategy.py:28-32 | RSV = 0 when the n-bar high equals the n-bar low, and (close − lowest)/(highest − lowest)·100 otherwise |
| Kdj.Rsv | kdj_strategy.py:28-33 | The RSV column has one entry per bar, the RSV of that bar |
| Kdj.RsvLocatesClose | kdj_strategy.py:28-32 | When highest ≠ lowest, lowest + RSV/100 · (highest − lowest) recovers the close |
| Kdj.ComputeKdj | kdj_strategy.py:6-61 | The rsv column is the RSV series; K[0] = D[0] = 50; K_t = (1−1/m1)K_{t−1} + RSV_t/m1; D_t = (1−1/m2)D_{t−1} + K_t/m2; J = 3K − 2D |
| Kdj.HighestAtLeastLowest | kdj_strategy.py:24-25 | highest ≥ lowest when high ≥ low on every bar |
| Kdj.RsvWithin | kdj_strategy.py:28-32 | With low ≤ close ≤ high on every bar, RSV ∈ [0, 100] |
| Kdj.KdWithin | kdj_strategy.py:41-55 | With closes inside their bars and m1, m2 ≥ 1, K and D stay in [0, 100] |
| Atr.TrueRangeAt | atr.py:21-26 | TR ≥ high − low; TR[0] = high − low; for later bars TR dominates both gaps to the previous close and equals one of the three terms |
| Atr.TrueRange | atr.py:21-26 | The TR column has one entry per bar, the true range of that bar |
| Atr.TrueRangeNonneg | atr.py:22-26 | high ≥ low gives TR ≥ 0 |
| Atr.ComputeAtr | atr.py:5-31 | atr[0] = TR[0], and atr[t] = (1−1/n)·atr[t−1] + TR[t]/n |
| Atr.AtrWithin | atr.py:29 | atr[t] lies within any bounds of TR[0..t] |
| Atr.AtrNonneg | atr.py:29 | With high ≥ low everywhere, atr ≥ 0 |
| Atr.AtrCausal | atr.py:21-29 | atr[t] depends only on bars 0..t |
| Atr.AtrStopLoss | atr.py:33-59 | stop_short − close = close − stop_long = mul·atr, with atr the ATR column |
| Atr.StopsOrdered | atr.py:50-53 | With mul ≥ 0 and high ≥ low: stop_long ≤ close ≤ stop_short |
| Ttm.PopVariance | ttm_strategy.py:8 | The ddof=0 variance is ≥ 0 |
| Ttm.BollingerBands | ttm_strategy.py:6-11 | sma is the strict rolling mean; upper/lower = sma ± std·stdv |
| Ttm.BollingerDefinedExactly | ttm_strategy.py:7-10 | The bands are defined iff 1 ≤ period ≤ i+1, so NaN for the first period − 1 bars |
| Ttm.BollingerSymmetric | ttm_strategy.py:9-10 | upper − sma = sma − lower, and lower ≤ sma when std ≥ 0 |
| Ttm.Ema | ttm_strategy.py:24 | The adjust=False EMA starts at the first close and steps with α = 2/(span+1) |
| Ttm.EmaWithin | ttm_strategy.py:24 | The EMA stays within any bounds of the closes seen so far |
| Ttm.KeltnerChannel | ttm_strategy.py:23-28 | mid is the EMA; atr is the strict rolling mean of the true range; upper/lower = ema ± atr·atr_mult |
| Ttm.Momentum | ttm_strategy.py:31-46 | Momentum is defined iff i ≥ period, and is then the slope of the period closes before bar i |
| Ttm.MomentumWindow | ttm_strategy.py:38-44 | Momentum at bar i reads only closes i−period..i−1: series agreeing there give the same value |
| Ttm.TtmSqueeze | ttm_strategy.py:49-83 | Squeeze_On ⟺ BB_Up < KC_Up ∧ BB_Low > KC_Low (false on NaN); Squeeze_Off is its complement; the Keltner channel uses kc_period for both periods; the momentum column is the momentum of the closes |
| Ttm.SqueezeOffInWarmup | ttm_strategy.py:63-64 | During the Bollinger warm-up the squeeze is off |
| Ttm.SqueezeNested | ttm_strategy.py:63 | Squeeze on means the Bollinger band lies strictly inside the Keltner channel |
| Strategy.Gain | strategy.py:25 | The gain column is ≥ 0, and 0 on bar 0 |
| Strategy.Loss | strategy.py:26 | The loss column is ≥ 0 |
| Strategy.GainLossSplit | strategy.py:24-26 | gain − loss is the close-to-close change, and at most one of the two is non-zero |
| Strategy.RsiOf | strategy.py:27-28 | RSI is defined unless gain = loss = 0; it lies in [0, 100]; it is 100 iff the loss is 0 |
| Strategy.RsiAt | strategy.py:24-28 | The RSI at a bar, from the 14-bar means of gains and losses, lies in [0, 100] where defined |
| Strategy.RsiIsGainShare | strategy.py:27-28 | With loss > 0, 100 − 100/(1+rs) = 100·gain/(gain+loss) |
| Strategy.RsiSeries | strategy.py:24-28 | Every defined RSI value lies in [0, 100] |
| Strategy.RsiWarmup | strategy.py:25-26 | The RSI is NaN on bars 0..12 |
| Strategy.RsiDefinedUnlessFlat | strategy.py:24-28 | After the warm-up, the RSI is defined iff the last 14 bars contain a price change |
| Strategy.RsiTrend | strategy.py:52-60 | rising iff rsi > 60; falling iff rsi < 40; otherwise ranging, with rsi in [40, 60] or NaN |
| Strategy.RsiSide | strategy.py:61-74 | 'buy' iff rsi < 40 and the trend is rising; 'sell' is never returned |
| Strategy.RisHandel | strategy.py:77-80 | Always 'no' |
| Strategy.MacdHandel | strategy.py:83-88 | Always returns None |
| Strategy.BollKcHandel | strategy.py:90-100 | SELL iff the sell setup holds; BUY iff the buy setup holds; HOLD whenever the squeeze is off |
| Strategy.SetupsExclusive | strategy.py:94-97 | The SELL and BUY setups never hold together |
| Sizing.ShippedMultipliers | order.py:88-106 | With the shipped config the confidence multiplier is 1.5/1.0/0.5, default 1.0; the trend multiplier is 1.2 only for the strong trends; the RSI multiplier is 0.7 iff rsi > 75 or < 25, else 1.0 |
| Sizing.Suggested | order.py:109 | A neutral signal (unrated, no strong trend, no RSI) asks for exactly base_usdt |
| Sizing.SuggestedRsiDamping | order.py:101-109 | An RSI above 75 or below 25 gives 0.7 times the budget of a neutral RSI; an RSI in [25, 75] gives the same budget |
| Sizing.ShippedSuggestedRange | order.py:109 | With the shipped config the suggested budget is within [35, 180] USDT |
| Sizing.FinalUsdt | order.py:112-113 | final_usdt ≤ suggested and ≤ balance·ratio, and equals one of them |
| Sizing.MainPath | order.py:78-139 | The main path succeeds iff the balance is available, contract_size is configured and the divisor is non-zero; its result is then max(round(final_usdt / (price · contract_size), 2), min_amount), with final_usdt = min(suggested, balance · max_position_ratio) |
| Sizing.Fallback | order.py:141-147 | The emergency formula raises iff price·contract size is 0 |
| Sizing.PositionSize | order.py:68-147 | Disabled sizing gives 0.1; otherwise a successful main path gives its result and a failed one gives the emergency result |
| Sizing.SizeAtLeastMin | order.py:133-147 | If round(·,2) is monotone and keeps min_amount, the returned size is ≥ min_amount on both paths |
| Sizing.ShippedUsesFallback | order.py:117 | The shipped config lacks contract_size, so the emergency formula always decides: round(max(1000/(price·0.01), 0.01)) |
| Execution.CloseSide | order.py:512 | The closing side is opposite to the opening side of the position |
| Execution.TradeOrders | order.py:249-389 | A BUY or SELL gives at most two orders; with no position, a single opening order of the full size; every opening order is on the signal's side, and only the first of two orders can be reduce-only |
| Execution.MarketOrders | order.py:238-410 | No orders for LOW confidence, test mode, HOLD or an unknown signal; never more than two orders |
| Execution.ReachesTarget | order.py:249-389 | Opening or reversing brings the signed exposure exactly to ±size; a same-side adjustment brings it within 0.01 of the target |
| Execution.ReversalShape | order.py:250-270 | An opposite position gives exactly two orders on the signal's side: a reduce-only close of the whole position, then the open |
| Execution.FlatOpensOnce | order.py:310-318 | With no position there is exactly one opening order of the target size |
| Execution.SameSideAdjusts | order.py:280-309 | Same side: at most one order, none iff |target − current| < 0.01; it is reduce-only iff shrinking, on the close side when reducing and the open side when adding, for round(\|target − current\|, 2) |
| Execution.ProtectiveOrders | order.py:511-573 | One stop-loss order for a truthy stop price, then one take-profit for a truthy target; all are on the close side, for the whole size |
| Execution.ProtectionAfter | order.py:391-432 | None for LOW confidence or test mode; no protection without a price; HOLD protects only an open current position; a trade protects only an open position reported afterwards |
| Execution.HoldProtectsCurrent | order.py:390-409 | Past the early returns, a HOLD on an open position gives a stop-loss at the stop price (if truthy), then a take-profit at the target (if truthy), both on its close side for its whole size, and nothing else |
| Execution.RecordedPnl | order.py:437-446 | pnl ≠ 0 only if the position was reported before and after the trade, on different sides, and then it is (price − entry) for a long or (entry − price) for a short, times size and contract size |
| Execution.PnlSign | order.py:440-446 | A reversed long records a gain iff the price rose above entry; a short iff it fell below entry |
| Instrument.Replace | order.py:157 | A string without the pattern's first character comes back unchanged, and a replacement as long as the pattern keeps the length |
| Instrument.ReplaceChar | order.py:157 | Replacing one character by another is a pointwise map over the string |
| Instrument.ReplaceRemoves | order.py:157 | After replacing '/' by a string without '/', no '/' is left |
| Instrument.ReplaceAbsent | order.py:157 | A string without the pattern comes back unchanged |
| Instrument.SwapSuffix | order.py:157 | A base without '/' followed by the suffix has only the suffix rewritten |
| Instrument.ReplaceMissingChar | order.py:157 | Replacing a character that does not occur leaves the string unchanged |
| Instrument.ReplaceAfter | order.py:157 | A prefix without the pattern's first character passes through unchanged |
| Instrument.SwapId | order.py:157 | Any slash-free base followed by '/USDT:USDT' becomes base + '-USDT-SWAP' |
| Instrument.SpotId | order.py:157 | A spot pair base/quote with no '/' in either part and no ':' in the quote becomes base-quote |
| Instrument.InstId | order.py:506 | The instrument id never contains '/' |
| Instrument.ConfiguredSymbol | order.py:157 | 'BTC/USDT:USDT' becomes 'BTC-USDT-SWAP' |
| Instrument.SpotSymbol | order.py:157 | 'ETH/USDT' becomes 'ETH-USDT' |

`HalfTrend.Compute` states:
- trend[0] = 0 and line[0] = 0.
- For i ≥ 1, trend[i] is 1 exactly when close[i] is above line[i−1], with NaN counting as not above, and −1 otherwise.
- line[i] is the rolling max of the lows when trend[i] = 1, and the rolling min of the highs otherwise.
- buy[i] is a −1 → 1 flip and sell[i] is a 1 → −1 flip.
- UpperBand[i] = line[i] + w and LowerBand[i] = line[i] − w, where w is cd times the 10-bar mean of |Δline|.

`Backtest.Step` states:
- A valid position stays valid, and a non-zero position stays non-zero.
- At most one profit is appended.
- A profit is appended only on a reversal. That profit is close − entry when a long closes and entry − close when a short closes, and the new entry price is the close.
- Each transition is stated: flat with a sell goes short at the close; flat with a buy and no sell goes long; a long with a sell reverses to short; a short with a buy reverses to long; any other row changes nothing.

## Left out

- Exchange I/O is not modelled:
  - the ccxt client, `get_current_position`, `fetch_balance`, `create_market_order`;
  - the algo-order API calls and the body of `cancel_existing_tp_sl_orders`;
  - `time.sleep`, `save_trade_record` and every print.

  Their results are parameters: the balance, and the positions before and after a trade. Their effects are the returned order lists.
- The retry path of `execute_intelligent_trade` (order.py:462-488) runs only after an exchange error, which the model does not represent.
- The `active_tp_sl_orders` bookkeeping is left out. It is a global that is never defined, and its errors are swallowed.
- Lines 206-227 of `execute_intelligent_trade` are left out. They only compute an unused `new_side`.
- Floating point is not modelled, and neither is infinity:
  - Values are mathematical reals, and NaN is `None`.
  - When a kernel's weights sum to zero, the regressors give NaN. numpy would give ±inf for a non-zero numerator. This happens only with a non-positive kernel; the Gaussian is positive.
  - The RSI's infinite rs (zero loss) is handled explicitly, as 100.
- Several numeric routines are parameters:
  - `math.exp`, assumed to satisfy exp(0) = 1 and exp > 0;
  - `scipy.stats.norm.pdf`, as a weight function, assumed positive where a lemma needs it;
  - the `sqrt` of the rolling standard deviation;
  - `scipy.stats.linregress`'s slope;
  - Python's `round(x, 2)`.

  Their values are not computed.
- Ttm.Momentum: for a period of 0 or 1, `linregress` raises on a window of fewer than two points. The model still returns the slope parameter's value there.
- Kernel.Gauss: requires 2h² ≠ 0. With h = 0 the source raises ZeroDivisionError (nw_new.py:23); the model does not represent that exception and leaves the call undefined.
- Kdj.ComputeKdj: requires n ≥ 1, m1 ≠ 0 and m2 ≠ 0. The source raises there: `rolling(window=n)` rejects n < 1 (kdj_strategy.py:24-25), and `1.0 / m1` and `1.0 / m2` divide by zero (kdj_strategy.py:48,50). The exceptions are not modelled.
- Atr.ComputeAtr: requires n ≥ 1. For n = 0, `1 / n` raises, and for n < 0 pandas rejects the negative alpha (atr.py:29). The exceptions are not modelled.
- Endpoint.NoRepaint: requires window ≥ 1. A smaller window gives W < 1, and `rolling(window=W, min_periods=1)` raises (nw_new.py:55). The exception is not modelled.
- HalfTrend.Compute: requires at least one bar. On an empty frame the source does not raise: assigning the one-element `ht` list reindexes the empty frame to one row (halftrend.py:38), which has HalfTrend 0, HT_Trend 0, NaN prices and bands, and no signals. Bars here carry real prices, so that row is not modelled.
- Strategy.RsiTrend: requires a non-empty RSI column. `iloc[-1]` raises IndexError on an empty one (strategy.py:53). The exception is not modelled.
- Strategy.RsiSide: requires a non-empty RSI column. `iloc[-1]` raises IndexError on an empty one (strategy.py:62). The exception is not modelled.
- Strategy.RisHandel: requires a non-empty RSI column, for the same `iloc[-1]` in `rsi_trend` and `rsi_side` (strategy.py:78-79). The exception is not modelled.
- Strategy.MacdHandel: requires a non-empty `macd_signal` column. `iloc[-1]` raises IndexError on an empty one (strategy.py:84-86). The exception is not modelled.
- Strategy.BollKcHandel: requires at least two bars. `iloc[-2]` raises IndexError on a shorter frame (strategy.py:92). The exception is not modelled.
- Ttm.Ema: requires span ≥ 1, and so does Ttm.KeltnerChannel for its EMA period. `ewm(span=…)` raises below 1 (ttm_strategy.py:24). The exception is not modelled.
- LastBar.RepaintOnLast and HistoryReplay.RepaintFullHistory: a negative window makes `np.full` raise. The model treats it like a zero window, which gives all-NaN columns.
- Pandas frame mechanics are left out:
  - Copies: `df.copy()` in KDJ, ATR stops and the backtest.
  - In-place mutation: HalfTrend adds columns to its input frame.
  - Index alignment.

  Results are new values that hold the added columns, so the input is unchanged by construction rather than by a stated contract.
- The `rsi` column that `rsi_trend`, `rsi_side` and `boll_kc_handel` read comes from `calculate_technical_indicators`, which is not part of this model. These rules take the column as a parameter. `Strategy.RsiSeries` models the RSI formula itself.
- `calculate_intelligent_position` in strategy.py is modelled only for the RSI formula. Its other columns (SMA, adjust=True EMA, MACD, Bollinger, volume, support and resistance, bfill/ffill) are left out.
- Only the exceptions named in `Sizing.MainPath` are modelled: no balance, no `contract_size`, and a zero divisor. Missing keys in `signal_data` or `price_data` raise KeyError in the source and are not modelled.
- Plotting and demo code is left out: `plot_nwe`, `strategy.main`, the `__main__` blocks, and the tqdm progress bar of `nwe_repaint_full_history`.
