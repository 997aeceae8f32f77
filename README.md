# A verified model of a crypto backtester's core

The modelled system backtests long-only trading strategies on OHLCV candles. An
LLM writes a strategy as JSON. The strategy schema validates the document and
fills in its defaults, and the strategy mapper turns it into the engine's
`Strategy`. The candle service pages klines from the exchange and sorts and
de-duplicates them. The indicator engine computes SMA, EMA, RSI and MACD
series, keyed by a canonical indicator key. The strategy engine evaluates
entry and exit rules bar by bar. The backtest engine simulates one position
at a time with stop-loss, take-profit and per-side commission, records an
equity curve and computes the summary metrics. The chart component converts
times to seconds, searches for the candle nearest a trade, works out the
window drawn for an open trade and the duration shown in a trade's tooltip,
and maps chart seconds to trades.

Each source file that updates variables in loops is modelled by Dafny
`method`s with loops, proved against a specification `function`.
This covers the indicator loops, the backtest loop, spec collection and
de-duplication, the paging loop, the dedupe loop and the binary search.
`tradeMap`, a map held in a React ref and rebuilt in place, is a `class`
with a `map` field. The schema, the mapper, the rule evaluator and the
metrics are pure functions in the source and stay functions here. The
properties the code promises are proved as lemmas about those functions.

Files (modules):

- `wrappers.dfy` (`Wrappers`): `Option`, which stands for `null`/`undefined`, and `Result`, which stands for thrown errors.
- `types.dfy` (`Types`): candles, indicator references, conditions, rules, strategies, trades, equity points and metrics.
- `indicator_keys.dfy` (`IndicatorKeys`): parameter objects and the canonical indicator key, `keyFrom`.
- `indicator_math.dfy` (`IndicatorMath`): the value of each indicator at each bar, and its bounds.
- `indicator_engine.dfy` (`IndicatorEngine`): the `sma`, `ema`, `rsi` and `macd` loops, and `buildIndicators`.
- `strategy_engine.dfy` (`StrategyEngine`): `getVal`, the cross tests, `evalCondition` and `evalRules`.
- `backtest_engine.dfy` (`BacktestEngine`): `collectIndicatorSpecs`, `warmupBars`, the simulation loop and `backtest`.
- `backtest_metrics.dfy` (`BacktestMetrics`): the metrics block of `backtest`.
- `strategy_schema.dfy` (`StrategySchema`): the zod schema and its `refine` rule.
- `strategy_mapper.dfy` (`StrategyMapper`): `mapStrategyJsonToInternal`.
- `candle_service.dfy` (`CandleService`): `mapKline` and the in-memory part of `getCandles`.
- `candlestick_chart.dfy` (`CandlestickChart`): the chart helpers.

## Model

| member | source | states |
|---|---|---|
| IndicatorKeys.Lookup | lib/services/indicatorEngine.ts:142 | a parameter is found exactly when some entry has that name, and the value found belongs to such an entry |
| IndicatorKeys.SourceCheckedOnlyWhereRead | lib/services/indicatorEngine.ts:142-151 | a `source` that names no candle field is accepted for RSI, which computes on closes, and rejected for SMA, which reads it; an SMA with a `fast` of 0 is accepted, because SMA never reads `fast` |
| IndicatorKeys.NumParamPositive | lib/services/indicatorEngine.ts:142-155 | `Number(params.x ?? default)` is at least 1 when the kind reads `x` as a window length (`period` for SMA, EMA and RSI, `fast`, `slow` and `signal` for MACD), its parameters are well formed and the default is at least 1 |
| IndicatorKeys.SortByName | lib/services/indicatorEngine.ts:119-120 | sorting the entries by name keeps exactly the same entries (a permutation) |
| IndicatorKeys.SortByNameSorted | lib/services/indicatorEngine.ts:119-120 | the sorted entries are in name order |
| IndicatorKeys.SortByNameDistinct | lib/services/indicatorEngine.ts:119-120 | sorting keeps the entry names distinct |
| IndicatorKeys.NameLeTotal | lib/services/indicatorEngine.ts:120 | the name order used for sorting is total |
| IndicatorKeys.NameLeTransitive | lib/services/indicatorEngine.ts:120 | the name order is transitive |
| IndicatorKeys.NameLeAntisymmetric | lib/services/indicatorEngine.ts:120 | the name order is antisymmetric |
| IndicatorKeys.SortedUnique | lib/services/indicatorEngine.ts:119-122 | two name-sorted lists with distinct names and the same entries are equal, so the sorted form is canonical |
| IndicatorKeys.KeyFromOrderIndependent | lib/services/indicatorEngine.ts:118-124 | the key does not depend on the order in which the parameters were written |
| IndicatorKeys.KeyFromIdentifies | lib/services/indicatorEngine.ts:118-124 | two keys are equal if and only if the kinds are equal and the parameter entries are the same |
| IndicatorMath.SumBounds | lib/services/indicatorEngine.ts:56-60 | a window sum lies between its length times the lower bound and its length times the upper bound |
| IndicatorMath.SmaWithinBounds | lib/services/indicatorEngine.ts:54-63 | every SMA value lies within the bounds of its inputs |
| IndicatorMath.Alpha | lib/services/indicatorEngine.ts:67 | the smoothing factor `2 / (period + 1)` lies in (0, 1] |
| IndicatorMath.EmaRunWithinBounds | lib/services/indicatorEngine.ts:68-80 | the running EMA stays within the bounds of the inputs seen so far |
| IndicatorMath.EmaOfConstant | lib/services/indicatorEngine.ts:65-83 | the EMA of a constant series is that constant |
| IndicatorMath.Move | lib/services/indicatorEngine.ts:90-92 | a gain or loss, `Math.max(±change, 0)`, is never negative |
| IndicatorMath.WilderAvgNonNegative | lib/services/indicatorEngine.ts:94-107 | the smoothed average gain and loss are never negative |
| IndicatorMath.RsiOfInRange | lib/services/indicatorEngine.ts:100-101 | `100 - 100 / (1 + rs)`, with `rs` infinite when the average loss is 0, lies in [0, 100] |
| IndicatorMath.RsiInRange | lib/services/indicatorEngine.ts:85-112 | every RSI value lies in [0, 100] |
| IndicatorMath.RsiOfConstant | lib/services/indicatorEngine.ts:85-112 | a constant series has RSI 100 from bar `period` on, because the average loss is 0 |
| IndicatorMath.MacdRawOfConstant | lib/services/indicatorEngine.ts:25-32 | on a constant series the fast and slow EMAs agree, so the raw MACD is 0 |
| IndicatorMath.SignalRunOfConstant | lib/services/indicatorEngine.ts:36-41 | on a constant series the signal EMA is 0 |
| IndicatorMath.MacdOfConstant | lib/services/indicatorEngine.ts:8-52 | on a constant series the MACD line, the signal and the histogram are 0 wherever they are defined |
| IndicatorEngine.Sma | lib/services/indicatorEngine.ts:54-63 | the running-sum loop yields, at every bar, the mean of the last `period` values from bar `period-1` on, and null before |
| IndicatorEngine.Ema | lib/services/indicatorEngine.ts:65-83 | the loop yields the EMA seeded with the first value, null before bar `period-1` and always null at bar 0 |
| IndicatorEngine.Rsi | lib/services/indicatorEngine.ts:85-112 | the loop yields Wilder's RSI from bar `period` on: a plain mean over the first `period` changes, then smoothing |
| IndicatorEngine.Macd | lib/services/indicatorEngine.ts:8-52 | the three output series equal the MACD line from bar `max(fast,slow)-1`, the signal EMA and the histogram from `signal-1` bars later |
| IndicatorEngine.SeriesFrom | lib/services/indicatorEngine.ts:3-5 | one value per candle: the named field of that candle |
| IndicatorEngine.Times | lib/services/indicatorEngine.ts:132 | one time per candle, in candle order |
| IndicatorEngine.ToIndicatorValues | lib/services/indicatorEngine.ts:114-116 | pairs each time with the value at its index, null past the end of the values |
| IndicatorEngine.Period | lib/services/indicatorEngine.ts:142 | the period, 14 by default, is at least 1 |
| IndicatorEngine.MacdParam | lib/services/indicatorEngine.ts:153-155 | fast, slow and signal, defaulting to 12, 26 and 9, are at least 1 |
| IndicatorEngine.ComputeSeries | lib/services/indicatorEngine.ts:140-160 | the branch on the type computes the specification's series, including the MACD component choice |
| IndicatorEngine.BuildIndicators | lib/services/indicatorEngine.ts:128-173 | the loop over the specs equals the specification: the first spec per key is computed, and an unsupported type fails |
| IndicatorEngine.ChosenFromSpecs | lib/services/indicatorEngine.ts:136-138 | every chosen spec comes from the list, is supported and is stored under its own key |
| IndicatorEngine.ChosenErrorSticks | lib/services/indicatorEngine.ts:161-162 | once a spec has thrown, the rest of the list does not matter |
| IndicatorEngine.ChosenSucceedsIff | lib/services/indicatorEngine.ts:136-163 | choosing succeeds if and only if no spec has an unsupported type |
| IndicatorEngine.BuildSpecSucceedsIff | lib/services/indicatorEngine.ts:128-173 | `buildIndicators` returns if and only if no spec has an unsupported type |
| IndicatorEngine.BuildSpecReportsFirst | lib/services/indicatorEngine.ts:161-162 | the error names the first unsupported type in the list |
| IndicatorEngine.BuildSpecKeys | lib/services/indicatorEngine.ts:137-165 | the map's keys are exactly the keys of the specs, and there are no more of them than specs |
| IndicatorEngine.BuildSpecFirstWins | lib/services/indicatorEngine.ts:138 | the first spec with a given key decides that key's series (`if (out[key]) continue`) |
| IndicatorEngine.BuildSpecAligned | lib/services/indicatorEngine.ts:165-170 | every result carries its own key and type and one value per candle, at that candle's time |
| StrategyEngine.GetVal | lib/services/strategyEngine.ts:4-9 | a value is returned only when a series exists under the canonical key and has that index, and it is the value stored there |
| StrategyEngine.CrossedUpIff | lib/services/strategyEngine.ts:11-19 | a cross up (down) holds if and only if all four values exist, the left was at or below (above) and is now strictly above (below) |
| StrategyEngine.CrossUpIsComparisonPair | lib/services/strategyEngine.ts:26-39 | a cross up at a bar holds if and only if the same operands compare `<=` at the previous bar and `>` at this bar |
| StrategyEngine.CrossDownIsComparisonPair | lib/services/strategyEngine.ts:26-41 | a cross down at a bar holds if and only if the same operands compare `>=` at the previous bar and `<` at this bar |
| StrategyEngine.CrossesExclusive | lib/services/strategyEngine.ts:11-19 | no bar is both a cross up and a cross down |
| StrategyEngine.CrossConditionsExclusive | lib/services/strategyEngine.ts:33-37 | a condition cannot hold both as `cross_up` and as `cross_down` on the same bar |
| StrategyEngine.NoCrossAtFirstBar | lib/services/strategyEngine.ts:27-31 | no cross can hold at bar 0, because the previous values are null |
| StrategyEngine.CrossNeedsCompareWith | lib/services/strategyEngine.ts:51-64 | a cross with no `compareWith` operand never holds |
| StrategyEngine.UnknownOperatorFalse | lib/services/strategyEngine.ts:46-63 | an unknown operator never holds |
| StrategyEngine.ValueIgnoredWithCompareWith | lib/services/strategyEngine.ts:29-49 | with a `compareWith` operand the fixed `value` is ignored |
| StrategyEngine.NullLeftFalse | lib/services/strategyEngine.ts:26-61 | a null left value makes the condition false |
| StrategyEngine.NullRightFalse | lib/services/strategyEngine.ts:30-45 | a null right value makes the condition false |
| StrategyEngine.NullValueFalse | lib/services/strategyEngine.ts:52-61 | a fixed comparison with no value is false |
| StrategyEngine.HoldsReadsPresentSeries | lib/services/strategyEngine.ts:4-65 | a condition that holds reads a series that exists, at an index it has |
| StrategyEngine.FixedValueComparison | lib/services/strategyEngine.ts:51-61 | a fixed comparison holds if and only if the left value and the value exist and the relation holds |
| StrategyEngine.ParamOrderIrrelevant | lib/services/strategyEngine.ts:5 | reordering a condition's parameters does not change its result, because lookups use the canonical key |
| StrategyEngine.LeftByKey | lib/services/strategyEngine.ts:25-27 | replacing the left operand by any operand with the same canonical key leaves the condition's result unchanged |
| StrategyEngine.UndefinedRulesFalse | lib/services/strategyEngine.ts:68 | undefined rules are false |
| StrategyEngine.EmptyRulesTrue | lib/services/strategyEngine.ts:69-72 | rules with absent or empty `all` and `any` lists are true |
| StrategyEngine.EvalRulesMeaning | lib/services/strategyEngine.ts:67-73 | rules hold if and only if every `all` condition holds and, when `any` is non-empty, some `any` condition holds |
| StrategyEngine.SingleConditionRules | lib/services/strategyEngine.ts:67-73 | a single condition in `all` or in `any` holds exactly when that condition does |
| BacktestEngine.AddOperands | lib/services/backtestEngine.ts:7-13 | pushes each condition's left operand and then its `compareWith` operand, in order |
| BacktestEngine.GatherOperands | lib/services/backtestEngine.ts:14-17 | gathers the operands of entry.all, entry.any, exit.all and exit.any, in that order |
| BacktestEngine.DedupeSpecs | lib/services/backtestEngine.ts:19-26 | the `seen`-set loop keeps the first spec of each `type_JSON` key |
| BacktestEngine.CollectIndicatorSpecs | lib/services/backtestEngine.ts:5-28 | the result is the de-duplicated list of all operands |
| BacktestEngine.OperandsMembers | lib/services/backtestEngine.ts:10-13 | a spec is collected if and only if it is some condition's left or `compareWith` operand |
| BacktestEngine.DedupeKeepsEveryKey | lib/services/backtestEngine.ts:18-26 | de-duplication never merges specs with different indicator keys: every key of the input is the key of some kept spec |
| BacktestEngine.SpecKeyOrderSensitive | lib/services/backtestEngine.ts:22 | the same parameters written in another order give different de-duplication keys but the same canonical key |
| BacktestEngine.DedupeMembers | lib/services/backtestEngine.ts:19-26 | de-duplication keeps exactly the specs it was given (as a set) |
| BacktestEngine.DedupeDistinct | lib/services/backtestEngine.ts:23-24 | no two kept specs share a key |
| BacktestEngine.DedupeKeepsFirstOrder | lib/services/backtestEngine.ts:21-26 | the kept specs are in the order of their first occurrence |
| BacktestEngine.CollectCovers | lib/services/backtestEngine.ts:5-28 | a spec is in the result if and only if some condition of the strategy uses it as an operand |
| BacktestEngine.WarmupBars | lib/services/backtestEngine.ts:30-37 | the loop computes `max(20, max period + 2)` |
| BacktestEngine.MaxPeriodBounds | lib/services/backtestEngine.ts:31-35 | the running maximum bounds every period, is non-negative, and is 0 or some spec's period |
| BacktestEngine.WarmupIsLeastBound | lib/services/backtestEngine.ts:36 | the warm-up is at least 20 and at least every period + 2, and equals one of them |
| BacktestEngine.Drawdown | lib/services/backtestEngine.ts:58 | `Math.max(0, peak - capital)`: non-negative, at least `peak - capital`, and equal to one of the two |
| BacktestEngine.Run | lib/services/backtestEngine.ts:54-137 | an open trade's entry price is never 0 |
| BacktestEngine.DecideExit | lib/services/backtestEngine.ts:93-113 | the exit decision is stop-loss first, then take-profit, then the exit rules at the close |
| BacktestEngine.OpenPosition | lib/services/backtestEngine.ts:66-82 | the new trade invests the whole capital at the close (`size * close == capital`) and is open |
| BacktestEngine.ClosePosition | lib/services/backtestEngine.ts:116-131 | the closed trade records the exit, its status is closed, and its pnl is `(exitPrice - entryPrice) * size` |
| BacktestEngine.Simulate | lib/services/backtestEngine.ts:46-137 | the loop ends in the state of the bar-by-bar specification after all candles |
| BacktestEngine.RunEquity | lib/services/backtestEngine.ts:58 | there is one equity point per bar, with the bar's time, the capital before the bar and the drawdown from the peak |
| BacktestEngine.RunPeak | lib/services/backtestEngine.ts:47-135 | the peak starts at the initial capital, never falls, and bounds every earlier capital |
| BacktestEngine.PeakMonotone | lib/services/backtestEngine.ts:59-135 | the peak after any bar is at least the peak after every earlier bar and the capital at the start of every earlier bar |
| BacktestEngine.RunStepPeak | lib/services/backtestEngine.ts:58-135 | one bar never lowers the peak and leaves it at least the capital the bar started with |
| BacktestEngine.RunBeforeWarmup | lib/services/backtestEngine.ts:61 | nothing trades during the warm-up |
| BacktestEngine.ZeroCommissionAccounting | lib/services/backtestEngine.ts:84-121 | with zero commission the capital is the initial capital plus the sum of the closed trades' pnl |
| BacktestEngine.RunTrades | lib/services/backtestEngine.ts:61-136 | trade j has id j+1; it was opened on an entry signal after the warm-up, with the whole capital at that bar's close and the stops of that close; no stop or exit signal fired while it was held; it closed on its exit bar with the recorded reason, price and pnl. An open trade is the next id, opened the same way and held since. |
| BacktestEngine.RunTradesStep | lib/services/backtestEngine.ts:54-136 | one bar keeps that trade history true, one bar later |
| BacktestEngine.QuietStep | lib/services/backtestEngine.ts:61-113 | a bar on which the open trade, if any, passes the stop-loss, take-profit and exit checks and nothing is entered keeps every trade recorded and the open trade held one bar longer |
| BacktestEngine.EnterStep | lib/services/backtestEngine.ts:63-86 | a bar that enters records nothing new and holds the new trade, opened at this bar, with the next id |
| BacktestEngine.CloseStep | lib/services/backtestEngine.ts:89-136 | a bar on which an exit check fires appends the closed trade, recorded between its entry bar and this bar, and leaves no open trade |
| BacktestEngine.RunAllClosed | lib/services/backtestEngine.ts:132 | every recorded trade is closed, and ids are 1, 2, … in order |
| BacktestEngine.EnterInvestsAll | lib/services/backtestEngine.ts:63-85 | entering invests the whole capital, takes the next id and charges one commission |
| BacktestEngine.StopsBracketEntry | lib/services/backtestEngine.ts:68-71 | with non-negative risk percentages the stop-loss is at or below the entry price and the take-profit at or above it |
| BacktestEngine.StopLossFirst | lib/services/backtestEngine.ts:97-113 | the stop-loss fires if and only if the low reaches it, and there is no exit exactly when neither stop is reached and there is no exit signal |
| BacktestEngine.CloseCapital | lib/services/backtestEngine.ts:115-135 | closing adds the pnl, charges one commission, appends the trade and raises the peak to the capital when needed |
| BacktestEngine.RoundTripAtEntryPrice | lib/services/backtestEngine.ts:84-121 | an exit at the entry price has pnl 0 and leaves the capital reduced by two commissions |
| BacktestEngine.DedupeWellFormed | lib/services/backtestEngine.ts:18-26 | de-duplication keeps the parameters well-formed |
| BacktestEngine.Backtest | lib/services/backtestEngine.ts:39-183 | the whole of `backtest` equals its specification: indicators, warm-up, loop, final equity point and metrics |
| BacktestEngine.BacktestFailsOnlyOnUnsupported | lib/services/backtestEngine.ts:42-43 | a backtest throws if and only if some operand of the strategy has an unsupported type |
| BacktestEngine.BacktestShape | lib/services/backtestEngine.ts:139-182 | the result returns the input candles; the equity curve has one point per candle plus the final one (none without candles); every trade is closed with ids 1..n; `totalTrades` is their number; `finalCapital` is the last equity |
| BacktestMetrics.Wins | lib/services/backtestEngine.ts:146 | the winners are a sub-list of the trades |
| BacktestMetrics.Losses | lib/services/backtestEngine.ts:147 | the losers are a sub-list of the trades |
| BacktestMetrics.WinsLossesPartition | lib/services/backtestEngine.ts:146-148 | winners and losers split the trades: their counts and their pnl sums add up to the totals |
| BacktestMetrics.BucketMembers | lib/services/backtestEngine.ts:146-147 | winners and losers are trades of the list |
| BacktestMetrics.BucketSigns | lib/services/backtestEngine.ts:146-147 | every winner has positive pnl and every loser has pnl at most 0, with a missing pnl counting as 0 |
| BacktestMetrics.SumPnlSigns | lib/services/backtestEngine.ts:157-158 | the winners' total is positive when there are winners, and the losers' total is at most 0 |
| BacktestMetrics.MaxPnlIsMaximum | lib/services/backtestEngine.ts:159 | `Math.max(...)` is the largest pnl and is attained |
| BacktestMetrics.MinPnlIsMinimum | lib/services/backtestEngine.ts:160 | `Math.min(...)` is the smallest pnl and is attained |
| BacktestMetrics.SumPnlBounds | lib/services/backtestEngine.ts:148 | a pnl sum lies between the count times the smallest and the count times the largest |
| BacktestMetrics.MaxEquityBounds | lib/services/backtestEngine.ts:152 | the equity maximum, seeded with the initial capital, bounds every point and is attained |
| BacktestMetrics.MinEquityBounds | lib/services/backtestEngine.ts:153 | the equity minimum, seeded with the initial capital, bounds every point and is attained |
| BacktestMetrics.MetricsCounts | lib/services/backtestEngine.ts:164-167 | winning + losing = total trades, and the win rate lies in [0, 100], 0 with no trades |
| BacktestMetrics.WinRate | lib/services/backtestEngine.ts:167 | the win rate is 0 with no trades and lies in [0, 100] when the winners are among the trades |
| BacktestMetrics.MetricsDrawdown | lib/services/backtestEngine.ts:152-171 | the drawdown is max equity minus min equity and non-negative; its percentage is 0 when max equity is 0, and lies in [0, 100] for non-negative equity |
| BacktestMetrics.PositiveAverage | lib/services/backtestEngine.ts:157-159 | the mean of positive pnls is positive and at most the largest |
| BacktestMetrics.WinsAverage | lib/services/backtestEngine.ts:157-159 | the average win is positive and at most the largest win |
| BacktestMetrics.MetricsWins | lib/services/backtestEngine.ts:157-174 | with no winners the average and largest win are 0; otherwise 0 < average win <= largest win |
| BacktestMetrics.MetricsLosses | lib/services/backtestEngine.ts:158-175 | largest loss <= average loss <= 0, and both are 0 with no losers |
| BacktestMetrics.LossBucketBounds | lib/services/backtestEngine.ts:158-160 | for non-positive pnls the smallest lies at or below the mean, and the mean is at most 0 |
| BacktestMetrics.MetricsReturn | lib/services/backtestEngine.ts:149-176 | `finalCapital` is the final capital, and it equals the initial capital times `1 + totalPnLPercent/100` |
| StrategySchema.Parse | lib/services/strategySchema.ts:28-43 | parsing succeeds if and only if the document is valid, and it keeps the risk block |
| StrategySchema.RenderParseOperand | lib/services/strategySchema.ts:6-9 | a valid operand's integer period round-trips |
| StrategySchema.RenderParseCondition | lib/services/strategySchema.ts:11-26 | a valid condition round-trips through parsing |
| StrategySchema.RenderParseList | lib/services/strategySchema.ts:32-33 | a valid optional condition list round-trips through parsing |
| StrategySchema.RenderParse | lib/services/strategySchema.ts:28-43 | parsing loses nothing but the absence of symbol and timeframe, which become the defaults |
| StrategySchema.ParseRenderList | lib/services/strategySchema.ts:32-33 | a parsed condition list parses back to itself |
| StrategySchema.ParseRender | lib/services/strategySchema.ts:28-43 | a parsed strategy, written back as a document, parses to itself |
| StrategySchema.ParsedIsValid | lib/services/strategySchema.ts:28-45 | whatever a successful parse produces is accepted by the schema |
| StrategySchema.ParseDefaults | lib/services/strategySchema.ts:29-30 | an absent symbol becomes `BTCUSDT` and an absent timeframe `1h`; given ones are kept |
| StrategySchema.PeriodBounds | lib/services/strategySchema.ts:8 | periods 1 and 500 are accepted; 0, 501 and 14.5 are rejected |
| StrategySchema.ParsedPeriod | lib/services/strategySchema.ts:8 | a parsed period is an integer from 1 to 500, equal to the document's number |
| StrategySchema.CrossNeedsRightAndFalsyValue | lib/services/strategySchema.ts:21-24 | a cross is accepted with a right operand and no value or a 0 value, and rejected with a non-zero value or no right operand |
| StrategySchema.ComparisonNeedsOperand | lib/services/strategySchema.ts:17-20 | `>` and `<` are accepted if and only if a value or a right operand is given |
| StrategySchema.UnknownOperatorRejected | lib/services/strategySchema.ts:4-13 | operators outside the four, such as `>=`, are rejected |
| StrategyMapper.MapList | lib/services/strategyMapper.ts:34-41 | an absent list stays absent, and a present one is mapped element by element, keeping its length and order |
| StrategyMapper.MapStrategy | lib/services/strategyMapper.ts:43-52 | the name is `LLM Strategy` and the stop-loss and take-profit percentages are copied |
| StrategyMapper.OpNamedTable | lib/services/strategyMapper.ts:9-19 | `>`, `<`, `cross_above` and `cross_below` map to `>`, `<`, `cross_up` and `cross_down`, nothing else maps to them, and nothing maps to `>=` or `<=` |
| StrategyMapper.KindNamedInjective | lib/services/strategyMapper.ts:17-24 | different indicator names give different types |
| StrategyMapper.OpNamedInjective | lib/services/strategyMapper.ts:19 | different operator names give different operators |
| StrategyMapper.MapConditionInjective | lib/services/strategyMapper.ts:6-32 | different conditions map to different conditions |
| StrategyMapper.MapListInjective | lib/services/strategyMapper.ts:34-41 | different condition lists map to different lists |
| StrategyMapper.MapStrategyForgetsOnlyMarket | lib/services/strategyMapper.ts:43-52 | two strategies map alike if and only if they agree on entry, exit and risk; only symbol and timeframe are dropped |
| StrategyMapper.MapConditionShape | lib/services/strategyMapper.ts:16-31 | both operands get `period` and `source: 'close'`; `compareWith` is present exactly when `right` is; `value` is copied |
| StrategyMapper.MappedOperandsComputable | lib/services/strategyMapper.ts:16-27 | a valid condition maps to supported, well-formed operands, an operator the engine knows, and a `compareWith` operand for crosses |
| StrategyMapper.ValidStrategyComputable | lib/services/strategyMapper.ts:5-55 | every operand of a valid strategy's mapping is supported and well-formed |
| StrategyMapper.SourceCondition | lib/services/strategyMapper.ts:34-41 | every mapped condition comes from a valid condition of the document |
| StrategyMapper.ValidStrategyBacktests | lib/services/strategyMapper.ts:5-55 | a backtest of the mapping of any document the schema accepts cannot fail, given non-zero closes and initial capital |
| StrategyMapper.MappedRiskBracketsEntry | lib/services/strategyMapper.ts:47-50 | the mapped risk percentages place the stop-loss at or below every entry price and the take-profit at or above it |
| CandleService.MapAll | lib/services/candleService.ts:63-64 | one candle per kline, each its `mapKline` |
| CandleService.MapKlineUsesCloseTime | lib/services/candleService.ts:7-19 | a candle is stamped with the kline's close time, and the open time is ignored |
| CandleService.CutIndex | lib/services/candleService.ts:63-67 | the inner loop stops at the first kline closing after `endTime`, and all klines before it close by then |
| CandleService.AppendPage | lib/services/candleService.ts:63-67 | the inner loop appends exactly the page's candles up to the first one past `endTime` |
| CandleService.PageCandlesMeaning | lib/services/candleService.ts:63-67 | a page contributes a prefix of its klines, all closing by `endTime`, cut only at one that closes later |
| CandleService.Requests | lib/services/candleService.ts:43-49 | the first request starts at `startTime` |
| CandleService.RequestsAdvance | lib/services/candleService.ts:61-74 | each further request starts 1 ms after the last close of the previous page, which was full and closed before `endTime`; paging stops at an empty or short page, or at one that reaches `endTime` |
| CandleService.CollectAfter | lib/services/candleService.ts:45-76 | once the loop has gone past `p` full pages that end before `endTime`, the candles of those pages followed by what the later pages give are all the candles it gathers |
| CandleService.RequestsAfter | lib/services/candleService.ts:43-74 | likewise for the requests: `startTime`, then 1 ms after the last close of each page passed, then the later requests |
| CandleService.LoopExit | lib/services/candleService.ts:61-72 | the loop stops with every candle gathered and every request sent at a missing or empty page, or at a page that reaches `endTime` or comes back short |
| CandleService.FetchPages | lib/services/candleService.ts:42-76 | the paging loop gathers, in fetch order, the candles of every page up to the one that stops it, and sends exactly the specified requests |
| CandleService.GetCandles | lib/services/candleService.ts:34-87 | the paging loop and the sort-and-dedupe tail return the normalised candles of all pages and issue exactly the specified requests |
| CandleService.CollectBounded | lib/services/candleService.ts:63-67 | every collected candle closes by `endTime` and comes from some fetched kline |
| CandleService.FirstWithTime | lib/services/candleService.ts:78-86 | the first candle with a time is a member with that time, and none is found only when no candle has it |
| CandleService.InsertByTimeKeeps | lib/services/candleService.ts:79 | inserting adds exactly the one candle |
| CandleService.InsertByTimeSorted | lib/services/candleService.ts:79 | inserting into a time-sorted list keeps it sorted |
| CandleService.InsertByTimeFirst | lib/services/candleService.ts:79 | the insertion is stable: the first candle for every time is unchanged, except for the inserted candle's own time when no earlier candle has it |
| CandleService.SortByTimeFacts | lib/services/candleService.ts:79 | the sort is time-ordered, a permutation, and stable: for every time the first candle with it is unchanged |
| CandleService.DedupeSorted | lib/services/candleService.ts:80-85 | the `prev` loop keeps a candle exactly when its time differs from the one before it |
| CandleService.DedupeMembers | lib/services/candleService.ts:80-85 | the dedupe keeps only candles it was given |
| CandleService.DedupeStrict | lib/services/candleService.ts:78-86 | on sorted input the kept times strictly increase |
| CandleService.DedupeKeepsFirst | lib/services/candleService.ts:82-84 | on sorted input every kept candle is the first one with its time |
| CandleService.DedupeCovers | lib/services/candleService.ts:80-85 | every time present in the input is kept |
| CandleService.NormaliseFacts | lib/services/candleService.ts:63-86 | `getCandles` returns strictly increasing times, each candle closing by `endTime`, and for every fetched time exactly the first candle fetched with it |
| CandlestickChart.ToSeconds | components/CandlestickChart.tsx:102 | `Math.floor(ms / 1000)`: the second whose thousand milliseconds contain `ms` |
| CandlestickChart.ToSecondsMonotone | components/CandlestickChart.tsx:102 | later milliseconds never give an earlier second |
| CandlestickChart.ToSecondsNotInjective | components/CandlestickChart.tsx:102 | distinct millisecond times (1000 and 1999) can share a second, so the order becomes non-strict |
| CandlestickChart.ChartTimes | components/CandlestickChart.tsx:101-110 | one chart time per candle, its time in seconds |
| CandlestickChart.ChartTimesAscending | components/CandlestickChart.tsx:101-110 | time-ordered candles give non-decreasing chart times |
| CandlestickChart.FirstAtOrAfter | components/CandlestickChart.tsx:113-116 | the first index at or after `ts`: its time is at least `ts` and every earlier one is less; none only when every time is less |
| CandlestickChart.NearestIndex | components/CandlestickChart.tsx:111-119 | for non-empty times an index in range whose time is at least `ts`, or the last index; on ordered times exactly the first index at or after `ts`, else the last; -1 for no times |
| CandlestickChart.WindowEndIndex | components/CandlestickChart.tsx:162 | `min(n-1, entryIdx+20)`: at most both, and equal to one of them |
| CandlestickChart.WindowEndInRange | components/CandlestickChart.tsx:161-163 | for a valid entry index the window ends at a valid index at or after it |
| CandlestickChart.TradeSpan | components/CandlestickChart.tsx:149-164 | a trade is drawn from its entry second; it ends at its exit second, or for an open trade at a candle time 20 candles past the nearest one, clamped to the last candle |
| CandlestickChart.OpenSpanOrder | components/CandlestickChart.tsx:161-163 | on ordered times an open trade's window ends at or after its entry second if and only if the entry is not after the last candle |
| CandlestickChart.JsRem | components/CandlestickChart.tsx:249 | JavaScript's `%`: the remainder lies in [0, b) for a non-negative dividend and in (-b, 0] for a negative one |
| CandlestickChart.TradeDuration | components/CandlestickChart.tsx:245-251 | a duration is shown exactly when the entry time and the exit time are both truthy, and it is the split of their difference |
| CandlestickChart.SplitDurationNonNegative | components/CandlestickChart.tsx:247-249 | for a non-negative duration the hours are non-negative, the minutes lie in 0..59, and hours*60 + minutes is the duration in whole minutes |
| CandlestickChart.SplitDurationNegative | components/CandlestickChart.tsx:247-249 | a negative duration gives negative hours and minutes in -60..0 |
| CandlestickChart.TradeLookup.Rebuild | components/CandlestickChart.tsx:31-37 | clearing and refilling the map leaves it equal to writing every trade, in order, into an empty map |
| CandlestickChart.TradeMapLastWriter | components/CandlestickChart.tsx:31-37 | a second is a key if and only if some trade's entry or exit falls in it, and it maps to the last trade in the list that writes it |
| CandlestickChart.LaterTradeOverwrites | components/CandlestickChart.tsx:32-36 | a later trade written at an earlier trade's second replaces it |

## Left out

- Floating point: prices, capital, percentages and indicator values are exact reals, so IEEE rounding, `NaN` and `Infinity` are not modelled. The source relies on a non-finite value in two places. The first is the RSI with no losses (lib/services/indicatorEngine.ts:100,108). There the model takes the limit the source computes, which is 100. The second is the drawdown percentage, which divides by the maximum equity (lib/services/backtestEngine.ts:155). When that maximum is 0, the quotient is `Infinity` or `NaN`, and `isFinite(...) ? ... : 0` turns it into 0 (lib/services/backtestEngine.ts:171). The model gives 0 in exactly that case, and gives the quotient otherwise.
- BacktestEngine.Backtest: requires a non-zero initial capital, because the source divides by it (lib/services/backtestEngine.ts:150).
- BacktestEngine.Backtest: requires every close to be non-zero, which is stronger than the source needs. The source divides only by the close of a bar where a trade is entered (lib/services/backtestEngine.ts:67) and by that entry price at exit (:117), where a zero gives `Infinity`/`NaN`. A zero close on any other bar is harmless there, but the model excludes it as well.
- BacktestEngine.Backtest: requires the parameters each operand's kind reads to be usable. SMA, EMA and RSI need a positive integer `period`. MACD needs positive integer `fast`, `slow` and `signal`. SMA and EMA need a `source` that names a candle field. A missing or non-numeric value gives `NaN` in the source, and a fractional window cannot index an array. A window of 0 or below is excluded too. For some of those the source computes finite but meaningless values: an `ema` or `macd` length of 0 gives the smoothing factor 2, outside (0, 1] (lib/services/indicatorEngine.ts:13-15,67), and an `rsi` period below 0 divides by a negative number (:106-109). For others it computes `NaN`/`Infinity`: an `sma` period of 0 divides by 0 (:60), and so does an `rsi` period of 0 (:106-107). The model represents none of these.
- BacktestEngine.Backtest: also requires MACD's `period` to be a number, if it is present. The warm-up reads `period` for every kind, and the model does not parse a string into a number. Parameters that a kind never reads are not constrained, such as `source` of RSI and MACD or `fast` of SMA. An unsupported kind's parameters are not constrained either.
- BacktestEngine.Run, BacktestEngine.Simulate: require every close to be non-zero. As for `Backtest`, this is stronger than the source needs, which is only non-zero closes on the bars where a trade is entered.
- `Number(...)` and `String(...)` coercions of loosely typed parameters are not modelled. Parameter values are typed numbers or strings.
- `localeCompare` is modelled as character-code lexicographic order. Locale collation is not modelled.
- Keys and ids are structured values, not strings. The canonical key is the kind with its name-sorted parameters, and the de-duplication key is the kind with its parameters in written order, standing for `JSON.stringify`. A trade id is the number n of `T<n>`.
- IndicatorKeys.KeyFromIdentifies: holds only of the model's structured key. The source's key is the string `type_name:value_…` (lib/services/indicatorEngine.ts:118-124), and that string is not injective. Two parameter objects get the same string when a name or a text value contains `_` or `:`, or when one object has a number and the other its decimal string under the same name. In the source the later of two such specs is then skipped and reads the earlier one's series. Such collisions are not modelled.
- IndicatorEngine.BuildSpecFirstWins: "the first spec with a key" means the structured key. Specs whose string keys collide, as described above, are kept apart in the model.
- BacktestEngine.BacktestFailsOnlyOnUnsupported: the source's `out` is a plain object, and the model's map has no inherited entries. So a key that names an inherited property is not modelled. For example, a type `__proto_` with no parameters gets the key `__proto__`, finds a truthy `out[key]` and is skipped instead of throwing. String-key collisions are not modelled here either.
- IndicatorEngine.BuildSpecSucceedsIff: the if-and-only-if holds on the model's structured keys only. In the source an unsupported spec can be skipped instead of throwing, so the build returns although a spec is unsupported. That happens when its string key equals an earlier spec's key, or when its key names an inherited property, such as a type `__proto_` with no parameters.
- IndicatorEngine.ChosenSucceedsIff: the same two cases are not modelled, for the same reason.
- `Kind.Unsupported` and `Op.OtherOp` carry the name of an unknown type or operator. The model takes that name to be none of the known ones. Values such as `Unsupported("SMA")` stand for nothing in the source and are not excluded by any requires.
- `indicators: Object.values(map)` is returned as the map itself, because the enumeration order of object keys is not modelled.
- Trade `direction` is always `'long'` and is not a field. The mapper's `direction: 'long'` and the chart's short-side formulas are therefore not modelled.
- Config fields that `backtest` never reads are not modelled. These are `symbol`, `interval`, `startTime` and `endTime` of the backtest configuration, and the strategy's optional `trailingStop`.
- Network, sleep and UI: the exchange requests (`axios.get`), the API key header, the throttle `sleep`, chart creation, series, markers, tooltip state and resize handling are left out. The exchange's responses are an input: `pages[n]` is the n-th response, and a request past the last page receives an empty page. The requests issued are returned so that their parameters can be stated.
- CandleService.FetchPages: terminates because the responses are a finite sequence and every request past the last one receives an empty page. The source's `while (true)` loop never ends if the exchange keeps returning full pages that all close before `endTime`. That behaviour is not modelled.
- Array sort: `out.sort` is modelled as a stable insertion sort by time. Stability is what JavaScript's sort guarantees.
- CandlestickChart.NearestIndex: `(lo + hi) >> 1` is modelled as `(lo + hi) / 2`. The two agree for arrays shorter than 2^30, and the 32-bit truncation of `>>` is not modelled.
- Schema: zod's stripping of unknown keys and its type errors, such as a string where a number belongs, are not modelled. A document is a typed value, and validity covers the rules on values.
- The MACD type, which the strategy type omits, is still computed by the engine and is modelled there.
- The relative time order of different trades is not stated as its own lemma. It follows from `RunTrades`, which places every trade between its entry bar and its exit bar.
- The chart's tooltip text formatting (`toFixed`, `toLocaleString`, risk/reward) is left out, because it only renders strings.
