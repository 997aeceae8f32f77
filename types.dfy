/**
 * The records shared by the backtester's services (lib/types/index.ts). Loosely typed
 * parameter bags become association lists of typed values, kept in
 * insertion order because one of the two keys built from them is
 * order-sensitive.
 */
module Types {
  import opened Wrappers

  /** One OHLCV bar; `time` is the bar's close time in milliseconds. */
  datatype Candle = Candle(time: int, open: real, high: real, low: real, close: real, volume: real)

  /** A candle field that an indicator may read (`source` parameter). */
  datatype Field = Time | Open | High | Low | Close | Volume

  /**
   * Indicator kinds: the three the type declares, MACD which the engine
   * also computes, and any other name a caller may pass.
   */
  datatype Kind = SMA | EMA | RSI | MACD | Unsupported(name: string)

  datatype ParamValue = PNum(n: int) | PText(s: string)

  /** One entry of a parameter object. */
  datatype Param = Param(name: string, value: ParamValue)

  /** A parameter object, entries in insertion order. */
  type Params = seq<Param>

  /** `{type, params}`: an indicator specification or a `compareWith` operand. */
  datatype IndicatorRef = IndicatorRef(kind: Kind, params: Params)

  /** The canonical key of an indicator: its kind and its parameters sorted by name. */
  datatype IndicatorKey = IndicatorKey(kind: Kind, sortedParams: Params)

  datatype Op = CrossUp | CrossDown | Gt | Lt | Ge | Le | OtherOp(name: string)

  /** An absent `params` is the empty list: every reader of it writes `params || {}`. */
  datatype Condition = Condition(left: IndicatorRef, op: Op, value: Option<real>, compareWith: Option<IndicatorRef>)

  datatype RuleSet = RuleSet(all: Option<seq<Condition>>, any: Option<seq<Condition>>)

  /** Percentages relative to the entry price. */
  datatype Risk = Risk(stopLoss: real, takeProfit: real)

  datatype Strategy = Strategy(name: string, entry: RuleSet, exit: RuleSet, risk: Risk)

  datatype TradeStatus = Opened | Closed

  datatype ExitReason = StopLossHit | TakeProfitHit | ExitSignal

  /**
   * A long trade. `id` is the number n of the source's string id `T<n>`.
   * The exit fields are present exactly when the trade is closed.
   */
  datatype Trade = Trade(
    id: nat,
    entryTime: int,
    entryPrice: real,
    size: real,
    status: TradeStatus,
    exitTime: Option<int>,
    exitPrice: Option<real>,
    exitReason: Option<ExitReason>,
    pnl: Option<real>,
    pnlPercent: Option<real>,
    stopLoss: real,
    takeProfit: real)

  datatype EquityPoint = EquityPoint(time: int, equity: real, drawdown: real)

  datatype Metrics = Metrics(
    totalTrades: nat,
    winningTrades: nat,
    losingTrades: nat,
    winRate: real,
    totalPnL: real,
    totalPnLPercent: real,
    maxDrawdown: real,
    maxDrawdownPercent: real,
    averageWin: real,
    averageLoss: real,
    largestWin: real,
    largestLoss: real,
    finalCapital: real)

  /** The parts of a backtest configuration the engine reads. */
  datatype Config = Config(strategy: Strategy, initialCapital: Option<real>, commission: Option<real>)

  datatype IndicatorValue = IndicatorValue(time: int, value: Option<real>)

  datatype IndicatorResult = IndicatorResult(kind: Kind, values: seq<IndicatorValue>, params: Params, key: IndicatorKey)

  type IndicatorMap = map<IndicatorKey, IndicatorResult>
}
