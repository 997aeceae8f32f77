/**
 * The backtest driver of lib/services/backtestEngine.ts: collecting the
 * indicator specs a strategy mentions, the warm-up length, and the long-only
 * simulation over the candles.
 */
module BacktestEngine {
  import opened Wrappers
  import opened Types
  import opened IndicatorKeys
  import opened IndicatorMath
  import opened IndicatorEngine
  import opened StrategyEngine
  import opened BacktestMetrics

  // ---------------------------------------------------------------------
  // collectIndicatorSpecs

  /**
   * The de-duplication key `${type}_${JSON.stringify(params)}`. The string
   * is kept as the pair it is printed from: two specs get the same string
   * exactly when they have the same kind and the same entries in the same
   * order, so, unlike `KeyOf`, it depends on the order of the entries.
   */
  datatype SpecKey = SpecKey(kind: Kind, params: Params)

  function SpecKeyOf(r: IndicatorRef): SpecKey {
    SpecKey(r.kind, r.params)
  }

  /** The operands `visitRule` adds for one condition: the left one, then `compareWith` if present. */
  function VisitRule(c: Condition): seq<IndicatorRef> {
    [c.left] + (if c.compareWith.Some? then [c.compareWith.value] else [])
  }

  /** The operands of a list of conditions, in order. */
  function Operands(cs: seq<Condition>): seq<IndicatorRef> {
    if cs == [] then [] else Operands(cs[..|cs| - 1]) + VisitRule(cs[|cs| - 1])
  }

  /** The four condition lists in the order they are visited; an absent list is empty. */
  function Conditions(s: Strategy): seq<Condition> {
    s.entry.all.GetOr([]) + s.entry.any.GetOr([]) + s.exit.all.GetOr([]) + s.exit.any.GetOr([])
  }

  /** All operands before de-duplication. */
  function RawSpecs(s: Strategy): seq<IndicatorRef> {
    Operands(Conditions(s))
  }

  function SpecKeys(specs: seq<IndicatorRef>): set<SpecKey> {
    set r | r in specs :: SpecKeyOf(r)
  }

  /** Keeps the first spec with each de-duplication key, in order. */
  function Dedupe(specs: seq<IndicatorRef>): seq<IndicatorRef> {
    if specs == [] then []
    else
      var init := specs[..|specs| - 1];
      var last := specs[|specs| - 1];
      if SpecKeyOf(last) in SpecKeys(init) then Dedupe(init) else Dedupe(init) + [last]
  }

  lemma SpecKeysSnoc(init: seq<IndicatorRef>, last: IndicatorRef)
    ensures SpecKeys(init + [last]) == SpecKeys(init) + {SpecKeyOf(last)}
  {
    var specs := init + [last];
    assert forall r :: r in specs <==> r in init || r == last;
  }

  /** Pushes the operands of `cs` (the body of one `forEach(visitRule)`). */
  method AddOperands(specs: seq<IndicatorRef>, cs: Option<seq<Condition>>) returns (r: seq<IndicatorRef>)
    ensures r == specs + Operands(cs.GetOr([]))
  {
    r := specs;
    if cs.None? {
      return;
    }
    var list := cs.value;
    for i := 0 to |list|
      invariant r == specs + Operands(list[..i])
    {
      assert list[..i + 1][..i] == list[..i];
      r := r + [list[i].left];
      if list[i].compareWith.Some? {
        r := r + [list[i].compareWith.value];
      }
    }
    assert list[..|list|] == list;
  }

  /** The four `forEach(visitRule)` passes. */
  method GatherOperands(s: Strategy) returns (specs: seq<IndicatorRef>)
    ensures specs == RawSpecs(s)
  {
    var a, b, c, d := s.entry.all.GetOr([]), s.entry.any.GetOr([]), s.exit.all.GetOr([]), s.exit.any.GetOr([]);
    specs := [];
    specs := AddOperands(specs, s.entry.all);
    specs := AddOperands(specs, s.entry.any);
    specs := AddOperands(specs, s.exit.all);
    specs := AddOperands(specs, s.exit.any);
    OperandsOfFour(a, b, c, d);
  }

  /** The operands of the four lists, one list after another. */
  lemma OperandsOfFour(a: seq<Condition>, b: seq<Condition>, c: seq<Condition>, d: seq<Condition>)
    ensures Operands(a + b + c + d) == [] + Operands(a) + Operands(b) + Operands(c) + Operands(d)
  {
    OperandsAppend(a, b);
    OperandsAppend(a + b, c);
    OperandsAppend(a + b + c, d);
    assert [] + Operands(a) == Operands(a);
  }

  /** The de-duplication loop over the `seen` set. */
  method DedupeSpecs(specs: seq<IndicatorRef>) returns (out: seq<IndicatorRef>)
    ensures out == Dedupe(specs)
  {
    var seen: set<SpecKey> := {};
    out := [];
    for i := 0 to |specs|
      invariant out == Dedupe(specs[..i])
      invariant seen == SpecKeys(specs[..i])
    {
      var sp := specs[i];
      assert specs[..i + 1] == specs[..i] + [sp];
      SpecKeysSnoc(specs[..i], sp);
      var key := SpecKeyOf(sp);
      if key in seen {
        continue;
      }
      seen := seen + {key};
      out := out + [sp];
    }
    assert specs[..|specs|] == specs;
  }

  method CollectIndicatorSpecs(s: Strategy) returns (out: seq<IndicatorRef>)
    ensures out == Dedupe(RawSpecs(s))
  {
    var specs := GatherOperands(s);
    out := DedupeSpecs(specs);
  }

  // ---------------------------------------------------------------------
  // Properties of collectIndicatorSpecs

  lemma {:induction false} OperandsAppend(a: seq<Condition>, b: seq<Condition>)
    ensures Operands(a + b) == Operands(a) + Operands(b)
    decreases |b|
  {
    if b == [] {
      assert a + b == a;
    } else {
      var b0 := b[..|b| - 1];
      assert (a + b)[..|a + b| - 1] == a + b0;
      OperandsAppend(a, b0);
    }
  }

  /** A spec is collected exactly when it is the left operand or the `compareWith` of one of the conditions. */
  lemma {:induction false} OperandsMembers(cs: seq<Condition>, r: IndicatorRef)
    ensures r in Operands(cs) <==> exists c :: c in cs && (r == c.left || c.compareWith == Some(r))
    decreases |cs|
  {
    if cs != [] {
      var init := cs[..|cs| - 1];
      var last := cs[|cs| - 1];
      OperandsMembers(init, r);
      assert cs == init + [last];
      assert forall c :: c in cs <==> c in init || c == last;
    }
  }

  /**
   * De-duplication never merges two specs with different indicator keys:
   * every indicator key of the input is still the key of some kept spec.
   */
  lemma DedupeKeepsEveryKey(specs: seq<IndicatorRef>)
    ensures forall r :: r in specs ==> exists d :: d in Dedupe(specs) && KeyOf(d) == KeyOf(r)
  {
    forall r | r in specs
      ensures exists d :: d in Dedupe(specs) && KeyOf(d) == KeyOf(r)
    {
      DedupeMembers(specs, r);
    }
  }

  /**
   * But not the other way: the same SMA written with its parameters in two
   * orders passes de-duplication twice and still lands on one map entry.
   */
  lemma SpecKeyOrderSensitive()
    ensures
      var a := IndicatorRef(SMA, [Param("period", PNum(20)), Param("source", PText("close"))]);
      var b := IndicatorRef(SMA, [Param("source", PText("close")), Param("period", PNum(20))]);
      SpecKeyOf(a) != SpecKeyOf(b) && KeyOf(a) == KeyOf(b)
  {
    var p := Param("period", PNum(20));
    var q := Param("source", PText("close"));
    assert NameLe("period", "source");
    assert !NameLe("source", "period");
    assert InsertByName(q, []) == [q];
    assert InsertByName(p, [q]) == [p, q];
    assert SortByName([p, q]) == [p, q];
    assert InsertByName(p, []) == [p];
    assert InsertByName(q, [p]) == [p, q];
    assert SortByName([q, p]) == [p, q];
  }

  /** Every collected spec is one of the raw operands, and every raw operand is collected. */
  lemma {:induction false} DedupeMembers(specs: seq<IndicatorRef>, r: IndicatorRef)
    ensures r in Dedupe(specs) <==> r in specs
    decreases |specs|
  {
    if specs != [] {
      var init := specs[..|specs| - 1];
      var last := specs[|specs| - 1];
      assert specs == init + [last];
      DedupeMembers(init, r);
      if SpecKeyOf(last) in SpecKeys(init) {
        var t :| t in init && SpecKeyOf(t) == SpecKeyOf(last);
        assert t == last;
      }
    }
  }

  /** No two collected specs share a de-duplication key. */
  lemma {:induction false} DedupeDistinct(specs: seq<IndicatorRef>)
    ensures forall i, j :: 0 <= i < j < |Dedupe(specs)| ==> SpecKeyOf(Dedupe(specs)[i]) != SpecKeyOf(Dedupe(specs)[j])
    decreases |specs|
  {
    if specs != [] {
      var init := specs[..|specs| - 1];
      var last := specs[|specs| - 1];
      DedupeDistinct(init);
      if SpecKeyOf(last) !in SpecKeys(init) {
        var d := Dedupe(init);
        forall i | 0 <= i < |d|
          ensures SpecKeyOf(d[i]) != SpecKeyOf(last)
        {
          DedupeMembers(init, d[i]);
        }
      }
    }
  }

  /** The position of the first occurrence of `x`. */
  function FirstIndex(s: seq<IndicatorRef>, x: IndicatorRef): (k: nat)
    requires x in s
    ensures k < |s| && s[k] == x && forall j :: 0 <= j < k ==> s[j] != x
  {
    if s[0] == x then 0 else 1 + FirstIndex(s[1..], x)
  }

  lemma FirstIndexSnoc(init: seq<IndicatorRef>, last: IndicatorRef, x: IndicatorRef)
    requires x in init + [last]
    ensures x in init ==> FirstIndex(init + [last], x) == FirstIndex(init, x)
    ensures x !in init ==> FirstIndex(init + [last], x) == |init|
  {
    var k := FirstIndex(init + [last], x);
    if x in init {
      var k0 := FirstIndex(init, x);
      assert (init + [last])[k0] == x;
    }
  }

  /** Collected specs keep the order of their first occurrences. */
  lemma {:induction false} DedupeKeepsFirstOrder(specs: seq<IndicatorRef>)
    ensures forall x :: x in Dedupe(specs) ==> x in specs
    ensures forall i, j :: 0 <= i < j < |Dedupe(specs)| ==>
      FirstIndex(specs, Dedupe(specs)[i]) < FirstIndex(specs, Dedupe(specs)[j])
    decreases |specs|
  {
    forall x | x in Dedupe(specs)
      ensures x in specs
    {
      DedupeMembers(specs, x);
    }
    if specs != [] {
      var init := specs[..|specs| - 1];
      var last := specs[|specs| - 1];
      assert specs == init + [last];
      DedupeKeepsFirstOrder(init);
      var d := Dedupe(init);
      var r := Dedupe(specs);
      var isNew := SpecKeyOf(last) !in SpecKeys(init);
      assert r == if isNew then d + [last] else d;
      if isNew {
        assert last !in init;
        FirstIndexSnoc(init, last, last);
      }
      forall i, j | 0 <= i < j < |r|
        ensures FirstIndex(specs, r[i]) < FirstIndex(specs, r[j])
      {
        assert r[i] == d[i] && d[i] in d;
        FirstIndexSnoc(init, last, d[i]);
        if j < |d| {
          assert r[j] == d[j] && d[j] in d;
          FirstIndexSnoc(init, last, d[j]);
        }
      }
    }
  }

  /** Collection visits the left operand and the `compareWith` of every condition in the four lists. */
  lemma CollectCovers(s: Strategy, r: IndicatorRef)
    ensures r in Dedupe(RawSpecs(s)) <==>
      exists c :: c in Conditions(s) && (r == c.left || c.compareWith == Some(r))
  {
    DedupeMembers(RawSpecs(s), r);
    OperandsMembers(Conditions(s), r);
  }

  // ---------------------------------------------------------------------
  // warmupBars

  /** `Number(s.params?.period ?? 14)`. */
  function PeriodOf(s: IndicatorRef): int {
    NumParam(s.params, "period", 14)
  }

  /** The running maximum `w` of the loop, starting from 0. */
  function MaxPeriod(specs: seq<IndicatorRef>): int {
    if specs == [] then 0
    else
      var w := MaxPeriod(specs[..|specs| - 1]);
      var p := PeriodOf(specs[|specs| - 1]);
      if p > w then p else w
  }

  /** `Math.max(20, w + 2)`. */
  function Warmup(specs: seq<IndicatorRef>): int {
    var w := MaxPeriod(specs);
    if 20 >= w + 2 then 20 else w + 2
  }

  method WarmupBars(specs: seq<IndicatorRef>) returns (r: int)
    ensures r == Warmup(specs)
  {
    var w := 0;
    for i := 0 to |specs|
      invariant w == MaxPeriod(specs[..i])
    {
      assert specs[..i + 1][..i] == specs[..i];
      var p := PeriodOf(specs[i]);
      if p > w {
        w := p;
      }
    }
    assert specs[..|specs|] == specs;
    r := if 20 >= w + 2 then 20 else w + 2;
  }

  lemma {:induction false} MaxPeriodBounds(specs: seq<IndicatorRef>)
    ensures MaxPeriod(specs) >= 0
    ensures forall s :: s in specs ==> PeriodOf(s) <= MaxPeriod(specs)
    ensures MaxPeriod(specs) == 0 || exists s :: s in specs && MaxPeriod(specs) == PeriodOf(s)
    decreases |specs|
  {
    if specs != [] {
      var init := specs[..|specs| - 1];
      var last := specs[|specs| - 1];
      assert specs == init + [last];
      MaxPeriodBounds(init);
    }
  }

  /**
   * The warm-up is the least number that is at least 20 and at least two
   * bars past every spec's period.
   */
  lemma WarmupIsLeastBound(specs: seq<IndicatorRef>)
    ensures Warmup(specs) >= 20
    ensures forall s :: s in specs ==> Warmup(specs) >= PeriodOf(s) + 2
    ensures Warmup(specs) == 20 || exists s :: s in specs && Warmup(specs) == PeriodOf(s) + 2
  {
    MaxPeriodBounds(specs);
  }

  // ---------------------------------------------------------------------
  // The simulation loop

  /** What the loop reads but never changes. */
  datatype Env = Env(strategy: Strategy, indicators: IndicatorMap, commission: real, warmup: int)

  /** The loop's variables `capital`, `peak`, `openTrade`, `trades` and `equity`. */
  datatype SimState = SimState(capital: real, peak: real, open: Option<Trade>, trades: seq<Trade>, equity: seq<EquityPoint>)

  datatype ExitDecision = ExitDecision(reason: ExitReason, price: real)

  /** Sizing divides by the close, so a zero close is excluded. */
  predicate PricesNonZero(candles: seq<Candle>) {
    forall i :: 0 <= i < |candles| ==> candles[i].close != 0.0
  }

  /** `Math.max(0, peak - capital)`. */
  function Drawdown(peak: real, capital: real): (d: real)
    ensures d >= 0.0 && d >= peak - capital
    ensures d == 0.0 || d == peak - capital
  {
    if 0.0 >= peak - capital then 0.0 else peak - capital
  }

  /** `x -= x * commission`. */
  function AfterFee(x: real, commission: real): real {
    x - x * commission
  }

  /** `(exitPrice - entryPrice) * size`. */
  function Pnl(t: Trade, price: real): real {
    (price - t.entryPrice) * t.size
  }

  /** `(exitPrice - entryPrice) / entryPrice`, a fraction. */
  function PnlFraction(t: Trade, price: real): real
    requires t.entryPrice != 0.0
  {
    (price - t.entryPrice) / t.entryPrice
  }

  /** Start of every bar: push an equity point with the current capital, then raise the peak. */
  function Mark(st: SimState, c: Candle): SimState {
    st.(equity := st.equity + [EquityPoint(c.time, st.capital, Drawdown(st.peak, st.capital))],
        peak := if st.capital > st.peak then st.capital else st.peak)
  }

  /** The trade opened at candle `c` with the whole capital: entry at the close, stops fixed from the risk percentages. */
  function NewTrade(env: Env, id: nat, capital: real, c: Candle): Trade
    requires c.close != 0.0
  {
    var slPct := env.strategy.risk.stopLoss / 100.0;
    var tpPct := env.strategy.risk.takeProfit / 100.0;
    Trade(
      id := id,
      entryTime := c.time,
      entryPrice := c.close,
      size := capital / c.close,
      status := Opened,
      exitTime := None,
      exitPrice := None,
      exitReason := None,
      pnl := None,
      pnlPercent := None,
      stopLoss := c.close * (1.0 - slPct),
      takeProfit := c.close * (1.0 + tpPct))
  }

  /** Entry: the new trade becomes the open one and the entry commission is charged. */
  function Enter(env: Env, st: SimState, c: Candle): SimState
    requires c.close != 0.0
  {
    st.(open := Some(NewTrade(env, |st.trades| + 1, st.capital, c)), capital := AfterFee(st.capital, env.commission))
  }

  /** The exit checks of an open trade, in priority order: stop-loss, take-profit, exit signal. */
  function ExitCheck(t: Trade, c: Candle, signal: bool): Option<ExitDecision> {
    if c.low <= t.stopLoss then Some(ExitDecision(StopLossHit, t.stopLoss))
    else if c.high >= t.takeProfit then Some(ExitDecision(TakeProfitHit, t.takeProfit))
    else if signal then Some(ExitDecision(ExitSignal, c.close))
    else None
  }

  /** The record of a trade closed at candle `c`: exit time and price, reason, P&L and P&L percentage. */
  function ClosedTrade(t: Trade, c: Candle, d: ExitDecision): Trade
    requires t.entryPrice != 0.0
  {
    t.(exitTime := Some(c.time), exitPrice := Some(d.price), status := Closed,
       exitReason := Some(d.reason), pnl := Some(Pnl(t, d.price)), pnlPercent := Some(PnlFraction(t, d.price) * 100.0))
  }

  /** Closing: realise the P&L, charge the exit commission, record the trade, raise the peak. */
  function Close(env: Env, st: SimState, t: Trade, c: Candle, d: ExitDecision): SimState
    requires t.entryPrice != 0.0
  {
    var capital := AfterFee(st.capital + Pnl(t, d.price), env.commission);
    st.(capital := capital, trades := st.trades + [ClosedTrade(t, c, d)], open := None,
        peak := if capital > st.peak then capital else st.peak)
  }

  /** One iteration of the loop, at bar `i` with candle `c`. */
  function Step(env: Env, st: SimState, i: nat, c: Candle): SimState
    requires c.close != 0.0 && (st.open.Some? ==> st.open.value.entryPrice != 0.0)
  {
    var st1 := Mark(st, c);
    if i < env.warmup then st1
    else if st1.open.None? then
      if EvalRules(Some(env.strategy.entry), env.indicators, i) then Enter(env, st1, c) else st1
    else
      match ExitCheck(st1.open.value, c, EvalRules(Some(env.strategy.exit), env.indicators, i))
      case None => st1
      case Some(d) => Close(env, st1, st1.open.value, c, d)
  }

  /** The state after the first `k` bars. */
  function Run(env: Env, candles: seq<Candle>, capital0: real, k: nat): (st: SimState)
    requires k <= |candles| && PricesNonZero(candles)
    ensures st.open.Some? ==> st.open.value.entryPrice != 0.0
  {
    if k == 0 then SimState(capital0, capital0, None, [], [])
    else Step(env, Run(env, candles, capital0, k - 1), k - 1, candles[k - 1])
  }

  /** The trailing equity point after the loop, at the last candle's time. */
  function FinalEquity(candles: seq<Candle>, st: SimState): seq<EquityPoint> {
    if |candles| > 0 then
      st.equity + [EquityPoint(candles[|candles| - 1].time, st.capital, Drawdown(st.peak, st.capital))]
    else st.equity
  }

  /** The exit checks of the loop body, stop-loss first; the exit rules are evaluated only when neither stop is hit. */
  method DecideExit(env: Env, t: Trade, c: Candle, i: nat) returns (exit: bool, exitReason: ExitReason, exitPrice: real)
    ensures ExitCheck(t, c, EvalRules(Some(env.strategy.exit), env.indicators, i)) ==
      if exit then Some(ExitDecision(exitReason, exitPrice)) else None
  {
    exit := false;
    exitReason := ExitSignal;
    exitPrice := c.close;
    if c.low <= t.stopLoss {
      exit := true;
      exitReason := StopLossHit;
      exitPrice := t.stopLoss;
    } else if c.high >= t.takeProfit {
      exit := true;
      exitReason := TakeProfitHit;
      exitPrice := t.takeProfit;
    } else {
      var shouldExit := EvalRules(Some(env.strategy.exit), env.indicators, i);
      if shouldExit {
        exit := true;
        exitReason := ExitSignal;
        exitPrice := c.close;
      }
    }
  }

  /** The trade record built by the entry branch of the loop. */
  method OpenPosition(env: Env, id: nat, capital: real, c: Candle) returns (trade: Trade)
    requires c.close != 0.0
    ensures trade == NewTrade(env, id, capital, c)
    ensures trade.entryPrice == c.close && trade.size * c.close == capital && trade.status == Opened
  {
    var size := capital / c.close;
    var slPct := env.strategy.risk.stopLoss / 100.0;
    var tpPct := env.strategy.risk.takeProfit / 100.0;
    var stopLoss := c.close * (1.0 - slPct);
    var takeProfit := c.close * (1.0 + tpPct);
    trade := Trade(id, c.time, c.close, size, Opened, None, None, None, None, None, stopLoss, takeProfit);
  }

  /** The trade record and realised P&L built by the exit branch of the loop. */
  method ClosePosition(t: Trade, c: Candle, exitReason: ExitReason, exitPrice: real) returns (closed: Trade, pnl: real)
    requires t.entryPrice != 0.0
    ensures closed == ClosedTrade(t, c, ExitDecision(exitReason, exitPrice))
    ensures pnl == Pnl(t, exitPrice) && closed.pnl == Some(pnl) && closed.status == Closed
  {
    pnl := Pnl(t, exitPrice);
    var pnlPct := PnlFraction(t, exitPrice);
    closed := t.(exitTime := Some(c.time), exitPrice := Some(exitPrice), status := Closed,
                 exitReason := Some(exitReason), pnl := Some(pnl), pnlPercent := Some(pnlPct * 100.0));
  }

  method Simulate(env: Env, candles: seq<Candle>, capital0: real) returns (st: SimState)
    requires PricesNonZero(candles)
    ensures st == Run(env, candles, capital0, |candles|)
  {
    var capital := capital0;
    var peak := capital0;
    var trades: seq<Trade> := [];
    var equity: seq<EquityPoint> := [];
    var openTrade: Option<Trade> := None;
    for i := 0 to |candles|
      invariant SimState(capital, peak, openTrade, trades, equity) == Run(env, candles, capital0, i)
    {
      var c := candles[i];
      ghost var marked := Mark(Run(env, candles, capital0, i), c);
      assert Run(env, candles, capital0, i + 1) == Step(env, Run(env, candles, capital0, i), i, c);
      equity := equity + [EquityPoint(c.time, capital, Drawdown(peak, capital))];
      if capital > peak {
        peak := capital;
      }
      assert SimState(capital, peak, openTrade, trades, equity) == marked;
      if i < env.warmup {
        continue;
      }
      if openTrade.None? {
        var enter := EvalRules(Some(env.strategy.entry), env.indicators, i);
        if enter {
          var trade := OpenPosition(env, |trades| + 1, capital, c);
          openTrade := Some(trade);
          capital := AfterFee(capital, env.commission);
        }
        continue;
      }
      var t := openTrade.value;
      var exit, exitReason, exitPrice := DecideExit(env, t, c, i);
      if exit {
        var closed, pnl := ClosePosition(t, c, exitReason, exitPrice);
        capital := capital + pnl;
        capital := AfterFee(capital, env.commission);
        trades := trades + [closed];
        openTrade := None;
        if capital > peak {
          peak := capital;
        }
      }
    }
    st := SimState(capital, peak, openTrade, trades, equity);
  }

  // ---------------------------------------------------------------------
  // Properties of the loop

  /** One equity point per bar so far, carrying the capital and drawdown at the start of that bar. */
  lemma {:induction false} RunEquity(env: Env, candles: seq<Candle>, capital0: real, k: nat)
    requires k <= |candles| && PricesNonZero(candles)
    ensures |Run(env, candles, capital0, k).equity| == k
    ensures forall j {:trigger Run(env, candles, capital0, k).equity[j]} | 0 <= j < k ::
      Run(env, candles, capital0, k).equity[j] ==
        EquityPoint(candles[j].time, Run(env, candles, capital0, j).capital,
                    Drawdown(Run(env, candles, capital0, j).peak, Run(env, candles, capital0, j).capital))
    decreases k
  {
    if k > 0 {
      RunEquity(env, candles, capital0, k - 1);
      var prev := Run(env, candles, capital0, k - 1);
      var cur := Run(env, candles, capital0, k);
      StepEquity(env, prev, k - 1, candles[k - 1]);
      assert cur.equity == prev.equity + [EquityPoint(candles[k - 1].time, prev.capital, Drawdown(prev.peak, prev.capital))];
      assert |cur.equity| == k;
      forall j | 0 <= j < k
        ensures cur.equity[j] ==
          EquityPoint(candles[j].time, Run(env, candles, capital0, j).capital,
                      Drawdown(Run(env, candles, capital0, j).peak, Run(env, candles, capital0, j).capital))
      {
        if j < k - 1 {
          assert cur.equity[j] == prev.equity[j];
        } else {
          assert Run(env, candles, capital0, j) == prev;
        }
      }
    }
  }

  /** A bar adds its equity point and nothing else touches the curve. */
  lemma StepEquity(env: Env, st: SimState, i: nat, c: Candle)
    requires c.close != 0.0 && (st.open.Some? ==> st.open.value.entryPrice != 0.0)
    ensures Step(env, st, i, c).equity == st.equity + [EquityPoint(c.time, st.capital, Drawdown(st.peak, st.capital))]
  {
  }

  /** The peak never falls and is at least the capital at the start of every bar so far. */
  lemma RunPeak(env: Env, candles: seq<Candle>, capital0: real, k: nat)
    requires k <= |candles| && PricesNonZero(candles)
    ensures Run(env, candles, capital0, k).peak >= capital0
    ensures forall j | 0 <= j <= k :: Run(env, candles, capital0, j).peak <= Run(env, candles, capital0, k).peak
    ensures forall j | 0 <= j < k :: Run(env, candles, capital0, j).capital <= Run(env, candles, capital0, k).peak
  {
    PeakMonotone(env, candles, capital0, 0, k);
    forall j | 0 <= j <= k
      ensures Run(env, candles, capital0, j).peak <= Run(env, candles, capital0, k).peak
      ensures j < k ==> Run(env, candles, capital0, j).capital <= Run(env, candles, capital0, k).peak
    {
      PeakMonotone(env, candles, capital0, j, k);
    }
  }

  /** The peak after `k` bars is at least the peak after `j <= k` bars, and the capital at the start of any earlier bar. */
  lemma {:induction false} PeakMonotone(env: Env, candles: seq<Candle>, capital0: real, j: nat, k: nat)
    requires j <= k <= |candles| && PricesNonZero(candles)
    ensures Run(env, candles, capital0, j).peak <= Run(env, candles, capital0, k).peak
    ensures j < k ==> Run(env, candles, capital0, j).capital <= Run(env, candles, capital0, k).peak
    decreases k - j
  {
    if j < k {
      PeakMonotone(env, candles, capital0, j + 1, k);
      RunStepPeak(env, candles, capital0, j + 1);
    }
  }

  /** Bar `k - 1` never lowers the peak, and leaves it at least the capital that bar started with. */
  lemma RunStepPeak(env: Env, candles: seq<Candle>, capital0: real, k: nat)
    requires 0 < k <= |candles| && PricesNonZero(candles)
    ensures Run(env, candles, capital0, k).peak >= Run(env, candles, capital0, k - 1).peak
    ensures Run(env, candles, capital0, k).peak >= Run(env, candles, capital0, k - 1).capital
  {
    var st := Run(env, candles, capital0, k - 1);
    var m := Mark(st, candles[k - 1]);
    assert m.peak >= st.capital && m.peak >= st.peak;
  }

  /** Before the warm-up is over nothing is traded: no trade, no position, the capital untouched. */
  lemma {:induction false} RunBeforeWarmup(env: Env, candles: seq<Candle>, capital0: real, k: nat)
    requires k <= |candles| && PricesNonZero(candles) && k <= env.warmup
    ensures var st := Run(env, candles, capital0, k);
      st.trades == [] && st.open.None? && st.capital == capital0 && st.peak == capital0
    decreases k
  {
    if k > 0 {
      RunBeforeWarmup(env, candles, capital0, k - 1);
    }
  }

  /** Without commission the capital is the initial capital plus the P&L of the closed trades. */
  lemma {:induction false} ZeroCommissionAccounting(env: Env, candles: seq<Candle>, capital0: real, k: nat)
    requires k <= |candles| && PricesNonZero(candles) && env.commission == 0.0
    ensures Run(env, candles, capital0, k).capital == capital0 + SumPnl(Run(env, candles, capital0, k).trades)
    decreases k
  {
    if k > 0 {
      ZeroCommissionAccounting(env, candles, capital0, k - 1);
      StepZeroCommission(env, Run(env, candles, capital0, k - 1), k - 1, candles[k - 1]);
    }
  }

  /** Without commission a bar changes the capital by exactly the P&L of the trade it closes, if any. */
  lemma StepZeroCommission(env: Env, st: SimState, i: nat, c: Candle)
    requires c.close != 0.0 && (st.open.Some? ==> st.open.value.entryPrice != 0.0) && env.commission == 0.0
    ensures var next := Step(env, st, i, c);
      next.capital - SumPnl(next.trades) == st.capital - SumPnl(st.trades)
  {
    var m := Mark(st, c);
    if i >= env.warmup && m.open.Some? {
      var t := m.open.value;
      var signal := EvalRules(Some(env.strategy.exit), env.indicators, i);
      if ExitCheck(t, c, signal).Some? {
        var d := ExitCheck(t, c, signal).value;
        SumPnlSnoc(m.trades, ClosedTrade(t, c, d));
      }
    }
  }

  /** Trade `t` was opened at bar `e`: past the warm-up, on an entry signal, at that bar's close, with the whole capital and the stops of the risk settings. */
  ghost predicate OpenedAt(env: Env, candles: seq<Candle>, capital0: real, t: Trade, e: nat)
    requires e < |candles| && PricesNonZero(candles)
  {
    && env.warmup <= e
    && EvalRules(Some(env.strategy.entry), env.indicators, e)
    && t.entryTime == candles[e].time
    && t.entryPrice == candles[e].close
    && t.size == Run(env, candles, capital0, e).capital / candles[e].close
    && t.stopLoss == candles[e].close * (1.0 - env.strategy.risk.stopLoss / 100.0)
    && t.takeProfit == candles[e].close * (1.0 + env.strategy.risk.takeProfit / 100.0)
  }

  /** Trade `t` was closed at bar `x`, for the reason and at the price the exit checks give there, with the P&L realised at that price. */
  predicate ClosedAt(env: Env, candles: seq<Candle>, t: Trade, x: nat)
    requires x < |candles| && t.entryPrice != 0.0
  {
    && env.warmup <= x
    && t.status == Closed
    && t.exitTime == Some(candles[x].time)
    && t.exitReason.Some? && t.exitPrice.Some?
    && ExitCheck(t, candles[x], EvalRules(Some(env.strategy.exit), env.indicators, x)) ==
       Some(ExitDecision(t.exitReason.value, t.exitPrice.value))
    && t.pnl == Some(Pnl(t, t.exitPrice.value))
    && t.pnlPercent == Some(PnlFraction(t, t.exitPrice.value) * 100.0)
  }

  /** No exit check fired on the bars strictly between `e` and `x`. */
  predicate HeldThrough(env: Env, candles: seq<Candle>, t: Trade, e: nat, x: nat)
    requires e <= x <= |candles|
  {
    forall b | e < b < x :: ExitCheck(t, candles[b], EvalRules(Some(env.strategy.exit), env.indicators, b)).None?
  }

  /** Closing a trade at bar `x` with the decision of the exit checks there is what `ClosedAt` describes. */
  lemma ClosedTradeIsClosedAt(env: Env, candles: seq<Candle>, t: Trade, x: nat, d: ExitDecision)
    requires x < |candles| && t.entryPrice != 0.0 && env.warmup <= x
    requires ExitCheck(t, candles[x], EvalRules(Some(env.strategy.exit), env.indicators, x)) == Some(d)
    ensures ClosedAt(env, candles, ClosedTrade(t, candles[x], d), x)
  {
    var closed := ClosedTrade(t, candles[x], d);
    assert closed.entryPrice == t.entryPrice && closed.size == t.size;
    assert closed.exitPrice.value == d.price && closed.exitReason.value == d.reason;
    PnlByEntry(t, closed, d.price);
    ExitCheckStops(t, closed, candles[x], EvalRules(Some(env.strategy.exit), env.indicators, x));
  }

  /** The P&L reads only the entry price and the size of a trade. */
  lemma PnlByEntry(t: Trade, u: Trade, price: real)
    requires t.entryPrice == u.entryPrice != 0.0 && t.size == u.size
    ensures Pnl(u, price) == Pnl(t, price) && PnlFraction(u, price) == PnlFraction(t, price)
  {
  }

  /** The exit check reads only the stops of a trade. */
  lemma ExitCheckStops(t: Trade, u: Trade, c: Candle, signal: bool)
    requires t.stopLoss == u.stopLoss && t.takeProfit == u.takeProfit
    ensures ExitCheck(u, c, signal) == ExitCheck(t, c, signal)
  {
  }

  /** The exit checks read only the stops of a trade. */
  lemma HeldThroughStops(env: Env, candles: seq<Candle>, t: Trade, u: Trade, e: nat, x: nat)
    requires e <= x <= |candles| && t.stopLoss == u.stopLoss && t.takeProfit == u.takeProfit
    requires HeldThrough(env, candles, t, e, x)
    ensures HeldThrough(env, candles, u, e, x)
  {
    forall b | e < b < x
      ensures ExitCheck(u, candles[b], EvalRules(Some(env.strategy.exit), env.indicators, b)).None?
    {
      ExitCheckStops(t, u, candles[b], EvalRules(Some(env.strategy.exit), env.indicators, b));
    }
  }

  /** Trade `t` was opened at a bar `e`, held while no exit check fired and closed at a bar `x`, with `e < x < k`. */
  ghost predicate Recorded(env: Env, candles: seq<Candle>, capital0: real, t: Trade, k: nat)
    requires k <= |candles| && PricesNonZero(candles)
  {
    && t.entryPrice != 0.0
    && exists e: nat, x: nat :: e < x < k && OpenedAt(env, candles, capital0, t, e)
         && ClosedAt(env, candles, t, x) && HeldThrough(env, candles, t, e, x)
  }

  /** The open trade `t` was opened at a bar `e < k` and no exit check has fired since. */
  ghost predicate Holding(env: Env, candles: seq<Candle>, capital0: real, t: Trade, k: nat)
    requires k <= |candles| && PricesNonZero(candles)
  {
    && t.status == Opened
    && exists e: nat :: e < k && OpenedAt(env, candles, capital0, t, e) && HeldThrough(env, candles, t, e, k)
  }

  /** The trade history of `st` after `k` bars: ids count up from 1, every trade is recorded, the open one is the next id and held. */
  ghost predicate History(env: Env, candles: seq<Candle>, capital0: real, st: SimState, k: nat)
    requires k <= |candles| && PricesNonZero(candles)
  {
    && (forall j | 0 <= j < |st.trades| :: st.trades[j].id == j + 1 && Recorded(env, candles, capital0, st.trades[j], k))
    && (st.open.Some? ==> st.open.value.id == |st.trades| + 1 && Holding(env, candles, capital0, st.open.value, k))
  }

  /** A trade recorded by bar `k` is still recorded by bar `k + 1`. */
  lemma RecordedLater(env: Env, candles: seq<Candle>, capital0: real, t: Trade, k: nat)
    requires k < |candles| && PricesNonZero(candles) && Recorded(env, candles, capital0, t, k)
    ensures Recorded(env, candles, capital0, t, k + 1)
  {
    var e: nat, x: nat :| e < x < k && OpenedAt(env, candles, capital0, t, e)
      && ClosedAt(env, candles, t, x) && HeldThrough(env, candles, t, e, x);
  }

  /** The recorded trades of bar `i` stay recorded at bar `i + 1`. */
  lemma TradesLater(env: Env, candles: seq<Candle>, capital0: real, trades: seq<Trade>, i: nat)
    requires i < |candles| && PricesNonZero(candles)
    requires forall j | 0 <= j < |trades| :: trades[j].id == j + 1 && Recorded(env, candles, capital0, trades[j], i)
    ensures forall j | 0 <= j < |trades| :: trades[j].id == j + 1 && Recorded(env, candles, capital0, trades[j], i + 1)
  {
    forall j | 0 <= j < |trades|
      ensures Recorded(env, candles, capital0, trades[j], i + 1)
    {
      RecordedLater(env, candles, capital0, trades[j], i);
    }
  }

  /** A bar on which the open trade, if any, passes every exit check and nothing is entered keeps the history. */
  lemma QuietStep(env: Env, candles: seq<Candle>, capital0: real, st: SimState, i: nat)
    requires i < |candles| && PricesNonZero(candles)
    requires History(env, candles, capital0, st, i)
    requires st.open.Some? ==> ExitCheck(st.open.value, candles[i], EvalRules(Some(env.strategy.exit), env.indicators, i)).None?
    ensures History(env, candles, capital0, Mark(st, candles[i]), i + 1)
  {
    TradesLater(env, candles, capital0, st.trades, i);
    if st.open.Some? {
      var t := st.open.value;
      var e: nat :| e < i && OpenedAt(env, candles, capital0, t, e) && HeldThrough(env, candles, t, e, i);
      assert HeldThrough(env, candles, t, e, i + 1);
    }
  }

  /** A bar that enters a trade keeps the history and holds the new trade from this bar on. */
  lemma EnterStep(env: Env, candles: seq<Candle>, capital0: real, st: SimState, i: nat)
    requires i < |candles| && PricesNonZero(candles)
    requires st == Run(env, candles, capital0, i)
    requires History(env, candles, capital0, st, i)
    requires env.warmup <= i && st.open.None?
    requires EvalRules(Some(env.strategy.entry), env.indicators, i)
    ensures History(env, candles, capital0, Enter(env, Mark(st, candles[i]), candles[i]), i + 1)
  {
    var next := Enter(env, Mark(st, candles[i]), candles[i]);
    var t := NewTrade(env, |st.trades| + 1, st.capital, candles[i]);
    assert next.open == Some(t) && next.trades == st.trades;
    TradesLater(env, candles, capital0, st.trades, i);
    assert OpenedAt(env, candles, capital0, t, i);
    assert HeldThrough(env, candles, t, i, i + 1);
    assert Holding(env, candles, capital0, t, i + 1);
  }

  /** A bar on which an exit check fires appends the closed trade, recorded between its entry bar and this one. */
  lemma CloseStep(env: Env, candles: seq<Candle>, capital0: real, st: SimState, i: nat, d: ExitDecision)
    requires i < |candles| && PricesNonZero(candles)
    requires History(env, candles, capital0, st, i)
    requires env.warmup <= i && st.open.Some? && st.open.value.entryPrice != 0.0
    requires ExitCheck(st.open.value, candles[i], EvalRules(Some(env.strategy.exit), env.indicators, i)) == Some(d)
    ensures History(env, candles, capital0, Close(env, Mark(st, candles[i]), st.open.value, candles[i], d), i + 1)
  {
    var c := candles[i];
    var t := st.open.value;
    var next := Close(env, Mark(st, c), t, c, d);
    var closed := ClosedTrade(t, c, d);
    assert next.trades == st.trades + [closed] && next.open.None?;
    var e: nat :| e < i && OpenedAt(env, candles, capital0, t, e) && HeldThrough(env, candles, t, e, i);
    HeldThroughStops(env, candles, t, closed, e, i);
    assert OpenedAt(env, candles, capital0, closed, e);
    ClosedTradeIsClosedAt(env, candles, t, i, d);
    assert Recorded(env, candles, capital0, closed, i + 1);
    TradesLater(env, candles, capital0, st.trades, i);
    forall j | 0 <= j < |next.trades|
      ensures next.trades[j].id == j + 1 && Recorded(env, candles, capital0, next.trades[j], i + 1)
    {
      if j == |st.trades| {
        assert next.trades[j] == closed;
      } else {
        assert next.trades[j] == st.trades[j];
      }
    }
  }

  /** The inductive step of `RunTrades`, from bar `i` to bar `i + 1`. */
  lemma RunTradesStep(env: Env, candles: seq<Candle>, capital0: real, i: nat)
    requires i < |candles| && PricesNonZero(candles)
    requires History(env, candles, capital0, Run(env, candles, capital0, i), i)
    ensures History(env, candles, capital0, Run(env, candles, capital0, i + 1), i + 1)
  {
    var st := Run(env, candles, capital0, i);
    var c := candles[i];
    var m := Mark(st, c);
    assert Run(env, candles, capital0, i + 1) == Step(env, st, i, c);
    if i < env.warmup {
      RunBeforeWarmup(env, candles, capital0, i);
      QuietStep(env, candles, capital0, st, i);
    } else if st.open.None? {
      if EvalRules(Some(env.strategy.entry), env.indicators, i) {
        EnterStep(env, candles, capital0, st, i);
      } else {
        QuietStep(env, candles, capital0, st, i);
      }
    } else {
      match ExitCheck(st.open.value, c, EvalRules(Some(env.strategy.exit), env.indicators, i))
      case None => QuietStep(env, candles, capital0, st, i);
      case Some(d) => CloseStep(env, candles, capital0, st, i, d);
    }
  }

  /**
   * Every recorded trade was opened at some bar, held while no exit check
   * fired and closed at a later bar; ids count up from 1; the open
   * position, if any, is the next id and has been held since its entry.
   */
  lemma {:induction false} RunTrades(env: Env, candles: seq<Candle>, capital0: real, k: nat)
    requires k <= |candles| && PricesNonZero(candles)
    ensures History(env, candles, capital0, Run(env, candles, capital0, k), k)
    decreases k
  {
    if k > 0 {
      RunTrades(env, candles, capital0, k - 1);
      RunTradesStep(env, candles, capital0, k - 1);
    }
  }

  /** Every recorded trade is closed, and the ids count up from 1. */
  lemma RunAllClosed(env: Env, candles: seq<Candle>, capital0: real, k: nat)
    requires k <= |candles| && PricesNonZero(candles)
    ensures var st := Run(env, candles, capital0, k);
      forall j | 0 <= j < |st.trades| :: st.trades[j].status == Closed && st.trades[j].id == j + 1
  {
    var st := Run(env, candles, capital0, k);
    RunTrades(env, candles, capital0, k);
    forall j | 0 <= j < |st.trades|
      ensures st.trades[j].status == Closed
    {
      assert Recorded(env, candles, capital0, st.trades[j], k);
      var e: nat, x: nat :| e < x < k && OpenedAt(env, candles, capital0, st.trades[j], e)
        && ClosedAt(env, candles, st.trades[j], x) && HeldThrough(env, candles, st.trades[j], e, x);
    }
  }

  /** Entry invests the whole capital at the close, charges one commission and changes nothing else. */
  lemma EnterInvestsAll(env: Env, st: SimState, c: Candle)
    requires c.close != 0.0
    ensures var next := Enter(env, st, c);
      && next.open.Some? && next.open.value.size * c.close == st.capital
      && next.open.value.entryPrice == c.close && next.open.value.id == |st.trades| + 1
      && next.capital == st.capital * (1.0 - env.commission)
      && next.trades == st.trades && next.equity == st.equity && next.peak == st.peak
  {
  }

  /** With non-negative risk percentages and a positive close, the stop-loss is at or below the entry and the take-profit at or above it. */
  lemma StopsBracketEntry(env: Env, id: nat, capital: real, c: Candle)
    requires c.close > 0.0 && env.strategy.risk.stopLoss >= 0.0 && env.strategy.risk.takeProfit >= 0.0
    ensures NewTrade(env, id, capital, c).stopLoss <= c.close <= NewTrade(env, id, capital, c).takeProfit
  {
    var slPct := env.strategy.risk.stopLoss / 100.0;
    var tpPct := env.strategy.risk.takeProfit / 100.0;
    MulNonNegative(c.close, slPct);
    MulNonNegative(c.close, tpPct);
  }

  /** The exit checks report a stop-loss whenever the low reaches it, even when the high also reaches the take-profit. */
  lemma StopLossFirst(t: Trade, c: Candle, signal: bool)
    ensures c.low <= t.stopLoss <==> ExitCheck(t, c, signal) == Some(ExitDecision(StopLossHit, t.stopLoss))
    ensures ExitCheck(t, c, signal).None? <==> c.low > t.stopLoss && c.high < t.takeProfit && !signal
  {
  }

  /** Closing adds the P&L, charges the exit commission on the result and records the trade as the last one. */
  lemma CloseCapital(env: Env, st: SimState, t: Trade, c: Candle, d: ExitDecision)
    requires t.entryPrice != 0.0
    ensures var next := Close(env, st, t, c, d);
      && next.capital == (st.capital + (d.price - t.entryPrice) * t.size) * (1.0 - env.commission)
      && next.open.None? && |next.trades| == |st.trades| + 1 && next.trades[..|st.trades|] == st.trades
      && next.trades[|st.trades|].pnl == Some((d.price - t.entryPrice) * t.size)
      && next.peak >= next.capital && next.peak >= st.peak && next.equity == st.equity
  {
    var next := Close(env, st, t, c, d);
    assert next.trades[..|st.trades|] == st.trades;
    assert next.trades[|st.trades|] == ClosedTrade(t, c, d);
    assert ClosedTrade(t, c, d).pnl == Some(Pnl(t, d.price));
    assert next.trades[|st.trades|].pnl == Some(Pnl(t, d.price));
    assert Pnl(t, d.price) == (d.price - t.entryPrice) * t.size;
  }

  /** A trade closed at its entry price has a zero P&L, and the two commissions leave `capital * (1 - c)^2`. */
  lemma RoundTripAtEntryPrice(env: Env, st: SimState, c: Candle, c2: Candle, d: ExitDecision)
    requires c.close != 0.0 && d.price == c.close
    ensures var entered := Enter(env, st, c);
      var next := Close(env, entered, entered.open.value, c2, d);
      && next.trades[|st.trades|].pnl == Some(0.0)
      && next.capital == st.capital * (1.0 - env.commission) * (1.0 - env.commission)
  {
    var entered := Enter(env, st, c);
    var t := entered.open.value;
    assert Pnl(t, d.price) == 0.0;
    var x := st.capital;
    var k := env.commission;
    assert AfterFee(x, k) == x * (1.0 - k);
    assert AfterFee(x * (1.0 - k), k) == x * (1.0 - k) * (1.0 - k);
  }

  // ---------------------------------------------------------------------
  // backtest

  datatype BacktestResult = BacktestResult(
    metrics: Metrics,
    trades: seq<Trade>,
    equityCurve: seq<EquityPoint>,
    candles: seq<Candle>,
    indicators: IndicatorMap)

  /** `cfg.initialCapital ?? 10000`. */
  function Capital0(cfg: Config): real {
    cfg.initialCapital.GetOr(10000.0)
  }

  /** `cfg.commission ?? 0.0005`, charged per side. */
  function Commission(cfg: Config): real {
    cfg.commission.GetOr(0.0005)
  }

  /**
   * What a run needs to stay within real arithmetic: non-zero closes and
   * initial capital (the source divides by both), and indicator
   * parameters the engine can compute with.
   */
  predicate CanRun(candles: seq<Candle>, cfg: Config) {
    PricesNonZero(candles) && Capital0(cfg) != 0.0 && AllWellFormed(RawSpecs(cfg.strategy))
  }

  lemma DedupeWellFormed(specs: seq<IndicatorRef>)
    requires AllWellFormed(specs)
    ensures AllWellFormed(Dedupe(specs))
  {
    var d := Dedupe(specs);
    forall i | 0 <= i < |d|
      ensures WellFormedFor(d[i].kind, d[i].params)
    {
      DedupeMembers(specs, d[i]);
    }
  }

  /** The whole of `backtest`: indicators, warm-up, the loop, the trailing point and the metrics. */
  function BacktestSpec(candles: seq<Candle>, cfg: Config): Result<BacktestResult, BuildError>
    requires CanRun(candles, cfg)
  {
    var specs := Dedupe(RawSpecs(cfg.strategy));
    DedupeWellFormed(RawSpecs(cfg.strategy));
    match BuildSpec(candles, specs)
    case Err(e) => Err(e)
    case Ok(m) =>
      var env := Env(cfg.strategy, m, Commission(cfg), Warmup(specs));
      var st := Run(env, candles, Capital0(cfg), |candles|);
      var equity := FinalEquity(candles, st);
      Ok(BacktestResult(ComputeMetrics(st.trades, equity, Capital0(cfg), st.capital), st.trades, equity, candles, m))
  }

  method Backtest(candles: seq<Candle>, cfg: Config) returns (r: Result<BacktestResult, BuildError>)
    requires CanRun(candles, cfg)
    ensures r == BacktestSpec(candles, cfg)
  {
    var capital0 := Capital0(cfg);
    var commission := Commission(cfg);
    var specs := CollectIndicatorSpecs(cfg.strategy);
    DedupeWellFormed(RawSpecs(cfg.strategy));
    var built := BuildIndicators(candles, specs);
    if built.Err? {
      return Err(built.error);
    }
    var m := built.value;
    var w := WarmupBars(specs);
    var st := Simulate(Env(cfg.strategy, m, commission, w), candles, capital0);
    var equity := st.equity;
    if |candles| > 0 {
      var last := candles[|candles| - 1];
      equity := equity + [EquityPoint(last.time, st.capital, Drawdown(st.peak, st.capital))];
    }
    var metrics := ComputeMetrics(st.trades, equity, capital0, st.capital);
    return Ok(BacktestResult(metrics, st.trades, equity, candles, m));
  }

  /** A run fails only on an unsupported indicator kind among the strategy's operands. */
  lemma BacktestFailsOnlyOnUnsupported(candles: seq<Candle>, cfg: Config)
    requires CanRun(candles, cfg)
    ensures BacktestSpec(candles, cfg).Ok? <==> forall r :: r in RawSpecs(cfg.strategy) ==> !r.kind.Unsupported?
  {
    var raw := RawSpecs(cfg.strategy);
    var specs := Dedupe(raw);
    DedupeWellFormed(raw);
    BuildSpecSucceedsIff(candles, specs);
    forall r | r in raw
      ensures r in specs
    {
      DedupeMembers(raw, r);
    }
    forall r | r in specs
      ensures r in raw
    {
      DedupeMembers(raw, r);
    }
  }

  /**
   * A successful run returns the candles it was given, one equity point per
   * bar plus the trailing one, only closed trades, and metrics over them
   * whose final capital is the trailing point's.
   */
  lemma BacktestShape(candles: seq<Candle>, cfg: Config)
    requires CanRun(candles, cfg) && BacktestSpec(candles, cfg).Ok?
    ensures var r := BacktestSpec(candles, cfg).value;
      && r.candles == candles
      && |r.equityCurve| == (if |candles| > 0 then |candles| + 1 else 0)
      && (forall j :: 0 <= j < |r.trades| ==> r.trades[j].status == Closed && r.trades[j].id == j + 1)
      && r.metrics.totalTrades == |r.trades|
      && (|candles| > 0 ==> r.metrics.finalCapital == r.equityCurve[|candles|].equity)
  {
    var raw := RawSpecs(cfg.strategy);
    var specs := Dedupe(raw);
    DedupeWellFormed(raw);
    var m := BuildSpec(candles, specs).value;
    var env := Env(cfg.strategy, m, Commission(cfg), Warmup(specs));
    var st := Run(env, candles, Capital0(cfg), |candles|);
    RunEquity(env, candles, Capital0(cfg), |candles|);
    RunAllClosed(env, candles, Capital0(cfg), |candles|);
    MetricsCounts(st.trades, FinalEquity(candles, st), Capital0(cfg), st.capital);
  }
}
