/**
 * `mapStrategyJsonToInternal` of lib/services/strategyMapper.ts: turns a
 * parsed JSON strategy into the engine's `Strategy`.
 */
module StrategyMapper {
  import opened Wrappers
  import opened Types
  import opened IndicatorKeys
  import opened IndicatorEngine
  import opened BacktestEngine
  import opened StrategySchema

  /** The indicator name carried over as the engine's `type`. */
  function KindNamed(name: string): Kind {
    if name == "SMA" then SMA
    else if name == "EMA" then EMA
    else if name == "RSI" then RSI
    else if name == "MACD" then MACD
    else Unsupported(name)
  }

  /**
   * `opMap[operator]`. A name outside the table looks up `undefined`, which
   * every branch of the evaluator treats like an unknown operator; it is
   * kept as `OtherOp` with its name.
   */
  function OpNamed(operator: string): Op {
    if operator == ">" then Gt
    else if operator == "<" then Lt
    else if operator == "cross_above" then CrossUp
    else if operator == "cross_below" then CrossDown
    else OtherOp(operator)
  }

  /** `{type: o.indicator, params: {period: o.period, source: 'close'}}`. */
  function OperandRef(o: Operand): IndicatorRef {
    IndicatorRef(KindNamed(o.indicator), [Param("period", PNum(o.period)), Param("source", PText("close"))])
  }

  /** `mapCondition`: `compareWith` only when `right` is given, `value` only when it is defined. */
  function MapCondition(c: ConditionJson): Condition {
    Condition(OperandRef(c.left), OpNamed(c.operator), c.value,
              if c.right.Some? then Some(OperandRef(c.right.value)) else None)
  }

  /** `list?.map(mapCondition)`: an absent list stays absent, a present one keeps its length and order. */
  function MapList(cs: Option<seq<ConditionJson>>): (r: Option<seq<Condition>>)
    ensures r.Some? <==> cs.Some?
    ensures r.Some? ==> |r.value| == |cs.value| && forall i :: 0 <= i < |cs.value| ==> r.value[i] == MapCondition(cs.value[i])
  {
    match cs
    case None => None
    case Some(l) => Some(seq(|l|, i requires 0 <= i < |l| => MapCondition(l[i])))
  }

  function MapRules(r: RulesJson): RuleSet {
    RuleSet(MapList(r.all), MapList(r.any))
  }

  /** `mapStrategyJsonToInternal`: the symbol and timeframe are dropped; the risk percentages are copied. */
  function MapStrategy(s: StrategyJson): (r: Strategy)
    ensures r.name == "LLM Strategy"
    ensures r.risk.stopLoss == s.risk.stopLossPct && r.risk.takeProfit == s.risk.takeProfitPct
  {
    Strategy("LLM Strategy", MapRules(s.entry), MapRules(s.exit), Risk(s.risk.stopLossPct, s.risk.takeProfitPct))
  }

  // ---------------------------------------------------------------------
  // Properties

  /** The operator table maps the four schema operators to the engine's and nothing else onto them. */
  lemma OpNamedTable(operator: string)
    ensures operator == ">" <==> OpNamed(operator) == Gt
    ensures operator == "<" <==> OpNamed(operator) == Lt
    ensures operator == "cross_above" <==> OpNamed(operator) == CrossUp
    ensures operator == "cross_below" <==> OpNamed(operator) == CrossDown
    ensures !OpNamed(operator).Ge? && !OpNamed(operator).Le?
  {
  }

  lemma KindNamedInjective(a: string, b: string)
    requires KindNamed(a) == KindNamed(b)
    ensures a == b
  {
  }

  lemma OpNamedInjective(a: string, b: string)
    requires OpNamed(a) == OpNamed(b)
    ensures a == b
  {
  }

  /** The mapping of a condition loses nothing: different conditions map to different ones. */
  lemma MapConditionInjective(a: ConditionJson, b: ConditionJson)
    requires MapCondition(a) == MapCondition(b)
    ensures a == b
  {
    KindNamedInjective(a.left.indicator, b.left.indicator);
    OpNamedInjective(a.operator, b.operator);
    assert a.left == b.left;
    if a.right.Some? {
      KindNamedInjective(a.right.value.indicator, b.right.value.indicator);
    }
  }

  lemma MapListInjective(a: Option<seq<ConditionJson>>, b: Option<seq<ConditionJson>>)
    requires MapList(a) == MapList(b)
    ensures a == b
  {
    if a.Some? {
      forall i | 0 <= i < |a.value|
        ensures a.value[i] == b.value[i]
      {
        MapConditionInjective(a.value[i], b.value[i]);
      }
      assert a.value == b.value;
    }
  }

  /** Two parsed strategies map to the same engine strategy exactly when they differ at most in symbol and timeframe. */
  lemma MapStrategyForgetsOnlyMarket(a: StrategyJson, b: StrategyJson)
    ensures MapStrategy(a) == MapStrategy(b) <==> a.entry == b.entry && a.exit == b.exit && a.risk == b.risk
  {
    if MapStrategy(a) == MapStrategy(b) {
      MapListInjective(a.entry.all, b.entry.all);
      MapListInjective(a.entry.any, b.entry.any);
      MapListInjective(a.exit.all, b.exit.all);
      MapListInjective(a.exit.any, b.exit.any);
    }
  }

  /** The shape of a mapped condition: period and `source: 'close'` on both operands, `compareWith` exactly when `right` is given, `value` copied. */
  lemma MapConditionShape(c: ConditionJson)
    ensures var r := MapCondition(c);
      && r.left.kind == KindNamed(c.left.indicator)
      && Lookup(r.left.params, "period") == Some(PNum(c.left.period))
      && Lookup(r.left.params, "source") == Some(PText("close"))
      && (r.compareWith.Some? <==> c.right.Some?)
      && (c.right.Some? ==> Lookup(r.compareWith.value.params, "period") == Some(PNum(c.right.value.period)))
      && r.value == c.value
  {
  }

  /** A condition of a valid parsed strategy maps to operands the engine computes, with well-formed parameters. */
  lemma MappedOperandsComputable(c: ConditionJson)
    requires ValidCondition(RenderCondition(c))
    ensures var r := MapCondition(c);
      && r.left.kind in {SMA, EMA, RSI} && WellFormedFor(r.left.kind, r.left.params)
      && (r.compareWith.Some? ==> r.compareWith.value.kind in {SMA, EMA, RSI} && WellFormedFor(r.compareWith.value.kind, r.compareWith.value.params))
      && r.op in {Gt, Lt, CrossUp, CrossDown}
      && (r.op in {CrossUp, CrossDown} ==> r.compareWith.Some?)
  {
    var r := MapCondition(c);
    assert "period" != "source";
    assert WellFormedFor(r.left.kind, r.left.params);
    if r.compareWith.Some? {
      assert WellFormedFor(r.compareWith.value.kind, r.compareWith.value.params);
    }
  }

  /** The conditions of a valid parsed strategy in each list satisfy `MappedOperandsComputable`'s requirement. */
  lemma ValidListElements(cs: Option<seq<ConditionJson>>, c: ConditionJson)
    requires ValidList(RenderList(cs)) && cs.Some? && c in cs.value
    ensures ValidCondition(RenderCondition(c))
  {
    var i :| 0 <= i < |cs.value| && cs.value[i] == c;
    assert RenderList(cs).value[i] == RenderCondition(c);
  }

  /**
   * A strategy the schema accepts maps to one whose every indicator operand
   * is supported and well-formed, so a backtest of it cannot fail on its
   * indicators.
   */
  lemma ValidStrategyComputable(s: StrategyJson)
    requires ValidJson(s)
    ensures AllWellFormed(RawSpecs(MapStrategy(s)))
    ensures forall r :: r in RawSpecs(MapStrategy(s)) ==> !r.kind.Unsupported?
  {
    var st := MapStrategy(s);
    var cs := Conditions(st);
    forall r | r in RawSpecs(st)
      ensures !r.kind.Unsupported? && WellFormedFor(r.kind, r.params)
    {
      OperandsMembers(cs, r);
      var c :| c in cs && (r == c.left || c.compareWith == Some(r));
      var src := SourceCondition(s, c);
      MappedOperandsComputable(src);
    }
  }

  /** Every condition of the mapped strategy is the mapping of a condition of a valid parsed strategy. */
  lemma SourceCondition(s: StrategyJson, c: Condition) returns (src: ConditionJson)
    requires ValidJson(s) && c in Conditions(MapStrategy(s))
    ensures ValidCondition(RenderCondition(src)) && MapCondition(src) == c
  {
    var st := MapStrategy(s);
    var lists := [s.entry.all, s.entry.any, s.exit.all, s.exit.any];
    assert Conditions(st) == MapList(lists[0]).GetOr([]) + MapList(lists[1]).GetOr([])
                             + MapList(lists[2]).GetOr([]) + MapList(lists[3]).GetOr([]);
    var k :| 0 <= k < 4 && lists[k].Some? && c in MapList(lists[k]).value;
    var l := lists[k].value;
    var i :| 0 <= i < |l| && MapList(lists[k]).value[i] == c;
    src := l[i];
    ValidListElements(lists[k], src);
  }

  /**
   * End to end: a backtest of the mapped strategy of any document the
   * schema accepts succeeds, given non-zero closes and initial capital.
   */
  lemma ValidStrategyBacktests(doc: JsonStrategy, candles: seq<Candle>, cfg: Config)
    requires Parse(doc).Ok? && cfg.strategy == MapStrategy(Parse(doc).value)
    requires PricesNonZero(candles) && Capital0(cfg) != 0.0
    ensures CanRun(candles, cfg) && BacktestSpec(candles, cfg).Ok?
  {
    ParsedIsValid(doc);
    ValidStrategyComputable(Parse(doc).value);
    BacktestFailsOnlyOnUnsupported(candles, cfg);
  }

  /** The mapped risk percentages lie in [0, 100], so every entry's stops bracket its price. */
  lemma MappedRiskBracketsEntry(s: StrategyJson, env: Env, id: nat, capital: real, c: Candle)
    requires ValidJson(s) && env.strategy == MapStrategy(s) && c.close > 0.0
    ensures NewTrade(env, id, capital, c).stopLoss <= c.close <= NewTrade(env, id, capital, c).takeProfit
  {
    StopsBracketEntry(env, id, capital, c);
  }
}
