/**
 * The schema of lib/services/strategySchema.ts: the shape a strategy
 * written as JSON must have, including the `refine` rule on conditions,
 * and the defaults a successful parse fills in.
 */
module StrategySchema {
  import opened Wrappers

  const Indicators: set<string> := {"SMA", "EMA", "RSI"}
  const Operators: set<string> := {">", "<", "cross_above", "cross_below"}
  const DefaultSymbol: string := "BTCUSDT"
  const DefaultTimeframe: string := "1h"

  // ---------------------------------------------------------------------
  // The document before parsing: JSON numbers are reals, optional fields
  // are options.

  datatype JsonOperand = JsonOperand(indicator: string, period: real)
  datatype JsonCondition = JsonCondition(left: JsonOperand, operator: string, right: Option<JsonOperand>, value: Option<real>)
  datatype JsonRules = JsonRules(all: Option<seq<JsonCondition>>, any: Option<seq<JsonCondition>>)
  datatype JsonRisk = JsonRisk(stopLossPct: real, takeProfitPct: real)
  datatype JsonStrategy = JsonStrategy(symbol: Option<string>, timeframe: Option<string>, entry: JsonRules, exit: JsonRules, risk: JsonRisk)

  // ---------------------------------------------------------------------
  // The parsed `StrategyJson`: periods are integers, defaults filled in.

  datatype Operand = Operand(indicator: string, period: nat)
  datatype ConditionJson = ConditionJson(left: Operand, operator: string, right: Option<Operand>, value: Option<real>)
  datatype RulesJson = RulesJson(all: Option<seq<ConditionJson>>, any: Option<seq<ConditionJson>>)
  datatype StrategyJson = StrategyJson(symbol: string, timeframe: string, entry: RulesJson, exit: RulesJson, risk: JsonRisk)

  datatype SchemaError = InvalidStrategy

  /** `.int()`: no fractional part. */
  predicate IsInteger(x: real) {
    x == x.Floor as real
  }

  /** `IndicatorOperand`: a known indicator and a period that is an integer in 1..500. */
  predicate ValidOperand(o: JsonOperand) {
    o.indicator in Indicators && IsInteger(o.period) && 0.0 < o.period <= 500.0
  }

  /**
   * The `refine` rule: `>` and `<` need a value or a right operand; a cross
   * needs a right operand and a falsy value, so an explicit 0 is accepted.
   */
  predicate Refine(c: JsonCondition) {
    if c.operator == ">" || c.operator == "<" then c.value.Some? || c.right.Some?
    else if c.operator == "cross_above" || c.operator == "cross_below" then
      c.right.Some? && (c.value.None? || c.value.value == 0.0)
    else true
  }

  /** `EntryExitCondition`. */
  predicate ValidCondition(c: JsonCondition) {
    && ValidOperand(c.left)
    && c.operator in Operators
    && (c.right.Some? ==> ValidOperand(c.right.value))
    && Refine(c)
  }

  /** An optional array of conditions: absent, or every element valid. */
  predicate ValidList(cs: Option<seq<JsonCondition>>) {
    cs.Some? ==> forall i :: 0 <= i < |cs.value| ==> ValidCondition(cs.value[i])
  }

  predicate ValidRules(r: JsonRules) {
    ValidList(r.all) && ValidList(r.any)
  }

  /** Both percentages lie in [0, 100]. */
  predicate ValidRisk(r: JsonRisk) {
    0.0 <= r.stopLossPct <= 100.0 && 0.0 <= r.takeProfitPct <= 100.0
  }

  /** `StrategyJsonSchema`; `symbol` and `timeframe` may be absent. */
  predicate Valid(s: JsonStrategy) {
    ValidRules(s.entry) && ValidRules(s.exit) && ValidRisk(s.risk)
  }

  // ---------------------------------------------------------------------
  // Parsing

  function ParseOperand(o: JsonOperand): Operand
    requires ValidOperand(o)
  {
    Operand(o.indicator, o.period.Floor)
  }

  function ParseCondition(c: JsonCondition): ConditionJson
    requires ValidCondition(c)
  {
    ConditionJson(ParseOperand(c.left), c.operator,
                  if c.right.Some? then Some(ParseOperand(c.right.value)) else None, c.value)
  }

  function ParseList(cs: Option<seq<JsonCondition>>): Option<seq<ConditionJson>>
    requires ValidList(cs)
  {
    match cs
    case None => None
    case Some(l) => Some(seq(|l|, i requires 0 <= i < |l| => ParseCondition(l[i])))
  }

  function ParseRules(r: JsonRules): RulesJson
    requires ValidRules(r)
  {
    RulesJson(ParseList(r.all), ParseList(r.any))
  }

  /** `StrategyJsonSchema.parse`: the document with its defaults, or an error when it breaks a rule. */
  function Parse(s: JsonStrategy): (r: Result<StrategyJson, SchemaError>)
    ensures r.Ok? <==> Valid(s)
    ensures r.Ok? ==> r.value.risk == s.risk
  {
    if Valid(s) then
      Ok(StrategyJson(s.symbol.GetOr(DefaultSymbol), s.timeframe.GetOr(DefaultTimeframe),
                      ParseRules(s.entry), ParseRules(s.exit), s.risk))
    else Err(InvalidStrategy)
  }

  // ---------------------------------------------------------------------
  // Rendering a parsed strategy back as a document

  function RenderOperand(o: Operand): JsonOperand {
    JsonOperand(o.indicator, o.period as real)
  }

  function RenderCondition(c: ConditionJson): JsonCondition {
    JsonCondition(RenderOperand(c.left), c.operator,
                  if c.right.Some? then Some(RenderOperand(c.right.value)) else None, c.value)
  }

  function RenderList(cs: Option<seq<ConditionJson>>): Option<seq<JsonCondition>> {
    match cs
    case None => None
    case Some(l) => Some(seq(|l|, i requires 0 <= i < |l| => RenderCondition(l[i])))
  }

  function RenderRules(r: RulesJson): JsonRules {
    JsonRules(RenderList(r.all), RenderList(r.any))
  }

  function Render(s: StrategyJson): JsonStrategy {
    JsonStrategy(Some(s.symbol), Some(s.timeframe), RenderRules(s.entry), RenderRules(s.exit), s.risk)
  }

  /** A parsed strategy that the schema accepts as a document. */
  predicate ValidJson(s: StrategyJson) {
    Valid(Render(s))
  }

  // ---------------------------------------------------------------------
  // Properties

  lemma RenderParseOperand(o: JsonOperand)
    requires ValidOperand(o)
    ensures RenderOperand(ParseOperand(o)) == o
  {
  }

  lemma RenderParseCondition(c: JsonCondition)
    requires ValidCondition(c)
    ensures RenderCondition(ParseCondition(c)) == c
  {
    RenderParseOperand(c.left);
    if c.right.Some? {
      RenderParseOperand(c.right.value);
    }
  }

  lemma RenderParseList(cs: Option<seq<JsonCondition>>)
    requires ValidList(cs)
    ensures RenderList(ParseList(cs)) == cs
  {
    if cs.Some? {
      var l := cs.value;
      var back := RenderList(ParseList(cs)).value;
      assert |back| == |l|;
      forall i | 0 <= i < |l|
        ensures back[i] == l[i]
      {
        RenderParseCondition(l[i]);
      }
      assert back == l;
    }
  }

  /** Parsing loses nothing but the absence of `symbol` and `timeframe`, which become the defaults. */
  lemma RenderParse(s: JsonStrategy)
    requires Valid(s)
    ensures Render(Parse(s).value) ==
      s.(symbol := Some(s.symbol.GetOr(DefaultSymbol)), timeframe := Some(s.timeframe.GetOr(DefaultTimeframe)))
  {
    RenderParseList(s.entry.all);
    RenderParseList(s.entry.any);
    RenderParseList(s.exit.all);
    RenderParseList(s.exit.any);
  }

  lemma ParseRenderList(cs: Option<seq<ConditionJson>>)
    requires ValidList(RenderList(cs))
    ensures ParseList(RenderList(cs)) == cs
  {
    if cs.Some? {
      var l := cs.value;
      var r := RenderList(cs).value;
      var back := ParseList(RenderList(cs)).value;
      forall i | 0 <= i < |l|
        ensures back[i] == l[i]
      {
        assert r[i] == RenderCondition(l[i]);
        assert ValidCondition(r[i]);
      }
      assert |back| == |l|;
      assert back == l;
    }
  }

  /** A parsed strategy the schema accepts parses back to itself. */
  lemma ParseRender(s: StrategyJson)
    requires ValidJson(s)
    ensures Parse(Render(s)) == Ok(s)
  {
    ParseRenderList(s.entry.all);
    ParseRenderList(s.entry.any);
    ParseRenderList(s.exit.all);
    ParseRenderList(s.exit.any);
  }

  /** What a successful parse produces is itself a valid strategy. */
  lemma ParsedIsValid(s: JsonStrategy)
    requires Parse(s).Ok?
    ensures ValidJson(Parse(s).value)
  {
    RenderParse(s);
    var t := Parse(s).value;
    assert Render(t).entry == s.entry && Render(t).exit == s.exit && Render(t).risk == s.risk;
  }

  /** Absent `symbol` and `timeframe` parse as `BTCUSDT` and `1h`; given ones are kept. */
  lemma ParseDefaults(s: JsonStrategy)
    requires Valid(s)
    ensures s.symbol.None? ==> Parse(s).value.symbol == "BTCUSDT"
    ensures s.timeframe.None? ==> Parse(s).value.timeframe == "1h"
    ensures s.symbol.Some? ==> Parse(s).value.symbol == s.symbol.value
    ensures s.timeframe.Some? ==> Parse(s).value.timeframe == s.timeframe.value
  {
  }

  /** Periods: integers from 1 to 500 are accepted; 0, 501 and 14.5 are not. */
  lemma PeriodBounds(name: string)
    requires name in Indicators
    ensures ValidOperand(JsonOperand(name, 1.0)) && ValidOperand(JsonOperand(name, 500.0))
    ensures !ValidOperand(JsonOperand(name, 0.0)) && !ValidOperand(JsonOperand(name, 501.0))
    ensures !ValidOperand(JsonOperand(name, 14.5))
  {
    assert (14.5).Floor == 14;
  }

  /** A valid operand's period parses to the same number, between 1 and 500. */
  lemma ParsedPeriod(o: JsonOperand)
    requires ValidOperand(o)
    ensures 1 <= ParseOperand(o).period <= 500 && ParseOperand(o).period as real == o.period
  {
  }

  /** A cross is accepted with a right operand and no value or a zero value, but not with a non-zero value or without a right operand. */
  lemma CrossNeedsRightAndFalsyValue(left: JsonOperand, right: JsonOperand, op: string, v: real)
    requires ValidOperand(left) && ValidOperand(right) && op in {"cross_above", "cross_below"}
    ensures ValidCondition(JsonCondition(left, op, Some(right), None))
    ensures ValidCondition(JsonCondition(left, op, Some(right), Some(0.0)))
    ensures v != 0.0 ==> !ValidCondition(JsonCondition(left, op, Some(right), Some(v)))
    ensures !ValidCondition(JsonCondition(left, op, None, None))
  {
  }

  /** A comparison is accepted exactly when it has a value or a right operand. */
  lemma ComparisonNeedsOperand(c: JsonCondition)
    requires ValidOperand(c.left) && (c.right.Some? ==> ValidOperand(c.right.value)) && c.operator in {">", "<"}
    ensures ValidCondition(c) <==> c.value.Some? || c.right.Some?
  {
  }

  /** Operators outside the four, such as `>=`, are rejected. */
  lemma UnknownOperatorRejected(c: JsonCondition)
    requires c.operator !in Operators
    ensures !ValidCondition(c)
  {
  }
}
