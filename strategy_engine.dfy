/**
 * The rule evaluator of lib/services/strategyEngine.ts: conditions compare
 * an indicator's value at a bar with another indicator or a fixed number,
 * and a rule set combines an `all` list and an `any` list.
 */
module StrategyEngine {
  import opened Wrappers
  import opened Types
  import opened IndicatorKeys

  /**
   * `getVal`: the value of an indicator at bar `idx`. A key missing from
   * the map, an index past the series and a warm-up null all give None.
   */
  function GetVal(m: IndicatorMap, r: IndicatorRef, idx: nat): (v: Option<real>)
    ensures v.Some? ==> KeyOf(r) in m && idx < |m[KeyOf(r)].values| && m[KeyOf(r)].values[idx].value == v
  {
    var key := KeyOf(r);
    if key !in m then None
    else if idx < |m[key].values| then m[key].values[idx].value
    else None
  }

  /** The value at the previous bar; there is none at bar 0. */
  function PrevVal(m: IndicatorMap, r: IndicatorRef, idx: nat): Option<real> {
    if idx > 0 then GetVal(m, r, idx - 1) else None
  }

  function CrossedUp(aPrev: Option<real>, a: Option<real>, bPrev: Option<real>, b: Option<real>): bool {
    if aPrev.None? || a.None? || bPrev.None? || b.None? then false
    else aPrev.value <= bPrev.value && a.value > b.value
  }

  function CrossedDown(aPrev: Option<real>, a: Option<real>, bPrev: Option<real>, b: Option<real>): bool {
    if aPrev.None? || a.None? || bPrev.None? || b.None? then false
    else aPrev.value >= bPrev.value && a.value < b.value
  }

  /** A relational operator applied to two possibly-null operands; null on either side is false. */
  function Compare(op: Op, l: Option<real>, r: Option<real>): bool {
    if l.None? || r.None? then false
    else
      match op
      case Gt => l.value > r.value
      case Lt => l.value < r.value
      case Ge => l.value >= r.value
      case Le => l.value <= r.value
      case _ => false
  }

  /** `evalCondition`: against `compareWith` when it is present, otherwise against `value`. */
  function EvalCondition(c: Condition, m: IndicatorMap, idx: nat): bool {
    Judge(c.op, c.value, c.compareWith, m, idx, GetVal(m, c.left, idx), PrevVal(m, c.left, idx))
  }

  /** The verdict of `evalCondition` once the left operand's current and previous values are read. */
  function Judge(op: Op, value: Option<real>, compareWith: Option<IndicatorRef>, m: IndicatorMap, idx: nat,
                 left: Option<real>, leftPrev: Option<real>): bool {
    match compareWith
    case Some(other) =>
      var right := GetVal(m, other, idx);
      var rightPrev := PrevVal(m, other, idx);
      (match op
       case CrossUp => CrossedUp(leftPrev, left, rightPrev, right)
       case CrossDown => CrossedDown(leftPrev, left, rightPrev, right)
       case _ => Compare(op, left, right))
    case None =>
      (match op
       case CrossUp => false
       case CrossDown => false
       case _ => Compare(op, left, value))
  }

  predicate AllHold(cs: seq<Condition>, m: IndicatorMap, idx: nat) {
    forall i :: 0 <= i < |cs| ==> EvalCondition(cs[i], m, idx)
  }

  predicate SomeHolds(cs: seq<Condition>, m: IndicatorMap, idx: nat) {
    exists i :: 0 <= i < |cs| && EvalCondition(cs[i], m, idx)
  }

  /**
   * `evalRules`: an undefined rule set is false; an absent `all` is true;
   * an absent or empty `any` is true as well; the result is the conjunction.
   */
  function EvalRules(rules: Option<RuleSet>, m: IndicatorMap, idx: nat): bool {
    match rules
    case None => false
    case Some(rs) =>
      var all := if rs.all.Some? then AllHold(rs.all.value, m, idx) else true;
      var anyList := rs.any.GetOr([]);
      var any := if |anyList| > 0 then SomeHolds(anyList, m, idx) else true;
      all && any
  }

  // ---------------------------------------------------------------------
  // Properties

  /** A cross holds exactly when all four values are present and the left line passes the right one. */
  lemma CrossedUpIff(aPrev: Option<real>, a: Option<real>, bPrev: Option<real>, b: Option<real>)
    ensures CrossedUp(aPrev, a, bPrev, b) <==>
      aPrev.Some? && a.Some? && bPrev.Some? && b.Some? && aPrev.value <= bPrev.value && a.value > b.value
    ensures CrossedDown(aPrev, a, bPrev, b) <==>
      aPrev.Some? && a.Some? && bPrev.Some? && b.Some? && aPrev.value >= bPrev.value && a.value < b.value
  {
  }

  /**
   * A cross up at bar `idx` is the same condition read as `<=` at the
   * previous bar together with `>` at `idx`, on the same two operands.
   */
  lemma CrossUpIsComparisonPair(c: Condition, m: IndicatorMap, idx: nat)
    requires c.op == CrossUp && c.compareWith.Some? && idx > 0
    ensures EvalCondition(c, m, idx) <==> EvalCondition(c.(op := Le), m, idx - 1) && EvalCondition(c.(op := Gt), m, idx)
  {
    var other := c.compareWith.value;
    var l0, l1 := GetVal(m, c.left, idx - 1), GetVal(m, c.left, idx);
    var r0, r1 := GetVal(m, other, idx - 1), GetVal(m, other, idx);
    assert EvalCondition(c, m, idx) == CrossedUp(l0, l1, r0, r1);
    assert EvalCondition(c.(op := Le), m, idx - 1) == Compare(Le, l0, r0);
    assert EvalCondition(c.(op := Gt), m, idx) == Compare(Gt, l1, r1);
  }

  /** A cross down at bar `idx` is `>=` at the previous bar together with `<` at `idx`. */
  lemma CrossDownIsComparisonPair(c: Condition, m: IndicatorMap, idx: nat)
    requires c.op == CrossDown && c.compareWith.Some? && idx > 0
    ensures EvalCondition(c, m, idx) <==> EvalCondition(c.(op := Ge), m, idx - 1) && EvalCondition(c.(op := Lt), m, idx)
  {
    var other := c.compareWith.value;
    var l0, l1 := GetVal(m, c.left, idx - 1), GetVal(m, c.left, idx);
    var r0, r1 := GetVal(m, other, idx - 1), GetVal(m, other, idx);
    assert EvalCondition(c, m, idx) == CrossedDown(l0, l1, r0, r1);
    assert EvalCondition(c.(op := Ge), m, idx - 1) == Compare(Ge, l0, r0);
    assert EvalCondition(c.(op := Lt), m, idx) == Compare(Lt, l1, r1);
  }

  /** The two crosses never hold together for the same operands. */
  lemma CrossesExclusive(aPrev: Option<real>, a: Option<real>, bPrev: Option<real>, b: Option<real>)
    ensures !(CrossedUp(aPrev, a, bPrev, b) && CrossedDown(aPrev, a, bPrev, b))
  {
  }

  /** The same holds of whole conditions that differ only in their cross direction. */
  lemma CrossConditionsExclusive(c: Condition, m: IndicatorMap, idx: nat)
    ensures !(EvalCondition(c.(op := CrossUp), m, idx) && EvalCondition(c.(op := CrossDown), m, idx))
  {
  }

  /** At the first bar there is no previous value, so no cross can hold. */
  lemma NoCrossAtFirstBar(c: Condition, m: IndicatorMap)
    requires c.op == CrossUp || c.op == CrossDown
    ensures !EvalCondition(c, m, 0)
  {
  }

  /** Without `compareWith`, a cross operator is false. */
  lemma CrossNeedsCompareWith(c: Condition, m: IndicatorMap, idx: nat)
    requires c.compareWith.None? && (c.op == CrossUp || c.op == CrossDown)
    ensures !EvalCondition(c, m, idx)
  {
  }

  /** So is an operator the switch does not know. */
  lemma UnknownOperatorFalse(c: Condition, m: IndicatorMap, idx: nat)
    requires c.op.OtherOp?
    ensures !EvalCondition(c, m, idx)
  {
  }

  /** With `compareWith` present, `value` plays no part. */
  lemma ValueIgnoredWithCompareWith(c: Condition, v: Option<real>, m: IndicatorMap, idx: nat)
    requires c.compareWith.Some?
    ensures EvalCondition(c.(value := v), m, idx) == EvalCondition(c, m, idx)
  {
  }

  /** A null left operand (missing key, past the end or warm-up) makes any condition false. */
  lemma NullLeftFalse(c: Condition, m: IndicatorMap, idx: nat)
    requires GetVal(m, c.left, idx).None?
    ensures !EvalCondition(c, m, idx)
  {
  }

  /** So does a null `compareWith` operand. */
  lemma NullRightFalse(c: Condition, m: IndicatorMap, idx: nat)
    requires c.compareWith.Some? && GetVal(m, c.compareWith.value, idx).None?
    ensures !EvalCondition(c, m, idx)
  {
  }

  /** So does a missing fixed value when there is no `compareWith`. */
  lemma NullValueFalse(c: Condition, m: IndicatorMap, idx: nat)
    requires c.compareWith.None? && c.value.None?
    ensures !EvalCondition(c, m, idx)
  {
  }

  /** A condition that holds reads an indicator present in the map, at an index inside its series. */
  lemma HoldsReadsPresentSeries(c: Condition, m: IndicatorMap, idx: nat)
    requires EvalCondition(c, m, idx)
    ensures KeyOf(c.left) in m && idx < |m[KeyOf(c.left)].values|
    ensures c.compareWith.Some? ==> KeyOf(c.compareWith.value) in m
  {
  }

  /** Against a fixed value, the four relational operators mean what they say once both sides are present. */
  lemma FixedValueComparison(c: Condition, m: IndicatorMap, idx: nat)
    requires c.compareWith.None? && c.op in {Gt, Lt, Ge, Le}
    ensures EvalCondition(c, m, idx) <==>
      var l := GetVal(m, c.left, idx);
      && l.Some? && c.value.Some?
      && (c.op == Gt ==> l.value > c.value.value)
      && (c.op == Lt ==> l.value < c.value.value)
      && (c.op == Ge ==> l.value >= c.value.value)
      && (c.op == Le ==> l.value <= c.value.value)
  {
  }

  /** The order in which a condition lists its parameters does not change its value. */
  lemma ParamOrderIrrelevant(c: Condition, ps: Params, m: IndicatorMap, idx: nat)
    requires DistinctNames(c.left.params) && DistinctNames(ps)
    requires multiset(ps) == multiset(c.left.params)
    ensures EvalCondition(c.(left := c.left.(params := ps)), m, idx) == EvalCondition(c, m, idx)
  {
    KeyFromOrderIndependent(c.left.kind, ps, c.left.params);
    LeftByKey(c, c.left.(params := ps), m, idx);
  }

  /** A condition reads its left operand only through the operand's key. */
  lemma LeftByKey(c: Condition, r: IndicatorRef, m: IndicatorMap, idx: nat)
    requires KeyOf(r) == KeyOf(c.left)
    ensures EvalCondition(c.(left := r), m, idx) == EvalCondition(c, m, idx)
  {
    assert GetVal(m, r, idx) == GetVal(m, c.left, idx);
    assert PrevVal(m, r, idx) == PrevVal(m, c.left, idx);
  }

  /** `evalRules(undefined, …)` is false. */
  lemma UndefinedRulesFalse(m: IndicatorMap, idx: nat)
    ensures !EvalRules(None, m, idx)
  {
  }

  /** `{}` and `{all: [], any: []}` hold at every bar. */
  lemma EmptyRulesTrue(m: IndicatorMap, idx: nat)
    ensures EvalRules(Some(RuleSet(None, None)), m, idx)
    ensures EvalRules(Some(RuleSet(Some([]), Some([]))), m, idx)
  {
  }

  /** The meaning of a defined rule set: every `all` condition and, when `any` is non-empty, one of its conditions. */
  lemma EvalRulesMeaning(rs: RuleSet, m: IndicatorMap, idx: nat)
    ensures EvalRules(Some(rs), m, idx) <==>
      && (rs.all.Some? ==> forall c :: c in rs.all.value ==> EvalCondition(c, m, idx))
      && (rs.any.Some? && rs.any.value != [] ==> exists c :: c in rs.any.value && EvalCondition(c, m, idx))
  {
    if rs.all.Some? {
      var cs := rs.all.value;
      assert (forall c :: c in cs ==> EvalCondition(c, m, idx)) <==> AllHold(cs, m, idx) by {
        if AllHold(cs, m, idx) {
          forall c | c in cs
            ensures EvalCondition(c, m, idx)
          {
            var i :| 0 <= i < |cs| && cs[i] == c;
          }
        }
      }
    }
    if rs.any.Some? && rs.any.value != [] {
      var cs := rs.any.value;
      assert (exists c :: c in cs && EvalCondition(c, m, idx)) <==> SomeHolds(cs, m, idx) by {
        if exists c :: c in cs && EvalCondition(c, m, idx) {
          var c :| c in cs && EvalCondition(c, m, idx);
          var i :| 0 <= i < |cs| && cs[i] == c;
        }
      }
    }
  }

  /** A rule set with a single `all` condition is that condition. */
  lemma SingleConditionRules(c: Condition, m: IndicatorMap, idx: nat)
    ensures EvalRules(Some(RuleSet(Some([c]), None)), m, idx) == EvalCondition(c, m, idx)
    ensures EvalRules(Some(RuleSet(None, Some([c]))), m, idx) == EvalCondition(c, m, idx)
  {
    assert [c][0] == c;
    assert AllHold([c], m, idx) == EvalCondition(c, m, idx);
    assert SomeHolds([c], m, idx) == EvalCondition(c, m, idx) by {
      if EvalCondition(c, m, idx) {
        assert [c][0] == c;
      }
    }
  }
}
