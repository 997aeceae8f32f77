/**
 * The metrics tail of `backtest` (lib/services/backtestEngine.ts): filters
 * and reductions over the closed trades and the equity curve.
 */
module BacktestMetrics {
  import opened Wrappers
  import opened Types
  import opened IndicatorMath

  /** `t.pnl ?? 0`. */
  function PnlOf(t: Trade): real {
    t.pnl.GetOr(0.0)
  }

  /** `trades.filter(t => (t.pnl ?? 0) > 0)`. */
  function Wins(ts: seq<Trade>): (r: seq<Trade>)
    ensures |r| <= |ts|
  {
    if ts == [] then []
    else
      var last := ts[|ts| - 1];
      Wins(ts[..|ts| - 1]) + (if PnlOf(last) > 0.0 then [last] else [])
  }

  /** `trades.filter(t => (t.pnl ?? 0) <= 0)`: a zero result counts as a loss. */
  function Losses(ts: seq<Trade>): (r: seq<Trade>)
    ensures |r| <= |ts|
  {
    if ts == [] then []
    else
      var last := ts[|ts| - 1];
      Losses(ts[..|ts| - 1]) + (if PnlOf(last) <= 0.0 then [last] else [])
  }

  /** `reduce((s, t) => s + (t.pnl ?? 0), 0)`. */
  function SumPnl(ts: seq<Trade>): real {
    if ts == [] then 0.0 else SumPnl(ts[..|ts| - 1]) + PnlOf(ts[|ts| - 1])
  }

  /** `Math.max(...ts.map(pnl))` on a non-empty list. */
  function MaxPnl(ts: seq<Trade>): real
    requires ts != []
  {
    if |ts| == 1 then PnlOf(ts[0])
    else
      var m := MaxPnl(ts[..|ts| - 1]);
      var p := PnlOf(ts[|ts| - 1]);
      if p > m then p else m
  }

  /** `Math.min(...ts.map(pnl))` on a non-empty list. */
  function MinPnl(ts: seq<Trade>): real
    requires ts != []
  {
    if |ts| == 1 then PnlOf(ts[0])
    else
      var m := MinPnl(ts[..|ts| - 1]);
      var p := PnlOf(ts[|ts| - 1]);
      if p < m then p else m
  }

  /** `equity.reduce((m, e) => Math.max(m, e.equity), start)`. */
  function MaxEquity(eq: seq<EquityPoint>, start: real): real {
    if eq == [] then start
    else
      var m := MaxEquity(eq[..|eq| - 1], start);
      var e := eq[|eq| - 1].equity;
      if m >= e then m else e
  }

  /** `equity.reduce((m, e) => Math.min(m, e.equity), start)`. */
  function MinEquity(eq: seq<EquityPoint>, start: real): real {
    if eq == [] then start
    else
      var m := MinEquity(eq[..|eq| - 1], start);
      var e := eq[|eq| - 1].equity;
      if m <= e then m else e
  }

  /** `list.length ? list.reduce(sum of pnl) / list.length : 0`. */
  function AveragePnl(ts: seq<Trade>): real {
    if |ts| > 0 then SumPnl(ts) / |ts| as real else 0.0
  }

  /** `trades.length ? (wins.length / trades.length) * 100 : 0`. */
  function WinRate(wins: nat, total: nat): (r: real)
    ensures wins <= total ==> 0.0 <= r <= 100.0
    ensures total == 0 ==> r == 0.0
  {
    if total > 0 then
      assert wins <= total ==> 0.0 <= wins as real / total as real <= 1.0 by {
        if wins <= total {
          DivBounds(wins as real, total as real, 0.0, 1.0);
        }
      }
      (wins as real / total as real) * 100.0
    else 0.0
  }

  /**
   * The metrics record. The source divides by `capital0` unguarded, so a
   * zero initial capital is excluded; the `isFinite` guard on the drawdown
   * percentage is the case `maxEquity == 0`, the only one in which the
   * division is not finite.
   */
  function ComputeMetrics(trades: seq<Trade>, equity: seq<EquityPoint>, capital0: real, finalCapital: real): Metrics
    requires capital0 != 0.0
  {
    var wins := Wins(trades);
    var losses := Losses(trades);
    var maxEquity := MaxEquity(equity, capital0);
    var minEquity := MinEquity(equity, capital0);
    var maxDrawdown := maxEquity - minEquity;
    Metrics(
      totalTrades := |trades|,
      winningTrades := |wins|,
      losingTrades := |losses|,
      winRate := WinRate(|wins|, |trades|),
      totalPnL := SumPnl(trades),
      totalPnLPercent := ((finalCapital - capital0) / capital0) * 100.0,
      maxDrawdown := maxDrawdown,
      maxDrawdownPercent := if maxEquity == 0.0 then 0.0 else (maxDrawdown / maxEquity) * 100.0,
      averageWin := AveragePnl(wins),
      averageLoss := AveragePnl(losses),
      largestWin := if |wins| > 0 then MaxPnl(wins) else 0.0,
      largestLoss := if |losses| > 0 then MinPnl(losses) else 0.0,
      finalCapital := finalCapital)
  }

  // ---------------------------------------------------------------------
  // Properties

  lemma SumPnlSnoc(ts: seq<Trade>, t: Trade)
    ensures SumPnl(ts + [t]) == SumPnl(ts) + PnlOf(t)
  {
    assert (ts + [t])[..|ts|] == ts;
  }

  lemma BucketsSnoc(ts: seq<Trade>)
    requires ts != []
    ensures var init, last := ts[..|ts| - 1], ts[|ts| - 1];
      && (PnlOf(last) > 0.0 ==> Wins(ts) == Wins(init) + [last] && Losses(ts) == Losses(init))
      && (PnlOf(last) <= 0.0 ==> Wins(ts) == Wins(init) && Losses(ts) == Losses(init) + [last])
  {
    var init := ts[..|ts| - 1];
    assert Wins(init) + [] == Wins(init);
    assert Losses(init) + [] == Losses(init);
  }

  /** Every trade is a win or a loss and not both; the total P&L is the sum over both buckets. */
  lemma {:induction false} WinsLossesPartition(ts: seq<Trade>)
    ensures |Wins(ts)| + |Losses(ts)| == |ts|
    ensures SumPnl(Wins(ts)) + SumPnl(Losses(ts)) == SumPnl(ts)
    decreases |ts|
  {
    if ts != [] {
      var init := ts[..|ts| - 1];
      var last := ts[|ts| - 1];
      WinsLossesPartition(init);
      BucketsSnoc(ts);
      SumPnlSnoc(Wins(init), last);
      SumPnlSnoc(Losses(init), last);
    }
  }

  /** The buckets hold trades of the list. */
  lemma {:induction false} BucketMembers(ts: seq<Trade>)
    ensures forall t :: t in Wins(ts) ==> t in ts
    ensures forall t :: t in Losses(ts) ==> t in ts
    decreases |ts|
  {
    if ts != [] {
      var init := ts[..|ts| - 1];
      BucketMembers(init);
      BucketsSnoc(ts);
      assert forall t :: t in init ==> t in ts;
    }
  }

  /** A win has a positive result and a loss a non-positive one. */
  lemma {:induction false} BucketSigns(ts: seq<Trade>)
    ensures forall i :: 0 <= i < |Wins(ts)| ==> PnlOf(Wins(ts)[i]) > 0.0
    ensures forall i :: 0 <= i < |Losses(ts)| ==> PnlOf(Losses(ts)[i]) <= 0.0
    decreases |ts|
  {
    if ts != [] {
      BucketSigns(ts[..|ts| - 1]);
      BucketsSnoc(ts);
    }
  }

  /** Wins sum to a positive amount and losses to a non-positive one. */
  lemma {:induction false} SumPnlSigns(ts: seq<Trade>)
    ensures Wins(ts) != [] ==> SumPnl(Wins(ts)) > 0.0
    ensures SumPnl(Losses(ts)) <= 0.0
    decreases |ts|
  {
    if ts != [] {
      var init := ts[..|ts| - 1];
      var last := ts[|ts| - 1];
      SumPnlSigns(init);
      BucketsSnoc(ts);
      SumPnlSnoc(Wins(init), last);
      SumPnlSnoc(Losses(init), last);
    }
  }

  /** The largest value bounds every element and is one of them. */
  lemma {:induction false} MaxPnlIsMaximum(ts: seq<Trade>)
    requires ts != []
    ensures forall i :: 0 <= i < |ts| ==> PnlOf(ts[i]) <= MaxPnl(ts)
    ensures exists i :: 0 <= i < |ts| && PnlOf(ts[i]) == MaxPnl(ts)
    decreases |ts|
  {
    if |ts| > 1 {
      var init := ts[..|ts| - 1];
      MaxPnlIsMaximum(init);
      assert forall i :: 0 <= i < |init| ==> init[i] == ts[i];
      if PnlOf(ts[|ts| - 1]) > MaxPnl(init) {
        assert PnlOf(ts[|ts| - 1]) == MaxPnl(ts);
      } else {
        var j :| 0 <= j < |init| && PnlOf(init[j]) == MaxPnl(init);
        assert PnlOf(ts[j]) == MaxPnl(ts);
      }
    } else {
      assert PnlOf(ts[0]) == MaxPnl(ts);
    }
  }

  /** The smallest value bounds every element from below and is one of them. */
  lemma {:induction false} MinPnlIsMinimum(ts: seq<Trade>)
    requires ts != []
    ensures forall i :: 0 <= i < |ts| ==> MinPnl(ts) <= PnlOf(ts[i])
    ensures exists i :: 0 <= i < |ts| && PnlOf(ts[i]) == MinPnl(ts)
    decreases |ts|
  {
    if |ts| > 1 {
      var init := ts[..|ts| - 1];
      MinPnlIsMinimum(init);
      assert forall i :: 0 <= i < |init| ==> init[i] == ts[i];
      if PnlOf(ts[|ts| - 1]) < MinPnl(init) {
        assert PnlOf(ts[|ts| - 1]) == MinPnl(ts);
      } else {
        var j :| 0 <= j < |init| && PnlOf(init[j]) == MinPnl(init);
        assert PnlOf(ts[j]) == MinPnl(ts);
      }
    } else {
      assert PnlOf(ts[0]) == MinPnl(ts);
    }
  }

  /** A sum lies between the count times any lower bound and the count times any upper bound. */
  lemma {:induction false} SumPnlBounds(ts: seq<Trade>, lo: real, hi: real)
    requires forall i :: 0 <= i < |ts| ==> lo <= PnlOf(ts[i]) <= hi
    ensures |ts| as real * lo <= SumPnl(ts) <= |ts| as real * hi
    decreases |ts|
  {
    if ts != [] {
      var init := ts[..|ts| - 1];
      assert forall i :: 0 <= i < |init| ==> init[i] == ts[i];
      SumPnlBounds(init, lo, hi);
      var n := |init| as real;
      assert (n + 1.0) * lo == n * lo + lo;
      assert (n + 1.0) * hi == n * hi + hi;
    }
  }

  /** The maximum fold is at least its start and every point, and is one of them. */
  lemma {:induction false} MaxEquityBounds(eq: seq<EquityPoint>, start: real)
    ensures MaxEquity(eq, start) >= start
    ensures forall i :: 0 <= i < |eq| ==> MaxEquity(eq, start) >= eq[i].equity
    ensures MaxEquity(eq, start) == start || exists i :: 0 <= i < |eq| && MaxEquity(eq, start) == eq[i].equity
    decreases |eq|
  {
    if eq != [] {
      MaxEquityBounds(eq[..|eq| - 1], start);
    }
  }

  /** The minimum fold is at most its start and every point, and is one of them. */
  lemma {:induction false} MinEquityBounds(eq: seq<EquityPoint>, start: real)
    ensures MinEquity(eq, start) <= start
    ensures forall i :: 0 <= i < |eq| ==> MinEquity(eq, start) <= eq[i].equity
    ensures MinEquity(eq, start) == start || exists i :: 0 <= i < |eq| && MinEquity(eq, start) == eq[i].equity
    decreases |eq|
  {
    if eq != [] {
      MinEquityBounds(eq[..|eq| - 1], start);
    }
  }

  /** Counting: wins and losses add up to the total and the win rate is a percentage. */
  lemma MetricsCounts(trades: seq<Trade>, equity: seq<EquityPoint>, capital0: real, finalCapital: real)
    requires capital0 != 0.0
    ensures var m := ComputeMetrics(trades, equity, capital0, finalCapital);
      && m.totalTrades == |trades|
      && m.winningTrades + m.losingTrades == m.totalTrades
      && 0.0 <= m.winRate <= 100.0
      && (m.totalTrades == 0 ==> m.winRate == 0.0)
  {
    WinsLossesPartition(trades);
  }

  /** The global drawdown is non-negative, and its percentage lies in [0, 100] when all equity is non-negative. */
  lemma MetricsDrawdown(trades: seq<Trade>, equity: seq<EquityPoint>, capital0: real, finalCapital: real)
    requires capital0 != 0.0
    ensures var m := ComputeMetrics(trades, equity, capital0, finalCapital);
      && m.maxDrawdown >= 0.0
      && m.maxDrawdown == MaxEquity(equity, capital0) - MinEquity(equity, capital0)
      && (MaxEquity(equity, capital0) == 0.0 ==> m.maxDrawdownPercent == 0.0)
      && (capital0 > 0.0 && (forall i :: 0 <= i < |equity| ==> equity[i].equity >= 0.0) ==>
            0.0 <= m.maxDrawdownPercent <= 100.0)
  {
    MaxEquityBounds(equity, capital0);
    MinEquityBounds(equity, capital0);
    var hi := MaxEquity(equity, capital0);
    var lo := MinEquity(equity, capital0);
    if capital0 > 0.0 && (forall i :: 0 <= i < |equity| ==> equity[i].equity >= 0.0) {
      DivBounds(hi - lo, hi, 0.0, 1.0);
    }
  }

  lemma AverageBounds(sum: real, n: real, hi: real)
    requires n >= 1.0 && 0.0 < sum <= n * hi
    ensures 0.0 < sum / n <= hi
  {
    DivBounds(sum, n, 0.0, hi);
    var q := sum / n;
    assert sum == q * n;
  }

  /** The average of a non-empty list of positive results is positive and at most the largest. */
  lemma PositiveAverage(ws: seq<Trade>)
    requires ws != [] && forall i :: 0 <= i < |ws| ==> PnlOf(ws[i]) > 0.0
    ensures 0.0 < SumPnl(ws) / |ws| as real <= MaxPnl(ws)
  {
    var n := |ws| as real;
    MaxPnlIsMaximum(ws);
    MinPnlIsMinimum(ws);
    var lo, hi := MinPnl(ws), MaxPnl(ws);
    SumPnlBounds(ws, lo, hi);
    assert n * lo > 0.0;
    AverageBounds(SumPnl(ws), n, hi);
  }

  lemma WinsAverage(trades: seq<Trade>)
    ensures var wins := Wins(trades);
      wins != [] ==> 0.0 < SumPnl(wins) / |wins| as real <= MaxPnl(wins)
  {
    BucketSigns(trades);
    if Wins(trades) != [] {
      PositiveAverage(Wins(trades));
    }
  }

  /** Winners: 0 for an empty bucket; otherwise the average win is positive and at most the largest win. */
  lemma MetricsWins(trades: seq<Trade>, equity: seq<EquityPoint>, capital0: real, finalCapital: real)
    requires capital0 != 0.0
    ensures var m := ComputeMetrics(trades, equity, capital0, finalCapital);
      && (m.winningTrades == 0 ==> m.largestWin == 0.0 && m.averageWin == 0.0)
      && (m.winningTrades > 0 ==> 0.0 < m.averageWin <= m.largestWin)
  {
    WinsAverage(trades);
  }

  /** Losers: 0 for an empty bucket; otherwise the largest loss is at most the average loss, which is at most 0. */
  lemma MetricsLosses(trades: seq<Trade>, equity: seq<EquityPoint>, capital0: real, finalCapital: real)
    requires capital0 != 0.0
    ensures var m := ComputeMetrics(trades, equity, capital0, finalCapital);
      && (m.losingTrades == 0 ==> m.largestLoss == 0.0 && m.averageLoss == 0.0)
      && m.largestLoss <= m.averageLoss <= 0.0
  {
    BucketSigns(trades);
    LossBucketBounds(Losses(trades));
  }

  /** The average of a non-empty list of results at most 0 lies between the smallest of them and 0. */
  lemma LossBucketBounds(ls: seq<Trade>)
    requires forall i :: 0 <= i < |ls| ==> PnlOf(ls[i]) <= 0.0
    ensures ls != [] ==> MinPnl(ls) <= AveragePnl(ls) <= 0.0
  {
    if ls != [] {
      MinPnlIsMinimum(ls);
      SumPnlBounds(ls, MinPnl(ls), 0.0);
      DivBounds(SumPnl(ls), |ls| as real, MinPnl(ls), 0.0);
    }
  }

  /** The return percentage is the relative change of capital. */
  lemma MetricsReturn(trades: seq<Trade>, equity: seq<EquityPoint>, capital0: real, finalCapital: real)
    requires capital0 != 0.0
    ensures var m := ComputeMetrics(trades, equity, capital0, finalCapital);
      && m.finalCapital == finalCapital
      && finalCapital == capital0 * (1.0 + m.totalPnLPercent / 100.0)
  {
  }
}
