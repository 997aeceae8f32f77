/**
 * The indicator series of lib/services/indicatorEngine.ts as functions of
 * the input prices, one value per index: the reference definitions that the
 * engine's loops are proved against, and what they guarantee.
 * A `None` entry is the source's `null` (warming up).
 */
module IndicatorMath {
  import opened Wrappers

  function Max(a: real, b: real): real { if a >= b then a else b }

  function Sum(s: seq<real>): real {
    if s == [] then 0.0 else Sum(s[..|s| - 1]) + s[|s| - 1]
  }

  lemma {:induction false} SumDropFirst(s: seq<real>)
    requires s != []
    ensures Sum(s) == s[0] + Sum(s[1..])
  {
    if |s| > 1 {
      assert s[1..][..|s[1..]| - 1] == s[..|s| - 1][1..];
      SumDropFirst(s[..|s| - 1]);
    }
  }

  lemma {:induction false} SumBounds(s: seq<real>, lo: real, hi: real)
    requires forall j :: 0 <= j < |s| ==> lo <= s[j] <= hi
    ensures |s| as real * lo <= Sum(s) <= |s| as real * hi
  {
    if s != [] {
      SumBounds(s[..|s| - 1], lo, hi);
    }
  }

  // ---------------------------------------------------------------------
  // SMA: the mean of the last `period` values, from index period-1 on.

  function SmaAt(values: seq<real>, period: nat, i: nat): Option<real>
    requires period >= 1 && i < |values|
  {
    if i + 1 < period then None
    else Some(Sum(values[i + 1 - period..i + 1]) / period as real)
  }

  /** Every SMA value lies between the least and the greatest price of its window. */
  lemma SmaWithinBounds(values: seq<real>, period: nat, i: nat, lo: real, hi: real)
    requires period >= 1 && i < |values|
    requires forall j :: 0 <= j < |values| ==> lo <= values[j] <= hi
    ensures SmaAt(values, period, i).Some? ==> lo <= SmaAt(values, period, i).value <= hi
  {
    if i + 1 >= period {
      var w := values[i + 1 - period..i + 1];
      SumBounds(w, lo, hi);
      DivBounds(Sum(w), period as real, lo, hi);
    }
  }

  lemma DivBounds(x: real, p: real, lo: real, hi: real)
    requires p > 0.0 && p * lo <= x <= p * hi
    ensures lo <= x / p <= hi
  {
    var q := x / p;
    assert x == q * p;
  }

  // ---------------------------------------------------------------------
  // EMA: the recurrence seeded with values[0] at index 0.

  /** The smoothing factor `2 / (period + 1)`. */
  function Alpha(period: nat): (k: real)
    requires period >= 1
    ensures 0.0 < k <= 1.0
  {
    2.0 / (period as real + 1.0)
  }

  /** One exponential smoothing step `x * k + prev * (1 - k)`. */
  function Smooth(x: real, prev: real, k: real): real {
    x * k + prev * (1.0 - k)
  }

  function EmaRun(values: seq<real>, k: real, i: nat): real
    requires i < |values|
  {
    if i == 0 then values[0] else Smooth(values[i], EmaRun(values, k, i - 1), k)
  }

  /** Exposed EMA: never at index 0, and from index period-1 on. */
  function EmaAt(values: seq<real>, period: nat, i: nat): Option<real>
    requires period >= 1 && i < |values|
  {
    if i == 0 || i + 1 < period then None else Some(EmaRun(values, Alpha(period), i))
  }

  /** The recurrence is a running weighted mean: it stays within the range of the prices. */
  lemma {:induction false} EmaRunWithinBounds(values: seq<real>, k: real, i: nat, lo: real, hi: real)
    requires 0.0 < k <= 1.0 && i < |values|
    requires forall j :: 0 <= j <= i ==> lo <= values[j] <= hi
    ensures lo <= EmaRun(values, k, i) <= hi
  {
    if i > 0 {
      EmaRunWithinBounds(values, k, i - 1, lo, hi);
      var prev := EmaRun(values, k, i - 1);
      ConvexStep(values[i], prev, k, lo, hi);
    }
  }

  lemma MulNonNegative(a: real, b: real)
    requires a >= 0.0 && b >= 0.0
    ensures a * b >= 0.0
  {
  }

  /** One smoothing step stays within a range holding both of its inputs. */
  lemma ConvexStep(x: real, prev: real, k: real, lo: real, hi: real)
    requires 0.0 < k <= 1.0 && lo <= x <= hi && lo <= prev <= hi
    ensures lo <= Smooth(x, prev, k) <= hi
  {
    MulNonNegative(x - lo, k);
    MulNonNegative(hi - x, k);
    MulNonNegative(prev - lo, 1.0 - k);
    MulNonNegative(hi - prev, 1.0 - k);
    assert Smooth(x, prev, k) - lo == (x - lo) * k + (prev - lo) * (1.0 - k);
    assert hi - Smooth(x, prev, k) == (hi - x) * k + (hi - prev) * (1.0 - k);
  }

  /** On a constant series every exposed EMA value is that constant. */
  lemma EmaOfConstant(values: seq<real>, period: nat, i: nat, c: real)
    requires period >= 1 && i < |values|
    requires forall j :: 0 <= j < |values| ==> values[j] == c
    ensures EmaAt(values, period, i).Some? ==> EmaAt(values, period, i).value == c
  {
    EmaRunWithinBounds(values, Alpha(period), i, c, c);
  }

  // ---------------------------------------------------------------------
  // RSI: Wilder's smoothing of gains and losses.

  /** The gain (`up`) or loss of the change into index i. */
  function Move(values: seq<real>, i: nat, up: bool): (m: real)
    requires 1 <= i < |values|
    ensures m >= 0.0
  {
    var change := values[i] - values[i - 1];
    if up then Max(change, 0.0) else Max(-change, 0.0)
  }

  /** The sum of the moves into indices 1..n. */
  function MoveSum(values: seq<real>, n: nat, up: bool): real
    requires n < |values|
  {
    if n == 0 then 0.0 else MoveSum(values, n - 1, up) + Move(values, n, up)
  }

  /** One smoothing step: `(avg * (period - 1) + move) / period`. */
  function WilderNext(avg: real, move: real, period: nat): real
    requires period >= 1
  {
    (avg * (period - 1) as real + move) / period as real
  }

  /** Wilder's average at index i: a simple mean at index `period`, then smoothed. */
  function WilderAvg(values: seq<real>, period: nat, i: nat, up: bool): real
    requires 1 <= period <= i < |values|
    decreases i
  {
    if i == period then MoveSum(values, period, up) / period as real
    else WilderNext(WilderAvg(values, period, i - 1, up), Move(values, i, up), period)
  }

  /** `100 - 100 / (1 + rs)`, where a zero average loss makes `rs` infinite. */
  function RsiOf(avgGain: real, avgLoss: real): real
    requires avgGain >= 0.0 && avgLoss >= 0.0
  {
    if avgLoss == 0.0 then 100.0 else 100.0 - 100.0 / (1.0 + avgGain / avgLoss)
  }

  function RsiAt(values: seq<real>, period: nat, i: nat): Option<real>
    requires period >= 1 && i < |values|
  {
    if i < period then None
    else
      WilderAvgNonNegative(values, period, i, true);
      WilderAvgNonNegative(values, period, i, false);
      Some(RsiOf(WilderAvg(values, period, i, true), WilderAvg(values, period, i, false)))
  }

  lemma {:induction false} MoveSumNonNegative(values: seq<real>, n: nat, up: bool)
    requires n < |values|
    ensures MoveSum(values, n, up) >= 0.0
  {
    if n > 0 { MoveSumNonNegative(values, n - 1, up); }
  }

  lemma {:induction false} WilderAvgNonNegative(values: seq<real>, period: nat, i: nat, up: bool)
    requires 1 <= period <= i < |values|
    ensures WilderAvg(values, period, i, up) >= 0.0
    decreases i
  {
    if i == period {
      MoveSumNonNegative(values, period, up);
    } else {
      WilderAvgNonNegative(values, period, i - 1, up);
      var a := WilderAvg(values, period, i - 1, up);
      assert a * (period - 1) as real >= 0.0;
    }
  }

  lemma RsiOfInRange(avgGain: real, avgLoss: real)
    requires avgGain >= 0.0 && avgLoss >= 0.0
    ensures 0.0 <= RsiOf(avgGain, avgLoss) <= 100.0
  {
    if avgLoss != 0.0 {
      var rs := avgGain / avgLoss;
      assert rs >= 0.0;
      assert 100.0 / (1.0 + rs) <= 100.0;
    }
  }

  /** Every RSI value lies in [0, 100]. */
  lemma RsiInRange(values: seq<real>, period: nat, i: nat)
    requires period >= 1 && i < |values|
    ensures RsiAt(values, period, i).Some? ==> 0.0 <= RsiAt(values, period, i).value <= 100.0
  {
    if i >= period {
      WilderAvgNonNegative(values, period, i, true);
      WilderAvgNonNegative(values, period, i, false);
      RsiOfInRange(WilderAvg(values, period, i, true), WilderAvg(values, period, i, false));
    }
  }

  lemma {:induction false} MoveSumOfConstant(values: seq<real>, n: nat, up: bool)
    requires n < |values|
    requires forall j :: 0 <= j < |values| ==> values[j] == values[0]
    ensures MoveSum(values, n, up) == 0.0
  {
    if n > 0 { MoveSumOfConstant(values, n - 1, up); }
  }

  lemma {:induction false} WilderAvgOfConstant(values: seq<real>, period: nat, i: nat, up: bool)
    requires 1 <= period <= i < |values|
    requires forall j :: 0 <= j < |values| ==> values[j] == values[0]
    ensures WilderAvg(values, period, i, up) == 0.0
    decreases i
  {
    if i == period {
      MoveSumOfConstant(values, period, up);
    } else {
      WilderAvgOfConstant(values, period, i - 1, up);
    }
  }

  /** A constant price series gives RSI 100 from index `period` on (zero average loss). */
  lemma RsiOfConstant(values: seq<real>, period: nat, i: nat)
    requires period >= 1 && period <= i < |values|
    requires forall j :: 0 <= j < |values| ==> values[j] == values[0]
    ensures RsiAt(values, period, i) == Some(100.0)
  {
    WilderAvgOfConstant(values, period, i, false);
  }

  // ---------------------------------------------------------------------
  // MACD: EMA(fast) - EMA(slow), both run from index 0, and a signal EMA
  // seeded with the first exposed MACD value.

  /** `Math.max(fast, slow) - 1`: the first index with a MACD value. */
  function MacdStart(fast: nat, slow: nat): nat
    requires fast >= 1 && slow >= 1
  {
    (if fast >= slow then fast else slow) - 1
  }

  function MacdRaw(values: seq<real>, fast: nat, slow: nat, i: nat): real
    requires fast >= 1 && slow >= 1 && i < |values|
  {
    EmaRun(values, Alpha(fast), i) - EmaRun(values, Alpha(slow), i)
  }

  function SignalRun(values: seq<real>, fast: nat, slow: nat, signal: nat, i: nat): real
    requires fast >= 1 && slow >= 1 && signal >= 1
    requires MacdStart(fast, slow) <= i < |values|
    decreases i
  {
    if i == MacdStart(fast, slow) then MacdRaw(values, fast, slow, i)
    else Smooth(MacdRaw(values, fast, slow, i), SignalRun(values, fast, slow, signal, i - 1), Alpha(signal))
  }

  function MacdLineAt(values: seq<real>, fast: nat, slow: nat, i: nat): Option<real>
    requires fast >= 1 && slow >= 1 && i < |values|
  {
    if i < MacdStart(fast, slow) then None else Some(MacdRaw(values, fast, slow, i))
  }

  function MacdSignalAt(values: seq<real>, fast: nat, slow: nat, signal: nat, i: nat): Option<real>
    requires fast >= 1 && slow >= 1 && signal >= 1 && i < |values|
  {
    if i < MacdStart(fast, slow) + signal - 1 then None
    else Some(SignalRun(values, fast, slow, signal, i))
  }

  function MacdHistAt(values: seq<real>, fast: nat, slow: nat, signal: nat, i: nat): Option<real>
    requires fast >= 1 && slow >= 1 && signal >= 1 && i < |values|
  {
    if i < MacdStart(fast, slow) + signal - 1 then None
    else Some(MacdRaw(values, fast, slow, i) - SignalRun(values, fast, slow, signal, i))
  }

  lemma MacdRawOfConstant(values: seq<real>, fast: nat, slow: nat, i: nat)
    requires fast >= 1 && slow >= 1 && i < |values|
    requires forall j :: 0 <= j < |values| ==> values[j] == values[0]
    ensures MacdRaw(values, fast, slow, i) == 0.0
  {
    EmaRunWithinBounds(values, Alpha(fast), i, values[0], values[0]);
    EmaRunWithinBounds(values, Alpha(slow), i, values[0], values[0]);
  }

  lemma {:induction false} SignalRunOfConstant(values: seq<real>, fast: nat, slow: nat, signal: nat, i: nat)
    requires fast >= 1 && slow >= 1 && signal >= 1
    requires MacdStart(fast, slow) <= i < |values|
    requires forall j :: 0 <= j < |values| ==> values[j] == values[0]
    ensures SignalRun(values, fast, slow, signal, i) == 0.0
    decreases i
  {
    MacdRawOfConstant(values, fast, slow, i);
    if i > MacdStart(fast, slow) {
      SignalRunOfConstant(values, fast, slow, signal, i - 1);
    }
  }

  /** Constant prices give a zero MACD line, signal and histogram wherever they are exposed. */
  lemma MacdOfConstant(values: seq<real>, fast: nat, slow: nat, signal: nat, i: nat)
    requires fast >= 1 && slow >= 1 && signal >= 1 && i < |values|
    requires forall j :: 0 <= j < |values| ==> values[j] == values[0]
    ensures MacdLineAt(values, fast, slow, i).Some? ==> MacdLineAt(values, fast, slow, i).value == 0.0
    ensures MacdSignalAt(values, fast, slow, signal, i).Some? ==> MacdSignalAt(values, fast, slow, signal, i).value == 0.0
    ensures MacdHistAt(values, fast, slow, signal, i).Some? ==> MacdHistAt(values, fast, slow, signal, i).value == 0.0
  {
    MacdRawOfConstant(values, fast, slow, i);
    if i >= MacdStart(fast, slow) {
      SignalRunOfConstant(values, fast, slow, signal, i);
    }
  }
}
