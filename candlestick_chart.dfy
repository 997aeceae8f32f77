/**
 * The arithmetic and lookup helpers of components/CandlestickChart.tsx:
 * the millisecond-to-second conversion of chart times, the binary search
 * `nearestIndex`, the window drawn for a trade, the duration shown in a
 * trade's tooltip, and the map from chart seconds to trades.
 */
module CandlestickChart {
  import opened Wrappers
  import opened Types

  const MsPerMinute: int := 1000 * 60
  const MsPerHour: int := 1000 * 60 * 60

  /** How many candles past the entry an open trade's window reaches. */
  const OpenWindowBars: int := 20

  /** `Math.floor(ms / 1000)`: Dafny's division by a positive number rounds down as well. */
  function ToSeconds(ms: int): (s: int)
    ensures s * 1000 <= ms < s * 1000 + 1000
  {
    ms / 1000
  }

  /** Later milliseconds never give an earlier second. */
  lemma ToSecondsMonotone(a: int, b: int)
    requires a <= b
    ensures ToSeconds(a) <= ToSeconds(b)
  {
  }

  /** Two distinct millisecond times can share a chart second. */
  lemma ToSecondsNotInjective()
    ensures ToSeconds(1000) == ToSeconds(1999) == 1
  {
  }

  /** `trade.exitTime` used as a condition: absent and 0 are both falsy. */
  predicate HasExitTime(t: Trade) {
    t.exitTime.Some? && t.exitTime.value != 0
  }

  /** The `time` column of `formattedData` (lines 101-110). */
  function ChartTimes(candles: seq<Candle>): (times: seq<int>)
    ensures |times| == |candles|
    ensures forall i :: 0 <= i < |candles| ==> times[i] == ToSeconds(candles[i].time)
  {
    seq(|candles|, i requires 0 <= i < |candles| => ToSeconds(candles[i].time))
  }

  predicate Ascending(times: seq<int>) {
    forall i, j :: 0 <= i < j < |times| ==> times[i] <= times[j]
  }

  /** Candles in time order give chart times in (non-strict) order. */
  lemma ChartTimesAscending(candles: seq<Candle>)
    requires forall i, j :: 0 <= i < j < |candles| ==> candles[i].time <= candles[j].time
    ensures Ascending(ChartTimes(candles))
  {
    var times := ChartTimes(candles);
    forall i, j | 0 <= i < j < |times|
      ensures times[i] <= times[j]
    {
      ToSecondsMonotone(candles[i].time, candles[j].time);
    }
  }

  // ---------------------------------------------------------------------
  // nearestIndex

  /** The first index whose time is at least `ts`, if any. */
  function FirstAtOrAfter(times: seq<int>, ts: int): (r: Option<nat>)
    ensures r.Some? ==> r.value < |times| && times[r.value] >= ts && forall i :: 0 <= i < r.value ==> times[i] < ts
    ensures r.None? ==> forall i :: 0 <= i < |times| ==> times[i] < ts
  {
    if times == [] then None
    else if times[0] >= ts then Some(0)
    else
      match FirstAtOrAfter(times[1..], ts)
      case None => None
      case Some(i) => Some(i + 1)
  }

  /** What `nearestIndex` means on ordered times: the first index at or after `ts`, else the last index. */
  function Nearest(times: seq<int>, ts: int): int {
    match FirstAtOrAfter(times, ts)
    case Some(i) => i
    case None => |times| - 1
  }

  /**
   * `nearestIndex` (lines 111-119): a binary search that keeps the last
   * index found whose time is at least `ts`, starting from the last index.
   */
  method NearestIndex(times: seq<int>, ts: int) returns (ans: int)
    ensures times == [] ==> ans == -1
    ensures times != [] ==> 0 <= ans < |times|
    ensures times != [] ==> ans == |times| - 1 || times[ans] >= ts
    ensures Ascending(times) ==> ans == Nearest(times, ts)
  {
    var lo, hi := 0, |times| - 1;
    ans := |times| - 1;
    while lo <= hi
      invariant 0 <= lo <= hi + 1 <= |times|
      invariant (ans == hi == |times| - 1) || (ans == hi + 1 < |times| && times[ans] >= ts)
      invariant Ascending(times) ==> forall i :: 0 <= i < lo ==> times[i] < ts
      decreases hi - lo
    {
      var mid := (lo + hi) / 2;
      if times[mid] >= ts {
        ans := mid;
        hi := mid - 1;
      } else {
        lo := mid + 1;
      }
    }
    if Ascending(times) {
      var first := FirstAtOrAfter(times, ts);
      if first.Some? {
        assert first.value == ans;
      }
    }
  }

  /** `Math.min(formattedData.length - 1, entryIdx + 20)` (line 162). */
  function WindowEndIndex(n: int, entryIdx: int): (r: int)
    ensures r <= n - 1 && r <= entryIdx + OpenWindowBars
    ensures r == n - 1 || r == entryIdx + OpenWindowBars
  {
    if n - 1 <= entryIdx + OpenWindowBars then n - 1 else entryIdx + OpenWindowBars
  }

  /** For a valid entry index the window's end is a valid index at or after it. */
  lemma WindowEndInRange(n: int, entryIdx: int)
    requires 0 <= entryIdx < n
    ensures entryIdx <= WindowEndIndex(n, entryIdx) < n
  {
  }

  /**
   * The span drawn for a trade (lines 149-164), in chart seconds: from the
   * entry second to the exit second, or, for a trade without an exit time,
   * to the time of the candle 20 past the nearest one, clamped to the last.
   * The effect draws nothing when there are no candles.
   */
  method TradeSpan(trade: Trade, times: seq<int>) returns (startTime: int, endTime: int)
    requires times != []
    ensures startTime == ToSeconds(trade.entryTime)
    ensures HasExitTime(trade) ==> endTime == ToSeconds(trade.exitTime.value)
    ensures !HasExitTime(trade) ==> endTime in times
    ensures !HasExitTime(trade) && Ascending(times) ==>
      endTime == times[WindowEndIndex(|times|, Nearest(times, startTime))]
  {
    startTime := ToSeconds(trade.entryTime);
    if HasExitTime(trade) {
      endTime := ToSeconds(trade.exitTime.value);
    } else {
      var entryIdx := NearestIndex(times, startTime);
      var endIdx := WindowEndIndex(|times|, entryIdx);
      WindowEndInRange(|times|, entryIdx);
      endTime := times[endIdx];
    }
  }

  /**
   * On ordered times, an open trade entered at or before the last candle's
   * second gets a window ending at or after its entry second; one entered
   * after every candle gets the last candle, which ends before it.
   */
  lemma OpenSpanOrder(times: seq<int>, ts: int)
    requires Ascending(times) && times != []
    ensures var endIdx := WindowEndIndex(|times|, Nearest(times, ts));
      ts <= times[|times| - 1] <==> ts <= times[endIdx]
  {
    var entryIdx := Nearest(times, ts);
    var endIdx := WindowEndIndex(|times|, entryIdx);
    if ts <= times[|times| - 1] {
      var first := FirstAtOrAfter(times, ts);
      assert first.Some?;
      assert times[entryIdx] <= times[endIdx];
    } else {
      assert FirstAtOrAfter(times, ts).None?;
      assert endIdx == |times| - 1;
    }
  }

  // ---------------------------------------------------------------------
  // The duration shown for a closed trade

  /** JavaScript's `%` on a positive divisor: the remainder takes the dividend's sign. */
  function JsRem(a: int, b: int): (r: int)
    requires b > 0
    ensures a >= 0 ==> 0 <= r < b
    ensures a < 0 ==> -b < r <= 0
  {
    if a >= 0 then a % b else -((-a) % b)
  }

  datatype HoursMinutes = HoursMinutes(hours: int, minutes: int)

  /** `hours` and `minutes` of `formatTradeMetrics` (lines 248-249). */
  function SplitDuration(durationMs: int): HoursMinutes {
    HoursMinutes(durationMs / MsPerHour, JsRem(durationMs, MsPerHour) / MsPerMinute)
  }

  /**
   * `formatTradeMetrics`' duration (lines 245-251): shown only when both the
   * entry time and the exit time are truthy.
   */
  function TradeDuration(t: Trade): (r: Option<HoursMinutes>)
    ensures r.Some? <==> t.entryTime != 0 && HasExitTime(t)
    ensures r.Some? ==> r.value == SplitDuration(t.exitTime.value - t.entryTime)
  {
    if t.entryTime != 0 && HasExitTime(t) then Some(SplitDuration(t.exitTime.value - t.entryTime)) else None
  }

  lemma MulAtLeast(k: int, b: int)
    requires b > 0
    ensures k >= 1 ==> k * b >= b
  {
  }

  /** The quotient of a division with a remainder in range. */
  lemma DivUnique(a: int, b: int, q: int, r: int)
    requires b > 0 && a == q * b + r && 0 <= r < b
    ensures a / b == q && a % b == r
  {
    var q', r' := a / b, a % b;
    assert a == q' * b + r';
    MulAtLeast(q - q', b);
    MulAtLeast(q' - q, b);
    assert (q - q') * b == q * b - q' * b && (q' - q) * b == q' * b - q * b;
  }

  /**
   * For a non-negative duration the split is whole hours and the minutes
   * left over: minutes lie in 0..59 and together they are the duration in
   * whole minutes.
   */
  lemma SplitDurationNonNegative(d: int)
    requires d >= 0
    ensures var hm := SplitDuration(d);
      && hm.hours >= 0 && 0 <= hm.minutes <= 59
      && hm.hours * 60 + hm.minutes == d / MsPerMinute
  {
    var h, rem := d / MsPerHour, d % MsPerHour;
    var m, sec := rem / MsPerMinute, rem % MsPerMinute;
    assert SplitDuration(d) == HoursMinutes(h, m);
    assert m * MsPerMinute <= rem < MsPerHour;
    assert 0 <= m <= 59;
    assert d == (h * 60 + m) * MsPerMinute + sec;
    DivUnique(d, MsPerMinute, h * 60 + m, sec);
  }

  /** A negative duration (an exit before the entry) gets a negative split with minutes in -60..0. */
  lemma SplitDurationNegative(d: int)
    requires d < 0
    ensures var hm := SplitDuration(d); hm.hours < 0 && -60 <= hm.minutes <= 0
  {
    var rem := JsRem(d, MsPerHour);
    var m := rem / MsPerMinute;
    assert -MsPerHour < rem <= 0;
    assert m * MsPerMinute <= rem < m * MsPerMinute + MsPerMinute;
  }

  // ---------------------------------------------------------------------
  // The tooltip's trade map

  /** Whether writing `t` into the trade map writes key `k`. */
  predicate Touches(t: Trade, k: int) {
    ToSeconds(t.entryTime) == k || (HasExitTime(t) && ToSeconds(t.exitTime.value) == k)
  }

  /** One `forEach` step: the entry second, then the exit second when there is an exit time. */
  function Write(m: map<int, Trade>, t: Trade): map<int, Trade> {
    var withEntry := m[ToSeconds(t.entryTime) := t];
    if HasExitTime(t) then withEntry[ToSeconds(t.exitTime.value) := t] else withEntry
  }

  /** The map after writing every trade, in order, into an empty map. */
  function TradeMapOf(trades: seq<Trade>): map<int, Trade> {
    if trades == [] then map[] else Write(TradeMapOf(trades[..|trades| - 1]), trades[|trades| - 1])
  }

  /**
   * The second-to-trade map the tooltip reads (`tradeMap`, a ref to a
   * `Map<number, Trade>`).
   */
  class TradeLookup {
    var byTime: map<int, Trade>

    constructor ()
      ensures byTime == map[]
    {
      byTime := map[];
    }

    /** Lines 31-37: clear the map, then write every trade in order. */
    method Rebuild(trades: seq<Trade>)
      modifies this
      ensures byTime == TradeMapOf(trades)
    {
      byTime := map[];
      var i := 0;
      while i < |trades|
        invariant 0 <= i <= |trades|
        invariant byTime == TradeMapOf(trades[..i])
      {
        var trade := trades[i];
        byTime := byTime[ToSeconds(trade.entryTime) := trade];
        if HasExitTime(trade) {
          byTime := byTime[ToSeconds(trade.exitTime.value) := trade];
        }
        assert trades[..i + 1][..i] == trades[..i];
        i := i + 1;
      }
      assert trades[..|trades|] == trades;
    }
  }

  /**
   * Last writer wins: a second is a key exactly when some trade writes it,
   * and it maps to the last trade in the list that does.
   */
  lemma {:induction false} TradeMapLastWriter(trades: seq<Trade>, k: int)
    ensures k in TradeMapOf(trades) <==> exists j :: 0 <= j < |trades| && Touches(trades[j], k)
    ensures k in TradeMapOf(trades) ==>
      exists j :: 0 <= j < |trades| && Touches(trades[j], k) && TradeMapOf(trades)[k] == trades[j]
        && forall j' :: j < j' < |trades| ==> !Touches(trades[j'], k)
    decreases |trades|
  {
    if trades != [] {
      var n := |trades| - 1;
      var init := trades[..n];
      var last := trades[n];
      TradeMapLastWriter(init, k);
      if Touches(last, k) {
        assert TradeMapOf(trades)[k] == last;
      } else {
        assert k in TradeMapOf(trades) <==> k in TradeMapOf(init);
        if k in TradeMapOf(init) {
          var j :| 0 <= j < n && Touches(init[j], k) && TradeMapOf(init)[k] == init[j]
            && forall j' :: j < j' < n ==> !Touches(init[j'], k);
          assert trades[j] == init[j];
          assert forall j' :: j < j' < |trades| ==> !Touches(trades[j'], k) by {
            forall j' | j < j' < |trades|
              ensures !Touches(trades[j'], k)
            {
              if j' < n {
                assert trades[j'] == init[j'];
              }
            }
          }
        }
        forall j | 0 <= j < |trades| && Touches(trades[j], k)
          ensures k in TradeMapOf(init)
        {
          assert j < n && trades[j] == init[j];
        }
      }
    }
  }

  /** A later trade written at an earlier trade's second replaces it. */
  lemma LaterTradeOverwrites(trades: seq<Trade>, t: Trade, k: int)
    requires Touches(t, k)
    ensures TradeMapOf(trades + [t])[k] == t
  {
    assert (trades + [t])[..|trades|] == trades;
  }
}
