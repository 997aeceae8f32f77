/**
 * The in-memory part of `getCandles` in lib/services/candleService.ts:
 * turning exchange klines into candles, paging through the responses and
 * the sort-and-dedupe tail. The responses are an input: `pages[n]` is what
 * the n-th request returns, and a request past the last page gets an empty
 * one.
 */
module CandleService {
  import opened Wrappers
  import opened Types

  /** The seven leading fields of a kline that `mapKline` reads; prices are already numbers. */
  datatype Kline = Kline(openTime: int, open: real, high: real, low: real, close: real, volume: real, closeTime: int)

  /** `mapKline`: the candle is stamped with the kline's close time. */
  function MapKline(k: Kline): Candle {
    Candle(k.closeTime, k.open, k.high, k.low, k.close, k.volume)
  }

  function MapAll(ks: seq<Kline>): (r: seq<Candle>)
    ensures |r| == |ks| && forall i :: 0 <= i < |ks| ==> r[i] == MapKline(ks[i])
  {
    seq(|ks|, i requires 0 <= i < |ks| => MapKline(ks[i]))
  }

  // ---------------------------------------------------------------------
  // One page

  /** The index of the first kline closing after `endTime`, or the page length. */
  function CutIndex(page: seq<Kline>, endTime: int): (j: nat)
    ensures j <= |page|
    ensures forall i :: 0 <= i < j ==> page[i].closeTime <= endTime
    ensures j < |page| ==> page[j].closeTime > endTime
  {
    if page == [] then 0
    else if page[0].closeTime > endTime then 0
    else 1 + CutIndex(page[1..], endTime)
  }

  /** The candles a page contributes: those before the first one that closes after `endTime`. */
  function PageCandles(page: seq<Kline>, endTime: int): seq<Candle> {
    MapAll(page[..CutIndex(page, endTime)])
  }

  /** The inner `for … of klines` loop with its `break`. */
  method AppendPage(out: seq<Candle>, page: seq<Kline>, endTime: int) returns (r: seq<Candle>)
    ensures r == out + PageCandles(page, endTime)
  {
    r := out;
    var j := 0;
    while j < |page|
      invariant 0 <= j <= |page|
      invariant forall i :: 0 <= i < j ==> page[i].closeTime <= endTime
      invariant r == out + MapAll(page[..j])
    {
      var candle := MapKline(page[j]);
      if candle.time > endTime {
        break;
      }
      assert MapAll(page[..j + 1]) == MapAll(page[..j]) + [candle];
      r := r + [candle];
      j := j + 1;
    }
    assert j == CutIndex(page, endTime);
  }

  // ---------------------------------------------------------------------
  // Paging

  /** After a non-empty page, fetching stops when its last close reaches `endTime` or the page is short. */
  predicate Stops(page: seq<Kline>, endTime: int, limit: int)
    requires |page| > 0
  {
    page[|page| - 1].closeTime >= endTime || |page| < limit
  }

  /** What the `while (true)` loop appends to `out` from the `p`-th request on. */
  function Collect(pages: seq<seq<Kline>>, p: nat, endTime: int, limit: int): seq<Candle>
    decreases |pages| - p
  {
    if p >= |pages| || |pages[p]| == 0 then []
    else
      PageCandles(pages[p], endTime) +
      (if Stops(pages[p], endTime, limit) then [] else Collect(pages, p + 1, endTime, limit))
  }

  /** The `startTime` of the `p`-th request, `from`, and of every request after it. */
  function Requests(pages: seq<seq<Kline>>, p: nat, from: int, endTime: int, limit: int): (r: seq<int>)
    ensures r != [] && r[0] == from
    decreases |pages| - p
  {
    if p >= |pages| || |pages[p]| == 0 || Stops(pages[p], endTime, limit) then [from]
    else [from] + Requests(pages, p + 1, pages[p][|pages[p]| - 1].closeTime + 1, endTime, limit)
  }

  // ---------------------------------------------------------------------
  // Sorting and de-duplication

  predicate SortedByTime(s: seq<Candle>) {
    forall i, j :: 0 <= i < j < |s| ==> s[i].time <= s[j].time
  }

  predicate StrictlyIncreasing(s: seq<Candle>) {
    forall i, j :: 0 <= i < j < |s| ==> s[i].time < s[j].time
  }

  /** Inserts `x` before the first candle whose time is at least its own. */
  function InsertByTime(x: Candle, s: seq<Candle>): seq<Candle> {
    if |s| == 0 || x.time <= s[0].time then [x] + s
    else [s[0]] + InsertByTime(x, s[1..])
  }

  /**
   * `out.sort((a, b) => a.time - b.time)`: a stable sort by time, written
   * as an insertion sort; candles with equal times keep their fetch order.
   */
  function SortByTime(s: seq<Candle>): seq<Candle> {
    if |s| == 0 then [] else InsertByTime(s[0], SortByTime(s[1..]))
  }

  /** The first candle of `s` with time `t`, if any. */
  function FirstWithTime(s: seq<Candle>, t: int): (r: Option<Candle>)
    ensures r.Some? ==> r.value in s && r.value.time == t
    ensures r.None? ==> forall c :: c in s ==> c.time != t
  {
    if |s| == 0 then None
    else if s[0].time == t then Some(s[0])
    else FirstWithTime(s[1..], t)
  }

  /** The dedupe loop: a candle is kept when its time differs from the previous candle's. */
  function DedupeAdjacent(s: seq<Candle>): seq<Candle> {
    if |s| == 0 then []
    else
      var init := s[..|s| - 1];
      var last := s[|s| - 1];
      DedupeAdjacent(init) + (if |init| > 0 && init[|init| - 1].time == last.time then [] else [last])
  }

  method DedupeSorted(s: seq<Candle>) returns (deduped: seq<Candle>)
    ensures deduped == DedupeAdjacent(s)
  {
    deduped := [];
    var prev: Option<int> := None;
    for i := 0 to |s|
      invariant deduped == DedupeAdjacent(s[..i])
      invariant prev == if i == 0 then None else Some(s[i - 1].time)
    {
      var c := s[i];
      assert s[..i + 1][..i] == s[..i];
      if prev != Some(c.time) {
        deduped := deduped + [c];
      }
      prev := Some(c.time);
    }
    assert s[..|s|] == s;
  }

  /** The sort-and-dedupe tail. */
  function Normalise(out: seq<Candle>): seq<Candle> {
    DedupeAdjacent(SortByTime(out))
  }

  /** Every page before the `p`-th was non-empty and did not stop the paging loop. */
  predicate Continued(pages: seq<seq<Kline>>, p: nat, endTime: int, limit: int) {
    p <= |pages| && forall i :: 0 <= i < p ==> |pages[i]| > 0 && !Stops(pages[i], endTime, limit)
  }

  /** The candles of the first `p` pages, in fetch order. */
  function FetchedCandles(pages: seq<seq<Kline>>, p: nat, endTime: int): seq<Candle>
    requires p <= |pages|
  {
    if p == 0 then [] else FetchedCandles(pages, p - 1, endTime) + PageCandles(pages[p - 1], endTime)
  }

  /** The `startTime` of the `p`-th request: `startTime` first, then just after the previous page's last candle. */
  function RequestFrom(pages: seq<seq<Kline>>, p: nat, startTime: int): int
    requires p <= |pages| && (p > 0 ==> |pages[p - 1]| > 0)
  {
    if p == 0 then startTime else pages[p - 1][|pages[p - 1]| - 1].closeTime + 1
  }

  /** The `startTime` of each of the first `p` requests. */
  function RequestsBefore(pages: seq<seq<Kline>>, p: nat, startTime: int, endTime: int, limit: int): seq<int>
    requires Continued(pages, p, endTime, limit)
  {
    if p == 0 then [] else RequestsBefore(pages, p - 1, startTime, endTime, limit) + [RequestFrom(pages, p - 1, startTime)]
  }

  /** A page the loop goes past contributes its candles ahead of the later pages'. */
  lemma CollectStep(pages: seq<seq<Kline>>, q: nat, endTime: int, limit: int)
    requires q < |pages| && |pages[q]| > 0 && !Stops(pages[q], endTime, limit)
    ensures Collect(pages, q, endTime, limit) == PageCandles(pages[q], endTime) + Collect(pages, q + 1, endTime, limit)
  {
  }

  /** Regrouping a concatenation: `total` split as `front + (here + rest)` is `(front + here) + rest`. */
  lemma Regroup<T>(total: seq<T>, front: seq<T>, middle: seq<T>, here: seq<T>, rest: seq<T>, longer: seq<T>)
    requires total == front + middle && middle == here + rest && longer == front + here
    ensures total == longer + rest
  {
    assert front + (here + rest) == (front + here) + rest;
  }

  /** Once the loop has passed `p` pages, what is left to gather is what the pages from `p` on give. */
  lemma {:induction false} CollectAfter(pages: seq<seq<Kline>>, p: nat, endTime: int, limit: int)
    requires Continued(pages, p, endTime, limit)
    ensures Collect(pages, 0, endTime, limit) == FetchedCandles(pages, p, endTime) + Collect(pages, p, endTime, limit)
  {
    if p > 0 {
      var q := p - 1;
      CollectAfter(pages, q, endTime, limit);
      CollectStep(pages, q, endTime, limit);
      Regroup(Collect(pages, 0, endTime, limit), FetchedCandles(pages, q, endTime), Collect(pages, q, endTime, limit),
              PageCandles(pages[q], endTime), Collect(pages, p, endTime, limit), FetchedCandles(pages, p, endTime));
    }
  }

  /** Likewise for the requests: those sent for the first `p` pages, then those from the `p`-th on. */
  lemma {:induction false} RequestsAfter(pages: seq<seq<Kline>>, p: nat, startTime: int, endTime: int, limit: int)
    requires Continued(pages, p, endTime, limit)
    ensures Requests(pages, 0, startTime, endTime, limit)
         == RequestsBefore(pages, p, startTime, endTime, limit) + Requests(pages, p, RequestFrom(pages, p, startTime), endTime, limit)
  {
    if p > 0 {
      var q := p - 1;
      RequestsAfter(pages, q, startTime, endTime, limit);
      var from := RequestFrom(pages, q, startTime);
      var later := Requests(pages, p, RequestFrom(pages, p, startTime), endTime, limit);
      assert Requests(pages, q, from, endTime, limit) == [from] + later;
      assert RequestsBefore(pages, q, startTime, endTime, limit) + ([from] + later)
          == (RequestsBefore(pages, q, startTime, endTime, limit) + [from]) + later;
    }
  }

  /**
   * Where the paging loop stops, at page `p` (no page, an empty page, or
   * one that ends the range or comes back short): the candles gathered and
   * the requests sent are all of them.
   */
  lemma LoopExit(pages: seq<seq<Kline>>, p: nat, startTime: int, endTime: int, limit: int, last: seq<Candle>)
    requires Continued(pages, p, endTime, limit)
    requires if p < |pages| && |pages[p]| > 0 then Stops(pages[p], endTime, limit) && last == PageCandles(pages[p], endTime) else last == []
    ensures Collect(pages, 0, endTime, limit) == FetchedCandles(pages, p, endTime) + last
    ensures Requests(pages, 0, startTime, endTime, limit)
         == RequestsBefore(pages, p, startTime, endTime, limit) + [RequestFrom(pages, p, startTime)]
  {
    CollectAfter(pages, p, endTime, limit);
    RequestsAfter(pages, p, startTime, endTime, limit);
    assert Collect(pages, p, endTime, limit) == last + [];
    assert last + [] == last;
  }

  /**
   * The paging `while (true)` loop of `getCandles`: the candles it appends
   * to `out`, in fetch order, and the `startTime` of every request it sends.
   */
  method FetchPages(pages: seq<seq<Kline>>, startTime: int, endTime: int, limit: int)
    returns (out: seq<Candle>, requests: seq<int>)
    ensures out == Collect(pages, 0, endTime, limit)
    ensures requests == Requests(pages, 0, startTime, endTime, limit)
  {
    out := [];
    var from := startTime;
    var p := 0;
    requests := [];
    while true
      invariant Continued(pages, p, endTime, limit)
      invariant out == FetchedCandles(pages, p, endTime)
      invariant from == RequestFrom(pages, p, startTime)
      invariant requests == RequestsBefore(pages, p, startTime, endTime, limit)
      decreases |pages| - p
    {
      if p >= |pages| || |pages[p]| == 0 {
        LoopExit(pages, p, startTime, endTime, limit, []);
        requests := requests + [from];
        assert out + [] == out;
        break;
      }
      var klines := pages[p];
      var lastCloseTime := klines[|klines| - 1].closeTime;
      requests := requests + [from];
      out := AppendPage(out, klines, endTime);
      if lastCloseTime >= endTime || |klines| < limit {
        LoopExit(pages, p, startTime, endTime, limit, PageCandles(klines, endTime));
        break;
      }
      from := lastCloseTime + 1;
      p := p + 1;
    }
  }

  /** `getCandles`: the candles it returns and the `startTime` of every request it sends. */
  method GetCandles(pages: seq<seq<Kline>>, startTime: int, endTime: int, limit: int)
    returns (candles: seq<Candle>, requests: seq<int>)
    ensures candles == Normalise(Collect(pages, 0, endTime, limit))
    ensures requests == Requests(pages, 0, startTime, endTime, limit)
  {
    var out;
    out, requests := FetchPages(pages, startTime, endTime, limit);
    var sorted := SortByTime(out);
    candles := DedupeSorted(sorted);
  }

  // ---------------------------------------------------------------------
  // Properties

  /** The candle time is the close time; the open time plays no part. */
  lemma MapKlineUsesCloseTime(k: Kline, openTime: int)
    ensures MapKline(k).time == k.closeTime
    ensures MapKline(k.(openTime := openTime)) == MapKline(k)
  {
  }

  /** A page contributes its leading run of klines that close by `endTime`, in order, and nothing after the first that does not. */
  lemma PageCandlesMeaning(page: seq<Kline>, endTime: int)
    ensures var r := PageCandles(page, endTime);
      && |r| <= |page|
      && (forall i :: 0 <= i < |r| ==> r[i] == MapKline(page[i]) && r[i].time <= endTime)
      && (|r| < |page| ==> page[|r|].closeTime > endTime)
  {
  }

  /** Every collected candle closes by `endTime` and comes from one of the pages. */
  lemma {:induction false} CollectBounded(pages: seq<seq<Kline>>, p: nat, endTime: int, limit: int)
    ensures forall c :: c in Collect(pages, p, endTime, limit) ==> c.time <= endTime
    ensures forall c :: c in Collect(pages, p, endTime, limit) ==>
      exists q, i :: p <= q < |pages| && 0 <= i < |pages[q]| && c == MapKline(pages[q][i])
    decreases |pages| - p
  {
    if p < |pages| && |pages[p]| > 0 {
      var head := PageCandles(pages[p], endTime);
      PageCandlesMeaning(pages[p], endTime);
      if !Stops(pages[p], endTime, limit) {
        CollectBounded(pages, p + 1, endTime, limit);
      }
      forall c | c in head
        ensures exists q, i :: p <= q < |pages| && 0 <= i < |pages[q]| && c == MapKline(pages[q][i])
      {
        var i :| 0 <= i < |head| && head[i] == c;
        assert c == MapKline(pages[p][i]);
      }
    }
  }

  /**
   * Request `j` of `r`, asked when paging from page `p`, follows page
   * `p + j - 1`: that page was full, closed before `endTime`, and the
   * request starts one millisecond after its last close.
   */
  predicate FollowsPage(pages: seq<seq<Kline>>, p: nat, r: seq<int>, j: int, endTime: int, limit: int)
    requires 1 <= j < |r| && p + |r| <= |pages| + 1
  {
    && |pages[p + j - 1]| > 0
    && |pages[p + j - 1]| >= limit
    && pages[p + j - 1][|pages[p + j - 1]| - 1].closeTime < endTime
    && r[j] == pages[p + j - 1][|pages[p + j - 1]| - 1].closeTime + 1
  }

  /**
   * Each request after the first starts one millisecond after the last
   * close of the previous page, which was full and closed before
   * `endTime`; the last request got no page, an empty page, a short one,
   * or one that reached `endTime`.
   */
  lemma {:induction false} RequestsAdvance(pages: seq<seq<Kline>>, p: nat, from: int, endTime: int, limit: int)
    requires p <= |pages|
    ensures p + |Requests(pages, p, from, endTime, limit)| <= |pages| + 1
    ensures forall j :: 1 <= j < |Requests(pages, p, from, endTime, limit)| ==>
      FollowsPage(pages, p, Requests(pages, p, from, endTime, limit), j, endTime, limit)
    ensures var n := p + |Requests(pages, p, from, endTime, limit)| - 1;
      n >= |pages| || |pages[n]| == 0 || Stops(pages[n], endTime, limit)
    decreases |pages| - p
  {
    var r := Requests(pages, p, from, endTime, limit);
    if !(p >= |pages| || |pages[p]| == 0 || Stops(pages[p], endTime, limit)) {
      var next := pages[p][|pages[p]| - 1].closeTime + 1;
      RequestsAdvance(pages, p + 1, next, endTime, limit);
      var rest := Requests(pages, p + 1, next, endTime, limit);
      assert r == [from] + rest;
      forall j | 1 <= j < |r|
        ensures FollowsPage(pages, p, r, j, endTime, limit)
      {
        assert r[j] == rest[j - 1];
        if j >= 2 {
          assert FollowsPage(pages, p + 1, rest, j - 1, endTime, limit);
        }
      }
    } else {
      assert |r| == 1;
    }
  }

  lemma {:induction false} InsertByTimeKeeps(x: Candle, s: seq<Candle>)
    ensures multiset(InsertByTime(x, s)) == multiset(s) + multiset{x}
    decreases |s|
  {
    if |s| > 0 && x.time > s[0].time {
      InsertByTimeKeeps(x, s[1..]);
      assert s == [s[0]] + s[1..];
    }
  }

  lemma {:induction false} InsertByTimeSorted(x: Candle, s: seq<Candle>)
    requires SortedByTime(s)
    ensures SortedByTime(InsertByTime(x, s))
    decreases |s|
  {
    if |s| > 0 && x.time > s[0].time {
      var rest := InsertByTime(x, s[1..]);
      InsertByTimeSorted(x, s[1..]);
      InsertByTimeKeeps(x, s[1..]);
      var r := [s[0]] + rest;
      forall j | 0 <= j < |rest|
        ensures s[0].time <= rest[j].time
      {
        assert rest[j] in multiset(rest);
        if rest[j] != x {
          assert rest[j] in multiset(s[1..]);
          var k :| 0 <= k < |s[1..]| && s[1..][k] == rest[j];
          assert s[k + 1] == rest[j];
        }
      }
      forall i, j | 0 <= i < j < |r|
        ensures r[i].time <= r[j].time
      {
        if i > 0 {
          assert r[i] == rest[i - 1] && r[j] == rest[j - 1];
        }
      }
    }
  }

  lemma {:induction false} InsertByTimeFirst(x: Candle, s: seq<Candle>, t: int)
    ensures FirstWithTime(InsertByTime(x, s), t) == if x.time == t then Some(x) else FirstWithTime(s, t)
    decreases |s|
  {
    if |s| > 0 && x.time > s[0].time {
      InsertByTimeFirst(x, s[1..], t);
      var r := InsertByTime(x, s);
      assert r[1..] == InsertByTime(x, s[1..]);
    }
  }

  /** The sort orders by time, keeps every candle and, among candles of equal time, the one fetched first comes first. */
  lemma {:induction false} SortByTimeFacts(s: seq<Candle>)
    ensures SortedByTime(SortByTime(s))
    ensures multiset(SortByTime(s)) == multiset(s)
    ensures forall t :: FirstWithTime(SortByTime(s), t) == FirstWithTime(s, t)
    decreases |s|
  {
    if |s| > 0 {
      SortByTimeFacts(s[1..]);
      assert s == [s[0]] + s[1..];
      forall t
        ensures FirstWithTime(SortByTime(s), t) == FirstWithTime(s, t)
      {
        InsertByTimeFirst(s[0], SortByTime(s[1..]), t);
      }
      InsertByTimeKeeps(s[0], SortByTime(s[1..]));
      InsertByTimeSorted(s[0], SortByTime(s[1..]));
    }
  }

  /** `FirstWithTime` over a sequence with one more candle at the end. */
  lemma {:induction false} FirstWithTimeSnoc(s: seq<Candle>, x: Candle, t: int)
    ensures FirstWithTime(s + [x], t) ==
      if FirstWithTime(s, t).Some? then FirstWithTime(s, t) else if x.time == t then Some(x) else None
    decreases |s|
  {
    if |s| > 0 {
      assert (s + [x])[1..] == s[1..] + [x];
      FirstWithTimeSnoc(s[1..], x, t);
    }
  }

  /** The dedupe adds the last candle exactly when its time differs from the one before. */
  lemma DedupeSnoc(s: seq<Candle>)
    requires |s| > 0
    ensures var init, last := s[..|s| - 1], s[|s| - 1];
      && (|init| > 0 && init[|init| - 1].time == last.time ==> DedupeAdjacent(s) == DedupeAdjacent(init))
      && (!(|init| > 0 && init[|init| - 1].time == last.time) ==> DedupeAdjacent(s) == DedupeAdjacent(init) + [last])
  {
    assert DedupeAdjacent(s[..|s| - 1]) + [] == DedupeAdjacent(s[..|s| - 1]);
  }

  /** The dedupe keeps only candles it was given. */
  lemma {:induction false} DedupeMembers(s: seq<Candle>)
    ensures forall c :: c in DedupeAdjacent(s) ==> c in s
    decreases |s|
  {
    if |s| > 0 {
      var init := s[..|s| - 1];
      DedupeMembers(init);
      DedupeSnoc(s);
      assert forall c :: c in init ==> c in s;
    }
  }

  /** On time-sorted candles the dedupe's times strictly increase. */
  lemma {:induction false} DedupeStrict(s: seq<Candle>)
    requires SortedByTime(s)
    ensures StrictlyIncreasing(DedupeAdjacent(s))
    decreases |s|
  {
    if |s| > 0 {
      var init := s[..|s| - 1];
      var last := s[|s| - 1];
      assert SortedByTime(init);
      DedupeStrict(init);
      DedupeSnoc(s);
      if !(|init| > 0 && init[|init| - 1].time == last.time) {
        var di := DedupeAdjacent(init);
        var d := di + [last];
        DedupeMembers(init);
        forall e | e in di
          ensures e.time < last.time
        {
          var k :| 0 <= k < |init| && init[k] == e;
          assert e.time <= init[|init| - 1].time <= last.time;
        }
        forall i, j | 0 <= i < j < |d|
          ensures d[i].time < d[j].time
        {
          if j == |d| - 1 {
            assert d[i] in di;
          } else {
            assert d[i] == di[i] && d[j] == di[j];
          }
        }
      }
    }
  }

  /** On time-sorted candles, a last candle whose time differs from its predecessor's has a time no earlier candle has. */
  lemma LastKeptIsNew(s: seq<Candle>)
    requires SortedByTime(s) && |s| > 0
    requires var init := s[..|s| - 1]; !(|init| > 0 && init[|init| - 1].time == s[|s| - 1].time)
    ensures FirstWithTime(s[..|s| - 1], s[|s| - 1].time) == None
  {
    var init := s[..|s| - 1];
    var last := s[|s| - 1];
    forall k | 0 <= k < |init|
      ensures init[k].time != last.time
    {
      assert init[k].time <= init[|init| - 1].time <= last.time;
    }
  }

  /** On time-sorted candles every kept candle is the first one with its time. */
  lemma {:induction false} DedupeKeepsFirst(s: seq<Candle>)
    requires SortedByTime(s)
    ensures forall c :: c in DedupeAdjacent(s) ==> FirstWithTime(s, c.time) == Some(c)
    decreases |s|
  {
    if |s| > 0 {
      var init := s[..|s| - 1];
      var last := s[|s| - 1];
      assert s == init + [last];
      assert SortedByTime(init);
      DedupeKeepsFirst(init);
      DedupeSnoc(s);
      var kept := !(|init| > 0 && init[|init| - 1].time == last.time);
      if kept {
        LastKeptIsNew(s);
      }
      forall c | c in DedupeAdjacent(s)
        ensures FirstWithTime(s, c.time) == Some(c)
      {
        FirstWithTimeSnoc(init, last, c.time);
        if c !in DedupeAdjacent(init) {
          assert kept && c == last;
        }
      }
    }
  }

  /** Every time among the candles is kept. */
  lemma {:induction false} DedupeCovers(s: seq<Candle>)
    ensures forall c :: c in s ==> exists e :: e in DedupeAdjacent(s) && e.time == c.time
    decreases |s|
  {
    if |s| > 0 {
      var init := s[..|s| - 1];
      var last := s[|s| - 1];
      assert s == init + [last];
      DedupeCovers(init);
      DedupeSnoc(s);
      forall c | c in s
        ensures exists e :: e in DedupeAdjacent(s) && e.time == c.time
      {
        if c == last && |init| > 0 && init[|init| - 1].time == last.time {
          assert init[|init| - 1] in init;
        }
      }
    }
  }

  /**
   * What `getCandles` returns: strictly increasing times, every candle from
   * some fetched page and closing by `endTime`, and for every time fetched
   * exactly the first candle fetched with that time.
   */
  lemma NormaliseFacts(pages: seq<seq<Kline>>, endTime: int, limit: int)
    ensures var out := Collect(pages, 0, endTime, limit);
      var r := Normalise(out);
      && StrictlyIncreasing(r)
      && (forall c :: c in r ==> c in out && c.time <= endTime && FirstWithTime(out, c.time) == Some(c))
      && (forall c :: c in out ==> exists e :: e in r && e.time == c.time)
  {
    var out := Collect(pages, 0, endTime, limit);
    var sorted := SortByTime(out);
    SortByTimeFacts(out);
    DedupeMembers(sorted);
    DedupeStrict(sorted);
    DedupeKeepsFirst(sorted);
    DedupeCovers(sorted);
    CollectBounded(pages, 0, endTime, limit);
    forall c | c in sorted
      ensures c in out
    {
      assert c in multiset(sorted);
    }
    forall c | c in out
      ensures c in sorted
    {
      assert c in multiset(out);
    }
  }
}
