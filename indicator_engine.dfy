/**
 * lib/services/indicatorEngine.ts: the loops that fill the indicator
 * series, and `buildIndicators`, which computes one series per distinct
 * canonical key.
 */
module IndicatorEngine {
  import opened Wrappers
  import opened Types
  import opened IndicatorKeys
  import opened IndicatorMath

  /** `sma`: a running window sum, updated in place. */
  method Sma(values: seq<real>, period: nat) returns (r: seq<Option<real>>)
    requires period >= 1
    ensures |r| == |values|
    ensures forall i :: 0 <= i < |values| ==> r[i] == SmaAt(values, period, i)
  {
    var out := new Option<real>[|values|](_ => None);
    var sum := 0.0;
    var i := 0;
    while i < |values|
      invariant 0 <= i <= |values|
      invariant sum == Sum(values[(if i >= period then i - period else 0)..i])
      invariant forall j :: 0 <= j < i ==> out[j] == SmaAt(values, period, j)
      invariant forall j :: i <= j < |values| ==> out[j] == None
    {
      ghost var lo := if i >= period then i - period else 0;
      assert values[lo..i + 1][..i - lo] == values[lo..i];
      sum := sum + values[i];
      assert sum == Sum(values[lo..i + 1]);
      if i >= period {
        SumDropFirst(values[lo..i + 1]);
        assert values[lo..i + 1][1..] == values[lo + 1..i + 1];
        sum := sum - values[i - period];
      }
      if i >= period - 1 {
        out[i] := Some(sum / period as real);
      }
      i := i + 1;
    }
    r := out[..];
  }

  /** `ema`: the recurrence runs from index 0; values are stored from index period-1 on, never at 0. */
  method Ema(values: seq<real>, period: nat) returns (r: seq<Option<real>>)
    requires period >= 1
    ensures |r| == |values|
    ensures forall i :: 0 <= i < |values| ==> r[i] == EmaAt(values, period, i)
  {
    var out := new Option<real>[|values|](_ => None);
    var k := Alpha(period);
    var prev := 0.0;
    var i := 0;
    while i < |values|
      invariant 0 <= i <= |values|
      invariant i > 0 ==> prev == EmaRun(values, k, i - 1)
      invariant forall j :: 0 <= j < i ==> out[j] == EmaAt(values, period, j)
      invariant forall j :: i <= j < |values| ==> out[j] == None
    {
      var v := values[i];
      if i == 0 {
        // The source's later `prev == null` branch cannot be taken once index 0 seeds `prev`.
        prev := v;
        out[i] := None;
      } else {
        prev := Smooth(v, prev, k);
        if i >= period - 1 {
          out[i] := Some(prev);
        }
      }
      i := i + 1;
    }
    r := out[..];
  }

  /** `rsi`: sums the first `period` moves, then smooths them as Wilder does. */
  method Rsi(values: seq<real>, period: nat) returns (r: seq<Option<real>>)
    requires period >= 1
    ensures |r| == |values|
    ensures forall i :: 0 <= i < |values| ==> r[i] == RsiAt(values, period, i)
  {
    var out := new Option<real>[|values|](_ => None);
    var avgGain := 0.0;
    var avgLoss := 0.0;
    var i := 1;
    while i < |values|
      invariant 1 <= i <= if |values| == 0 then 1 else |values|
      invariant |values| > 0 && i - 1 < period ==>
        avgGain == MoveSum(values, i - 1, true) && avgLoss == MoveSum(values, i - 1, false)
      invariant |values| > 0 && i - 1 >= period ==>
        avgGain == WilderAvg(values, period, i - 1, true) && avgLoss == WilderAvg(values, period, i - 1, false)
      invariant forall j :: 0 <= j < i && j < |values| ==> out[j] == RsiAt(values, period, j)
      invariant forall j :: i <= j < |values| ==> out[j] == None
    {
      var change := values[i] - values[i - 1];
      var gain := Max(change, 0.0);
      var loss := Max(-change, 0.0);
      assert gain == Move(values, i, true) && loss == Move(values, i, false);
      if i <= period {
        assert MoveSum(values, i, true) == MoveSum(values, i - 1, true) + gain;
        assert MoveSum(values, i, false) == MoveSum(values, i - 1, false) + loss;
        avgGain := avgGain + gain;
        avgLoss := avgLoss + loss;
        if i == period {
          avgGain := avgGain / period as real;
          avgLoss := avgLoss / period as real;
          WilderAvgNonNegative(values, period, i, true);
          WilderAvgNonNegative(values, period, i, false);
          out[i] := Some(RsiOf(avgGain, avgLoss));
        }
      } else {
        avgGain := WilderNext(avgGain, gain, period);
        avgLoss := WilderNext(avgLoss, loss, period);
        WilderAvgNonNegative(values, period, i, true);
        WilderAvgNonNegative(values, period, i, false);
        out[i] := Some(RsiOf(avgGain, avgLoss));
      }
      i := i + 1;
    }
    r := out[..];
  }

  /** `macd`: both EMAs run from index 0; the signal EMA is seeded with the first MACD value. */
  method Macd(values: seq<real>, fast: nat, slow: nat, signal: nat)
    returns (line: seq<Option<real>>, sig: seq<Option<real>>, hist: seq<Option<real>>)
    requires fast >= 1 && slow >= 1 && signal >= 1
    ensures |line| == |sig| == |hist| == |values|
    ensures forall i :: 0 <= i < |values| ==> line[i] == MacdLineAt(values, fast, slow, i)
    ensures forall i :: 0 <= i < |values| ==> sig[i] == MacdSignalAt(values, fast, slow, signal, i)
    ensures forall i :: 0 <= i < |values| ==> hist[i] == MacdHistAt(values, fast, slow, signal, i)
  {
    var macdLine := new Option<real>[|values|](_ => None);
    var signalLine := new Option<real>[|values|](_ => None);
    var histLine := new Option<real>[|values|](_ => None);
    var kFast, kSlow, kSignal := Alpha(fast), Alpha(slow), Alpha(signal);
    var emaFast: Option<real> := None;
    var emaSlow: Option<real> := None;
    var emaSignal: Option<real> := None;
    var minWarmup := MacdStart(fast, slow);
    var i := 0;
    while i < |values|
      invariant 0 <= i <= |values|
      invariant macdLine != signalLine && macdLine != histLine && signalLine != histLine
      invariant emaFast == (if i == 0 then None else Some(EmaRun(values, kFast, i - 1)))
      invariant emaSlow == (if i == 0 then None else Some(EmaRun(values, kSlow, i - 1)))
      invariant emaSignal == (if i <= minWarmup then None else Some(SignalRun(values, fast, slow, signal, i - 1)))
      invariant forall j :: 0 <= j < i ==> macdLine[j] == MacdLineAt(values, fast, slow, j)
      invariant forall j :: 0 <= j < i ==> signalLine[j] == MacdSignalAt(values, fast, slow, signal, j)
      invariant forall j :: 0 <= j < i ==> histLine[j] == MacdHistAt(values, fast, slow, signal, j)
      invariant forall j :: i <= j < |values| ==> macdLine[j] == None && signalLine[j] == None && histLine[j] == None
    {
      var v := values[i];
      if emaFast.None? { emaFast := Some(v); } else { emaFast := Some(Smooth(v, emaFast.value, kFast)); }
      if emaSlow.None? { emaSlow := Some(v); } else { emaSlow := Some(Smooth(v, emaSlow.value, kSlow)); }
      if i >= minWarmup {
        var macdVal := emaFast.value - emaSlow.value;
        macdLine[i] := Some(macdVal);
        if emaSignal.None? {
          emaSignal := Some(macdVal);
        } else {
          emaSignal := Some(Smooth(macdVal, emaSignal.value, kSignal));
        }
        if i >= minWarmup + signal - 1 {
          signalLine[i] := emaSignal;
          histLine[i] := Some(macdVal - emaSignal.value);
        }
      }
      i := i + 1;
    }
    line, sig, hist := macdLine[..], signalLine[..], histLine[..];
  }

  // ---------------------------------------------------------------------
  // buildIndicators

  /** The fatal configuration error: `Unsupported indicator: <type>`. */
  datatype BuildError = UnsupportedIndicator(name: string)

  datatype MacdComponent = LineComponent | SignalComponent | HistComponent

  function FieldValue(c: Candle, f: Field): real {
    match f
    case Time => c.time as real
    case Open => c.open
    case High => c.high
    case Low => c.low
    case Close => c.close
    case Volume => c.volume
  }

  /** `seriesFrom(candles, field)`. */
  function SeriesFrom(candles: seq<Candle>, f: Field): (r: seq<real>)
    ensures |r| == |candles|
    ensures forall i :: 0 <= i < |candles| ==> r[i] == FieldValue(candles[i], f)
  {
    seq(|candles|, i requires 0 <= i < |candles| => FieldValue(candles[i], f))
  }

  function Times(candles: seq<Candle>): (r: seq<int>)
    ensures |r| == |candles|
    ensures forall i :: 0 <= i < |candles| ==> r[i] == candles[i].time
  {
    seq(|candles|, i requires 0 <= i < |candles| => candles[i].time)
  }

  /** `toIndicatorValues`: the value at each candle's index (`?? null` past the end), with its time. */
  function ToIndicatorValues(times: seq<int>, vals: seq<Option<real>>): (r: seq<IndicatorValue>)
    ensures |r| == |times|
    ensures forall i :: 0 <= i < |times| ==> r[i].time == times[i]
    ensures forall i :: 0 <= i < |times| ==> r[i].value == (if i < |vals| then vals[i] else None)
  {
    seq(|times|, i requires 0 <= i < |times| => IndicatorValue(times[i], if i < |vals| then vals[i] else None))
  }

  /** `Number(params.period ?? 14)`. */
  function Period(kind: Kind, ps: Params): (p: nat)
    requires WellFormedFor(kind, ps) && ReadsPeriod(kind)
    ensures p >= 1
  {
    NumParamPositive(kind, ps, "period", 14);
    NumParam(ps, "period", 14)
  }

  function MacdParam(ps: Params, name: string, default: nat): (p: nat)
    requires WellFormedFor(MACD, ps) && name in {"fast", "slow", "signal"} && default >= 1
    ensures p >= 1
  {
    NumParamPositive(MACD, ps, name, default);
    NumParam(ps, name, default)
  }

  /** `String(params.component ?? 'line')`: anything but signal or hist selects the line. */
  function ComponentOf(ps: Params): MacdComponent {
    match Lookup(ps, "component")
    case Some(PText(c)) =>
      if c == "signal" then SignalComponent else if c == "hist" then HistComponent else LineComponent
    case _ => LineComponent
  }

  /** The series the engine computes for a supported spec, as a function of the candles. */
  function SeriesFor(candles: seq<Candle>, s: IndicatorRef): seq<Option<real>>
    requires !s.kind.Unsupported? && WellFormedFor(s.kind, s.params)
  {
    var close := SeriesFrom(candles, Close);
    match s.kind
    case SMA =>
      var v := SeriesFrom(candles, SourceField(s.kind, s.params));
      seq(|v|, i requires 0 <= i < |v| => SmaAt(v, Period(s.kind, s.params), i))
    case EMA =>
      var v := SeriesFrom(candles, SourceField(s.kind, s.params));
      seq(|v|, i requires 0 <= i < |v| => EmaAt(v, Period(s.kind, s.params), i))
    case RSI =>
      seq(|close|, i requires 0 <= i < |close| => RsiAt(close, Period(s.kind, s.params), i))
    case MACD =>
      var fast := MacdParam(s.params, "fast", 12);
      var slow := MacdParam(s.params, "slow", 26);
      var signal := MacdParam(s.params, "signal", 9);
      match ComponentOf(s.params)
      case SignalComponent => seq(|close|, i requires 0 <= i < |close| => MacdSignalAt(close, fast, slow, signal, i))
      case HistComponent => seq(|close|, i requires 0 <= i < |close| => MacdHistAt(close, fast, slow, signal, i))
      case LineComponent => seq(|close|, i requires 0 <= i < |close| => MacdLineAt(close, fast, slow, i))
  }

  function ResultFor(candles: seq<Candle>, s: IndicatorRef): IndicatorResult
    requires !s.kind.Unsupported? && WellFormedFor(s.kind, s.params)
  {
    IndicatorResult(s.kind, ToIndicatorValues(Times(candles), SeriesFor(candles, s)), s.params, KeyOf(s))
  }

  predicate AllWellFormed(specs: seq<IndicatorRef>) {
    forall i :: 0 <= i < |specs| ==> WellFormedFor(specs[i].kind, specs[i].params)
  }

  /**
   * Which spec `buildIndicators` computes under each key, spec by spec: a
   * spec whose key is already present is skipped, an unsupported kind
   * throws, any other spec claims its key.
   */
  function Chosen(specs: seq<IndicatorRef>): Result<map<IndicatorKey, IndicatorRef>, BuildError>
  {
    if specs == [] then Ok(map[])
    else
      match Chosen(specs[..|specs| - 1])
      case Err(e) => Err(e)
      case Ok(c) =>
        var s := specs[|specs| - 1];
        if KeyOf(s) in c then Ok(c)
        else if s.kind.Unsupported? then Err(UnsupportedIndicator(s.kind.name))
        else Ok(c[KeyOf(s) := s])
  }

  /** Every chosen spec is one of the specs, is supported and sits under its own key. */
  lemma {:induction false} ChosenFromSpecs(specs: seq<IndicatorRef>)
    ensures Chosen(specs).Ok? ==> forall k :: k in Chosen(specs).value ==>
      var s := Chosen(specs).value[k];
      s in specs && !s.kind.Unsupported? && KeyOf(s) == k
    decreases |specs|
  {
    if specs != [] {
      ChosenFromSpecs(specs[..|specs| - 1]);
    }
  }

  /** The map `buildIndicators` returns: the series of each chosen spec under its key. */
  function BuildSpec(candles: seq<Candle>, specs: seq<IndicatorRef>): Result<IndicatorMap, BuildError>
    requires AllWellFormed(specs)
  {
    ChosenFromSpecs(specs);
    match Chosen(specs)
    case Err(e) => Err(e)
    case Ok(c) => Ok(map k | k in c :: ResultFor(candles, c[k]))
  }

  lemma BuildSpecOfChosen(candles: seq<Candle>, specs: seq<IndicatorRef>, c: map<IndicatorKey, IndicatorRef>)
    requires AllWellFormed(specs) && Chosen(specs) == Ok(c)
    requires forall k :: k in c ==> c[k] in specs && !c[k].kind.Unsupported?
    ensures BuildSpec(candles, specs).Ok?
    ensures BuildSpec(candles, specs).value == map k | k in c :: ResultFor(candles, c[k])
  {
  }

  /** One step of the choice, on a prefix of `specs`. */
  lemma ChosenStep(specs: seq<IndicatorRef>, i: nat)
    requires i < |specs|
    ensures Chosen(specs[..i + 1]) ==
      match Chosen(specs[..i])
      case Err(e) => Err(e)
      case Ok(c) =>
        if KeyOf(specs[i]) in c then Ok(c)
        else if specs[i].kind.Unsupported? then Err(UnsupportedIndicator(specs[i].kind.name))
        else Ok(c[KeyOf(specs[i]) := specs[i]])
  {
    assert specs[..i + 1][..i] == specs[..i];
  }

  /** Once the choice has thrown, later specs do not change the outcome. */
  lemma {:induction false} ChosenErrorSticks(specs: seq<IndicatorRef>, i: nat)
    requires i <= |specs| && Chosen(specs[..i]).Err?
    ensures Chosen(specs) == Chosen(specs[..i])
    decreases |specs|
  {
    if i < |specs| {
      var init := specs[..|specs| - 1];
      assert init[..i] == specs[..i];
      ChosenErrorSticks(init, i);
    } else {
      assert specs[..i] == specs;
    }
  }

  /** The per-spec dispatch of `buildIndicators`, computed by the loop methods above. */
  method ComputeSeries(candles: seq<Candle>, s: IndicatorRef) returns (values: seq<Option<real>>)
    requires !s.kind.Unsupported? && WellFormedFor(s.kind, s.params)
    ensures values == SeriesFor(candles, s)
  {
    var close := SeriesFrom(candles, Close);
    if s.kind == SMA {
      values := Sma(SeriesFrom(candles, SourceField(s.kind, s.params)), Period(s.kind, s.params));
    } else if s.kind == EMA {
      values := Ema(SeriesFrom(candles, SourceField(s.kind, s.params)), Period(s.kind, s.params));
    } else if s.kind == RSI {
      values := Rsi(close, Period(s.kind, s.params));
    } else {
      var fast := MacdParam(s.params, "fast", 12);
      var slow := MacdParam(s.params, "slow", 26);
      var signal := MacdParam(s.params, "signal", 9);
      var macdLine, signalLine, histLine := Macd(close, fast, slow, signal);
      var component := ComponentOf(s.params);
      if component == SignalComponent {
        values := signalLine;
      } else if component == HistComponent {
        values := histLine;
      } else {
        values := macdLine;
      }
    }
  }

  method BuildIndicators(candles: seq<Candle>, specs: seq<IndicatorRef>) returns (r: Result<IndicatorMap, BuildError>)
    requires AllWellFormed(specs)
    ensures r == BuildSpec(candles, specs)
  {
    var times := Times(candles);
    var out: IndicatorMap := map[];
    ghost var chosen: map<IndicatorKey, IndicatorRef> := map[];
    var i := 0;
    while i < |specs|
      invariant 0 <= i <= |specs|
      invariant Chosen(specs[..i]) == Ok(chosen)
      invariant forall k :: k in chosen ==> chosen[k] in specs && !chosen[k].kind.Unsupported? && KeyOf(chosen[k]) == k
      invariant out.Keys == chosen.Keys
      invariant forall k :: k in out ==> out[k] == ResultFor(candles, chosen[k])
    {
      var s := specs[i];
      ChosenStep(specs, i);
      var key := KeyOf(s);
      if key !in out {
        if s.kind.Unsupported? {
          ChosenErrorSticks(specs, i + 1);
          return Err(UnsupportedIndicator(s.kind.name));
        }
        var values := ComputeSeries(candles, s);
        out := out[key := IndicatorResult(s.kind, ToIndicatorValues(times, values), s.params, key)];
        chosen := chosen[key := s];
      }
      i := i + 1;
    }
    assert specs[..|specs|] == specs;
    BuildSpecOfChosen(candles, specs, chosen);
    assert out == BuildSpec(candles, specs).value;
    return Ok(out);
  }

  // ---------------------------------------------------------------------
  // Properties of buildIndicators

  /** The keys of a list of specs. */
  function KeySet(specs: seq<IndicatorRef>): set<IndicatorKey> {
    set s | s in specs :: KeyOf(s)
  }

  lemma KeySetSnoc(init: seq<IndicatorRef>, last: IndicatorRef)
    ensures KeySet(init + [last]) == KeySet(init) + {KeyOf(last)}
  {
    var specs := init + [last];
    assert forall s :: s in specs <==> s in init || s == last;
  }

  /** On success exactly the keys of the specs are chosen. */
  lemma {:induction false} ChosenKeys(specs: seq<IndicatorRef>)
    requires Chosen(specs).Ok?
    ensures Chosen(specs).value.Keys == KeySet(specs)
    decreases |specs|
  {
    if specs != [] {
      var init := specs[..|specs| - 1];
      var last := specs[|specs| - 1];
      assert specs == init + [last];
      ChosenKeys(init);
      KeySetSnoc(init, last);
    }
  }

  /** The choice fails exactly when some spec names an unsupported indicator. */
  lemma {:induction false} ChosenSucceedsIff(specs: seq<IndicatorRef>)
    ensures Chosen(specs).Ok? <==> forall j :: 0 <= j < |specs| ==> !specs[j].kind.Unsupported?
    decreases |specs|
  {
    if specs != [] {
      var init := specs[..|specs| - 1];
      var last := specs[|specs| - 1];
      ChosenSucceedsIff(init);
      assert forall j :: 0 <= j < |init| ==> specs[j] == init[j];
      ChosenFromSpecs(init);
    }
  }

  /** The map never has more entries than there are specs. */
  lemma {:induction false} ChosenSize(specs: seq<IndicatorRef>)
    requires Chosen(specs).Ok?
    ensures |Chosen(specs).value| <= |specs|
    decreases |specs|
  {
    if specs != [] {
      ChosenSize(specs[..|specs| - 1]);
    }
  }

  /** The first spec with a given key is the one chosen for it; later duplicates are skipped. */
  lemma {:induction false} ChosenFirstWins(specs: seq<IndicatorRef>, j: nat)
    requires Chosen(specs).Ok? && j < |specs|
    requires forall i :: 0 <= i < j ==> KeyOf(specs[i]) != KeyOf(specs[j])
    ensures KeyOf(specs[j]) in Chosen(specs).value && Chosen(specs).value[KeyOf(specs[j])] == specs[j]
    decreases |specs|
  {
    var init := specs[..|specs| - 1];
    var key := KeyOf(specs[j]);
    assert Chosen(init).Ok?;
    var c := Chosen(init).value;
    ChosenKeys(init);
    if j < |specs| - 1 {
      assert init[j] == specs[j];
      assert forall i :: 0 <= i < j ==> init[i] == specs[i];
      ChosenFirstWins(init, j);
      assert key in c && c[key] == specs[j];
    } else {
      assert key !in KeySet(init) by {
        forall t | t in init
          ensures KeyOf(t) != key
        {
          var i :| 0 <= i < |init| && init[i] == t;
          assert specs[i] == t;
        }
      }
      assert key !in c;
    }
  }

  /** The build fails exactly when some spec names an unsupported indicator. */
  lemma BuildSpecSucceedsIff(candles: seq<Candle>, specs: seq<IndicatorRef>)
    requires AllWellFormed(specs)
    ensures BuildSpec(candles, specs).Ok? <==> forall j :: 0 <= j < |specs| ==> !specs[j].kind.Unsupported?
  {
    ChosenSucceedsIff(specs);
  }

  /** The error reported is the one of the first unsupported spec. */
  lemma BuildSpecReportsFirst(candles: seq<Candle>, specs: seq<IndicatorRef>, j: nat)
    requires AllWellFormed(specs) && j < |specs| && specs[j].kind.Unsupported?
    requires forall i :: 0 <= i < j ==> !specs[i].kind.Unsupported?
    ensures BuildSpec(candles, specs) == Err(UnsupportedIndicator(specs[j].kind.name))
  {
    ChosenStep(specs, j);
    ChosenSucceedsIff(specs[..j]);
    ChosenFromSpecs(specs[..j]);
    ChosenErrorSticks(specs, j + 1);
  }

  /** On success the map holds one entry per distinct key among the specs, and no more entries than specs. */
  lemma BuildSpecKeys(candles: seq<Candle>, specs: seq<IndicatorRef>)
    requires AllWellFormed(specs) && BuildSpec(candles, specs).Ok?
    ensures BuildSpec(candles, specs).value.Keys == KeySet(specs)
    ensures |BuildSpec(candles, specs).value| <= |specs|
  {
    ChosenKeys(specs);
    ChosenSize(specs);
    assert BuildSpec(candles, specs).value.Keys == Chosen(specs).value.Keys;
  }

  /** The first spec with a key decides that key's series. */
  lemma BuildSpecFirstWins(candles: seq<Candle>, specs: seq<IndicatorRef>, j: nat)
    requires AllWellFormed(specs) && BuildSpec(candles, specs).Ok? && j < |specs|
    requires forall i :: 0 <= i < j ==> KeyOf(specs[i]) != KeyOf(specs[j])
    ensures !specs[j].kind.Unsupported? && KeyOf(specs[j]) in BuildSpec(candles, specs).value
    ensures BuildSpec(candles, specs).value[KeyOf(specs[j])] == ResultFor(candles, specs[j])
  {
    ChosenSucceedsIff(specs);
    ChosenFirstWins(specs, j);
  }

  /** Every series is stored under its own key and is aligned with the candles, index for index. */
  lemma BuildSpecAligned(candles: seq<Candle>, specs: seq<IndicatorRef>)
    requires AllWellFormed(specs) && BuildSpec(candles, specs).Ok?
    ensures forall k :: k in BuildSpec(candles, specs).value ==>
      var res := BuildSpec(candles, specs).value[k];
      res.key == k && res.kind == k.kind && |res.values| == |candles| &&
      forall i :: 0 <= i < |candles| ==> res.values[i].time == candles[i].time
  {
    ChosenFromSpecs(specs);
  }
}
