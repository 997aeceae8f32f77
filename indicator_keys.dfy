/**
 * Parameter objects and the canonical indicator key of
 * lib/services/indicatorEngine.ts (`keyFrom`, `indicatorKey`): the kind
 * together with the parameter entries sorted by name. The key is kept as a
 * structured value rather than the source's joined string.
 */
module IndicatorKeys {
  import opened Wrappers
  import opened Types

  /** No two entries share a name, as in any object. */
  predicate DistinctNames(ps: Params) {
    forall i, j :: 0 <= i < j < |ps| ==> ps[i].name != ps[j].name
  }

  /** The value stored under `name`, if any (`params.name`). */
  function Lookup(ps: Params, name: string): (r: Option<ParamValue>)
    ensures r.Some? <==> exists i :: 0 <= i < |ps| && ps[i].name == name
    ensures r.Some? ==> Param(name, r.value) in ps
  {
    if ps == [] then None
    else if ps[0].name == name then Some(ps[0].value)
    else Lookup(ps[1..], name)
  }

  /** `Number(params.name ?? default)` for a numeric parameter. */
  function NumParam(ps: Params, name: string, default: int): int {
    match Lookup(ps, name)
    case Some(PNum(n)) => n
    case _ => default
  }

  const FieldNames: set<string> := {"time", "open", "high", "low", "close", "volume"}

  function FieldNamed(f: string): Field
    requires f in FieldNames
  {
    if f == "time" then Time
    else if f == "open" then Open
    else if f == "high" then High
    else if f == "low" then Low
    else if f == "close" then Close
    else Volume
  }

  /** The kinds whose series use `period` as a window length. */
  predicate ReadsPeriod(kind: Kind) {
    kind.SMA? || kind.EMA? || kind.RSI?
  }

  /** The kinds whose series read the candle field named by `source`. */
  predicate ReadsSource(kind: Kind) {
    kind.SMA? || kind.EMA?
  }

  /**
   * A parameter value that an indicator of `kind` can compute with. Only
   * what the kind reads is constrained: SMA, EMA and RSI need a positive
   * integer `period`, MACD positive integer `fast`, `slow` and `signal`,
   * SMA and EMA a `source` that names a candle field, and the warm-up reads
   * the `period` of every supported kind as a number. An unsupported kind
   * throws before anything is read.
   */
  predicate ParamOk(kind: Kind, p: Param) {
    && (p.name == "period" && !kind.Unsupported? ==> p.value.PNum? && (ReadsPeriod(kind) ==> p.value.n >= 1))
    && (p.name in {"fast", "slow", "signal"} && kind.MACD? ==> p.value.PNum? && p.value.n >= 1)
    && (p.name == "source" && ReadsSource(kind) ==> p.value.PText? && p.value.s in FieldNames)
  }

  predicate WellFormedFor(kind: Kind, ps: Params) {
    DistinctNames(ps) && forall i :: 0 <= i < |ps| ==> ParamOk(kind, ps[i])
  }

  /** RSI never reads `source`, so any `source` is accepted for it; SMA reads it and needs a candle field. */
  lemma SourceCheckedOnlyWhereRead()
    ensures WellFormedFor(RSI, [Param("period", PNum(14)), Param("source", PText("hl2"))])
    ensures !WellFormedFor(SMA, [Param("period", PNum(14)), Param("source", PText("hl2"))])
    ensures WellFormedFor(SMA, [Param("period", PNum(14)), Param("fast", PNum(0))])
  {
    assert "hl2" !in FieldNames;
    assert [Param("period", PNum(14)), Param("source", PText("hl2"))][1].name == "source";
  }

  lemma NumParamPositive(kind: Kind, ps: Params, name: string, default: int)
    requires WellFormedFor(kind, ps) && default >= 1
    requires (name == "period" && ReadsPeriod(kind)) || (name in {"fast", "slow", "signal"} && kind.MACD?)
    ensures NumParam(ps, name, default) >= 1
  {
    match Lookup(ps, name)
    case None =>
    case Some(v) =>
      var i :| 0 <= i < |ps| && ps[i] == Param(name, v);
      assert ParamOk(kind, ps[i]);
  }

  /** `String(params.source ?? 'close')` read as a candle field. */
  function SourceField(kind: Kind, ps: Params): (f: Field)
    requires WellFormedFor(kind, ps) && ReadsSource(kind)
  {
    match Lookup(ps, "source")
    case Some(PText(s)) =>
      var i :| 0 <= i < |ps| && ps[i] == Param("source", PText(s));
      assert ParamOk(kind, ps[i]);
      FieldNamed(s)
    case _ => Close
  }

  // ---------------------------------------------------------------------
  // Ordering of names: character-code lexicographic order.

  predicate NameLe(a: string, b: string)
    decreases |a|
  {
    |a| == 0 || (|b| > 0 && (a[0] < b[0] || (a[0] == b[0] && NameLe(a[1..], b[1..]))))
  }

  lemma {:induction false} NameLeTotal(a: string, b: string)
    ensures NameLe(a, b) || NameLe(b, a)
    decreases |a|
  {
    if |a| > 0 && |b| > 0 && a[0] == b[0] {
      NameLeTotal(a[1..], b[1..]);
    }
  }

  lemma {:induction false} NameLeTransitive(a: string, b: string, c: string)
    requires NameLe(a, b) && NameLe(b, c)
    ensures NameLe(a, c)
    decreases |a|
  {
    if |a| > 0 && a[0] == b[0] && b[0] == c[0] {
      NameLeTransitive(a[1..], b[1..], c[1..]);
    }
  }

  lemma {:induction false} NameLeAntisymmetric(a: string, b: string)
    requires NameLe(a, b) && NameLe(b, a)
    ensures a == b
    decreases |a|
  {
    if |a| > 0 {
      NameLeAntisymmetric(a[1..], b[1..]);
      assert a == [a[0]] + a[1..] && b == [b[0]] + b[1..];
    }
  }

  predicate SortedByName(s: Params) {
    forall i, j :: 0 <= i < j < |s| ==> NameLe(s[i].name, s[j].name)
  }

  /** Insert `p` before the first entry whose name is not smaller. */
  function InsertByName(p: Param, s: Params): (r: Params)
    ensures multiset(r) == multiset(s) + multiset{p}
  {
    if s == [] then [p]
    else if NameLe(p.name, s[0].name) then [p] + s
    else
      assert s == [s[0]] + s[1..];
      [s[0]] + InsertByName(p, s[1..])
  }

  /** Insertion sort by name: the source's `sort` by `localeCompare` on the keys. */
  function SortByName(s: Params): (r: Params)
    ensures multiset(r) == multiset(s)
  {
    if s == [] then []
    else
      assert s == [s[0]] + s[1..];
      InsertByName(s[0], SortByName(s[1..]))
  }

  lemma InsertByNameMembers(p: Param, s: Params)
    ensures forall x :: x in InsertByName(p, s) <==> x == p || x in s
  {
    var r := InsertByName(p, s);
    forall x ensures x in r <==> x == p || x in s {
      assert x in r <==> x in multiset(r);
      assert x in s <==> x in multiset(s);
    }
  }

  lemma {:induction false} InsertByNameSorted(p: Param, s: Params)
    requires SortedByName(s)
    ensures SortedByName(InsertByName(p, s))
  {
    if s == [] {
    } else if NameLe(p.name, s[0].name) {
      var r := [p] + s;
      forall i, j | 0 <= i < j < |r| ensures NameLe(r[i].name, r[j].name) {
        if i == 0 && j > 1 {
          NameLeTransitive(p.name, s[0].name, s[j - 1].name);
        }
      }
    } else {
      var rest := InsertByName(p, s[1..]);
      InsertByNameSorted(p, s[1..]);
      InsertByNameMembers(p, s[1..]);
      NameLeTotal(p.name, s[0].name);
      forall x | x in rest ensures NameLe(s[0].name, x.name) {
        if x != p {
          var k :| 0 <= k < |s[1..]| && s[1..][k] == x;
          assert s[k + 1] == x;
        }
      }
      var r := [s[0]] + rest;
      forall i, j | 0 <= i < j < |r| ensures NameLe(r[i].name, r[j].name) {
        if i == 0 {
          assert r[j] == rest[j - 1];
        } else {
          assert r[i] == rest[i - 1] && r[j] == rest[j - 1];
        }
      }
    }
  }

  lemma {:induction false} SortByNameSorted(s: Params)
    ensures SortedByName(SortByName(s))
  {
    if s != [] {
      SortByNameSorted(s[1..]);
      InsertByNameSorted(s[0], SortByName(s[1..]));
    }
  }

  lemma {:induction false} InsertByNameDistinct(p: Param, s: Params)
    requires DistinctNames(s)
    requires forall x :: x in s ==> x.name != p.name
    ensures DistinctNames(InsertByName(p, s))
  {
    if s == [] {
    } else if NameLe(p.name, s[0].name) {
      var r := [p] + s;
      forall i, j | 0 <= i < j < |r| ensures r[i].name != r[j].name {
        assert r[j] == s[j - 1] && s[j - 1] in s;
      }
    } else {
      var rest := InsertByName(p, s[1..]);
      InsertByNameDistinct(p, s[1..]);
      InsertByNameMembers(p, s[1..]);
      var r := [s[0]] + rest;
      forall i, j | 0 <= i < j < |r| ensures r[i].name != r[j].name {
        assert r[j] == rest[j - 1] && rest[j - 1] in rest;
        if i == 0 {
          if r[j] != p {
            var k :| 0 <= k < |s[1..]| && s[1..][k] == r[j];
            assert s[k + 1] == r[j];
          }
        } else {
          assert r[i] == rest[i - 1];
        }
      }
    }
  }

  lemma {:induction false} SortByNameDistinct(s: Params)
    requires DistinctNames(s)
    ensures DistinctNames(SortByName(s))
  {
    if s != [] {
      var rest := SortByName(s[1..]);
      SortByNameDistinct(s[1..]);
      forall x | x in rest ensures x.name != s[0].name {
        assert x in multiset(s[1..]);
        var k :| 0 <= k < |s[1..]| && s[1..][k] == x;
        assert s[k + 1] == x;
      }
      InsertByNameDistinct(s[0], rest);
    }
  }

  /** Two name-sorted lists with distinct names and the same entries start alike. */
  lemma SortedSameHead(a: Params, b: Params)
    requires a != [] && SortedByName(a) && SortedByName(b) && DistinctNames(a)
    requires multiset(a) == multiset(b)
    ensures b != [] && a[0] == b[0]
  {
    assert a[0] in multiset(b) && b[0] in multiset(a) by {
      assert a[0] in multiset(a);
      assert |multiset(b)| == |b|;
    }
    var j :| 0 <= j < |b| && b[j] == a[0];
    var i :| 0 <= i < |a| && a[i] == b[0];
    if i != 0 {
      assert NameLe(a[0].name, b[0].name);
      if j != 0 {
        assert NameLe(b[0].name, a[0].name);
        NameLeAntisymmetric(a[0].name, b[0].name);
        assert false;
      }
    }
  }

  lemma TailSortedDistinct(a: Params)
    requires a != [] && SortedByName(a) && DistinctNames(a)
    ensures SortedByName(a[1..]) && DistinctNames(a[1..])
  {
    forall i, j | 0 <= i < j < |a[1..]|
      ensures NameLe(a[1..][i].name, a[1..][j].name) && a[1..][i].name != a[1..][j].name
    {
      assert a[1..][i] == a[i + 1] && a[1..][j] == a[j + 1];
    }
  }

  lemma SameTails(a: Params, b: Params)
    requires a != [] && b != [] && a[0] == b[0] && multiset(a) == multiset(b)
    ensures multiset(a[1..]) == multiset(b[1..])
  {
    assert a == [a[0]] + a[1..] && b == [b[0]] + b[1..];
    assert multiset(a) == multiset{a[0]} + multiset(a[1..]);
    assert multiset(b) == multiset{b[0]} + multiset(b[1..]);
    assert multiset(a[1..]) == multiset(a) - multiset{a[0]};
    assert multiset(b[1..]) == multiset(b) - multiset{b[0]};
  }

  /** Two name-sorted lists with distinct names and the same entries are equal. */
  lemma {:induction false} SortedUnique(a: Params, b: Params)
    requires SortedByName(a) && SortedByName(b) && DistinctNames(a) && DistinctNames(b)
    requires multiset(a) == multiset(b)
    ensures a == b
  {
    if a == [] {
      assert |b| == |multiset(b)| == 0;
    } else {
      SortedSameHead(a, b);
      SameTails(a, b);
      TailSortedDistinct(a);
      TailSortedDistinct(b);
      SortedUnique(a[1..], b[1..]);
      assert a == [a[0]] + a[1..] && b == [b[0]] + b[1..];
    }
  }

  /** `keyFrom(type, params)`. */
  function KeyFrom(kind: Kind, ps: Params): IndicatorKey {
    IndicatorKey(kind, SortByName(ps))
  }

  function KeyOf(r: IndicatorRef): IndicatorKey {
    KeyFrom(r.kind, r.params)
  }

  /** The key does not depend on the order in which the parameters were written. */
  lemma KeyFromOrderIndependent(kind: Kind, p1: Params, p2: Params)
    requires DistinctNames(p1) && DistinctNames(p2)
    requires multiset(p1) == multiset(p2)
    ensures KeyFrom(kind, p1) == KeyFrom(kind, p2)
  {
    SortByNameSorted(p1);
    SortByNameSorted(p2);
    SortByNameDistinct(p1);
    SortByNameDistinct(p2);
    SortedUnique(SortByName(p1), SortByName(p2));
  }

  /** Two specs share a key exactly when they have the same kind and the same entries. */
  lemma KeyFromIdentifies(k1: Kind, p1: Params, k2: Kind, p2: Params)
    requires DistinctNames(p1) && DistinctNames(p2)
    ensures KeyFrom(k1, p1) == KeyFrom(k2, p2) <==> k1 == k2 && multiset(p1) == multiset(p2)
  {
    if k1 == k2 && multiset(p1) == multiset(p2) {
      KeyFromOrderIndependent(k1, p1, p2);
    }
  }
}
