/**
  The string a cache key is the digest of: `json.dumps(data, sort_keys=True)`
  for a dict or a list, `str(data)` for anything else.  Dict keys are sorted
  by code point, so the same dict built in a different insertion order
  renders, and therefore hashes, the same.
*/
module CacheKey {
  import Text

  /** The Python values the cache keys are built from; a dict is its list of
      `(key, value)` items in insertion order. */
  datatype Value =
    | Null
    | Bool(b: bool)
    | Int(i: int)
    | Str(s: string)
    | List(items: seq<Value>)
    | Dict(entries: seq<(string, Value)>)

  /** Python's ordering of `str` values: lexicographic by code point. */
  predicate StrLt(a: string, b: string)
  {
    if |a| == 0 then |b| > 0
    else if |b| == 0 then false
    else if a[0] != b[0] then a[0] < b[0]
    else StrLt(a[1..], b[1..])
  }

  lemma {:induction false} StrLtIrreflexive(a: string)
    ensures !StrLt(a, a)
  {
    if |a| > 0 {
      StrLtIrreflexive(a[1..]);
    }
  }

  lemma {:induction false} StrLtTransitive(a: string, b: string, c: string)
    requires StrLt(a, b) && StrLt(b, c)
    ensures StrLt(a, c)
  {
    if |a| > 0 && |b| > 0 && |c| > 0 && a[0] == b[0] && b[0] == c[0] {
      StrLtTransitive(a[1..], b[1..], c[1..]);
    }
  }

  lemma {:induction false} StrLtTotal(a: string, b: string)
    requires a != b
    ensures StrLt(a, b) || StrLt(b, a)
  {
    if |a| > 0 && |b| > 0 && a[0] == b[0] {
      assert a == [a[0]] + a[1..] && b == [b[0]] + b[1..];
      StrLtTotal(a[1..], b[1..]);
    }
  }

  function KeySet<V>(s: seq<(string, V)>): set<string>
  {
    set i | 0 <= i < |s| :: s[i].0
  }

  predicate DistinctKeys<V>(s: seq<(string, V)>)
  {
    forall i, j :: 0 <= i < j < |s| ==> s[i].0 != s[j].0
  }

  predicate StrictlySorted<V>(s: seq<(string, V)>)
  {
    forall i, j :: 0 <= i < j < |s| ==> StrLt(s[i].0, s[j].0)
  }

  /** The dict a list of items builds, for items with distinct keys. */
  function ToMap<V>(s: seq<(string, V)>): map<string, V>
  {
    if |s| == 0 then map[] else ToMap(s[1..])[s[0].0 := s[0].1]
  }

  lemma {:induction false} ToMapFacts<V>(s: seq<(string, V)>)
    requires DistinctKeys(s)
    ensures ToMap(s).Keys == KeySet(s)
    ensures forall i :: 0 <= i < |s| ==> ToMap(s)[s[i].0] == s[i].1
  {
    if |s| > 0 {
      ToMapFacts(s[1..]);
      assert KeySet(s) == KeySet(s[1..]) + {s[0].0} by {
        forall k | k in KeySet(s) ensures k in KeySet(s[1..]) + {s[0].0} {
          var i :| 0 <= i < |s| && s[i].0 == k;
          if i > 0 { assert s[1..][i - 1] == s[i]; }
        }
        forall k | k in KeySet(s[1..]) ensures k in KeySet(s) {
          var i :| 0 <= i < |s| - 1 && s[1..][i].0 == k;
          assert s[i + 1].0 == k;
        }
      }
      forall i | 0 <= i < |s| ensures ToMap(s)[s[i].0] == s[i].1 {
        if i > 0 {
          assert s[1..][i - 1] == s[i];
        }
      }
    }
  }

  /** One step of `sorted(d.items())`: places `e` before the first item whose key is larger. */
  function InsertByKey<V>(t: seq<(string, V)>, e: (string, V)): seq<(string, V)>
  {
    if |t| == 0 || !StrLt(t[0].0, e.0) then [e] + t else [t[0]] + InsertByKey(t[1..], e)
  }

  function SortByKey<V>(s: seq<(string, V)>): seq<(string, V)>
  {
    if |s| == 0 then [] else InsertByKey(SortByKey(s[1..]), s[0])
  }

  lemma {:induction false} InsertByKeyKeys<V>(t: seq<(string, V)>, e: (string, V))
    ensures KeySet(InsertByKey(t, e)) == KeySet(t) + {e.0}
  {
    var r := InsertByKey(t, e);
    if |t| == 0 {
      KeySetCons(r);
      assert KeySet(r[1..]) == {};
    } else if !StrLt(t[0].0, e.0) {
      assert r[1..] == t;
      KeySetCons(r);
    } else {
      InsertByKeyKeys(t[1..], e);
      assert r[1..] == InsertByKey(t[1..], e);
      KeySetCons(r);
      KeySetCons(t);
    }
  }

  lemma {:induction false} InsertByKeyMap<V>(t: seq<(string, V)>, e: (string, V))
    requires e.0 !in KeySet(t)
    ensures ToMap(InsertByKey(t, e)) == ToMap(t)[e.0 := e.1]
  {
    var r := InsertByKey(t, e);
    if |t| > 0 && StrLt(t[0].0, e.0) {
      KeySetCons(t);
      InsertByKeyMap(t[1..], e);
      assert r[1..] == InsertByKey(t[1..], e);
    }
  }

  lemma {:induction false} InsertByKeySorted<V>(t: seq<(string, V)>, e: (string, V))
    requires StrictlySorted(t) && e.0 !in KeySet(t)
    ensures StrictlySorted(InsertByKey(t, e))
  {
    var r := InsertByKey(t, e);
    if |t| > 0 && !StrLt(t[0].0, e.0) {
      assert t[0].0 in KeySet(t);
      StrLtTotal(e.0, t[0].0);
      forall i, j | 0 <= i < j < |r| ensures StrLt(r[i].0, r[j].0) {
        if i == 0 && j > 1 {
          StrLtTransitive(e.0, t[0].0, t[j - 1].0);
        }
      }
    } else if |t| > 0 {
      var t' := t[1..];
      KeySetCons(t);
      InsertByKeySorted(t', e);
      InsertByKeyKeys(t', e);
      var r' := InsertByKey(t', e);
      assert r == [t[0]] + r';
      forall j | 0 < j < |r| ensures StrLt(r[0].0, r[j].0) {
        assert r[j] == r'[j - 1];
        assert r[j].0 in KeySet(r');
        if r[j].0 != e.0 {
          var m :| 0 <= m < |t'| && t'[m].0 == r[j].0;
          assert t[m + 1] == t'[m];
        }
      }
    }
  }

  lemma KeySetCons<V>(s: seq<(string, V)>)
    requires |s| > 0
    ensures KeySet(s) == {s[0].0} + KeySet(s[1..])
  {
    forall k | k in KeySet(s) ensures k in {s[0].0} + KeySet(s[1..]) {
      var i :| 0 <= i < |s| && s[i].0 == k;
      if i > 0 { assert s[1..][i - 1] == s[i]; }
    }
    forall k | k in KeySet(s[1..]) ensures k in KeySet(s) {
      var i :| 0 <= i < |s| - 1 && s[1..][i].0 == k;
      assert s[i + 1].0 == k;
    }
  }

  /** Sorting the items of a dict yields strictly increasing keys and the same dict. */
  lemma {:induction false} SortByKeyFacts<V>(s: seq<(string, V)>)
    requires DistinctKeys(s)
    ensures StrictlySorted(SortByKey(s))
    ensures KeySet(SortByKey(s)) == KeySet(s)
    ensures ToMap(SortByKey(s)) == ToMap(s)
  {
    if |s| > 0 {
      var s' := s[1..];
      assert DistinctKeys(s');
      SortByKeyFacts(s');
      KeySetCons(s);
      forall i | 0 <= i < |s'| ensures s'[i].0 != s[0].0 {
        assert s'[i] == s[i + 1];
      }
      InsertByKeySorted(SortByKey(s'), s[0]);
      InsertByKeyKeys(SortByKey(s'), s[0]);
      InsertByKeyMap(SortByKey(s'), s[0]);
    }
  }

  lemma StrLtAsymmetric(a: string, b: string)
    requires StrLt(a, b)
    ensures !StrLt(b, a)
  {
    if StrLt(b, a) {
      StrLtTransitive(a, b, a);
      StrLtIrreflexive(a);
    }
  }

  /** The first key of a strictly sorted item list is its least. */
  lemma SortedHeadLeast<V>(s: seq<(string, V)>, k: string)
    requires StrictlySorted(s) && k in KeySet(s)
    ensures k == s[0].0 || StrLt(s[0].0, k)
  {
  }

  lemma ToMapEmpty<V>(s: seq<(string, V)>)
    ensures ToMap(s) == map[] <==> |s| == 0
  {
    if |s| > 0 {
      assert s[0].0 in ToMap(s);
    }
  }

  lemma ToMapTail<V>(s: seq<(string, V)>)
    requires |s| > 0 && DistinctKeys(s)
    ensures ToMap(s[1..]) == ToMap(s) - {s[0].0}
  {
    var t, k := s[1..], s[0].0;
    assert DistinctKeys(t) by {
      forall i, j | 0 <= i < j < |t| ensures t[i].0 != t[j].0 {
        assert t[i] == s[i + 1] && t[j] == s[j + 1];
      }
    }
    ToMapFacts(t);
    assert k !in KeySet(t) by {
      forall i | 0 <= i < |t| ensures t[i].0 != k {
        assert t[i] == s[i + 1];
      }
    }
    UpdateThenRemove(ToMap(t), k, s[0].1);
  }

  lemma UpdateThenRemove<K, V>(m: map<K, V>, k: K, v: V)
    requires k !in m
    ensures m[k := v] - {k} == m
  {
  }

  lemma SortedTail<V>(s: seq<(string, V)>)
    requires |s| > 0 && StrictlySorted(s)
    ensures StrictlySorted(s[1..])
  {
    forall i, j | 0 <= i < j < |s| - 1 ensures StrLt(s[1..][i].0, s[1..][j].0) {
      assert s[1..][i] == s[i + 1] && s[1..][j] == s[j + 1];
    }
  }

  /** Two item lists with strictly increasing keys that build the same dict are equal. */
  lemma {:induction false} SortedItemsUnique<V>(s1: seq<(string, V)>, s2: seq<(string, V)>)
    requires StrictlySorted(s1) && StrictlySorted(s2)
    requires ToMap(s1) == ToMap(s2)
    ensures s1 == s2
    decreases |s1|
  {
    ToMapEmpty(s1);
    ToMapEmpty(s2);
    if |s1| > 0 {
      StrictlySortedDistinct(s1);
      StrictlySortedDistinct(s2);
      ToMapFacts(s1);
      ToMapFacts(s2);
      assert ToMap(s1).Keys == KeySet(s2);
      var a, b := s1[0].0, s2[0].0;
      SortedHeadLeast(s1, b);
      SortedHeadLeast(s2, a);
      if StrLt(a, b) {
        StrLtAsymmetric(a, b);
      }
      assert a == b;
      assert s1[0] == s2[0];
      var t1, t2 := s1[1..], s2[1..];
      ToMapTail(s1);
      ToMapTail(s2);
      SortedTail(s1);
      SortedTail(s2);
      SortedItemsUnique(t1, t2);
      assert s1 == [s1[0]] + t1 && s2 == [s2[0]] + t2;
    }
  }

  lemma StrictlySortedDistinct<V>(s: seq<(string, V)>)
    requires StrictlySorted(s)
    ensures DistinctKeys(s)
  {
    forall i, j | 0 <= i < j < |s| ensures s[i].0 != s[j].0 {
      StrLtIrreflexive(s[i].0);
    }
  }

  /** `json.dumps` of a string, escaping quote and backslash. */
  function Quote(s: string): string
  {
    "\"" + Escape(s) + "\""
  }

  function Escape(s: string): string
  {
    if |s| == 0 then []
    else (if s[0] == '"' then "\\\"" else if s[0] == '\\' then "\\\\" else [s[0]]) + Escape(s[1..])
  }

  /** `json.dumps(v, sort_keys=True)` with the default `", "` and `": "` separators. */
  function Json(v: Value): string
  {
    match v
    case Null => "null"
    case Bool(b) => if b then "true" else "false"
    case Int(i) => Text.IntToString(i)
    case Str(s) => Quote(s)
    case List(items) =>
      "[" + Text.Join(seq(|items|, i requires 0 <= i < |items| => Json(items[i])), ", ") + "]"
    case Dict(entries) =>
      var rendered := seq(|entries|, i requires 0 <= i < |entries| => (entries[i].0, Json(entries[i].1)));
      var sorted := SortByKey(rendered);
      "{" + Text.Join(seq(|sorted|, i requires 0 <= i < |sorted| => Quote(sorted[i].0) + ": " + sorted[i].1), ", ") + "}"
  }

  /** Python's `str(v)` for a value that is neither a dict nor a list. */
  function PyStr(v: Value): string
    requires !v.List? && !v.Dict?
  {
    match v
    case Null => "None"
    case Bool(b) => if b then "True" else "False"
    case Int(i) => Text.IntToString(i)
    case Str(s) => s
  }

  /** The string `_generate_key` hands to the digest. */
  function KeySource(data: Value): string
  {
    if data.List? || data.Dict? then Json(data) else PyStr(data)
  }

  /** Rendering the values of a dict keeps its keys and maps each value to its JSON text. */
  lemma {:induction false} RenderedItems(entries: seq<(string, Value)>)
    requires DistinctKeys(entries)
    ensures var rendered := seq(|entries|, i requires 0 <= i < |entries| => (entries[i].0, Json(entries[i].1)));
      && DistinctKeys(rendered)
      && ToMap(rendered).Keys == ToMap(entries).Keys
      && forall k :: k in ToMap(entries) ==> ToMap(rendered)[k] == Json(ToMap(entries)[k])
  {
    var rendered := seq(|entries|, i requires 0 <= i < |entries| => (entries[i].0, Json(entries[i].1)));
    assert DistinctKeys(rendered);
    ToMapFacts(entries);
    ToMapFacts(rendered);
    assert KeySet(rendered) == KeySet(entries) by {
      forall k | k in KeySet(entries) ensures k in KeySet(rendered) {
        var i :| 0 <= i < |entries| && entries[i].0 == k;
        assert rendered[i].0 == k;
      }
    }
    forall k | k in ToMap(entries) ensures ToMap(rendered)[k] == Json(ToMap(entries)[k]) {
      var i :| 0 <= i < |entries| && entries[i].0 == k;
      assert rendered[i].0 == k;
    }
  }

  /** Two dicts with the same items, whatever their insertion order, give the same key source. */
  lemma KeySourceOrderIndependent(e1: seq<(string, Value)>, e2: seq<(string, Value)>)
    requires DistinctKeys(e1) && DistinctKeys(e2)
    requires ToMap(e1) == ToMap(e2)
    ensures KeySource(Dict(e1)) == KeySource(Dict(e2))
  {
    var r1 := seq(|e1|, i requires 0 <= i < |e1| => (e1[i].0, Json(e1[i].1)));
    var r2 := seq(|e2|, i requires 0 <= i < |e2| => (e2[i].0, Json(e2[i].1)));
    RenderedItems(e1);
    RenderedItems(e2);
    assert ToMap(r1) == ToMap(r2);
    SortByKeyFacts(r1);
    SortByKeyFacts(r2);
    SortedItemsUnique(SortByKey(r1), SortByKey(r2));
  }
}
