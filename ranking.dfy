/**
  Python's `list.sort(key=k, reverse=True)` for a real-valued key: a stable
  sort into non-increasing key order (items with equal keys keep their
  relative order), and the slice `lst[:k]`.
*/
module Ranking {

  predicate SortedDesc<T>(s: seq<T>, key: T -> real) {
    forall i, j :: 0 <= i < j < |s| ==> key(s[i]) >= key(s[j])
  }

  /** The items of `s` whose key is `v`, in their order in `s`. */
  function WithKey<T>(s: seq<T>, key: T -> real, v: real): seq<T>
  {
    if |s| == 0 then []
    else WithKey(s[..|s| - 1], key, v) + (if key(s[|s| - 1]) == v then [s[|s| - 1]] else [])
  }

  /** Inserts `x` after every item whose key is at least `key(x)`. */
  function Insert<T>(s: seq<T>, x: T, key: T -> real): seq<T>
  {
    if |s| == 0 || key(s[|s| - 1]) >= key(x) then s + [x]
    else Insert(s[..|s| - 1], x, key) + [s[|s| - 1]]
  }

  /** The stable descending sort, as insertion sort from the left. */
  function SortDesc<T>(s: seq<T>, key: T -> real): seq<T>
  {
    if |s| == 0 then [] else Insert(SortDesc(s[..|s| - 1], key), s[|s| - 1], key)
  }

  lemma {:induction false} InsertMultiset<T>(s: seq<T>, x: T, key: T -> real)
    ensures multiset(Insert(s, x, key)) == multiset(s) + multiset{x}
    ensures |Insert(s, x, key)| == |s| + 1
    decreases |s|
  {
    if |s| > 0 && key(s[|s| - 1]) < key(x) {
      var s' := s[..|s| - 1];
      assert s == s' + [s[|s| - 1]];
      InsertMultiset(s', x, key);
    }
  }

  lemma {:induction false} InsertSorted<T>(s: seq<T>, x: T, key: T -> real)
    requires SortedDesc(s, key)
    ensures SortedDesc(Insert(s, x, key), key)
    decreases |s|
  {
    var r := Insert(s, x, key);
    if |s| > 0 && key(s[|s| - 1]) < key(x) {
      var s', last := s[..|s| - 1], s[|s| - 1];
      InsertSorted(s', x, key);
      InsertMultiset(s', x, key);
      var t := Insert(s', x, key);
      assert r == t + [last];
      // every item of t is either x or an item of s', so its key is at least key(last)
      forall i | 0 <= i < |t| ensures key(t[i]) >= key(last) {
        assert t[i] in multiset(t);
        if t[i] != x {
          assert t[i] in multiset(s');
          var j :| 0 <= j < |s'| && s'[j] == t[i];
          assert s[j] == s'[j];
        }
      }
    }
  }

  lemma {:induction false} InsertWithKey<T>(s: seq<T>, x: T, key: T -> real, v: real)
    requires SortedDesc(s, key)
    ensures WithKey(Insert(s, x, key), key, v) == WithKey(s, key, v) + (if key(x) == v then [x] else [])
    decreases |s|
  {
    var r := Insert(s, x, key);
    if |s| == 0 || key(s[|s| - 1]) >= key(x) {
      assert r[..|r| - 1] == s;
    } else {
      var s', last := s[..|s| - 1], s[|s| - 1];
      InsertWithKey(s', x, key, v);
      var t := Insert(s', x, key);
      assert r == t + [last] && r[..|r| - 1] == t;
    }
  }

  /** The sort returns a non-increasing arrangement of the same items, and
      for every key value the items carrying it keep their input order. */
  lemma {:induction false} SortDescFacts<T>(s: seq<T>, key: T -> real)
    ensures SortedDesc(SortDesc(s, key), key)
    ensures multiset(SortDesc(s, key)) == multiset(s)
    ensures |SortDesc(s, key)| == |s|
    ensures forall v :: WithKey(SortDesc(s, key), key, v) == WithKey(s, key, v)
  {
    if |s| > 0 {
      var s', last := s[..|s| - 1], s[|s| - 1];
      assert s == s' + [last];
      SortDescFacts(s', key);
      var t := SortDesc(s', key);
      InsertSorted(t, last, key);
      InsertMultiset(t, last, key);
      forall v ensures WithKey(SortDesc(s, key), key, v) == WithKey(s, key, v) {
        InsertWithKey(t, last, key, v);
      }
    }
  }

  /** Sorting what is already sorted changes nothing. */
  lemma {:induction false} SortDescIdempotent<T>(s: seq<T>, key: T -> real)
    requires SortedDesc(s, key)
    ensures SortDesc(s, key) == s
  {
    if |s| > 0 {
      var s' := s[..|s| - 1];
      assert SortedDesc(s', key);
      SortDescIdempotent(s', key);
      assert s' + [s[|s| - 1]] == s;
    }
  }

  /** Inserting at a position that splits `s` into keys at least `key(x)` and
      keys below it is what `Insert` does. */
  lemma {:induction false} InsertAt<T>(s: seq<T>, x: T, key: T -> real, j: nat)
    requires j <= |s|
    requires j == 0 || key(s[j - 1]) >= key(x)
    requires forall k :: j <= k < |s| ==> key(s[k]) < key(x)
    ensures Insert(s, x, key) == s[..j] + [x] + s[j..]
    decreases |s| - j
  {
    if j < |s| {
      var s' := s[..|s| - 1];
      InsertAt(s', x, key, j);
      assert s[..j] == s'[..j];
      assert s[j..] == s'[j..] + [s[|s| - 1]];
    }
  }

  /** Python's `a.sort(key=key, reverse=True)` on a list held in `a`. */
  method SortInPlace<T>(a: array<T>, key: T -> real)
    modifies a
    ensures a[..] == SortDesc(old(a[..]), key)
  {
    ghost var input := a[..];
    for i := 0 to a.Length
      invariant a[..i] == SortDesc(input[..i], key)
      invariant a[i..] == input[i..]
    {
      assert SortedDesc(a[..i], key) by {
        SortDescFacts(input[..i], key);
      }
      InsertLast(a, i, key);
      assert input[..i + 1] == input[..i] + [input[i]];
    }
    assert input[..a.Length] == input;
  }

  /** `b` starts with `sorted` with `x` placed at `j` and the rest shifted up by one. */
  lemma Shifted<T>(sorted: seq<T>, x: T, j: nat, b: seq<T>)
    requires j <= |sorted| < |b|
    requires forall k {:trigger b[k]} :: 0 <= k < j ==> b[k] == sorted[k]
    requires b[j] == x
    requires forall k {:trigger b[k]} :: j < k <= |sorted| ==> b[k] == sorted[k - 1]
    ensures b[..|sorted| + 1] == sorted[..j] + [x] + sorted[j..]
  {
    var n := |sorted|;
    var r := sorted[..j] + [x] + sorted[j..];
    forall k | 0 <= k <= n
      ensures b[k] == r[k]
    {
      if k > j {
        assert r[k] == sorted[j..][k - j - 1];
      }
    }
  }

  /** One step of insertion sort: moves `a[i]` back into the sorted `a[..i]`. */
  method InsertLast<T>(a: array<T>, i: nat, key: T -> real)
    requires i < a.Length
    requires SortedDesc(a[..i], key)
    modifies a
    ensures a[..i + 1] == Insert(old(a[..i]), old(a[i]), key)
    ensures a[i + 1..] == old(a[i + 1..])
  {
    ghost var sorted := a[..i];
    var x := a[i];
    var j := i;
    while j > 0 && key(a[j - 1]) < key(x)
      invariant 0 <= j <= i
      invariant forall k {:trigger a[k]} :: 0 <= k < j ==> a[k] == sorted[k]
      invariant forall k {:trigger a[k]} :: j < k <= i ==> a[k] == sorted[k - 1]
      invariant forall k :: j <= k < i ==> key(sorted[k]) < key(x)
      invariant forall k :: i < k < a.Length ==> a[k] == old(a[k])
    {
      a[j] := a[j - 1];
      j := j - 1;
    }
    a[j] := x;
    Shifted(sorted, x, j, a[..]);
    InsertAt(sorted, x, key, j);
  }

  /** Python's `s[:k]`: a negative `k` drops that many items from the end. */
  function PyPrefix<T>(s: seq<T>, k: int): (r: seq<T>)
    ensures 0 <= k ==> |r| == if k < |s| then k else |s|
    ensures k < 0 ==> |r| == if |s| + k < 0 then 0 else |s| + k
    ensures r <= s
  {
    if 0 <= k then (if k < |s| then s[..k] else s)
    else (if |s| + k < 0 then [] else s[..|s| + k])
  }

  /** In a prefix of a sorted list, everything kept ranks at least as high as everything cut. */
  lemma PrefixDominates<T>(s: seq<T>, k: int, key: T -> real)
    requires SortedDesc(s, key)
    ensures SortedDesc(PyPrefix(s, k), key)
    ensures forall i, j :: 0 <= i < |PyPrefix(s, k)| <= j < |s| ==> key(PyPrefix(s, k)[i]) >= key(s[j])
  {
  }
}
