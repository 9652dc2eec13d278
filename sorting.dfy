/** Sorting by a string key, as Python's `list.sort()` orders the property ids
    (Dumper.py), the folder index entries (Dumper.py) and the site roles
    (rolemap.py). The sort is stable; the callers sort strings or records whose
    keys are unique, so stability decides nothing there. */
module Sorting {
  import opened Text

  predicate SortedBy<T>(s: seq<T>, key: T -> string)
  {
    forall i, j :: 0 <= i < j < |s| ==> LessEq(key(s[i]), key(s[j]))
  }

  function Insert<T>(x: T, s: seq<T>, key: T -> string): (r: seq<T>)
    ensures |r| == |s| + 1
  {
    if s == [] then [x]
    else if LessEq(key(x), key(s[0])) then [x] + s
    else [s[0]] + Insert(x, s[1..], key)
  }

  /** Stable insertion sort by `key`. */
  function SortBy<T>(s: seq<T>, key: T -> string): (r: seq<T>)
    ensures |r| == |s|
  {
    if s == [] then [] else Insert(s[0], SortBy(s[1..], key), key)
  }

  lemma {:induction false} InsertPermutation<T>(x: T, s: seq<T>, key: T -> string)
    ensures multiset(Insert(x, s, key)) == multiset(s) + multiset{x}
  {
    if s != [] && !LessEq(key(x), key(s[0])) {
      InsertPermutation(x, s[1..], key);
      assert s == [s[0]] + s[1..];
    }
  }

  /** The sort only reorders: the result is a permutation of the input. */
  lemma {:induction false} SortByPermutation<T>(s: seq<T>, key: T -> string)
    ensures multiset(SortBy(s, key)) == multiset(s)
  {
    if s != [] {
      SortByPermutation(s[1..], key);
      InsertPermutation(s[0], SortBy(s[1..], key), key);
      assert s == [s[0]] + s[1..];
    }
  }

  lemma {:induction false} InsertSorted<T>(x: T, s: seq<T>, key: T -> string)
    requires SortedBy(s, key)
    ensures SortedBy(Insert(x, s, key), key)
  {
    if s != [] && !LessEq(key(x), key(s[0])) {
      var t := Insert(x, s[1..], key);
      InsertSorted(x, s[1..], key);
      LessTotal(key(x), key(s[0]));
      InsertPermutation(x, s[1..], key);
      forall j | 0 <= j < |t| ensures LessEq(key(s[0]), key(t[j])) {
        assert t[j] in multiset(t);
        if t[j] != x {
          assert t[j] in s[1..];
          var m :| 0 <= m < |s[1..]| && s[1..][m] == t[j];
          assert s[m + 1] == t[j];
        }
      }
      assert Insert(x, s, key) == [s[0]] + t;
    } else if s != [] {
      forall i, j | 0 <= i < j < |s| + 1
        ensures LessEq(key(([x] + s)[i]), key(([x] + s)[j]))
      {
        if i == 0 && j > 1 { LessEqTransitive(key(x), key(s[0]), key(s[j - 1])); }
      }
    }
  }

  /** The result of `SortBy` is ordered by the key. */
  lemma {:induction false} SortBySorted<T>(s: seq<T>, key: T -> string)
    ensures SortedBy(SortBy(s, key), key)
  {
    if s != [] {
      SortBySorted(s[1..], key);
      InsertSorted(s[0], SortBy(s[1..], key), key);
    }
  }

  /** Each entry of the sorted sequence is an entry of the input. */
  lemma SortedEntry<T>(s: seq<T>, key: T -> string, k: nat)
    requires k < |s|
    ensures SortBy(s, key)[k] in s
  {
    SortByPermutation(s, key);
    assert SortBy(s, key)[k] in multiset(SortBy(s, key));
  }

  /** Each entry of the input is in the sorted sequence. */
  lemma SortedKeeps<T>(s: seq<T>, key: T -> string, x: T)
    requires x in s
    ensures x in SortBy(s, key)
  {
    SortByPermutation(s, key);
    assert x in multiset(s);
  }

  /** No two elements share a key. */
  predicate UniqueKeys<T>(s: seq<T>, key: T -> string)
  {
    forall i, j :: 0 <= i < j < |s| ==> key(s[i]) != key(s[j])
  }

  lemma {:induction false} InsertUnique<T>(x: T, s: seq<T>, key: T -> string)
    requires UniqueKeys(s, key)
    requires forall j :: 0 <= j < |s| ==> key(s[j]) != key(x)
    ensures UniqueKeys(Insert(x, s, key), key)
  {
    if s != [] && !LessEq(key(x), key(s[0])) {
      var tail := s[1..];
      forall j | 0 <= j < |tail| ensures key(tail[j]) != key(x) {
        assert tail[j] == s[j + 1];
      }
      forall i, j | 0 <= i < j < |tail| ensures key(tail[i]) != key(tail[j]) {
        assert tail[i] == s[i + 1] && tail[j] == s[j + 1];
      }
      InsertUnique(x, tail, key);
      var t := Insert(x, tail, key);
      InsertPermutation(x, tail, key);
      forall j | 0 <= j < |t| ensures key(t[j]) != key(s[0]) {
        assert t[j] in multiset(t);
        if t[j] != x {
          assert t[j] in tail;
          var m :| 0 <= m < |tail| && tail[m] == t[j];
          assert s[m + 1] == t[j];
        }
      }
      var r := [s[0]] + t;
      assert Insert(x, s, key) == r;
      forall i, j | 0 <= i < j < |r| ensures key(r[i]) != key(r[j]) {
        if i > 0 { assert r[i] == t[i - 1] && r[j] == t[j - 1]; }
      }
    }
  }

  /** Sorting keeps keys unique. */
  lemma {:induction false} SortByUnique<T>(s: seq<T>, key: T -> string)
    requires UniqueKeys(s, key)
    ensures UniqueKeys(SortBy(s, key), key)
  {
    if s != [] {
      var tail := s[1..];
      forall i, j | 0 <= i < j < |tail| ensures key(tail[i]) != key(tail[j]) {
        assert tail[i] == s[i + 1] && tail[j] == s[j + 1];
      }
      SortByUnique(tail, key);
      var t := SortBy(tail, key);
      forall j | 0 <= j < |t| ensures key(t[j]) != key(s[0]) {
        SortedEntry(tail, key, j);
        var m :| 0 <= m < |tail| && tail[m] == t[j];
        assert s[m + 1] == t[j];
      }
      InsertUnique(s[0], t, key);
    }
  }
}
