/** Python 3 dictionaries with string keys: a mapping together with the order in
    which its keys were first inserted, which is the order `for k in d` and
    `d.items()` visit them. */
module Dicts {

  datatype Dict<V> = Dict(keys: seq<string>, values: map<string, V>)

  predicate Distinct(s: seq<string>)
  {
    forall i, j :: 0 <= i < j < |s| ==> s[i] != s[j]
  }

  /** The keys listed once each, and exactly the keys of the mapping. */
  predicate Valid<V>(d: Dict<V>)
  {
    && Distinct(d.keys)
    && (forall k :: k in d.keys ==> k in d.values)
    && (forall k :: k in d.values ==> k in d.keys)
  }

  function Empty<V>(): (d: Dict<V>)
    ensures Valid(d) && d.values == map[]
  {
    Dict([], map[])
  }

  /** `d[k] = v`: a new key goes to the end; an existing key keeps its place. */
  function Put<V>(d: Dict<V>, k: string, v: V): Dict<V>
  {
    if k in d.values then Dict(d.keys, d.values[k := v]) else Dict(d.keys + [k], d.values[k := v])
  }

  /** An assignment keeps the dictionary well formed, stores `v` under `k`, and
      appends `k` to the order exactly when it is new. */
  lemma PutValid<V>(d: Dict<V>, k: string, v: V)
    requires Valid(d)
    ensures Valid(Put(d, k, v))
    ensures Put(d, k, v).values == d.values[k := v]
    ensures Put(d, k, v).keys == if k in d.values then d.keys else d.keys + [k]
  {
    if k !in d.values {
      var ks := d.keys + [k];
      forall i, j | 0 <= i < j < |ks| ensures ks[i] != ks[j] {
        if j == |ks| - 1 { assert ks[i] == d.keys[i]; }
      }
    }
  }

  function Without(keys: seq<string>, k: string): (r: seq<string>)
    ensures forall x :: x in r <==> x in keys && x != k
    ensures |r| <= |keys|
  {
    if keys == [] then []
    else if keys[0] == k then Without(keys[1..], k)
    else [keys[0]] + Without(keys[1..], k)
  }

  lemma {:induction false} WithoutDistinct(keys: seq<string>, k: string)
    requires Distinct(keys)
    ensures Distinct(Without(keys, k))
  {
    if keys != [] {
      var tail := keys[1..];
      assert Distinct(tail) by {
        forall i, j | 0 <= i < j < |tail| ensures tail[i] != tail[j] {
          assert tail[i] == keys[i + 1] && tail[j] == keys[j + 1];
        }
      }
      WithoutDistinct(tail, k);
      var t := Without(tail, k);
      if keys[0] != k {
        assert keys[0] !in tail by {
          forall m | 0 <= m < |tail| ensures tail[m] != keys[0] {
            assert tail[m] == keys[m + 1];
          }
        }
        var r := [keys[0]] + t;
        assert r == Without(keys, k);
        forall i, j | 0 <= i < j < |r| ensures r[i] != r[j] {
          if i == 0 {
            assert r[j] == t[j - 1];
            assert t[j - 1] in t;
            assert t[j - 1] in tail;
          } else {
            assert r[i] == t[i - 1] && r[j] == t[j - 1];
          }
        }
      }
    }
  }

  /** `del d[k]` (and `d.pop(k)`), for a key that is present or not. */
  function Remove<V>(d: Dict<V>, k: string): Dict<V>
  {
    Dict(Without(d.keys, k), d.values - {k})
  }

  /** Removing a key keeps the dictionary well formed and drops just that key. */
  lemma RemoveValid<V>(d: Dict<V>, k: string)
    requires Valid(d)
    ensures Valid(Remove(d, k))
    ensures Remove(d, k).values == d.values - {k}
  {
    WithoutDistinct(d.keys, k);
  }

  /** The assignments `d[k] = v` for each pair of `es` in turn. */
  function PutAll<V>(d: Dict<V>, es: seq<(string, V)>): Dict<V>
    decreases |es|
  {
    if es == [] then d else PutAll(Put(d, es[0].0, es[0].1), es[1..])
  }

  lemma {:induction false} PutAllValid<V>(d: Dict<V>, es: seq<(string, V)>)
    requires Valid(d)
    ensures Valid(PutAll(d, es))
    decreases |es|
  {
    if es != [] {
      PutValid(d, es[0].0, es[0].1);
      PutAllValid(Put(d, es[0].0, es[0].1), es[1..]);
    }
  }

  /** The keys after the assignments: the old ones and the assigned ones. */
  lemma {:induction false} PutAllKeys<V>(d: Dict<V>, es: seq<(string, V)>, k: string)
    ensures k in PutAll(d, es).values <==> k in d.values || exists j :: 0 <= j < |es| && es[j].0 == k
    decreases |es|
  {
    if es != [] {
      PutAllKeys(Put(d, es[0].0, es[0].1), es[1..], k);
      if exists j :: 0 <= j < |es[1..]| && es[1..][j].0 == k {
        var j :| 0 <= j < |es[1..]| && es[1..][j].0 == k;
        assert es[j + 1].0 == k;
      }
      if exists j :: 0 <= j < |es| && es[j].0 == k {
        var j :| 0 <= j < |es| && es[j].0 == k;
        if j > 0 { assert es[1..][j - 1].0 == k; }
      }
    }
  }

  /** A key all of whose assignments give the same value ends up with that value;
      `i` is one of those assignments. */
  lemma {:induction false} PutAllAgree<V>(d: Dict<V>, es: seq<(string, V)>, i: nat, k: string, v: V)
    requires i < |es| && es[i] == (k, v)
    requires forall j :: 0 <= j < |es| && es[j].0 == k ==> es[j].1 == v
    ensures k in PutAll(d, es).values && PutAll(d, es).values[k] == v
    decreases |es|
  {
    var d' := Put(d, es[0].0, es[0].1);
    var tail := es[1..];
    forall j | 0 <= j < |tail| && tail[j].0 == k ensures tail[j].1 == v {
      assert tail[j] == es[j + 1];
    }
    if i > 0 {
      PutAllAgree(d', tail, i - 1, k, v);
    } else if exists j :: 0 <= j < |tail| && tail[j].0 == k {
      var j :| 0 <= j < |tail| && tail[j].0 == k;
      PutAllAgree(d', tail, j, k, v);
    } else {
      PutAllKeeps(d', tail, k);
    }
  }

  /** A key none of the pairs assigns keeps its value. */
  lemma {:induction false} PutAllKeeps<V>(d: Dict<V>, es: seq<(string, V)>, k: string)
    requires k in d.values
    requires forall j :: 0 <= j < |es| ==> es[j].0 != k
    ensures k in PutAll(d, es).values && PutAll(d, es).values[k] == d.values[k]
    decreases |es|
  {
    if es != [] {
      var d' := Put(d, es[0].0, es[0].1);
      forall j | 0 <= j < |es[1..]| ensures es[1..][j].0 != k {
        assert es[1..][j] == es[j + 1];
      }
      PutAllKeeps(d', es[1..], k);
    }
  }

  lemma {:induction false} WithoutAbsent(keys: seq<string>, k: string)
    requires k !in keys
    ensures Without(keys, k) == keys
  {
    if keys != [] {
      WithoutAbsent(keys[1..], k);
      assert keys == [keys[0]] + keys[1..];
    }
  }

  /** `del` of a key that is not there would raise; removing it changes nothing. */
  lemma RemoveAbsent<V>(d: Dict<V>, k: string)
    requires Valid(d) && k !in d.values
    ensures Remove(d, k) == d
  {
    WithoutAbsent(d.keys, k);
  }
}
