/**
 * Python dictionaries as the system uses them: insertion-ordered, with
 * assignment `d[k] = v` overwriting the value in place when `k` is already a
 * key and appending a new entry otherwise. The order is observable in this
 * system (the clinical bullet block, the condition registry, the name-to-id
 * inversion), so a dict is a sequence of key/value pairs, not a `map`.
 */
module Dicts {

  datatype Option<+T> = None | Some(value: T)

  /** An insertion-ordered dictionary. */
  type Dict<K, V> = seq<(K, V)>

  function Keys<K, V>(d: Dict<K, V>): set<K>
  {
    set i | 0 <= i < |d| :: d[i].0
  }

  function Values<K, V>(d: Dict<K, V>): set<V>
  {
    set i | 0 <= i < |d| :: d[i].1
  }

  /** Every key occurs once, as in every Python dict. */
  ghost predicate DistinctKeys<K, V>(d: Dict<K, V>)
  {
    forall i, j :: 0 <= i < j < |d| ==> d[i].0 != d[j].0
  }

  lemma KeysCons<K, V>(d: Dict<K, V>)
    requires |d| > 0
    ensures Keys(d) == {d[0].0} + Keys(d[1..])
  {
    forall k | k in Keys(d) ensures k in {d[0].0} + Keys(d[1..]) {
      var i :| 0 <= i < |d| && d[i].0 == k;
      if i > 0 { assert d[1..][i - 1].0 == k; }
    }
    forall k | k in Keys(d[1..]) ensures k in Keys(d) {
      var i :| 0 <= i < |d[1..]| && d[1..][i].0 == k;
      assert d[i + 1].0 == k;
    }
  }

  lemma KeysSnoc<K, V>(d: Dict<K, V>, k: K, v: V)
    ensures Keys(d + [(k, v)]) == Keys(d) + {k}
  {
    var e := d + [(k, v)];
    assert e[|d|].0 == k;
    forall x | x in Keys(d) ensures x in Keys(e) {
      var i :| 0 <= i < |d| && d[i].0 == x;
      assert e[i].0 == x;
    }
  }

  /** `d.get(k)`: the value stored under `k`, if any. */
  function Get<K(==), V>(d: Dict<K, V>, k: K): (r: Option<V>)
    ensures r.None? <==> k !in Keys(d)
    ensures r.Some? ==> (k, r.value) in d
  {
    if |d| == 0 then None
    else
      KeysCons(d);
      if d[0].0 == k then Some(d[0].1) else Get(d[1..], k)
  }

  /** With distinct keys, the entry at position `i` is what `Get` finds. */
  lemma {:induction false} GetAt<K, V>(d: Dict<K, V>, i: nat)
    requires DistinctKeys(d) && i < |d|
    ensures Get(d, d[i].0) == Some(d[i].1)
  {
    if i > 0 {
      assert d[0].0 != d[i].0;
      assert d[1..][i - 1] == d[i];
      GetAt(d[1..], i - 1);
    }
  }

  lemma GetSnoc<K, V>(d: Dict<K, V>, k: K, v: V, x: K)
    requires k !in Keys(d)
    ensures Get(d + [(k, v)], x) == if x == k then Some(v) else Get(d, x)
  {
    if |d| > 0 {
      KeysCons(d);
      assert (d + [(k, v)])[1..] == d[1..] + [(k, v)];
      GetSnoc(d[1..], k, v, x);
    } else {
      assert d + [(k, v)] == [(k, v)];
    }
  }

  /** `d[k] = v` on a Python dict. */
  function Put<K(==), V>(d: Dict<K, V>, k: K, v: V): (r: Dict<K, V>)
    ensures Keys(r) == Keys(d) + {k}
    ensures |r| == if k in Keys(d) then |d| else |d| + 1
    ensures k !in Keys(d) ==> r == d + [(k, v)]
  {
    if |d| == 0 then
      KeysSnoc(d, k, v);
      [(k, v)]
    else
      KeysCons(d);
      if d[0].0 == k then
        var r := [(k, v)] + d[1..];
        KeysCons(r);
        assert r[1..] == d[1..];
        r
      else
        var t := Put(d[1..], k, v);
        var r := [d[0]] + t;
        KeysCons(r);
        assert r[1..] == t;
        r
  }

  /** On a dict with distinct keys, assignment overwrites in place and keeps the keys distinct. */
  lemma {:induction false} PutInPlace<K, V>(d: Dict<K, V>, k: K, v: V)
    requires DistinctKeys(d)
    ensures DistinctKeys(Put(d, k, v))
    ensures forall i :: 0 <= i < |d| ==> Put(d, k, v)[i] == (if d[i].0 == k then (k, v) else d[i])
  {
    var r := Put(d, k, v);
    if |d| > 0 {
      KeysCons(d);
      if d[0].0 == k {
        assert forall i :: 1 <= i < |d| ==> d[i].0 != k;
        assert r == [(k, v)] + d[1..];
      } else {
        assert DistinctKeys(d[1..]) && d[0].0 !in Keys(d[1..]);
        PutInPlace(d[1..], k, v);
        var t := Put(d[1..], k, v);
        assert r == [d[0]] + t;
        assert d[0].0 !in Keys(t);
      }
    }
  }

  lemma {:induction false} GetPut<K, V>(d: Dict<K, V>, k: K, v: V, x: K)
    ensures Get(Put(d, k, v), x) == if x == k then Some(v) else Get(d, x)
  {
    if |d| > 0 && d[0].0 != k {
      GetPut(d[1..], k, v, x);
    }
  }

  lemma ValuesSnoc<K, V>(d: Dict<K, V>, k: K, v: V)
    ensures Values(d + [(k, v)]) == Values(d) + {v}
  {
    var e := d + [(k, v)];
    assert e[|d|].1 == v;
    forall x | x in Values(d) ensures x in Values(e) {
      var i :| 0 <= i < |d| && d[i].1 == x;
      assert e[i].1 == x;
    }
  }

  /** A non-empty dict is its prefix with the last entry appended. */
  lemma SplitLast<K, V>(d: Dict<K, V>)
    requires |d| > 0
    ensures d == d[..|d| - 1] + [d[|d| - 1]]
    ensures Keys(d) == Keys(d[..|d| - 1]) + {d[|d| - 1].0}
    ensures Values(d) == Values(d[..|d| - 1]) + {d[|d| - 1].1}
  {
    var n := |d| - 1;
    assert d == d[..n] + [(d[n].0, d[n].1)];
    KeysSnoc(d[..n], d[n].0, d[n].1);
    ValuesSnoc(d[..n], d[n].0, d[n].1);
  }
}
