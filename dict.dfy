/**
 * Python's insertion-ordered `dict`, as a list of entries with distinct keys.
 * Iteration visits the entries in list order; assigning to a key that is
 * present replaces its value in place, assigning to a new key appends.
 */
module Dict {
  import opened Wrappers

  datatype Entry<K, V> = Entry(key: K, value: V)

  predicate DistinctKeys<K(==), V>(d: seq<Entry<K, V>>) {
    forall i, j :: 0 <= i < j < |d| ==> d[i].key != d[j].key
  }

  /** `d.get(k)`: the value stored under `k`, if any. */
  function Get<K(==), V>(d: seq<Entry<K, V>>, k: K): (r: Option<V>)
    ensures r.None? <==> forall i :: 0 <= i < |d| ==> d[i].key != k
    ensures r.Some? ==> exists i :: 0 <= i < |d| && d[i] == Entry(k, r.value)
  {
    if d == [] then None
    else if d[0].key == k then Some(d[0].value)
    else
      var r := Get(d[1..], k);
      assert forall i :: 1 <= i < |d| ==> d[1..][i - 1] == d[i];
      r
  }

  /** In a dict, the lookup of an entry's key yields that entry's value. */
  lemma {:induction false} GetEntry<K, V>(d: seq<Entry<K, V>>, i: nat)
    requires DistinctKeys(d) && i < |d|
    ensures Get(d, d[i].key) == Some(d[i].value)
  {
    if i > 0 {
      assert d[1..][i - 1] == d[i];
      GetEntry(d[1..], i - 1);
    }
  }

  /** `d[k] = v`: replaces the value of an existing key in place, or appends a new entry. */
  function Put<K(==), V>(d: seq<Entry<K, V>>, k: K, v: V): (r: seq<Entry<K, V>>)
    ensures |r| == |d| || r == d + [Entry(k, v)]
  {
    if d == [] then [Entry(k, v)]
    else if d[0].key == k then [Entry(k, v)] + d[1..]
    else [d[0]] + Put(d[1..], k, v)
  }

  /** After `d[k] = v`, looking up `k` yields `v`. */
  lemma {:induction false} PutGet<K, V>(d: seq<Entry<K, V>>, k: K, v: V)
    ensures Get(Put(d, k, v), k) == Some(v)
  {
    if d != [] && d[0].key != k {
      PutGet(d[1..], k, v);
      assert Put(d, k, v)[1..] == Put(d[1..], k, v);
    }
  }

  /** `d[k] = v` leaves every other key's lookup as it was. */
  lemma {:induction false} PutGetOther<K, V>(d: seq<Entry<K, V>>, k: K, v: V, k': K)
    requires k' != k
    ensures Get(Put(d, k, v), k') == Get(d, k')
  {
    if d != [] {
      var r := Put(d, k, v);
      if d[0].key == k {
        assert r[1..] == d[1..];
      } else {
        assert r[1..] == Put(d[1..], k, v);
        PutGetOther(d[1..], k, v, k');
      }
    }
  }

  /** `d[k] = v` appends exactly when `k` is new, and keeps the keys distinct. */
  lemma PutShape<K, V>(d: seq<Entry<K, V>>, k: K, v: V)
    ensures Get(d, k).None? ==> Put(d, k, v) == d + [Entry(k, v)]
    ensures Get(d, k).Some? ==> |Put(d, k, v)| == |d|
    ensures DistinctKeys(d) ==> DistinctKeys(Put(d, k, v))
  {
    PutLength(d, k, v);
    if DistinctKeys(d) {
      PutDistinct(d, k, v);
    }
  }

  lemma {:induction false} PutLength<K, V>(d: seq<Entry<K, V>>, k: K, v: V)
    ensures Get(d, k).None? ==> Put(d, k, v) == d + [Entry(k, v)]
    ensures Get(d, k).Some? ==> |Put(d, k, v)| == |d|
  {
    if d != [] && d[0].key != k {
      PutLength(d[1..], k, v);
      assert Get(d, k) == Get(d[1..], k);
      if Get(d, k).None? {
        assert Put(d, k, v) == [d[0]] + (d[1..] + [Entry(k, v)]);
        assert [d[0]] + (d[1..] + [Entry(k, v)]) == d + [Entry(k, v)];
      }
    }
  }

  lemma {:induction false} PutDistinct<K, V>(d: seq<Entry<K, V>>, k: K, v: V)
    requires DistinctKeys(d)
    ensures DistinctKeys(Put(d, k, v))
  {
    if d != [] {
      var r := Put(d, k, v);
      if d[0].key == k {
        assert r[1..] == d[1..];
      } else {
        var r' := Put(d[1..], k, v);
        assert DistinctKeys(d[1..]);
        PutDistinct(d[1..], k, v);
        assert r == [d[0]] + r';
        PutGetOther(d[1..], k, v, d[0].key);
        assert Get(d[1..], d[0].key).None?;
        assert Get(r', d[0].key).None?;
        assert forall j :: 1 <= j < |r| ==> r[j] == r'[j - 1];
      }
    }
  }

  /** Every entry of `d[k] = v` is an entry of `d` or the new one. */
  lemma {:induction false} PutEntries<K, V>(d: seq<Entry<K, V>>, k: K, v: V)
    ensures forall i :: 0 <= i < |Put(d, k, v)| ==> Put(d, k, v)[i] == Entry(k, v) || Put(d, k, v)[i] in d
  {
    if d != [] && d[0].key != k {
      PutEntries(d[1..], k, v);
      var r := Put(d, k, v);
      assert r == [d[0]] + Put(d[1..], k, v);
      forall i | 1 <= i < |r|
        ensures r[i] == Entry(k, v) || r[i] in d
      {
        assert r[i] == Put(d[1..], k, v)[i - 1];
        if r[i] in d[1..] {
          var j :| 0 <= j < |d[1..]| && d[1..][j] == r[i];
          assert d[j + 1] == r[i];
        }
      }
    }
  }

  /** Looking up a key after appending an entry at the end. */
  lemma {:induction false} GetSnoc<K, V>(d: seq<Entry<K, V>>, e: Entry<K, V>, k: K)
    ensures Get(d + [e], k) == if Get(d, k).Some? then Get(d, k) else if e.key == k then Some(e.value) else None
  {
    if d != [] {
      assert (d + [e])[1..] == d[1..] + [e];
      GetSnoc(d[1..], e, k);
    }
  }
}
