/**
 * Python dictionaries whose iteration order matters: entries in insertion
 * order.  Assigning to a present key replaces its value where it stands;
 * assigning to a new key appends it.
 */
module Dicts {
  import opened Wrappers

  /** The keys, in insertion order. */
  function Keys<K, V>(d: seq<(K, V)>): (ks: seq<K>)
    ensures |ks| == |d| && forall i :: 0 <= i < |d| ==> ks[i] == d[i].0
  {
    seq(|d|, i requires 0 <= i < |d| => d[i].0)
  }

  /** No key occurs twice, as in every real dictionary. */
  predicate DistinctKeys<K(==), V>(d: seq<(K, V)>)
  {
    forall i, j :: 0 <= i < j < |d| ==> d[i].0 != d[j].0
  }

  /** `d.get(k)`. */
  function Lookup<K(==), V>(d: seq<(K, V)>, k: K): Option<V>
  {
    if |d| == 0 then None
    else if d[0].0 == k then Some(d[0].1)
    else Lookup(d[1..], k)
  }

  /** `d.get(k)` finds something exactly when `k in d`. */
  lemma {:induction false} LookupPresent<K, V>(d: seq<(K, V)>, k: K)
    ensures Lookup(d, k).Some? <==> k in Keys(d)
  {
    if |d| > 0 {
      LookupPresent(d[1..], k);
      assert Keys(d) == [d[0].0] + Keys(d[1..]);
    }
  }

  /** `d[k] = v`. */
  function Put<K(==), V>(d: seq<(K, V)>, k: K, v: V): (r: seq<(K, V)>)
    ensures |r| == if k in Keys(d) then |d| else |d| + 1
  {
    if |d| == 0 then [(k, v)]
    else if d[0].0 == k then [(k, v)] + d[1..]
    else
      assert Keys(d) == [d[0].0] + Keys(d[1..]);
      [d[0]] + Put(d[1..], k, v)
  }

  /** A present key is found with its value; an absent one is not found. */
  lemma {:induction false} LookupFinds<K, V>(d: seq<(K, V)>, k: K)
    requires DistinctKeys(d)
    ensures Lookup(d, k).None? <==> k !in Keys(d)
    ensures forall i :: 0 <= i < |d| && d[i].0 == k ==> Lookup(d, k) == Some(d[i].1)
  {
    if |d| > 0 {
      LookupFinds(d[1..], k);
      assert Keys(d) == [d[0].0] + Keys(d[1..]);
      forall i | 1 <= i < |d| && d[i].0 == k
        ensures Lookup(d, k) == Some(d[i].1)
      {
        assert d[1..][i - 1] == d[i];
      }
    }
  }

  /** After `d[k] = v`, `k` maps to `v` and every other key keeps its value. */
  lemma {:induction false} PutLookup<K, V>(d: seq<(K, V)>, k: K, v: V, k': K)
    ensures Lookup(Put(d, k, v), k') == if k' == k then Some(v) else Lookup(d, k')
  {
    if |d| > 0 && d[0].0 != k {
      PutLookup(d[1..], k, v, k');
    }
  }

  /** The keys of a concatenation are the concatenated keys. */
  lemma KeysAppend<K, V>(a: seq<(K, V)>, b: seq<(K, V)>)
    ensures Keys(a + b) == Keys(a) + Keys(b)
  {
    assert forall i :: 0 <= i < |a + b| ==> Keys(a + b)[i] == (Keys(a) + Keys(b))[i];
  }

  /** `d[k] = v` keeps the key order, appending `k` only when it is new. */
  lemma {:induction false} PutKeys<K, V>(d: seq<(K, V)>, k: K, v: V)
    ensures Keys(Put(d, k, v)) == if k in Keys(d) then Keys(d) else Keys(d) + [k]
  {
    if |d| > 0 {
      assert d == [d[0]] + d[1..];
      KeysAppend([d[0]], d[1..]);
      if d[0].0 == k {
        KeysAppend([(k, v)], d[1..]);
      } else {
        PutKeys(d[1..], k, v);
        KeysAppend([d[0]], Put(d[1..], k, v));
        if k in Keys(d[1..]) {
          assert Keys(Put(d, k, v)) == Keys(d);
        } else {
          KeysAppend(d, [(k, v)]);
          assert Keys(Put(d, k, v)) == Keys(d) + [k];
        }
      }
    }
  }

  /** `d[k] = v` keeps the keys distinct. */
  lemma PutDistinct<K, V>(d: seq<(K, V)>, k: K, v: V)
    requires DistinctKeys(d)
    ensures DistinctKeys(Put(d, k, v))
  {
    PutKeys(d, k, v);
    var r := Put(d, k, v);
    forall i, j | 0 <= i < j < |r|
      ensures r[i].0 != r[j].0
    {
      assert Keys(r)[i] == r[i].0 && Keys(r)[j] == r[j].0;
    }
  }

  /** The dictionary built by `for k, v in entries[:n]: d[k] = v`, starting empty. */
  function PutAll<K(==), V>(entries: seq<(K, V)>, n: nat): seq<(K, V)>
    requires n <= |entries|
  {
    if n == 0 then [] else Put(PutAll(entries, n - 1), entries[n - 1].0, entries[n - 1].1)
  }

  /** The keys stay distinct. */
  lemma {:induction false} PutAllDistinct<K, V>(entries: seq<(K, V)>, n: nat)
    requires n <= |entries|
    ensures DistinctKeys(PutAll(entries, n))
  {
    if n > 0 {
      PutAllDistinct(entries, n - 1);
      PutDistinct(PutAll(entries, n - 1), entries[n - 1].0, entries[n - 1].1);
    }
  }

  /** There are at most as many entries as assignments. */
  lemma {:induction false} PutAllSize<K, V>(entries: seq<(K, V)>, n: nat)
    requires n <= |entries|
    ensures |PutAll(entries, n)| <= n
  {
    if n > 0 {
      PutAllSize(entries, n - 1);
    }
  }

  /** The keys are exactly the assigned keys. */
  lemma {:induction false} PutAllKeys<K, V>(entries: seq<(K, V)>, n: nat, k: K)
    requires n <= |entries|
    ensures k in Keys(PutAll(entries, n)) <==> exists i :: 0 <= i < n && entries[i].0 == k
  {
    if n > 0 {
      var prev := PutAll(entries, n - 1);
      var e := entries[n - 1];
      PutAllKeys(entries, n - 1, k);
      PutKeys(prev, e.0, e.1);
      assert PutAll(entries, n) == Put(prev, e.0, e.1);
      if k == e.0 {
        assert k in Keys(PutAll(entries, n));
        assert 0 <= n - 1 < n && entries[n - 1].0 == k;
      } else {
        assert k in Keys(PutAll(entries, n)) <==> k in Keys(prev);
        if i :| 0 <= i < n && entries[i].0 == k {
          assert i < n - 1;
        }
      }
    }
  }

  /** The last assignment to a key decides its value. */
  lemma {:induction false} PutAllLastWins<K, V>(entries: seq<(K, V)>, n: nat, j: int)
    requires n <= |entries| && 0 <= j < n
    requires forall j' :: j < j' < n ==> entries[j'].0 != entries[j].0
    ensures Lookup(PutAll(entries, n), entries[j].0) == Some(entries[j].1)
  {
    PutLookup(PutAll(entries, n - 1), entries[n - 1].0, entries[n - 1].1, entries[j].0);
    if j < n - 1 {
      PutAllLastWins(entries, n - 1, j);
    }
  }
}
