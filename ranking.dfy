/**
 * Python's stable `list.sort(key=..., reverse=...)` as used by the core:
 * items carry a key tuple (compared lexicographically, larger first) and
 * their position in the input list, which breaks ties (earlier first).
 */
module Ranking {
  /** An item together with its sort key and its index in the input list. */
  datatype Ranked<T> = Ranked(key: seq<real>, pos: nat, item: T)

  /** `a` is lexicographically greater than `b` (a longer key beats its own prefix). */
  predicate KeyGreater(a: seq<real>, b: seq<real>)
    decreases |a|
  {
    if |a| == 0 then false
    else if |b| == 0 then true
    else a[0] > b[0] || (a[0] == b[0] && KeyGreater(a[1..], b[1..]))
  }

  lemma {:induction false} KeyGreaterIrreflexive(a: seq<real>)
    ensures !KeyGreater(a, a)
    decreases |a|
  {
    if |a| > 0 {
      KeyGreaterIrreflexive(a[1..]);
    }
  }

  lemma {:induction false} KeyGreaterTransitive(a: seq<real>, b: seq<real>, c: seq<real>)
    requires KeyGreater(a, b) && KeyGreater(b, c)
    ensures KeyGreater(a, c)
    decreases |a|
  {
    if |c| > 0 && a[0] == b[0] && b[0] == c[0] {
      KeyGreaterTransitive(a[1..], b[1..], c[1..]);
    }
  }

  lemma {:induction false} KeyGreaterTotal(a: seq<real>, b: seq<real>)
    ensures a == b || KeyGreater(a, b) || KeyGreater(b, a)
    decreases |a|
  {
    if |a| > 0 && |b| > 0 && a[0] == b[0] {
      KeyGreaterTotal(a[1..], b[1..]);
      if a[1..] == b[1..] {
        assert a == [a[0]] + a[1..] && b == [b[0]] + b[1..];
      }
    }
  }

  /** `x` is placed strictly before `y`: a greater key, or the same key and an earlier position. */
  predicate Before<T>(x: Ranked<T>, y: Ranked<T>)
  {
    KeyGreater(x.key, y.key) || (x.key == y.key && x.pos < y.pos)
  }

  lemma BeforeTransitive<T>(x: Ranked<T>, y: Ranked<T>, z: Ranked<T>)
    requires Before(x, y) && Before(y, z)
    ensures Before(x, z)
  {
    if KeyGreater(x.key, y.key) && KeyGreater(y.key, z.key) {
      KeyGreaterTransitive(x.key, y.key, z.key);
    }
  }

  /** No element is placed strictly before an element that precedes it. */
  predicate Ordered<T>(s: seq<Ranked<T>>)
  {
    forall i, j :: 0 <= i < j < |s| ==> !Before(s[j], s[i])
  }

  /** Inserting after every element that is not strictly after `x`. */
  function Insert<T>(x: Ranked<T>, s: seq<Ranked<T>>): (r: seq<Ranked<T>>)
    ensures multiset(r) == multiset(s) + multiset{x}
  {
    if |s| == 0 then [x]
    else if Before(x, s[0]) then [x] + s
    else
      assert s == [s[0]] + s[1..];
      [s[0]] + Insert(x, s[1..])
  }

  lemma {:induction false} InsertOrdered<T>(x: Ranked<T>, s: seq<Ranked<T>>)
    requires Ordered(s)
    ensures Ordered(Insert(x, s))
  {
    if |s| == 0 {
    } else if Before(x, s[0]) {
      var r := [x] + s;
      forall i, j | 0 <= i < j < |r|
        ensures !Before(r[j], r[i])
      {
        if i == 0 {
          if Before(r[j], x) {
            if j - 1 > 0 {
              assert !Before(s[j - 1], s[0]);
            }
            BeforeTransitive(r[j], x, s[0]);
            KeyGreaterIrreflexive(s[0].key);
          }
        }
      }
    } else {
      InsertOrdered(x, s[1..]);
      var tail := Insert(x, s[1..]);
      var r := [s[0]] + tail;
      forall j | 1 <= j < |r|
        ensures !Before(r[j], s[0])
      {
        assert r[j] in multiset(tail);
        assert r[j] == x || r[j] in s[1..];
      }
    }
  }

  /** A stable sort in descending key order: a permutation of the input that is `Ordered`. */
  method SortRanked<T>(xs: seq<Ranked<T>>) returns (ys: seq<Ranked<T>>)
    ensures multiset(ys) == multiset(xs)
    ensures Ordered(ys)
  {
    ys := [];
    var i := 0;
    while i < |xs|
      invariant 0 <= i <= |xs|
      invariant multiset(ys) == multiset(xs[..i])
      invariant Ordered(ys)
    {
      InsertOrdered(xs[i], ys);
      ys := Insert(xs[i], ys);
      assert xs[..i + 1] == xs[..i] + [xs[i]];
      i := i + 1;
    }
    assert xs[..i] == xs;
  }

  /**
   * What `Ordered` means for the list Python returns: keys never increase,
   * and items with equal keys keep their input order.
   */
  lemma OrderedIsStableDescending<T>(s: seq<Ranked<T>>, i: int, j: int)
    requires Ordered(s) && 0 <= i < j < |s|
    ensures !KeyGreater(s[j].key, s[i].key)
    ensures s[i].key == s[j].key ==> s[i].pos <= s[j].pos
  {
  }

  /** The items of a ranked list, in its order. */
  function Items<T>(s: seq<Ranked<T>>): (r: seq<T>)
    ensures |r| == |s| && forall k :: 0 <= k < |s| ==> r[k] == s[k].item
  {
    seq(|s|, k requires 0 <= k < |s| => s[k].item)
  }

  /** Reordering the ranked entries reorders their items the same way. */
  lemma {:induction false} ItemsPermutation<T>(a: seq<Ranked<T>>, b: seq<Ranked<T>>)
    requires multiset(a) == multiset(b)
    ensures multiset(Items(a)) == multiset(Items(b))
    decreases |a|
  {
    if |a| == 0 {
      assert |multiset(b)| == 0;
    } else {
      var x := a[0];
      assert x in multiset(b);
      var i :| 0 <= i < |b| && b[i] == x;
      var rest := b[..i] + b[i + 1..];
      MultisetRemoveAt(b, i);
      assert a == [x] + a[1..];
      assert multiset(a) == multiset{x} + multiset(a[1..]);
      MultisetCancel(multiset(a[1..]), multiset(rest), x);
      ItemsPermutation(a[1..], rest);
      ItemsAppend([x], a[1..]);
      assert Items([x]) == [x.item];
      assert multiset(Items(a)) == multiset{x.item} + multiset(Items(a[1..]));
      ItemsRemoveAt(b, i);
      assert multiset(Items(b)) == multiset(Items(rest)) + multiset{x.item};
    }
  }

  lemma MultisetCancel<U>(p: multiset<U>, q: multiset<U>, x: U)
    requires p + multiset{x} == q + multiset{x}
    ensures p == q
  {
    forall y
      ensures p[y] == q[y]
    {
      assert (p + multiset{x})[y] == (q + multiset{x})[y];
    }
  }

  /** Taking one element out of a sequence takes it out of its multiset. */
  lemma MultisetRemoveAt<U>(s: seq<U>, i: nat)
    requires i < |s|
    ensures multiset(s) == multiset(s[..i] + s[i + 1..]) + multiset{s[i]}
  {
    assert s == s[..i] + [s[i]] + s[i + 1..];
  }

  /** The items without the i-th entry are the items of the entries without it. */
  lemma ItemsRemoveAt<T>(b: seq<Ranked<T>>, i: nat)
    requires i < |b|
    ensures multiset(Items(b)) == multiset(Items(b[..i] + b[i + 1..])) + multiset{b[i].item}
  {
    var ib := Items(b);
    MultisetRemoveAt(ib, i);
    ItemsAppend(b[..i], b[i + 1..]);
    assert ib[..i] == Items(b[..i]) && ib[i + 1..] == Items(b[i + 1..]);
  }

  lemma ItemsAppend<T>(p: seq<Ranked<T>>, q: seq<Ranked<T>>)
    ensures Items(p + q) == Items(p) + Items(q)
  {
  }
}
