/** Python's `sorted(xs, key=k)` / `xs.sort(key=k)` for the keys the engine
    uses: an `int` or a pair of `int`s, compared lexicographically. Python's sort
    is stable, and so is this insertion sort: an element is inserted in front of
    the first element whose key is not smaller than its own, that is, behind
    every element with an equal key that came before it in the input. */
module Sorting {

  /** Python's `<=` on `(int, int)` tuples. */
  predicate KeyLe(a: (int, int), b: (int, int)) {
    a.0 < b.0 || (a.0 == b.0 && a.1 <= b.1)
  }

  predicate SortedByKey<T>(s: seq<T>, key: T -> (int, int)) {
    forall i, j :: 0 <= i < j < |s| ==> KeyLe(key(s[i]), key(s[j]))
  }

  /** The elements of `s` whose key is `v`, in their order in `s`. */
  function WithKey<T>(s: seq<T>, key: T -> (int, int), v: (int, int)): (r: seq<T>)
    ensures |r| <= |s|
  {
    if s == [] then []
    else (if key(s[0]) == v then [s[0]] else []) + WithKey(s[1..], key, v)
  }

  function Insert<T>(x: T, s: seq<T>, key: T -> (int, int)): (r: seq<T>)
    ensures multiset(r) == multiset(s) + multiset{x} && |r| == |s| + 1
  {
    if s == [] || KeyLe(key(x), key(s[0])) then [x] + s
    else
      assert s == [s[0]] + s[1..];
      [s[0]] + Insert(x, s[1..], key)
  }

  function SortByKey<T>(s: seq<T>, key: T -> (int, int)): (r: seq<T>)
    ensures multiset(r) == multiset(s) && |r| == |s|
  {
    if s == [] then []
    else
      assert s == [s[0]] + s[1..];
      Insert(s[0], SortByKey(s[1..], key), key)
  }

  lemma {:induction false} InsertSorted<T>(x: T, s: seq<T>, key: T -> (int, int))
    requires SortedByKey(s, key)
    ensures SortedByKey(Insert(x, s, key), key)
    ensures Insert(x, s, key) != [] && (Insert(x, s, key)[0] == x || (s != [] && Insert(x, s, key)[0] == s[0]))
  {
    if s == [] || KeyLe(key(x), key(s[0])) {
    } else {
      InsertSorted(x, s[1..], key);
      var t := Insert(x, s[1..], key);
      assert Insert(x, s, key) == [s[0]] + t;
      forall j | 0 < j < |t| + 1
        ensures KeyLe(key(s[0]), key(([s[0]] + t)[j]))
      {
        var y := t[j - 1];
        assert y in multiset(t);
        assert y == x || y in multiset(s[1..]);
        if y != x {
          var k :| 0 <= k < |s[1..]| && s[1..][k] == y;
          assert s[k + 1] == y;
        }
      }
    }
  }

  /** The result of `SortByKey` is ordered by key. */
  lemma {:induction false} SortIsSorted<T>(s: seq<T>, key: T -> (int, int))
    ensures SortedByKey(SortByKey(s, key), key)
  {
    if s != [] {
      SortIsSorted(s[1..], key);
      InsertSorted(s[0], SortByKey(s[1..], key), key);
    }
  }

  lemma {:induction false} WithKeyConcat<T>(a: seq<T>, b: seq<T>, key: T -> (int, int), v: (int, int))
    ensures WithKey(a + b, key, v) == WithKey(a, key, v) + WithKey(b, key, v)
  {
    if a != [] {
      assert (a + b)[0] == a[0];
      assert (a + b)[1..] == a[1..] + b;
      WithKeyConcat(a[1..], b, key, v);
    } else {
      assert a + b == b;
    }
  }

  lemma {:induction false} InsertWithKey<T>(x: T, s: seq<T>, key: T -> (int, int), v: (int, int))
    ensures WithKey(Insert(x, s, key), key, v)
         == if key(x) == v then [x] + WithKey(s, key, v) else WithKey(s, key, v)
  {
    if s == [] || KeyLe(key(x), key(s[0])) {
      WithKeyConcat([x], s, key, v);
    } else {
      var t := Insert(x, s[1..], key);
      InsertWithKey(x, s[1..], key, v);
      WithKeyConcat([s[0]], t, key, v);
      WithKeyConcat([s[0]], s[1..], key, v);
      assert s == [s[0]] + s[1..];
      var head := WithKey([s[0]], key, v);
      assert key(x) == v ==> key(s[0]) != v;  // s[0] has a key strictly below key(x)
      assert WithKey(Insert(x, s, key), key, v) == head + WithKey(t, key, v);
      assert WithKey(s, key, v) == head + WithKey(s[1..], key, v);
    }
  }

  /** Stability: for every key value, the elements carrying it keep their input order. */
  lemma {:induction false} SortIsStable<T>(s: seq<T>, key: T -> (int, int), v: (int, int))
    ensures WithKey(SortByKey(s, key), key, v) == WithKey(s, key, v)
  {
    if s != [] {
      SortIsStable(s[1..], key, v);
      InsertWithKey(s[0], SortByKey(s[1..], key), key, v);
    }
  }

  /** The first element after sorting is the first element of the input among
      those with the smallest key (how `valid_groups.sort(...)[0]` breaks ties). */
  lemma {:induction false} SortHeadIsFirstMinimal<T>(s: seq<T>, key: T -> (int, int))
    requires s != []
    ensures exists i :: (0 <= i < |s| && SortByKey(s, key)[0] == s[i]
      && (forall j :: 0 <= j < |s| ==> KeyLe(key(s[i]), key(s[j])))
      && (forall j :: 0 <= j < i ==> key(s[j]) != key(s[i])))
  {
    var r := SortByKey(s, key);
    SortIsSorted(s, key);
    var v := key(r[0]);
    SortIsStable(s, key, v);
    assert r == [r[0]] + r[1..];
    WithKeyConcat([r[0]], r[1..], key, v);
    assert WithKey(s, key, v) != [] && WithKey(s, key, v)[0] == r[0];
    FirstWithKeyFacts(s, key, v);
    var i := FirstWithKey(s, key, v);
    assert s[i] == r[0];
    forall j | 0 <= j < |s| ensures KeyLe(key(s[i]), key(s[j])) {
      assert s[j] in multiset(r);
      var k :| 0 <= k < |r| && r[k] == s[j];
      assert k == 0 || KeyLe(key(r[0]), key(r[k]));
    }
  }

  /** Index of the first element of `s` keyed `v`, given that `WithKey` finds one. */
  lemma {:induction false} FirstWithKeyFacts<T>(s: seq<T>, key: T -> (int, int), v: (int, int))
    requires WithKey(s, key, v) != []
    ensures 0 <= FirstWithKey(s, key, v) < |s|
    ensures s[FirstWithKey(s, key, v)] == WithKey(s, key, v)[0]
    ensures key(s[FirstWithKey(s, key, v)]) == v
    ensures forall j :: 0 <= j < FirstWithKey(s, key, v) ==> key(s[j]) != v
  {
    if key(s[0]) != v {
      FirstWithKeyFacts(s[1..], key, v);
    }
  }

  function FirstWithKey<T>(s: seq<T>, key: T -> (int, int), v: (int, int)): nat
  {
    if s == [] || key(s[0]) == v then 0 else 1 + FirstWithKey(s[1..], key, v)
  }

  ghost predicate NoDuplicates<T>(s: seq<T>) {
    forall p, q :: 0 <= p < q < |s| ==> s[p] != s[q]
  }

  lemma {:induction false} InsertKeepsDistinct<T>(x: T, s: seq<T>, key: T -> (int, int))
    requires NoDuplicates(s) && x !in s
    ensures NoDuplicates(Insert(x, s, key))
  {
    if s == [] || KeyLe(key(x), key(s[0])) {
    } else {
      InsertKeepsDistinct(x, s[1..], key);
      var t := Insert(x, s[1..], key);
      forall j | 0 <= j < |t| ensures t[j] != s[0] {
        assert t[j] in multiset(t);
        if t[j] != x {
          assert t[j] in multiset(s[1..]);
          var k :| 0 <= k < |s[1..]| && s[1..][k] == t[j];
          assert s[k + 1] == t[j];
        }
      }
    }
  }

  /** Sorting a list without repeated elements repeats none. */
  lemma {:induction false} SortKeepsDistinct<T>(s: seq<T>, key: T -> (int, int))
    requires NoDuplicates(s)
    ensures NoDuplicates(SortByKey(s, key))
  {
    if s != [] {
      SortKeepsDistinct(s[1..], key);
      assert forall k :: 0 <= k < |s| - 1 ==> s[1..][k] == s[k + 1] && s[k + 1] != s[0];
      assert s[0] !in s[1..];
      assert s[0] !in multiset(SortByKey(s[1..], key));
      InsertKeepsDistinct(s[0], SortByKey(s[1..], key), key);
    }
  }
}
