/** Python's `list.sort(key=...)` with numeric keys, and the `[:n]` slice taken after it.
    Python's sort is ascending and stable: items whose keys are equal keep their order. It is
    specified here by insertion into a sorted prefix, and the three facts that pin a stable sort
    down are proved about it: the result is ordered, is a permutation of the input, and lists
    the items of every single key in their original order. */
module Sorting {

  /** A sort key: a real number, or the `float("inf")` the source substitutes for missing values. */
  datatype Key = Finite(value: real) | Infinity

  predicate KeyLess(a: Key, b: Key) {
    a.Finite? && (b.Infinity? || a.value < b.value)
  }

  predicate KeyAtMost(a: Key, b: Key) {
    !KeyLess(b, a)
  }

  predicate SortedBy<T>(s: seq<T>, key: T -> Key) {
    forall i, j :: 0 <= i < j < |s| ==> KeyAtMost(key(s[i]), key(s[j]))
  }

  /** Puts `x` after every leading element whose key is not greater than its own. */
  function Insert<T>(s: seq<T>, x: T, key: T -> Key): (r: seq<T>)
    ensures |r| == |s| + 1
  {
    if s == [] then [x]
    else if KeyLess(key(x), key(s[0])) then [x] + s
    else [s[0]] + Insert(s[1..], x, key)
  }

  lemma {:induction false} InsertIsPermutation<T>(s: seq<T>, x: T, key: T -> Key)
    ensures multiset(Insert(s, x, key)) == multiset(s) + multiset{x}
  {
    if s == [] {
    } else if KeyLess(key(x), key(s[0])) {
      assert Insert(s, x, key) == [x] + s;
    } else {
      InsertIsPermutation(s[1..], x, key);
      ConsPermutation(s[0], Insert(s[1..], x, key), s[1..], x);
      assert s == [s[0]] + s[1..];
    }
  }

  lemma ConsPermutation<T>(y: T, r: seq<T>, s: seq<T>, x: T)
    requires multiset(r) == multiset(s) + multiset{x}
    ensures multiset([y] + r) == multiset([y] + s) + multiset{x}
  {
    assert multiset([y] + r) == multiset([y]) + multiset(r);
    assert multiset([y] + s) == multiset([y]) + multiset(s);
  }

  /** A bound below every item of `s` and below `x` is below every item after the insertion. */
  lemma {:induction false} InsertKeepsLowerBound<T>(s: seq<T>, x: T, key: T -> Key, b: Key)
    requires forall i :: 0 <= i < |s| ==> KeyAtMost(b, key(s[i]))
    requires KeyAtMost(b, key(x))
    ensures forall j :: 0 <= j < |s| + 1 ==> KeyAtMost(b, key(Insert(s, x, key)[j]))
  {
    if s != [] && !KeyLess(key(x), key(s[0])) {
      InsertKeepsLowerBound(s[1..], x, key, b);
    }
  }

  /** Inserting into a sorted list keeps it sorted. */
  lemma {:induction false} InsertKeepsSorted<T>(s: seq<T>, x: T, key: T -> Key)
    requires SortedBy(s, key)
    ensures SortedBy(Insert(s, x, key), key)
  {
    if s != [] && !KeyLess(key(x), key(s[0])) {
      var rest := Insert(s[1..], x, key);
      InsertKeepsSorted(s[1..], x, key);
      InsertKeepsLowerBound(s[1..], x, key, key(s[0]));
      var r := [s[0]] + rest;
      forall i, j | 0 <= i < j < |r| ensures KeyAtMost(key(r[i]), key(r[j])) {
        if i > 0 {
          assert r[i] == rest[i - 1] && r[j] == rest[j - 1];
        } else {
          assert r[j] == rest[j - 1];
        }
      }
    }
  }

  /** `s` after `s.sort(key=key)`. */
  function Sort<T>(s: seq<T>, key: T -> Key): (r: seq<T>)
    ensures |r| == |s|
  {
    if s == [] then [] else Insert(Sort(s[..|s| - 1], key), s[|s| - 1], key)
  }

  /** The items of `s` whose key is `k`, in the order they appear in `s`. */
  function WithKey<T>(s: seq<T>, key: T -> Key, k: Key): seq<T> {
    if s == [] then [] else (if key(s[0]) == k then [s[0]] else []) + WithKey(s[1..], key, k)
  }

  /** The sorted list is in ascending key order. */
  lemma {:induction false} SortIsSorted<T>(s: seq<T>, key: T -> Key)
    ensures SortedBy(Sort(s, key), key)
  {
    if s != [] {
      SortIsSorted(s[..|s| - 1], key);
      InsertKeepsSorted(Sort(s[..|s| - 1], key), s[|s| - 1], key);
    }
  }

  /** The sorted list holds the same items as the input, each as often. */
  lemma {:induction false} SortIsPermutation<T>(s: seq<T>, key: T -> Key)
    ensures multiset(Sort(s, key)) == multiset(s)
  {
    if s != [] {
      SortIsPermutation(s[..|s| - 1], key);
      InsertIsPermutation(Sort(s[..|s| - 1], key), s[|s| - 1], key);
      assert s == s[..|s| - 1] + [s[|s| - 1]];
    }
  }

  /** The sort is stable: for every key, the items with that key keep their relative order. */
  lemma {:induction false} SortIsStable<T>(s: seq<T>, key: T -> Key, k: Key)
    ensures WithKey(Sort(s, key), key, k) == WithKey(s, key, k)
  {
    if s != [] {
      var init, last := s[..|s| - 1], s[|s| - 1];
      SortIsStable(init, key, k);
      SortIsSorted(init, key);
      InsertWithKey(Sort(init, key), last, key, k);
      assert s == init + [last];
      WithKeyAppend(init, [last], key, k);
    }
  }

  lemma {:induction false} WithKeyAppend<T>(a: seq<T>, b: seq<T>, key: T -> Key, k: Key)
    ensures WithKey(a + b, key, k) == WithKey(a, key, k) + WithKey(b, key, k)
  {
    if a == [] {
      assert a + b == b;
    } else {
      var ab := a + b;
      assert ab[0] == a[0];
      assert ab[1..] == a[1..] + b;
      WithKeyAppend(a[1..], b, key, k);
      assert WithKey(ab, key, k) == (if key(a[0]) == k then [a[0]] else []) + WithKey(a[1..] + b, key, k);
    }
  }

  lemma {:induction false} WithKeyNone<T>(s: seq<T>, key: T -> Key, k: Key)
    requires forall i :: 0 <= i < |s| ==> key(s[i]) != k
    ensures WithKey(s, key, k) == []
  {
    if s != [] {
      WithKeyNone(s[1..], key, k);
    }
  }

  /** Inserting into a sorted list puts the new item after every item with the same key. */
  lemma {:induction false} InsertWithKey<T>(s: seq<T>, x: T, key: T -> Key, k: Key)
    requires SortedBy(s, key)
    ensures WithKey(Insert(s, x, key), key, k) == WithKey(s, key, k) + (if key(x) == k then [x] else [])
  {
    if s == [] {
    } else if KeyLess(key(x), key(s[0])) {
      InsertFrontWithKey(s, x, key, k);
    } else {
      SortedTail(s, key);
      InsertWithKey(s[1..], x, key, k);
      InsertLaterWithKey(s, x, key, k);
    }
  }

  /** An item inserted in front is strictly below every key of the sorted list. */
  lemma InsertFrontWithKey<T>(s: seq<T>, x: T, key: T -> Key, k: Key)
    requires s != [] && SortedBy(s, key) && KeyLess(key(x), key(s[0]))
    ensures WithKey(Insert(s, x, key), key, k) == WithKey(s, key, k) + (if key(x) == k then [x] else [])
  {
    WithKeyCons(x, s, key, k);
    if key(x) == k {
      forall i | 0 <= i < |s| ensures key(s[i]) != k {
        assert KeyAtMost(key(s[0]), key(s[i]));
      }
      WithKeyNone(s, key, k);
    }
  }

  /** An item inserted past the head keeps the head in front. */
  lemma InsertLaterWithKey<T>(s: seq<T>, x: T, key: T -> Key, k: Key)
    requires s != [] && !KeyLess(key(x), key(s[0]))
    requires WithKey(Insert(s[1..], x, key), key, k) == WithKey(s[1..], key, k) + (if key(x) == k then [x] else [])
    ensures WithKey(Insert(s, x, key), key, k) == WithKey(s, key, k) + (if key(x) == k then [x] else [])
  {
    WithKeyCons(s[0], Insert(s[1..], x, key), key, k);
    WithKeyCons(s[0], s[1..], key, k);
    assert [s[0]] + s[1..] == s;
  }

  lemma WithKeyCons<T>(x: T, s: seq<T>, key: T -> Key, k: Key)
    ensures WithKey([x] + s, key, k) == (if key(x) == k then [x] else []) + WithKey(s, key, k)
  {
    assert ([x] + s)[1..] == s;
  }

  lemma SortedTail<T>(s: seq<T>, key: T -> Key)
    requires s != [] && SortedBy(s, key)
    ensures SortedBy(s[1..], key)
  {
    forall i, j | 0 <= i < j < |s| - 1 ensures KeyAtMost(key(s[1..][i]), key(s[1..][j])) {
      assert s[1..][i] == s[i + 1] && s[1..][j] == s[j + 1];
    }
  }

  /** `kept` holds items that are least by `key` among those of `s`: it is drawn from `s`,
      counting repeats, and no item of `s` left out of it has a smaller key than an item in it. */
  ghost predicate IsLeast<T>(kept: seq<T>, s: seq<T>, key: T -> Key) {
    && multiset(kept) <= multiset(s)
    && forall x, y :: x in multiset(s) - multiset(kept) && y in kept ==> KeyAtMost(key(y), key(x))
  }

  /** The first `n` items after sorting are `n` least items of the input. */
  lemma SortTakeFirstIsLeast<T>(s: seq<T>, key: T -> Key, n: nat)
    ensures IsLeast(TakeFirst(Sort(s, key), n), s, key)
  {
    var sorted := Sort(s, key);
    var kept := TakeFirst(sorted, n);
    SortIsSorted(s, key);
    SortIsPermutation(s, key);
    SortedSplit(sorted, |kept|, key);
    assert sorted == kept + sorted[|kept|..];
    assert multiset(s) - multiset(kept) == multiset(sorted[|kept|..]);
  }

  /** In a sorted list, no item after position `k` has a smaller key than one before it. */
  lemma SortedSplit<T>(sorted: seq<T>, k: nat, key: T -> Key)
    requires SortedBy(sorted, key) && k <= |sorted|
    ensures forall x, y :: x in multiset(sorted[k..]) && y in sorted[..k] ==> KeyAtMost(key(y), key(x))
  {
    forall x, y | x in multiset(sorted[k..]) && y in sorted[..k]
      ensures KeyAtMost(key(y), key(x))
    {
      var j :| 0 <= j < |sorted[k..]| && sorted[k..][j] == x;
      var i :| 0 <= i < k && sorted[..k][i] == y;
      assert sorted[i] == y && sorted[k + j] == x;
    }
  }

  /** The first `n` items after sorting are in ascending key order and come from the input. */
  lemma SortTakeFirstSorted<T>(s: seq<T>, key: T -> Key, n: nat)
    ensures SortedBy(TakeFirst(Sort(s, key), n), key)
    ensures forall a :: a in TakeFirst(Sort(s, key), n) ==> a in s
  {
    var sorted := Sort(s, key);
    var kept := TakeFirst(sorted, n);
    SortIsSorted(s, key);
    SortIsPermutation(s, key);
    forall i, j | 0 <= i < j < |kept| ensures KeyAtMost(key(kept[i]), key(kept[j])) {
      assert kept[i] == sorted[i] && kept[j] == sorted[j];
    }
    forall a | a in kept ensures a in s {
      assert a in multiset(sorted);
    }
  }

  /** The first item after sorting is an item of the input with the least key. */
  lemma SortFirstIsLeast<T>(s: seq<T>, key: T -> Key)
    requires s != []
    ensures Sort(s, key)[0] in s
    ensures forall a :: a in s ==> KeyAtMost(key(Sort(s, key)[0]), key(a))
  {
    var sorted := Sort(s, key);
    SortIsSorted(s, key);
    SortIsPermutation(s, key);
    assert sorted[0] in multiset(s);
    forall a | a in s ensures KeyAtMost(key(sorted[0]), key(a)) {
      assert a in multiset(sorted);
      var k :| 0 <= k < |sorted| && sorted[k] == a;
      if k > 0 {
        assert KeyAtMost(key(sorted[0]), key(sorted[k]));
      }
    }
  }

  /** Python's `s[:n]`. */
  function TakeFirst<T>(s: seq<T>, n: nat): (r: seq<T>)
    ensures |r| == if |s| <= n then |s| else n
    ensures r == s[..|r|]
  {
    if |s| <= n then s else s[..n]
  }
}
