/**
 * `Array.prototype.sort` with a comparator derived from a key: a stable sort.
 * The order on keys is a parameter `leq`; the script's `localeCompare` is one
 * total preorder on strings, whose locale rules are not modelled.
 */
module StableSort {

  /** `leq` orders every pair of keys, transitively; distinct keys may tie. */
  ghost predicate TotalPreorder<K(!new)>(leq: (K, K) -> bool) {
    && (forall a, b :: leq(a, b) || leq(b, a))
    && (forall a, b, c :: leq(a, b) && leq(b, c) ==> leq(a, c))
  }

  /** The keys of `s` never decrease. */
  ghost predicate Sorted<T, K>(s: seq<T>, key: T -> K, leq: (K, K) -> bool) {
    forall i, j :: 0 <= i < j < |s| ==> leq(key(s[i]), key(s[j]))
  }

  /** Keys that compare equal in both directions: `localeCompare` returns 0. */
  predicate Ties<K>(leq: (K, K) -> bool, a: K, b: K) {
    leq(a, b) && leq(b, a)
  }

  /** The elements of `s` whose key ties with `k`, in their order in `s`. */
  function WithKey<T, K>(s: seq<T>, key: T -> K, leq: (K, K) -> bool, k: K): seq<T> {
    if |s| == 0 then []
    else (if Ties(leq, key(s[0]), k) then [s[0]] else []) + WithKey(s[1..], key, leq, k)
  }

  /** Insert `x` before the first element whose key is not below it. */
  function Insert<T, K>(x: T, t: seq<T>, key: T -> K, leq: (K, K) -> bool): (r: seq<T>)
    ensures |r| == |t| + 1
    ensures multiset(r) == multiset(t) + multiset{x}
  {
    if |t| == 0 then [x]
    else if leq(key(x), key(t[0])) then [x] + t
    else
      assert t == [t[0]] + t[1..];
      [t[0]] + Insert(x, t[1..], key, leq)
  }

  /**
   * Insertion sort from the back, so that an element goes before the later
   * ones it ties with. The result holds the same elements, each as often.
   */
  function SortBy<T, K>(s: seq<T>, key: T -> K, leq: (K, K) -> bool): (r: seq<T>)
    ensures |r| == |s|
    ensures multiset(r) == multiset(s)
  {
    if |s| == 0 then []
    else
      assert s == [s[0]] + s[1..];
      Insert(s[0], SortBy(s[1..], key, leq), key, leq)
  }

  lemma {:induction false} InsertSorted<T, K(!new)>(x: T, t: seq<T>, key: T -> K, leq: (K, K) -> bool)
    requires TotalPreorder(leq)
    requires Sorted(t, key, leq)
    ensures Sorted(Insert(x, t, key, leq), key, leq)
  {
    if |t| > 0 && !leq(key(x), key(t[0])) {
      var rest := Insert(x, t[1..], key, leq);
      InsertSorted(x, t[1..], key, leq);
      forall j | 0 <= j < |rest|
        ensures leq(key(t[0]), key(rest[j]))
      {
        assert rest[j] in multiset(rest);
        if rest[j] != x {
          assert rest[j] in multiset(t[1..]);
          var m :| 0 <= m < |t[1..]| && t[1..][m] == rest[j];
          assert t[m + 1] == rest[j];
        }
      }
      var r := [t[0]] + rest;
      forall i, j | 0 <= i < j < |r|
        ensures leq(key(r[i]), key(r[j]))
      {
        if i > 0 {
          assert r[i] == rest[i - 1] && r[j] == rest[j - 1];
        } else {
          assert r[j] == rest[j - 1];
        }
      }
    }
  }

  /** For a total preorder the result is ordered by key. */
  lemma {:induction false} SortBySorted<T, K(!new)>(s: seq<T>, key: T -> K, leq: (K, K) -> bool)
    requires TotalPreorder(leq)
    ensures Sorted(SortBy(s, key, leq), key, leq)
  {
    if |s| > 0 {
      SortBySorted(s[1..], key, leq);
      InsertSorted(s[0], SortBy(s[1..], key, leq), key, leq);
    }
  }

  /** Filtering distributes over a leading element. */
  lemma WithKeyCons<T, K>(y: T, s: seq<T>, key: T -> K, leq: (K, K) -> bool, k: K)
    ensures WithKey([y] + s, key, leq, k) == (if Ties(leq, key(y), k) then [y] else []) + WithKey(s, key, leq, k)
  {
    assert ([y] + s)[1..] == s;
  }

  /** An element that sorts strictly below `x` cannot tie with `k` when `x` does. */
  lemma PassedOverDoesNotTie<K(!new)>(leq: (K, K) -> bool, kx: K, ky: K, k: K)
    requires TotalPreorder(leq)
    requires !leq(kx, ky)
    ensures Ties(leq, kx, k) ==> !Ties(leq, ky, k)
  {
  }

  lemma {:induction false} InsertWithKey<T, K(!new)>(x: T, t: seq<T>, key: T -> K, leq: (K, K) -> bool, k: K)
    requires TotalPreorder(leq)
    ensures WithKey(Insert(x, t, key, leq), key, leq, k)
         == (if Ties(leq, key(x), k) then [x] else []) + WithKey(t, key, leq, k)
  {
    if |t| == 0 {
    } else if leq(key(x), key(t[0])) {
      WithKeyCons(x, t, key, leq, k);
    } else {
      var rest := Insert(x, t[1..], key, leq);
      WithKeyCons(t[0], rest, key, leq, k);
      WithKeyCons(t[0], t[1..], key, leq, k);
      assert t == [t[0]] + t[1..];
      InsertWithKey(x, t[1..], key, leq, k);
      PassedOverDoesNotTie(leq, key(x), key(t[0]), k);
    }
  }

  /**
   * Stability: the elements whose keys tie with any `k` appear in the same
   * order before and after sorting.
   */
  lemma {:induction false} SortByStable<T, K(!new)>(s: seq<T>, key: T -> K, leq: (K, K) -> bool, k: K)
    requires TotalPreorder(leq)
    ensures WithKey(SortBy(s, key, leq), key, leq, k) == WithKey(s, key, leq, k)
  {
    if |s| > 0 {
      InsertWithKey(s[0], SortBy(s[1..], key, leq), key, leq, k);
      SortByStable(s[1..], key, leq, k);
    }
  }
}
