/** `Array.prototype.map` on sequences, and the fact that it respects permutations. */
module Seqs {

  /** `s.map(f)`. */
  function MapSeq<T, U>(f: T -> U, s: seq<T>): (r: seq<U>)
    ensures |r| == |s|
    ensures forall i :: 0 <= i < |s| ==> r[i] == f(s[i])
  {
    if |s| == 0 then [] else [f(s[0])] + MapSeq(f, s[1..])
  }

  lemma MapSeqConcat<T, U>(f: T -> U, a: seq<T>, b: seq<T>)
    ensures MapSeq(f, a + b) == MapSeq(f, a) + MapSeq(f, b)
  {
  }

  lemma MapSeqTwo<T, U>(f: T -> U, x: T, y: T)
    ensures MapSeq(f, [x, y]) == [f(x), f(y)]
  {
  }

  /** Taking one element out before mapping takes its image out of the result. */
  lemma MapSeqRemove<T, U>(f: T -> U, b: seq<T>, j: nat)
    requires j < |b|
    ensures multiset(MapSeq(f, b)) == multiset(MapSeq(f, b[..j] + b[j + 1..])) + multiset{f(b[j])}
  {
    var left := b[..j];
    var right := b[j + 1..];
    assert b == left + ([b[j]] + right);
    MapSeqConcat(f, left, [b[j]] + right);
    MapSeqConcat(f, [b[j]], right);
    MapSeqConcat(f, left, right);
    assert MapSeq(f, b) == MapSeq(f, left) + ([f(b[j])] + MapSeq(f, right));
    assert MapSeq(f, left + right) == MapSeq(f, left) + MapSeq(f, right);
  }

  /** Removing the first element of `a` and an equal element of `b` keeps them permutations. */
  lemma RemoveMatching<T>(a: seq<T>, b: seq<T>, j: nat)
    requires multiset(a) == multiset(b)
    requires 0 < |a| && j < |b| && b[j] == a[0]
    ensures multiset(b[..j] + b[j + 1..]) == multiset(a[1..])
  {
    var left := b[..j];
    var right := b[j + 1..];
    assert b == left + [b[j]] + right;
    assert multiset(b) == multiset(left) + multiset{b[j]} + multiset(right);
    assert a == [a[0]] + a[1..];
    assert multiset(a) == multiset{a[0]} + multiset(a[1..]);
    assert multiset(left + right) == multiset(left) + multiset(right);
    assert multiset(a[1..]) == multiset(a) - multiset{a[0]};
    assert multiset(left + right) == multiset(b) - multiset{b[j]};
  }

  /** Mapping two permutations of one another gives two permutations of one another. */
  lemma {:induction false} MapSeqPermutation<T, U>(f: T -> U, a: seq<T>, b: seq<T>)
    requires multiset(a) == multiset(b)
    ensures multiset(MapSeq(f, a)) == multiset(MapSeq(f, b))
    decreases |a|
  {
    if |a| > 0 {
      assert a[0] in multiset(b);
      var j :| 0 <= j < |b| && b[j] == a[0];
      RemoveMatching(a, b, j);
      MapSeqPermutation(f, a[1..], b[..j] + b[j + 1..]);
      MapSeqRemove(f, b, j);
      assert MapSeq(f, a) == [f(a[0])] + MapSeq(f, a[1..]);
    }
  }
}
