/**
 * Facts about the java.util.List operations the registry relies on:
 * `remove(Object)` (drop the first identical element), duplicate-freedom,
 * and order-preserving sub-lists such as the ones a stream filter produces.
 */
module Lists {

  /** No element occurs twice; for objects this is reference identity. */
  predicate Distinct<T(==)>(s: seq<T>) {
    forall i, j :: 0 <= i < j < |s| ==> s[i] != s[j]
  }

  /** `r` is `s` with some elements dropped and the others kept in their order. */
  predicate IsSubsequence<T(==)>(r: seq<T>, s: seq<T>)
    decreases |s|
  {
    if r == [] then true
    else if s == [] then false
    else (r[0] == s[0] && IsSubsequence(r[1..], s[1..])) || IsSubsequence(r, s[1..])
  }

  /** Position of the first occurrence of `x` (List.indexOf). */
  function IndexOf<T(==)>(s: seq<T>, x: T): (i: nat)
    requires x in s
    ensures i < |s| && s[i] == x
    ensures x !in s[..i]
  {
    if s[0] == x then 0 else 1 + IndexOf(s[1..], x)
  }

  /** List.remove(Object): drops the first element identical to `x`, if any. */
  function RemoveFirst<T(==)>(s: seq<T>, x: T): (r: seq<T>)
    ensures x !in s ==> r == s
    ensures |r| == if x in s then |s| - 1 else |s|
    ensures forall y :: y in r ==> y in s
  {
    if s == [] then []
    else if s[0] == x then s[1..]
    else [s[0]] + RemoveFirst(s[1..], x)
  }

  /** Removal cuts out exactly the first occurrence: the prefix before it and the suffix after it are kept. */
  lemma {:induction false} RemoveFirstShape<T>(s: seq<T>, x: T)
    requires x in s
    ensures RemoveFirst(s, x) == s[..IndexOf(s, x)] + s[IndexOf(s, x) + 1..]
  {
    if s[0] != x {
      RemoveFirstShape(s[1..], x);
      var i := IndexOf(s[1..], x);
      assert s[1..][..i] == s[1..i + 1];
      assert s[1..][i + 1..] == s[i + 2..];
      assert [s[0]] + s[1..i + 1] == s[..i + 1];
    }
  }

  /** Appending an element not yet present and then removing it gives the list back. */
  lemma RemoveFirstAppend<T>(s: seq<T>, x: T)
    requires x !in s
    ensures RemoveFirst(s + [x], x) == s
  {
    RemoveFirstShape(s + [x], x);
    assert (s + [x])[..|s|] == s;
  }

  /** Removing an element whose first occurrence follows `xs` drops exactly that occurrence. */
  lemma RemoveFirstSplit<T>(xs: seq<T>, x: T, ys: seq<T>)
    requires x !in xs
    ensures RemoveFirst(xs + [x] + ys, x) == xs + ys
  {
    var s := xs + [x] + ys;
    assert s[|xs|] == x;
    var i := IndexOf(s, x);
    RemoveFirstShape(s, x);
    assert i == |xs|;
    assert s[..i] == xs;
    assert s[i + 1..] == ys;
  }

  /** In a duplicate-free list, removing the k-th element drops exactly position k. */
  lemma RemoveFirstDistinct<T>(s: seq<T>, k: nat)
    requires Distinct(s) && k < |s|
    ensures RemoveFirst(s, s[k]) == s[..k] + s[k + 1..]
  {
    assert IndexOf(s, s[k]) == k;
    RemoveFirstShape(s, s[k]);
  }

  /** Removal keeps a list duplicate-free, and the removed element is then gone. */
  lemma DistinctRemoveFirst<T>(s: seq<T>, x: T)
    requires Distinct(s)
    ensures Distinct(RemoveFirst(s, x))
    ensures x !in RemoveFirst(s, x)
  {
    if x in s {
      var i := IndexOf(s, x);
      var r := RemoveFirst(s, x);
      RemoveFirstShape(s, x);
      assert r == s[..i] + s[i + 1..];
      forall a, b | 0 <= a < b < |r|
        ensures r[a] != r[b]
      {
        var a' := if a < i then a else a + 1;
        var b' := if b < i then b else b + 1;
        assert r[a] == s[a'] && r[b] == s[b'] && a' < b';
      }
    }
  }

  /** Appending a new element keeps a list duplicate-free. */
  lemma DistinctAppend<T>(s: seq<T>, x: T)
    requires Distinct(s) && x !in s
    ensures Distinct(s + [x])
  {
  }
}
