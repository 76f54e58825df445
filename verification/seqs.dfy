/** Order-preserving filtering and truncation of sequences: JavaScript's
    `filter`/`slice(0, n)` and Python's list comprehension with `[:n]`. */
module Seqs {

  /** The elements of `s` that satisfy `p`, in their original order,
      duplicates kept. */
  function Filter<T(!new)>(s: seq<T>, p: T -> bool): (r: seq<T>)
    ensures |r| <= |s|
    ensures forall i :: 0 <= i < |r| ==> p(r[i])
    ensures forall x :: multiset(r)[x] == if p(x) then multiset(s)[x] else 0
  {
    if s == [] then []
    else
      assert s == [s[0]] + s[1..];
      (if p(s[0]) then [s[0]] else []) + Filter(s[1..], p)
  }

  /** Filtering distributes over concatenation, so the result keeps the
      relative order of the input. */
  lemma {:induction false} FilterAppend<T(!new)>(a: seq<T>, b: seq<T>, p: T -> bool)
    ensures Filter(a + b, p) == Filter(a, p) + Filter(b, p)
  {
    if a == [] {
      assert a + b == b;
    } else {
      assert (a + b)[1..] == a[1..] + b;
      FilterAppend(a[1..], b, p);
    }
  }

  /** Filtering one element keeps it exactly when it passes. */
  lemma FilterSingleton<T(!new)>(x: T, p: T -> bool)
    ensures Filter([x], p) == if p(x) then [x] else []
  {
    assert [x][1..] == [];
  }

  /** The first `n` elements of `s`, or all of them when there are fewer. */
  function Take<T>(s: seq<T>, n: nat): (r: seq<T>)
    ensures |r| == if |s| < n then |s| else n
    ensures forall i :: 0 <= i < |r| ==> r[i] == s[i]
  {
    if |s| <= n then s else s[..n]
  }

  predicate IsPrefix<T(==)>(p: seq<T>, s: seq<T>)
  {
    |p| <= |s| && p == s[..|p|]
  }

  /** What `Take` keeps is a prefix, and it is the whole sequence when the
      sequence is short enough. */
  lemma TakeIsPrefix<T>(s: seq<T>, n: nat)
    ensures IsPrefix(Take(s, n), s)
    ensures |s| <= n ==> Take(s, n) == s
  {
  }

  /** Every element kept by a filter and then a cut comes from the source. */
  lemma TakeFilterFromSource<T(!new)>(s: seq<T>, p: T -> bool, n: nat)
    ensures forall i :: 0 <= i < |Take(Filter(s, p), n)| ==> Take(Filter(s, p), n)[i] in s
  {
    var m := Filter(s, p);
    var r := Take(m, n);
    forall i | 0 <= i < |r|
      ensures r[i] in s
    {
      assert r[i] == m[i];
      assert m[i] in multiset(m);
    }
  }
}
