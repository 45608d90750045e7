/** Order-preserving subsequences, the shape of what a delete or a filter leaves. */
module Subsequences {

  /** `a` is `b` with some elements left out and the rest kept in order. */
  predicate IsSubsequence<T(==)>(a: seq<T>, b: seq<T>)
    decreases |b|
  {
    if |a| == 0 then true
    else if |b| == 0 then false
    else
      || (a[|a| - 1] == b[|b| - 1] && IsSubsequence(a[..|a| - 1], b[..|b| - 1]))
      || IsSubsequence(a, b[..|b| - 1])
  }

  lemma {:induction false} SubsequenceReflexive<T>(a: seq<T>)
    ensures IsSubsequence(a, a)
    decreases |a|
  {
    if |a| > 0 {
      SubsequenceReflexive(a[..|a| - 1]);
    }
  }

  /** Leaving out one element keeps the others in order. */
  lemma {:induction false} DropOneIsSubsequence<T>(p: seq<T>, x: T, q: seq<T>)
    ensures IsSubsequence(p + q, p + [x] + q)
    decreases |q|
  {
    var a, b := p + q, p + [x] + q;
    if |q| == 0 {
      assert a == p && b[..|b| - 1] == p;
      SubsequenceReflexive(p);
    } else {
      var q' := q[..|q| - 1];
      DropOneIsSubsequence(p, x, q');
      assert a[..|a| - 1] == p + q';
      assert b[..|b| - 1] == p + [x] + q';
    }
  }

  /** A subsequence stays one when the longer sequence grows at the end. */
  lemma SubsequenceExtend<T>(a: seq<T>, b: seq<T>, x: T)
    requires IsSubsequence(a, b)
    ensures IsSubsequence(a, b + [x])
  {
    assert (b + [x])[..|b|] == b;
  }
}
