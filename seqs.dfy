/** Order-preserving filtering of sequences, the `Where` of the LINQ
    pipelines the core is written in, and the facts about it that the rest of
    the model relies on. */
module Seqs {

  /** The elements of `xs` that satisfy `p`, in their original order. */
  function Filter<T>(p: T -> bool, xs: seq<T>): (r: seq<T>)
    ensures |r| <= |xs|
  {
    if xs == [] then []
    else Filter(p, xs[..|xs| - 1]) + (if p(xs[|xs| - 1]) then [xs[|xs| - 1]] else [])
  }

  /** `a` can be obtained from `b` by deleting elements: the order of `b` is kept. */
  ghost predicate IsSubsequence<T>(a: seq<T>, b: seq<T>)
    decreases |b|
  {
    if a == [] then true
    else if b == [] then false
    else
      || (a[|a| - 1] == b[|b| - 1] && IsSubsequence(a[..|a| - 1], b[..|b| - 1]))
      || IsSubsequence(a, b[..|b| - 1])
  }

  lemma {:induction false} FilterAppend<T>(p: T -> bool, a: seq<T>, b: seq<T>)
    ensures Filter(p, a + b) == Filter(p, a) + Filter(p, b)
    decreases |b|
  {
    if b == [] {
      assert a + b == a;
    } else {
      var b' := b[..|b| - 1];
      assert (a + b)[..|a + b| - 1] == a + b';
      FilterAppend(p, a, b');
    }
  }

  /** Every kept element satisfies `p`, and an element of `xs` is kept exactly when it satisfies `p`. */
  lemma {:induction false} FilterMembers<T>(p: T -> bool, xs: seq<T>)
    ensures forall x :: x in Filter(p, xs) <==> x in xs && p(x)
  {
    if xs != [] {
      var xs' := xs[..|xs| - 1];
      FilterMembers(p, xs');
      assert xs == xs' + [xs[|xs| - 1]];
    }
  }

  /** Filtering keeps every occurrence of a satisfying element and none of the others. */
  lemma {:induction false} FilterMultiplicity<T>(p: T -> bool, xs: seq<T>, x: T)
    ensures multiset(Filter(p, xs))[x] == if p(x) then multiset(xs)[x] else 0
  {
    if xs != [] {
      var xs' := xs[..|xs| - 1];
      FilterMultiplicity(p, xs', x);
      assert xs == xs' + [xs[|xs| - 1]];
    }
  }

  /** `FilterMultiplicity` for every element at once. */
  lemma FilterCounts<T>(p: T -> bool, xs: seq<T>)
    ensures forall x :: multiset(Filter(p, xs))[x] == if p(x) then multiset(xs)[x] else 0
  {
    forall x {
      FilterMultiplicity(p, xs, x);
    }
  }

  /** Filtering keeps the original order. */
  lemma {:induction false} FilterIsSubsequence<T>(p: T -> bool, xs: seq<T>)
    ensures IsSubsequence(Filter(p, xs), xs)
  {
    if xs != [] {
      var xs' := xs[..|xs| - 1];
      FilterIsSubsequence(p, xs');
      var r := Filter(p, xs);
      if p(xs[|xs| - 1]) {
        assert r[..|r| - 1] == Filter(p, xs');
      } else if r != [] {
        assert r == Filter(p, xs');
      }
    }
  }

  /** Filtering twice is filtering once with the conjunction `pq` of the two predicates. */
  lemma {:induction false} FilterFilter<T>(p: T -> bool, q: T -> bool, pq: T -> bool, xs: seq<T>)
    requires forall x :: pq(x) == (p(x) && q(x))
    ensures Filter(q, Filter(p, xs)) == Filter(pq, xs)
  {
    if xs != [] {
      var xs' := xs[..|xs| - 1];
      FilterFilter(p, q, pq, xs');
      var last := xs[|xs| - 1];
      var tail := if p(last) then [last] else [];
      FilterAppend(q, Filter(p, xs'), tail);
    }
  }

  /** Nothing is kept when no element satisfies `p`. */
  lemma {:induction false} FilterNone<T>(p: T -> bool, xs: seq<T>)
    requires forall k :: 0 <= k < |xs| ==> !p(xs[k])
    ensures Filter(p, xs) == []
  {
    if xs != [] {
      assert forall k :: 0 <= k < |xs| - 1 ==> xs[..|xs| - 1][k] == xs[k];
      FilterNone(p, xs[..|xs| - 1]);
    }
  }

  /** Something is kept exactly when some element satisfies `p`. */
  lemma {:induction false} FilterNonEmpty<T>(p: T -> bool, xs: seq<T>)
    ensures |Filter(p, xs)| > 0 <==> exists k :: 0 <= k < |xs| && p(xs[k])
  {
    if xs != [] {
      var xs' := xs[..|xs| - 1];
      FilterNonEmpty(p, xs');
      assert forall k :: 0 <= k < |xs'| ==> xs'[k] == xs[k];
      if exists k :: 0 <= k < |xs| && p(xs[k]) {
        var k :| 0 <= k < |xs| && p(xs[k]);
        if k < |xs'| { assert p(xs'[k]); }
      }
    }
  }

  /** `FilterMembers` by position, for element types whose values may hold references. */
  lemma FilterMembersAt<T>(p: T -> bool, xs: seq<T>)
    ensures forall k | 0 <= k < |Filter(p, xs)| :: Filter(p, xs)[k] in xs && p(Filter(p, xs)[k])
    ensures forall k | 0 <= k < |xs| :: p(xs[k]) ==> xs[k] in Filter(p, xs)
  {
    FilterMembers(p, xs);
  }
}
