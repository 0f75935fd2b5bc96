/** Sequence helpers: order-preserving filtering (JavaScript's
    Array.prototype.filter, a Python list built by appending in a loop) and
    the subsequence relation it establishes. */
module Seqs {

  /** Keeps, in order, the elements satisfying `p`. Defined from the back so
      that a loop which appends while scanning left to right matches it
      prefix by prefix. */
  function Filter<T>(s: seq<T>, p: T -> bool): (r: seq<T>)
    ensures |r| <= |s|
  {
    if |s| == 0 then []
    else Filter(s[..|s| - 1], p) + (if p(s[|s| - 1]) then [s[|s| - 1]] else [])
  }

  /** `a` can be obtained from `b` by deleting elements (order kept). */
  ghost predicate IsSubsequence<T>(a: seq<T>, b: seq<T>)
    decreases |b|
  {
    if |a| == 0 then true
    else if |b| == 0 then false
    else (a[|a| - 1] == b[|b| - 1] && IsSubsequence(a[..|a| - 1], b[..|b| - 1]))
         || IsSubsequence(a, b[..|b| - 1])
  }

  /** A slice that lies in the left operand of `+` is a slice of it. */
  lemma SliceOfLeft<T>(a: seq<T>, b: seq<T>, k: nat, len: nat)
    requires k + len <= |a|
    ensures (a + b)[k..k + len] == a[k..k + len]
  {
  }

  lemma FilterAppend<T>(s: seq<T>, x: T, p: T -> bool)
    ensures Filter(s + [x], p) == Filter(s, p) + (if p(x) then [x] else [])
  {
    assert (s + [x])[..|s + [x]| - 1] == s;
  }

  /** Exactly the elements satisfying `p` survive, with their multiplicity. */
  lemma {:induction false} FilterMultiset<T>(s: seq<T>, p: T -> bool)
    ensures forall x :: multiset(Filter(s, p))[x] == if p(x) then multiset(s)[x] else 0
  {
    if |s| > 0 {
      var init, last := s[..|s| - 1], s[|s| - 1];
      FilterMultiset(init, p);
      assert s == init + [last];
    }
  }

  lemma FilterMembership<T>(s: seq<T>, p: T -> bool, x: T)
    ensures x in Filter(s, p) <==> x in s && p(x)
  {
    FilterMultiset(s, p);
    assert x in Filter(s, p) <==> multiset(Filter(s, p))[x] > 0;
  }

  /** Filtering by two disjoint predicates splits, as a multiset, the
      filtering by their union. */
  lemma FilterSplit<T>(s: seq<T>, p: T -> bool, q: T -> bool, u: T -> bool)
    requires forall x :: u(x) == (p(x) || q(x))
    requires forall x :: !(p(x) && q(x))
    ensures multiset(Filter(s, p)) + multiset(Filter(s, q)) == multiset(Filter(s, u))
  {
    var mp, mq, mu := multiset(Filter(s, p)), multiset(Filter(s, q)), multiset(Filter(s, u));
    FilterMultiset(s, p);
    FilterMultiset(s, q);
    FilterMultiset(s, u);
    forall x
      ensures (mp + mq)[x] == mu[x]
    {
      assert mp[x] == if p(x) then multiset(s)[x] else 0;
      assert mq[x] == if q(x) then multiset(s)[x] else 0;
      assert mu[x] == if u(x) then multiset(s)[x] else 0;
    }
    MultisetsAgree(mp + mq, mu);
  }

  lemma MultisetsAgree<T>(a: multiset<T>, b: multiset<T>)
    requires forall x :: a[x] == b[x]
    ensures a == b
  {
  }

  /** A filtered sequence is an order-preserving subsequence of its source. */
  lemma {:induction false} FilterIsSubsequence<T>(s: seq<T>, p: T -> bool)
    ensures IsSubsequence(Filter(s, p), s)
  {
    if |s| > 0 {
      var init, last := s[..|s| - 1], s[|s| - 1];
      FilterIsSubsequence(init, p);
      if p(last) {
        var f := Filter(s, p);
        assert f[..|f| - 1] == Filter(init, p);
      } else {
        assert Filter(s, p) == Filter(init, p);
      }
    }
  }

  /** Filtering with a predicate that holds everywhere copies the sequence. */
  lemma {:induction false} FilterAll<T>(s: seq<T>, p: T -> bool)
    requires forall i :: 0 <= i < |s| ==> p(s[i])
    ensures Filter(s, p) == s
  {
    if |s| > 0 {
      FilterAll(s[..|s| - 1], p);
    }
  }
}
