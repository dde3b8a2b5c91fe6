/** Order-preserving sequence filtering and counting, the one list
    transformation every view of the subscription list is built from
    (JavaScript's `Array.prototype.filter`). */
module Seqs {

  /** `a` can be obtained from `b` by deleting elements: every element of
      `a` occurs in `b`, in the same relative order. */
  predicate IsSubsequence<T(==)>(a: seq<T>, b: seq<T>)
    decreases |b|
  {
    || |a| == 0
    || (&& |b| > 0
        && ((a[0] == b[0] && IsSubsequence(a[1..], b[1..])) || IsSubsequence(a, b[1..])))
  }

  /** Number of elements of `s` that satisfy `p`. */
  function Count<T>(s: seq<T>, p: T -> bool): (n: nat)
    ensures n <= |s|
  {
    if |s| == 0 then 0 else (if p(s[0]) then 1 else 0) + Count(s[1..], p)
  }

  /** The count reaches the length exactly when every element satisfies `p`,
      and is zero exactly when none does. */
  lemma {:induction false} CountAll<T>(s: seq<T>, p: T -> bool)
    ensures Count(s, p) == |s| <==> forall i :: 0 <= i < |s| ==> p(s[i])
    ensures Count(s, p) == 0 <==> forall i :: 0 <= i < |s| ==> !p(s[i])
  {
    if |s| > 0 {
      CountAll(s[1..], p);
      assert forall i :: 1 <= i < |s| ==> s[i] == s[1..][i - 1];
    }
  }

  /** The elements of `s` that satisfy `p`, in their original order and with
      their original multiplicities. */
  function Filter<T(==,!new)>(s: seq<T>, p: T -> bool): (r: seq<T>)
    ensures forall x {:trigger x in r} :: x in r <==> x in s && p(x)
    ensures forall x {:trigger multiset(r)[x]} :: multiset(r)[x] == if p(x) then multiset(s)[x] else 0
    ensures IsSubsequence(r, s)
    ensures |r| == Count(s, p)
    ensures (forall i :: 0 <= i < |s| ==> p(s[i])) ==> r == s
  {
    if |s| == 0 then []
    else
      assert s == [s[0]] + s[1..];
      var rest := Filter(s[1..], p);
      if p(s[0]) then
        assert ([s[0]] + rest)[1..] == rest;
        [s[0]] + rest
      else
        rest
  }

  /** Filtering only looks at the predicate's values on the elements. */
  lemma {:induction false} FilterCongruence<T(!new)>(s: seq<T>, p: T -> bool, q: T -> bool)
    requires forall i :: 0 <= i < |s| ==> p(s[i]) == q(s[i])
    ensures Filter(s, p) == Filter(s, q)
  {
    if |s| > 0 {
      FilterCongruence(s[1..], p, q);
    }
  }

  /** Filtering distributes over concatenation. */
  lemma {:induction false} FilterConcat<T(!new)>(a: seq<T>, b: seq<T>, p: T -> bool)
    ensures Filter(a + b, p) == Filter(a, p) + Filter(b, p)
  {
    if |a| > 0 {
      assert (a + b)[1..] == a[1..] + b;
      FilterConcat(a[1..], b, p);
    } else {
      assert a + b == b;
    }
  }

  /** Filtering twice is filtering once by the conjunction. */
  lemma {:induction false} FilterFilter<T(!new)>(s: seq<T>, p: T -> bool, q: T -> bool, pq: T -> bool)
    requires forall x :: pq(x) == (p(x) && q(x))
    ensures Filter(Filter(s, p), q) == Filter(s, pq)
  {
    if |s| > 0 {
      FilterFilter(s[1..], p, q, pq);
    }
  }

  /** Two predicates that never hold together count, in sum, the elements
      that satisfy either. */
  lemma {:induction false} CountDisjoint<T>(s: seq<T>, p: T -> bool, q: T -> bool, pq: T -> bool)
    requires forall x :: pq(x) == (p(x) || q(x))
    requires forall x :: !(p(x) && q(x))
    ensures Count(s, pq) == Count(s, p) + Count(s, q)
  {
    if |s| > 0 {
      CountDisjoint(s[1..], p, q, pq);
    }
  }

  /** Every element satisfies either `p` or its negation `np`. */
  lemma {:induction false} CountComplement<T>(s: seq<T>, p: T -> bool, np: T -> bool)
    requires forall x :: np(x) == !p(x)
    ensures Count(s, p) + Count(s, np) == |s|
  {
    if |s| > 0 {
      CountComplement(s[1..], p, np);
    }
  }
}
