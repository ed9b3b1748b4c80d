/**
 * Sequence operations that the views build on: `Array.prototype.filter`,
 * `Array.prototype.map`, and the "is a subsequence of" relation that states
 * that an operation keeps the original order.
 */
module Seqs {

  /** The elements of `s` for which `p` holds, in their original order. */
  function Filter<T>(s: seq<T>, p: T -> bool): (r: seq<T>)
    ensures |r| <= |s|
    ensures forall i :: 0 <= i < |r| ==> p(r[i])
  {
    if s == [] then [] else (if p(s[0]) then [s[0]] else []) + Filter(s[1..], p)
  }

  /** `f` applied to every element of `s`, position by position. */
  function Map<T, U>(s: seq<T>, f: T -> U): (r: seq<U>)
    ensures |r| == |s|
    ensures forall i :: 0 <= i < |s| ==> r[i] == f(s[i])
  {
    if s == [] then [] else [f(s[0])] + Map(s[1..], f)
  }

  /** `r` can be obtained from `s` by deleting elements, without reordering any. */
  predicate IsSubseq<T(==)>(r: seq<T>, s: seq<T>)
    decreases |s|
  {
    if r == [] then true
    else if s == [] then false
    else if r[0] == s[0] then IsSubseq(r[1..], s[1..])
    else IsSubseq(r, s[1..])
  }

  /** Filtering distributes over concatenation. */
  lemma {:induction false} FilterAppend<T>(a: seq<T>, b: seq<T>, p: T -> bool)
    ensures Filter(a + b, p) == Filter(a, p) + Filter(b, p)
  {
    if a == [] {
      assert a + b == b;
    } else {
      assert (a + b)[0] == a[0];
      assert (a + b)[1..] == a[1..] + b;
      FilterAppend(a[1..], b, p);
    }
  }

  /** Each value occurs in the result exactly as often as in the input if it passes `p`, and not at all otherwise. */
  lemma {:induction false} FilterCount<T>(s: seq<T>, p: T -> bool, x: T)
    ensures multiset(Filter(s, p))[x] == if p(x) then multiset(s)[x] else 0
  {
    if s != [] {
      FilterCount(s[1..], p, x);
      assert s == [s[0]] + s[1..];
    }
  }

  /** A value is kept if and only if it is in the input and passes `p`. */
  lemma FilterMembers<T>(s: seq<T>, p: T -> bool, x: T)
    ensures x in Filter(s, p) <==> x in s && p(x)
  {
    FilterCount(s, p, x);
    assert x in Filter(s, p) <==> multiset(Filter(s, p))[x] > 0;
    assert x in s <==> multiset(s)[x] > 0;
  }

  /** The kept elements appear in the input's order. */
  lemma {:induction false} FilterIsSubseq<T>(s: seq<T>, p: T -> bool)
    ensures IsSubseq(Filter(s, p), s)
  {
    if s != [] {
      FilterIsSubseq(s[1..], p);
      var r := Filter(s, p);
      if p(s[0]) {
        assert r == [s[0]] + Filter(s[1..], p);
        assert r[1..] == Filter(s[1..], p);
      } else {
        assert r == Filter(s[1..], p);
      }
    }
  }

  /** When every element passes, filtering changes nothing. */
  lemma {:induction false} FilterAllPass<T>(s: seq<T>, p: T -> bool)
    requires forall i :: 0 <= i < |s| ==> p(s[i])
    ensures Filter(s, p) == s
  {
    if s != [] {
      FilterAllPass(s[1..], p);
      assert s == [s[0]] + s[1..];
    }
  }

  /** Filtering twice with the same test is the same as filtering once. */
  lemma FilterIdempotent<T>(s: seq<T>, p: T -> bool)
    ensures Filter(Filter(s, p), p) == Filter(s, p)
  {
    FilterAllPass(Filter(s, p), p);
  }

  /** When some element fails `p`, the result is shorter than the input. */
  lemma {:induction false} FilterShrinks<T>(s: seq<T>, p: T -> bool, i: nat)
    requires i < |s| && !p(s[i])
    ensures |Filter(s, p)| < |s|
  {
    if i > 0 {
      FilterShrinks(s[1..], p, i - 1);
    }
  }

  /** Two tests that agree on every element filter alike. */
  lemma {:induction false} FilterCongruent<T>(s: seq<T>, p: T -> bool, q: T -> bool)
    requires forall i :: 0 <= i < |s| ==> p(s[i]) == q(s[i])
    ensures Filter(s, p) == Filter(s, q)
  {
    if s != [] {
      FilterCongruent(s[1..], p, q);
    }
  }

  /** Filtering a sequence with one more element at the end. */
  lemma FilterSnoc<T>(s: seq<T>, x: T, p: T -> bool)
    ensures Filter(s + [x], p) == Filter(s, p) + (if p(x) then [x] else [])
  {
    FilterAppend(s, [x], p);
    assert Filter([x], p) == (if p(x) then [x] else []) + Filter([x][1..], p);
  }

  /** Concatenation is associative (a helper that keeps the solver's search small). */
  lemma ConcatAssoc<T>(a: seq<T>, b: seq<T>, c: seq<T>)
    ensures a + b + c == a + (b + c)
  {
  }
}
