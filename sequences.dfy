/**
 * Reference definitions of element-wise mapping and filtering on finite
 * sequences. They say what a mapped or filtered lazy list must yield.
 */
module Sequences {

  /** `f` applied to every element, in order. */
  function MapSeq<T, U>(f: T -> U, s: seq<T>): (r: seq<U>)
    ensures |r| == |s|
    ensures forall i :: 0 <= i < |s| ==> r[i] == f(s[i])
  {
    if s == [] then [] else [f(s[0])] + MapSeq(f, s[1..])
  }

  /** The elements of `s` that satisfy `p`, in their original order. */
  function FilterSeq<T>(p: T -> bool, s: seq<T>): (r: seq<T>)
    ensures |r| <= |s|
    ensures forall i :: 0 <= i < |r| ==> p(r[i])
  {
    if s == [] then [] else (if p(s[0]) then [s[0]] else []) + FilterSeq(p, s[1..])
  }

  /** `a` can be obtained from `b` by deleting elements; relative order is kept. */
  ghost predicate IsSubsequence<T>(a: seq<T>, b: seq<T>)
    decreases |b|
  {
    a == [] || (b != [] && ((a[0] == b[0] && IsSubsequence(a[1..], b[1..])) || IsSubsequence(a, b[1..])))
  }

  /** Filtering keeps every accepted element as often as it occurs and drops every rejected one. */
  lemma {:induction false} FilterSeqCount<T>(p: T -> bool, s: seq<T>, x: T)
    ensures multiset(FilterSeq(p, s))[x] == if p(x) then multiset(s)[x] else 0
  {
    if s != [] {
      FilterSeqCount(p, s[1..], x);
      assert s == [s[0]] + s[1..];
      assert multiset(s) == multiset([s[0]]) + multiset(s[1..]);
    }
  }

  /** Filtering never reorders: its result is a subsequence of its input. */
  lemma {:induction false} FilterSeqSubsequence<T>(p: T -> bool, s: seq<T>)
    ensures IsSubsequence(FilterSeq(p, s), s)
  {
    if s != [] {
      FilterSeqSubsequence(p, s[1..]);
      var r := FilterSeq(p, s[1..]);
      if p(s[0]) {
        assert FilterSeq(p, s) == [s[0]] + r;
        assert ([s[0]] + r)[1..] == r;
      } else {
        assert FilterSeq(p, s) == r;
      }
    }
  }

  /** Proof helper: regrouping concatenation, stated once so that loop proofs stay cheap. */
  lemma AppendAssoc<T>(a: seq<T>, b: seq<T>, c: seq<T>)
    ensures a + (b + c) == (a + b) + c
  {
  }

  /** Prepending an element commutes with mapping. */
  lemma MapSeqCons<T, U>(f: T -> U, v: T, s: seq<T>)
    ensures MapSeq(f, [v] + s) == [f(v)] + MapSeq(f, s)
  {
    assert ([v] + s)[1..] == s;
  }

  /** Prepending an element commutes with filtering. */
  lemma FilterSeqCons<T>(p: T -> bool, v: T, s: seq<T>)
    ensures FilterSeq(p, [v] + s) == (if p(v) then [v] else []) + FilterSeq(p, s)
  {
    assert ([v] + s)[1..] == s;
  }
}
