/**
 * Facts about sequences of item weights that the three solvers share:
 * Python's built-in `sum`, order-preserving subsequences, and the
 * multisets of the items a solution is drawn from.
 */
module Seqs {

  /** Python's `sum` over a sequence of integers. */
  function Sum(s: seq<int>): int
  {
    if s == [] then 0 else s[0] + Sum(s[1..])
  }

  lemma {:induction false} SumAppend(a: seq<int>, b: seq<int>)
    ensures Sum(a + b) == Sum(a) + Sum(b)
  {
    if a == [] {
      assert a + b == b;
    } else {
      assert (a + b)[1..] == a[1..] + b;
      SumAppend(a[1..], b);
    }
  }

  /** Taking the item at position `i` out of `b` lowers the sum by that item. */
  lemma SumRemoveAt(b: seq<int>, i: int)
    requires 0 <= i < |b|
    ensures Sum(b) == b[i] + Sum(b[..i] + b[i + 1..])
  {
    assert b == b[..i] + b[i..];
    SumAppend(b[..i], b[i..]);
    assert b[i..][0] == b[i] && b[i..][1..] == b[i + 1..];
    SumAppend(b[..i], b[i + 1..]);
  }

  lemma MultisetRemoveAt(b: seq<int>, i: int)
    requires 0 <= i < |b|
    ensures multiset(b[..i] + b[i + 1..]) == multiset(b) - multiset{b[i]}
  {
    assert b == b[..i] + [b[i]] + b[i + 1..];
  }

  /** Sequences holding the same items (in any order) have the same sum. */
  lemma {:induction false} SumPermutation(a: seq<int>, b: seq<int>)
    requires multiset(a) == multiset(b)
    ensures Sum(a) == Sum(b)
    decreases |a|
  {
    if a == [] {
      assert |b| == |multiset(b)| == 0;
    } else {
      var x := a[0];
      assert x in multiset(b);
      var i :| 0 <= i < |b| && b[i] == x;
      assert a == [x] + a[1..];
      MultisetRemoveAt(b, i);
      SumPermutation(a[1..], b[..i] + b[i + 1..]);
      SumRemoveAt(b, i);
    }
  }

  /** A sum of non-negative items is non-negative. */
  lemma {:induction false} SumNonNegative(s: seq<int>)
    requires forall i :: 0 <= i < |s| ==> s[i] >= 0
    ensures Sum(s) >= 0
  {
    if s != [] {
      SumNonNegative(s[1..]);
    }
  }

  /** `t` can be obtained from `s` by deleting items, keeping the order of the rest. */
  predicate IsSubsequence(t: seq<int>, s: seq<int>)
    decreases |s|
  {
    t == [] ||
    (s != [] && ((t[0] == s[0] && IsSubsequence(t[1..], s[1..])) || IsSubsequence(t, s[1..])))
  }

  lemma {:induction false} SubsequenceMultiset(t: seq<int>, s: seq<int>)
    requires IsSubsequence(t, s)
    ensures multiset(t) <= multiset(s)
    ensures |t| <= |s|
    decreases |s|
  {
    if t != [] {
      assert s == [s[0]] + s[1..];
      if t[0] == s[0] && IsSubsequence(t[1..], s[1..]) {
        SubsequenceMultiset(t[1..], s[1..]);
        assert t == [t[0]] + t[1..];
      } else {
        SubsequenceMultiset(t, s[1..]);
      }
    }
  }

  /** Splitting one item `x` off a sub-multiset of `{x} + rest`. */
  lemma MultisetPeel(x: int, m: multiset<int>, rest: multiset<int>)
    ensures x in m ==> multiset{x} + (m - multiset{x}) == m
    ensures m <= multiset{x} + rest && x in m ==> m - multiset{x} <= rest
    ensures m <= multiset{x} + rest && x !in m ==> m <= rest
  {
  }

  /**
   * For a sub-multiset `m` of the items of `s`, the subsequence of `s` that
   * keeps the first occurrences of exactly the items of `m`.
   */
  function Realize(s: seq<int>, m: multiset<int>): (t: seq<int>)
    ensures IsSubsequence(t, s)
    ensures m <= multiset(s) ==> multiset(t) == m
    decreases |s|
  {
    if s == [] then []
    else
      assert s == [s[0]] + s[1..];
      MultisetPeel(s[0], m, multiset(s[1..]));
      if s[0] in m then
        var rest := Realize(s[1..], m - multiset{s[0]});
        var t := [s[0]] + rest;
        assert t[0] == s[0] && t[1..] == rest;
        t
      else
        Realize(s[1..], m)
  }

  /** Whatever is a sub-multiset of `s` has the sum of some subsequence of `s`. */
  lemma SubMultisetAsSubsequence(s: seq<int>, t: seq<int>) returns (u: seq<int>)
    requires multiset(t) <= multiset(s)
    ensures IsSubsequence(u, s) && multiset(u) == multiset(t) && Sum(u) == Sum(t)
  {
    u := Realize(s, multiset(t));
    SumPermutation(u, t);
  }
}
