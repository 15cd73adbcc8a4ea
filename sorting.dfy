/**
 * Python's `sorted(xs)` and `sorted(xs, reverse=True)` on integers. Equal
 * integers cannot be told apart, so sort stability plays no part here.
 */
module Sorting {

  predicate IsAscending(s: seq<int>)
  {
    forall i, j :: 0 <= i < j < |s| ==> s[i] <= s[j]
  }

  predicate IsDescending(s: seq<int>)
  {
    forall i, j :: 0 <= i < j < |s| ==> s[i] >= s[j]
  }

  lemma AscendingCons(y: int, t: seq<int>)
    requires IsAscending(t) && (t == [] || y <= t[0])
    ensures IsAscending([y] + t)
  {
    assert forall j :: 0 <= j < |t| ==> t[0] <= t[j];
  }

  function InsertAscending(x: int, s: seq<int>): (r: seq<int>)
    requires IsAscending(s)
    ensures IsAscending(r)
    ensures multiset(r) == multiset(s) + multiset{x}
    ensures |r| == |s| + 1
    ensures r[0] == x || (s != [] && r[0] == s[0])
  {
    if s == [] || x <= s[0] then
      [x] + s
    else
      AscendingTail(s);
      var rest := InsertAscending(x, s[1..]);
      assert rest[0] == x || rest[0] == s[1];
      AscendingCons(s[0], rest);
      HeadMultiset(s);
      [s[0]] + rest
  }

  /** `sorted(s)`. */
  function SortAscending(s: seq<int>): (r: seq<int>)
    ensures IsAscending(r)
    ensures multiset(r) == multiset(s)
  {
    if s == [] then []
    else
      assert s == [s[0]] + s[1..];
      InsertAscending(s[0], SortAscending(s[1..]))
  }

  lemma DescendingCons(y: int, t: seq<int>)
    requires IsDescending(t) && (t == [] || y >= t[0])
    ensures IsDescending([y] + t)
  {
    assert forall j :: 0 <= j < |t| ==> t[0] >= t[j];
  }

  function InsertDescending(x: int, s: seq<int>): (r: seq<int>)
    requires IsDescending(s)
    ensures IsDescending(r)
    ensures multiset(r) == multiset(s) + multiset{x}
    ensures |r| == |s| + 1
    ensures r[0] == x || (s != [] && r[0] == s[0])
  {
    if s == [] || x >= s[0] then
      [x] + s
    else
      DescendingTail(s);
      var rest := InsertDescending(x, s[1..]);
      assert rest[0] == x || rest[0] == s[1];
      DescendingCons(s[0], rest);
      HeadMultiset(s);
      [s[0]] + rest
  }

  /** `sorted(s, reverse=True)`. */
  function SortDescending(s: seq<int>): (r: seq<int>)
    ensures IsDescending(r)
    ensures multiset(r) == multiset(s)
  {
    if s == [] then []
    else
      assert s == [s[0]] + s[1..];
      InsertDescending(s[0], SortDescending(s[1..]))
  }

  /** The head of an ascending sequence is its least item. */
  lemma AscendingHeadIsLeast(a: seq<int>, y: int)
    requires IsAscending(a) && y in multiset(a)
    ensures a[0] <= y
  {
    var j :| 0 <= j < |a| && a[j] == y;
  }

  /** Sequences with equal heads and equal tails are equal. */
  lemma ConsEqual(a: seq<int>, b: seq<int>)
    requires a != [] && b != [] && a[0] == b[0] && a[1..] == b[1..]
    ensures a == b
  {
    assert a == [a[0]] + a[1..] && b == [b[0]] + b[1..];
  }

  lemma HeadMultiset(a: seq<int>)
    requires a != []
    ensures multiset(a) == multiset{a[0]} + multiset(a[1..])
  {
    assert a == [a[0]] + a[1..];
  }

  lemma TailMultiset(a: seq<int>)
    requires a != []
    ensures multiset(a[1..]) == multiset(a) - multiset{a[0]}
  {
    assert a == [a[0]] + a[1..];
  }

  lemma AscendingTail(a: seq<int>)
    requires a != [] && IsAscending(a)
    ensures IsAscending(a[1..])
  {
  }

  /** Two ascending sequences with the same items are equal: `sorted` is determined by the multiset. */
  lemma {:induction false} AscendingUnique(a: seq<int>, b: seq<int>)
    requires IsAscending(a) && IsAscending(b) && multiset(a) == multiset(b)
    ensures a == b
    decreases |a|
  {
    assert |a| == |multiset(a)| == |multiset(b)| == |b|;
    if a != [] {
      assert a[0] == b[0] by {
        assert a[0] in multiset(a) && b[0] in multiset(b);
        AscendingHeadIsLeast(a, b[0]);
        AscendingHeadIsLeast(b, a[0]);
      }
      assert multiset(a[1..]) == multiset(b[1..]) by {
        TailMultiset(a);
        TailMultiset(b);
      }
      AscendingTail(a);
      AscendingTail(b);
      AscendingUnique(a[1..], b[1..]);
      ConsEqual(a, b);
    }
  }


  /** The head of a descending sequence is its greatest item. */
  lemma DescendingHeadIsGreatest(a: seq<int>, y: int)
    requires IsDescending(a) && y in multiset(a)
    ensures a[0] >= y
  {
    var j :| 0 <= j < |a| && a[j] == y;
  }

  lemma DescendingTail(a: seq<int>)
    requires a != [] && IsDescending(a)
    ensures IsDescending(a[1..])
  {
  }

  /** Two descending sequences with the same items are equal. */
  lemma {:induction false} DescendingUnique(a: seq<int>, b: seq<int>)
    requires IsDescending(a) && IsDescending(b) && multiset(a) == multiset(b)
    ensures a == b
    decreases |a|
  {
    assert |a| == |multiset(a)| == |multiset(b)| == |b|;
    if a != [] {
      assert a[0] == b[0] by {
        assert a[0] in multiset(a) && b[0] in multiset(b);
        DescendingHeadIsGreatest(a, b[0]);
        DescendingHeadIsGreatest(b, a[0]);
      }
      assert multiset(a[1..]) == multiset(b[1..]) by {
        TailMultiset(a);
        TailMultiset(b);
      }
      DescendingTail(a);
      DescendingTail(b);
      DescendingUnique(a[1..], b[1..]);
      ConsEqual(a, b);
    }
  }


  /** Sorting a sequence that is already descending leaves it as it is. */
  lemma DescendingIdentity(s: seq<int>)
    requires IsDescending(s)
    ensures SortDescending(s) == s
  {
    DescendingUnique(SortDescending(s), s);
  }
}
