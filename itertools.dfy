/**
 * The candidate order of the exhaustive solver: Python's
 * `itertools.combinations(weights, r)` and the concatenation, for r from 1
 * to n, that the solver's two nested loops walk through.
 */
module Itertools {
  import opened Seqs

  /** Puts `x` in front of every combination in `cs`, keeping their order. */
  function PrependAll(x: int, cs: seq<seq<int>>): (r: seq<seq<int>>)
    ensures |r| == |cs|
    ensures forall i :: 0 <= i < |cs| ==> r[i] == [x] + cs[i]
  {
    seq(|cs|, i requires 0 <= i < |cs| => [x] + cs[i])
  }

  /**
   * `itertools.combinations(s, r)`: the r-item subsequences of `s`, taken by
   * position, in lexicographic order of their positions. A combination that
   * uses `s[0]` comes before every one that does not.
   */
  function Combinations(s: seq<int>, r: nat): seq<seq<int>>
    decreases |s|
  {
    if r == 0 then [[]]
    else if s == [] then []
    else PrependAll(s[0], Combinations(s[1..], r - 1)) + Combinations(s[1..], r)
  }

  /** Every sequence in `cs` is an r-item subsequence of `s`. */
  ghost predicate SizedSubsequences(cs: seq<seq<int>>, s: seq<int>, r: nat)
  {
    forall c :: c in cs ==> |c| == r && IsSubsequence(c, s)
  }

  /** Every one of `itertools.combinations(s, r)` is an r-item subsequence of `s`. */
  lemma {:induction false} CombinationsSound(s: seq<int>, r: nat)
    ensures SizedSubsequences(Combinations(s, r), s, r)
    decreases |s|
  {
    if r > 0 && s != [] {
      var shorter := Combinations(s[1..], r - 1);
      var without := Combinations(s[1..], r);
      assert SizedSubsequences(PrependAll(s[0], shorter), s, r) by {
        CombinationsSound(s[1..], r - 1);
        PrependAllSound(s, shorter, r - 1);
      }
      assert SizedSubsequences(without, s, r) by {
        CombinationsSound(s[1..], r);
        TailSound(s, without, r);
      }
      ConcatSound(PrependAll(s[0], shorter), without, s, r);
    }
  }

  /** Putting `s[0]` in front of r-item subsequences of `s[1..]` gives (r+1)-item subsequences of `s`. */
  lemma PrependAllSound(s: seq<int>, cs: seq<seq<int>>, r: nat)
    requires s != [] && SizedSubsequences(cs, s[1..], r)
    ensures SizedSubsequences(PrependAll(s[0], cs), s, r + 1)
  {
    forall c | c in PrependAll(s[0], cs)
      ensures |c| == r + 1 && IsSubsequence(c, s)
    {
      var i :| 0 <= i < |cs| && PrependAll(s[0], cs)[i] == c;
      assert c[0] == s[0] && c[1..] == cs[i];
    }
  }

  /** A subsequence of `s[1..]` is a subsequence of `s`. */
  lemma TailSound(s: seq<int>, cs: seq<seq<int>>, r: nat)
    requires s != [] && SizedSubsequences(cs, s[1..], r)
    ensures SizedSubsequences(cs, s, r)
  {
  }

  lemma ConcatSound(a: seq<seq<int>>, b: seq<seq<int>>, s: seq<int>, r: nat)
    requires SizedSubsequences(a, s, r) && SizedSubsequences(b, s, r)
    ensures SizedSubsequences(a + b, s, r)
  {
  }

  /** Every r-item subsequence of `s` is one of `itertools.combinations(s, r)`. */
  lemma {:induction false} CombinationsComplete(s: seq<int>, t: seq<int>)
    requires IsSubsequence(t, s)
    ensures t in Combinations(s, |t|)
    decreases |s|
  {
    if t != [] {
      var with := PrependAll(s[0], Combinations(s[1..], |t| - 1));
      var without := Combinations(s[1..], |t|);
      if t[0] == s[0] && IsSubsequence(t[1..], s[1..]) {
        CombinationsComplete(s[1..], t[1..]);
        PrependAllMember(s[0], Combinations(s[1..], |t| - 1), t[1..]);
        assert [s[0]] + t[1..] == t;
      } else {
        CombinationsComplete(s[1..], t);
      }
      assert Combinations(s, |t|) == with + without;
    }
  }

  lemma PrependAllMember(x: int, cs: seq<seq<int>>, u: seq<int>)
    requires u in cs
    ensures [x] + u in PrependAll(x, cs)
  {
    var j :| 0 <= j < |cs| && cs[j] == u;
    assert PrependAll(x, cs)[j] == [x] + u;
  }

  /**
   * The candidates the exhaustive solver visits while its size counter runs
   * from 1 to `r`: first all 1-item combinations, then all 2-item ones, and so on.
   */
  function Enumeration(s: seq<int>, r: nat): seq<seq<int>>
  {
    if r == 0 then [] else Enumeration(s, r - 1) + Combinations(s, r)
  }

  /** Every visited candidate is a non-empty subsequence of at most `r` items. */
  lemma {:induction false} EnumerationSound(s: seq<int>, r: nat)
    ensures forall c :: c in Enumeration(s, r) ==> 1 <= |c| <= r && IsSubsequence(c, s)
  {
    if r > 0 {
      EnumerationSound(s, r - 1);
      CombinationsSound(s, r);
    }
  }

  /** Every non-empty subsequence of at most `r` items is visited. */
  lemma {:induction false} EnumerationComplete(s: seq<int>, r: nat, t: seq<int>)
    requires IsSubsequence(t, s) && 1 <= |t| <= r
    ensures t in Enumeration(s, r)
  {
    if |t| == r {
      CombinationsComplete(s, t);
    } else {
      EnumerationComplete(s, r - 1, t);
    }
  }

  /** Every non-empty subsequence of `s` is among the candidates of all sizes. */
  lemma AllCandidates(s: seq<int>, t: seq<int>)
    requires IsSubsequence(t, s) && t != []
    ensures t in Enumeration(s, |s|)
  {
    SubsequenceMultiset(t, s);
    EnumerationComplete(s, |s|, t);
  }

  /** `cands` lists non-empty selections of `s`, and every non-empty selection of `s` is among them. */
  ghost predicate ListsAllSelections(cands: seq<seq<int>>, s: seq<int>)
  {
    && (forall c :: c in cands ==> c != [] && IsSubsequence(c, s))
    && (forall t :: IsSubsequence(t, s) && t != [] ==> t in cands)
  }

  /** The candidates of all sizes are exactly the non-empty selections of `s`. */
  lemma EnumerationListsAll(s: seq<int>)
    ensures ListsAllSelections(Enumeration(s, |s|), s)
  {
    EnumerationSound(s, |s|);
    forall t | IsSubsequence(t, s) && t != []
      ensures t in Enumeration(s, |s|)
    {
      AllCandidates(s, t);
    }
  }
}
