/**
 * Concrete instances of the boat-loading problem worked through the model.
 *
 * Several lemmas take the weights as a parameter fixed by
 * `requires weights == [...]` instead of writing the literal in the call:
 * literal arguments let the verifier unfold the recursive sorting and
 * combination functions eagerly, and the parameter keeps each step small.
 */
module Scenarios {
  import opened Seqs
  import opened Itertools
  import opened Sorting
  import opened Selection
  import opened Boat

  lemma SingleItem(x: int)
    ensures Combinations([x], 1) == [[x]]
  {
    assert [x][1..] == [];
    assert Combinations([x], 1) == PrependAll(x, [[]]) + [];
    assert [x] + [] == [x];
  }

  lemma TieTailSingles()
    ensures Combinations([10, 20], 1) == [[10], [20]]
  {
    assert [10, 20][1..] == [20];
    assert [10] + [] == [10];
    SingleItem(20);
    assert Combinations([10, 20], 1) == PrependAll(10, [[]]) + [[20]];
  }

  lemma TieSingles()
    ensures Combinations([10, 10, 20], 1) == [[10], [10], [20]]
  {
    assert [10, 10, 20][1..] == [10, 20];
    assert [10] + [] == [10];
    TieTailSingles();
    assert Combinations([10, 10, 20], 1) == PrependAll(10, [[]]) + Combinations([10, 20], 1);
  }

  lemma TieTailPairs()
    ensures Combinations([10, 20], 2) == [[10, 20]]
  {
    assert [10, 20][1..] == [20] && [20][1..] == [];
    assert [10] + [20] == [10, 20];
    SingleItem(20);
    assert Combinations([20], 2) == PrependAll(20, Combinations([], 1)) + Combinations([], 2);
    assert Combinations([10, 20], 2) == PrependAll(10, [[20]]) + [];
  }

  lemma TiePairs()
    ensures Combinations([10, 10, 20], 2) == [[10, 10], [10, 20], [10, 20]]
  {
    assert [10, 10, 20][1..] == [10, 20];
    assert [10] + [20] == [10, 20] && [10] + [10] == [10, 10];
    TieTailPairs();
    TieTailSingles();
    assert Combinations([10, 10, 20], 2) == PrependAll(10, [[10], [20]]) + [[10, 20]];
  }

  lemma TieTriple()
    ensures Combinations([10, 10, 20], 3) == [[10, 10, 20]]
  {
    assert [10, 10, 20][1..] == [10, 20] && [10, 20][1..] == [20] && [20][1..] == [];
    assert Combinations([20], 3) == PrependAll(20, Combinations([], 2)) + Combinations([], 3);
    assert Combinations([20], 2) == PrependAll(20, Combinations([], 1)) + Combinations([], 2);
    assert Combinations([10, 20], 3) == PrependAll(10, []) + [];
    TieTailPairs();
    assert [10] + [10, 20] == [10, 10, 20];
    assert Combinations([10, 10, 20], 3) == PrependAll(10, [[10, 20]]) + [];
  }

  lemma TieCandidates()
    ensures Enumeration([10, 10, 20], 3) == [[10], [10], [20], [10, 10], [10, 20], [10, 20], [10, 10, 20]]
  {
    TieSingles();
    TiePairs();
    TieTriple();
    var w := [10, 10, 20];
    assert Enumeration(w, 1) == [] + Combinations(w, 1);
    assert Enumeration(w, 2) == [[10], [10], [20]] + [[10, 10], [10, 20], [10, 20]];
  }

  lemma TieScanSingles(singles: seq<seq<int>>)
    requires singles == [[10], [10], [20]]
    ensures ScanFrom(([], 0), singles, 20) == ([20], 20)
  {
    assert Sum([10]) == 10 && Sum([20]) == 20;
    var tail1 := singles[1..];
    var tail2 := tail1[1..];
    assert tail1 == [[10], [20]] && tail2 == [[20]] && |tail2[1..]| == 0;
    assert ScanFrom(([20], 20), tail2[1..], 20) == ([20], 20);
    assert ScanFrom(([10], 10), tail2, 20) == ([20], 20);
    assert ScanFrom(([10], 10), tail1, 20) == ([20], 20);
    assert ScanFrom(([], 0), singles, 20) == ScanFrom(([10], 10), tail1, 20);
  }

  lemma TieScanLarger(larger: seq<seq<int>>)
    requires larger == [[10, 10], [10, 20], [10, 20], [10, 10, 20]]
    ensures ScanFrom(([20], 20), larger, 20) == ([20], 20)
  {
    forall j | 0 <= j < |larger|
      ensures !Improves(Sum(larger[j]), 20, 20)
    {
      assert Sum(larger[j]) >= 20 by {
        SumNonNegative(larger[j][1..]);
      }
    }
    ScanFromNoImprovement(([20], 20), larger, 20);
  }

  lemma TieScan()
    ensures Scan([[10], [10], [20], [10, 10], [10, 20], [10, 20], [10, 10, 20]], 20) == ([20], 20)
  {
    var singles: seq<seq<int>> := [[10], [10], [20]];
    var larger: seq<seq<int>> := [[10, 10], [10, 20], [10, 20], [10, 10, 20]];
    TieScanSingles(singles);
    TieScanLarger(larger);
    ScanFromAppend(([], 0), singles, larger, 20);
    assert singles + larger == [[10], [10], [20], [10, 10], [10, 20], [10, 20], [10, 10, 20]];
  }


  /**
   * Ties go to the candidate found first: for weights 10, 10, 20 and capacity
   * 20, the single item 20 is met before the pair 10, 10 of the same sum.
   */
  lemma TieScenario(comb: seq<int>, total: int)
    requires FirstBest(Enumeration([10, 10, 20], 3), 20, comb, total)
    ensures comb == [20] && total == 20
  {
    var cands := Enumeration([10, 10, 20], 3);
    TieCandidates();
    TieScan();
    ScanIsFirstBest(cands, 20);
    FirstBestUnique(cands, 20, comb, total, Scan(cands, 20).0, Scan(cands, 20).1);
  }

  /** Weights 10, 20, 30 and capacity 40: the exhaustive solver fills the boat exactly. */
  lemma ExactFillScenario(comb: seq<int>, total: int)
    requires FirstBest(Enumeration([10, 20, 30], 3), 40, comb, total)
    ensures total == 40
  {
    BruteForceOptimal([10, 20, 30], 40, comb, total);
    assert [10, 20, 30][1..] == [20, 30] && [20, 30][1..] == [30] && [30][1..] == [];
    assert [10, 30][1..] == [30];
    assert IsSubsequence([30], [30]);
    assert IsSubsequence([30], [20, 30]);
    assert IsSubsequence([10, 30], [10, 20, 30]);
    assert Sum([10, 30]) == 40;
  }

  lemma DescendingExample(weights: seq<int>)
    requires weights == [10, 20, 30]
    ensures SortDescending(weights) == [30, 20, 10]
  {
    assert IsDescending([30, 20, 10]);
    assert multiset(weights) == multiset([30, 20, 10]);
    DescendingUnique(SortDescending(weights), [30, 20, 10]);
  }

  lemma GreedyExample()
    ensures GreedyFill([30, 20, 10], 40, 0) == [30, 10]
  {
    var sorted := [30, 20, 10];
    assert sorted[1..] == [20, 10] && sorted[1..][1..] == [10] && [10][1..] == [];
    assert GreedyFill(sorted, 40, 0) == [30] + ([10] + []);
  }

  lemma AscendingExample()
    ensures SortAscending([30, 10]) == [10, 30]
  {
    assert [30, 10][1..] == [10] && [10][1..] == [];
    assert SortAscending([10]) == [10];
    assert InsertAscending(30, [10]) == [10] + [30];
  }

  /** Weights 10, 20, 30 and capacity 40: greedy takes 30, skips 20, takes 10. */
  lemma GreedyScenario(weights: seq<int>)
    requires weights == [10, 20, 30]
    ensures SortAscending(GreedyFill(SortDescending(weights), 40, 0)) == [10, 30]
  {
    DescendingExample(weights);
    GreedyExample();
    AscendingExample();
  }

  lemma DescendingMatchExample(weights: seq<int>)
    requires weights == [50, 50, 1]
    ensures SortDescending(weights) == [50, 50, 1]
  {
    DescendingCons(1, []);
    DescendingCons(50, [1]);
    DescendingCons(50, [50, 1]);
    assert [50] + [1] == [50, 1] && [50] + [50, 1] == weights;
    DescendingIdentity(weights);
  }

  lemma GreedyMatchExample()
    ensures GreedyFill([50, 50, 1], 51, 0) == [50, 1]
  {
    var sorted := [50, 50, 1];
    assert sorted[1..] == [50, 1] && sorted[1..][1..] == [1] && [1][1..] == [];
    assert GreedyFill(sorted, 51, 0) == [50] + ([1] + []);
  }

  lemma AscendingMatchExample()
    ensures SortAscending([50, 1]) == [1, 50]
  {
    assert [50, 1][1..] == [1] && [1][1..] == [];
    assert SortAscending([1]) == [1];
    assert InsertAscending(50, [1]) == [1] + [50];
  }

  /** Weights 50, 50, 1 and capacity 51: greedy takes one 50, skips the other, takes 1. */
  lemma GreedyMatchScenario(weights: seq<int>)
    requires weights == [50, 50, 1]
    ensures SortAscending(GreedyFill(SortDescending(weights), 51, 0)) == [1, 50]
  {
    DescendingMatchExample(weights);
    GreedyMatchExample();
    AscendingMatchExample();
  }

  lemma ShortfallSorted(weights: seq<int>)
    requires weights == [30, 20, 20]
    ensures SortDescending(weights) == [30, 20, 20]
  {
    DescendingCons(20, []);
    DescendingCons(20, [20]);
    DescendingCons(30, [20, 20]);
    assert [20] + [20] == [20, 20] && [30] + [20, 20] == weights;
    DescendingIdentity(weights);
  }

  lemma ShortfallFill()
    ensures GreedyFill([30, 20, 20], 40, 0) == [30]
  {
    assert [30, 20, 20][1..] == [20, 20] && [20, 20][1..] == [20] && [20][1..] == [];
    assert GreedyFill([30, 20, 20], 40, 0) == [30] + [];
  }

  lemma ShortfallGreedy(weights: seq<int>)
    requires weights == [30, 20, 20]
    ensures Sum(SortAscending(GreedyFill(SortDescending(weights), 40, 0))) == 30
  {
    ShortfallSorted(weights);
    ShortfallFill();
    assert SortAscending([30]) == [30] by {
      assert [30][1..] == [];
    }
  }

  lemma ShortfallExact(weights: seq<int>, comb: seq<int>, total: int)
    requires weights == [30, 20, 20]
    requires FirstBest(Enumeration(weights, 3), 40, comb, total)
    ensures total == 40
  {
    BruteForceOptimal(weights, 40, comb, total);
    assert weights[1..] == [20, 20] && weights[1..][1..] == [20] && [20][1..] == [];
    assert [20, 20][1..] == [20];
    assert IsSubsequence([20], [20]);
    assert IsSubsequence([20, 20], [20, 20]);
    assert IsSubsequence([20, 20], weights);
    assert Sum([20, 20]) == 40;
  }

  /**
   * Greedy is not optimal: for weights 30, 20, 20 and capacity 40 it takes 30
   * and then nothing fits, while the two items of 20 fill the boat.
   */
  lemma GreedyFallsShort(weights: seq<int>, comb: seq<int>, total: int)
    requires weights == [30, 20, 20]
    requires FirstBest(Enumeration(weights, 3), 40, comb, total)
    ensures Sum(SortAscending(GreedyFill(SortDescending(weights), 40, 0))) == 30 < total == 40
  {
    ShortfallGreedy(weights);
    ShortfallExact(weights, comb, total);
  }

  /** With positive weights and capacity 0 the exhaustive solver returns `((), 0)`. */
  lemma BruteForceZeroCapacity(weights: seq<int>, comb: seq<int>, total: int)
    requires forall i :: 0 <= i < |weights| ==> weights[i] > 0
    requires FirstBest(Enumeration(weights, |weights|), 0, comb, total)
    ensures comb == [] && total == 0
  {
    FirstBestOptimal(Enumeration(weights, |weights|), 0, comb, total);
  }

  /** With positive weights and nothing left of the capacity, greedy takes nothing. */
  lemma {:induction false} GreedyZeroCapacity(items: seq<int>, capacity: int)
    requires forall i :: 0 <= i < |items| ==> items[i] > 0
    ensures GreedyFill(items, capacity, capacity) == []
  {
    if items != [] {
      GreedyZeroCapacity(items[1..], capacity);
    }
  }
}
