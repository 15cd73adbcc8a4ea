/**
 * The three solvers of algoritmy.py for the boat-loading problem: choose items
 * of the given weights whose total is as large as possible without exceeding
 * the boat's capacity. Each solver returns the pair of the chosen weights and
 * their total.
 */
module Boat {
  import opened Seqs
  import opened Itertools
  import opened Sorting
  import opened Selection

  // ---------------------------------------------------------------------------
  // boat_brute_force
  // ---------------------------------------------------------------------------

  /**
   * `boat_brute_force`: tries every non-empty combination, by size from 1 to n
   * and within one size in `itertools.combinations` order, and keeps the
   * first one whose sum is the largest that fits.
   */
  method BoatBruteForce(weights: seq<int>, capacity: int) returns (bestCombination: seq<int>, bestSum: int)
    ensures FirstBest(Enumeration(weights, |weights|), capacity, bestCombination, bestSum)
    ensures bestSum == Sum(bestCombination)
    ensures IsSubsequence(bestCombination, weights)
    ensures bestCombination == [] || bestSum <= capacity
    ensures capacity >= 0 ==> bestSum <= capacity
    ensures forall t :: IsSubsequence(t, weights) && Sum(t) <= capacity ==> Sum(t) <= bestSum
  {
    bestSum := 0;
    bestCombination := [];
    var n := |weights|;
    for r := 1 to n + 1
      invariant (bestCombination, bestSum) == Scan(Enumeration(weights, r - 1), capacity)
    {
      var combinations := Combinations(weights, r);
      ScanFromAppend(([], 0), Enumeration(weights, r - 1), combinations, capacity);
      bestCombination, bestSum := KeepBest(combinations, capacity, bestCombination, bestSum);
    }
    ScanIsFirstBest(Enumeration(weights, n), capacity);
    BruteForceOptimal(weights, capacity, bestCombination, bestSum);
  }

  /**
   * The inner loop of `boat_brute_force`: walks the combinations of one size
   * and replaces the best pair whenever the guard accepts a combination.
   */
  method KeepBest(combinations: seq<seq<int>>, capacity: int, comb0: seq<int>, total0: int)
    returns (bestCombination: seq<int>, bestSum: int)
    ensures (bestCombination, bestSum) == ScanFrom((comb0, total0), combinations, capacity)
  {
    bestCombination, bestSum := comb0, total0;
    for j := 0 to |combinations|
      invariant ScanFrom((bestCombination, bestSum), combinations[j..], capacity) == ScanFrom((comb0, total0), combinations, capacity)
    {
      var subset := combinations[j];
      var s := Sum(subset);
      assert combinations[j..][1..] == combinations[j + 1..];
      if s <= capacity && s > bestSum {
        bestSum := s;
        bestCombination := subset;
      }
    }
    assert combinations[|combinations|..] == [];
  }

  /**
   * What the exhaustive scan returns is an order-preserving selection of the
   * items, sums to its total, fits, and no selection that fits weighs more.
   */
  lemma BruteForceOptimal(weights: seq<int>, capacity: int, comb: seq<int>, total: int)
    requires FirstBest(Enumeration(weights, |weights|), capacity, comb, total)
    ensures total == Sum(comb) && total >= 0
    ensures IsSubsequence(comb, weights)
    ensures comb == [] || total <= capacity
    ensures forall t :: IsSubsequence(t, weights) && Sum(t) <= capacity ==> Sum(t) <= total
  {
    EnumerationListsAll(weights);
    ExhaustiveOptimal(Enumeration(weights, |weights|), weights, capacity, comb, total);
  }

  /** The same, for any candidate list that holds every non-empty selection of the items. */
  lemma ExhaustiveOptimal(cands: seq<seq<int>>, weights: seq<int>, capacity: int, comb: seq<int>, total: int)
    requires ListsAllSelections(cands, weights)
    requires FirstBest(cands, capacity, comb, total)
    ensures total == Sum(comb) && total >= 0
    ensures IsSubsequence(comb, weights)
    ensures comb == [] || total <= capacity
    ensures forall t :: IsSubsequence(t, weights) && Sum(t) <= capacity ==> Sum(t) <= total
  {
    FirstBestOptimal(cands, capacity, comb, total);
    forall t | IsSubsequence(t, weights) && Sum(t) <= capacity
      ensures Sum(t) <= total
    {
      if t != [] {
        var j :| 0 <= j < |cands| && cands[j] == t;
      }
    }
  }

  /**
   * The exhaustive solver returns `((), 0)` exactly when no non-empty
   * selection of the items has a positive sum that fits.
   */
  lemma BruteForceEmpty(weights: seq<int>, capacity: int, comb: seq<int>, total: int)
    requires FirstBest(Enumeration(weights, |weights|), capacity, comb, total)
    ensures (comb == [] && total == 0) <==>
            forall t :: IsSubsequence(t, weights) && t != [] ==> !(0 < Sum(t) <= capacity)
  {
    EnumerationListsAll(weights);
    ExhaustiveEmpty(Enumeration(weights, |weights|), weights, capacity, comb, total);
  }

  /** The same, for any candidate list that holds exactly the non-empty selections of the items. */
  lemma ExhaustiveEmpty(cands: seq<seq<int>>, weights: seq<int>, capacity: int, comb: seq<int>, total: int)
    requires ListsAllSelections(cands, weights)
    requires FirstBest(cands, capacity, comb, total)
    ensures (comb == [] && total == 0) <==>
            forall t :: IsSubsequence(t, weights) && t != [] ==> !(0 < Sum(t) <= capacity)
  {
    FirstBestEmpty(cands, capacity, comb, total);
    if comb == [] && total == 0 {
      forall t | IsSubsequence(t, weights) && t != []
        ensures !(0 < Sum(t) <= capacity)
      {
        var j :| 0 <= j < |cands| && cands[j] == t;
      }
    } else {
      var j :| 0 <= j < |cands| && 0 < Sum(cands[j]) <= capacity;
      assert cands[j] in cands;
    }
  }

  // ---------------------------------------------------------------------------
  // boat_monte_carlo
  // ---------------------------------------------------------------------------

  /** The items whose coin came up `true`, in their input order. */
  function Pick(weights: seq<int>, coins: seq<bool>): seq<int>
    requires |coins| == |weights|
  {
    if weights == [] then []
    else (if coins[0] then [weights[0]] else []) + Pick(weights[1..], coins[1..])
  }

  /** A round's candidate is an order-preserving selection of the items. */
  lemma {:induction false} PickSound(weights: seq<int>, coins: seq<bool>)
    requires |coins| == |weights|
    ensures IsSubsequence(Pick(weights, coins), weights)
    decreases |weights|
  {
    if weights != [] {
      var rest := Pick(weights[1..], coins[1..]);
      PickSound(weights[1..], coins[1..]);
      if coins[0] {
        assert ([weights[0]] + rest)[1..] == rest;
      } else {
        assert [] + rest == rest;
      }
    }
  }

  /** Picking from position `j` on: the coin at `j` decides about the item at `j`, then the rest. */
  lemma PickStep(weights: seq<int>, coins: seq<bool>, j: nat)
    requires |coins| == |weights| && j < |weights|
    ensures Pick(weights[j..], coins[j..]) ==
            (if coins[j] then [weights[j]] else []) + Pick(weights[j + 1..], coins[j + 1..])
  {
    assert weights[j..][1..] == weights[j + 1..] && coins[j..][1..] == coins[j + 1..];
  }

  /** Every order-preserving selection of the items is what some coin row picks. */
  lemma {:induction false} PickComplete(weights: seq<int>, t: seq<int>) returns (coins: seq<bool>)
    requires IsSubsequence(t, weights)
    ensures |coins| == |weights| && Pick(weights, coins) == t
    decreases |weights|
  {
    if weights == [] {
      coins := [];
    } else if t != [] && t[0] == weights[0] && IsSubsequence(t[1..], weights[1..]) {
      var rest := PickComplete(weights[1..], t[1..]);
      coins := [true] + rest;
      assert coins[1..] == rest;
      assert t == [t[0]] + t[1..];
    } else {
      assert IsSubsequence(t, weights[1..]);
      var rest := PickComplete(weights[1..], t);
      coins := [false] + rest;
      assert coins[1..] == rest;
    }
  }

  /** One coin row per item for every round: the well-formed injected randomness. */
  predicate CoinsFit(weights: seq<int>, coins: seq<seq<bool>>)
  {
    forall i :: 0 <= i < |coins| ==> |coins[i]| == |weights|
  }

  /** The candidate of each round, in round order. */
  function Samples(weights: seq<int>, coins: seq<seq<bool>>): (cands: seq<seq<int>>)
    requires CoinsFit(weights, coins)
    ensures |cands| == |coins|
    ensures forall i :: 0 <= i < |coins| ==> cands[i] == Pick(weights, coins[i])
  {
    seq(|coins|, i requires 0 <= i < |coins| => Pick(weights, coins[i]))
  }

  /**
   * `boat_monte_carlo`: `iterations` rounds; in round `i` the item at position
   * `j` joins the candidate when `coins[i][j]` is true (one fair coin per item
   * and round). Keeps the first candidate whose sum is the largest that fits.
   */
  method BoatMonteCarlo(weights: seq<int>, capacity: int, iterations: nat, coins: seq<seq<bool>>)
    returns (bestCombination: seq<int>, bestSum: int)
    requires |coins| == iterations && CoinsFit(weights, coins)
    ensures FirstBest(Samples(weights, coins), capacity, bestCombination, bestSum)
    ensures bestSum == Sum(bestCombination)
    ensures IsSubsequence(bestCombination, weights)
    ensures bestCombination == [] || bestSum <= capacity
    ensures capacity >= 0 ==> bestSum <= capacity
    ensures iterations == 0 ==> bestCombination == [] && bestSum == 0
  {
    bestSum := 0;
    bestCombination := [];
    ghost var cands := Samples(weights, coins);
    for round := 0 to iterations
      invariant ScanFrom((bestCombination, bestSum), cands[round..], capacity) == Scan(cands, capacity)
    {
      var subset := SampleRound(weights, coins[round]);
      assert subset == cands[round];
      var s := Sum(subset);
      assert cands[round..][1..] == cands[round + 1..];
      if s <= capacity && s > bestSum {
        bestSum := s;
        bestCombination := subset;
      }
    }
    assert cands[iterations..] == [];
    ScanIsFirstBest(cands, capacity);
    MonteCarloFeasible(weights, capacity, coins, bestCombination, bestSum);
  }

  /**
   * One round of `boat_monte_carlo`: walks the items in order and appends
   * each one whose coin came up `true`.
   */
  method SampleRound(weights: seq<int>, flips: seq<bool>) returns (subset: seq<int>)
    requires |flips| == |weights|
    ensures subset == Pick(weights, flips)
  {
    subset := [];
    for j := 0 to |weights|
      invariant subset + Pick(weights[j..], flips[j..]) == Pick(weights, flips)
    {
      PickStep(weights, flips, j);
      if flips[j] {
        subset := subset + [weights[j]];
      }
    }
  }

  /**
   * What the sampling scan returns is an order-preserving selection of the
   * items that sums to its total and fits; with no rounds it is `((), 0)`.
   */
  lemma MonteCarloFeasible(weights: seq<int>, capacity: int, coins: seq<seq<bool>>, comb: seq<int>, total: int)
    requires CoinsFit(weights, coins)
    requires FirstBest(Samples(weights, coins), capacity, comb, total)
    ensures total == Sum(comb) && total >= 0
    ensures IsSubsequence(comb, weights)
    ensures comb == [] || total <= capacity
    ensures coins == [] ==> comb == [] && total == 0
  {
    var cands := Samples(weights, coins);
    FirstBestOptimal(cands, capacity, comb, total);
    if comb != [] {
      var k :| 0 <= k < |cands| && cands[k] == comb;
      PickSound(weights, coins[k]);
    }
  }

  // ---------------------------------------------------------------------------
  // boat_heuristic
  // ---------------------------------------------------------------------------

  /**
   * The items the greedy pass takes from `items`, in order, when its running
   * total starts at `current`: an item is taken when it still fits.
   */
  function GreedyFill(items: seq<int>, capacity: int, current: int): (taken: seq<int>)
    ensures taken == [] || current + Sum(taken) <= capacity
  {
    if items == [] then []
    else if current + items[0] <= capacity then
      [items[0]] + GreedyFill(items[1..], capacity, current + items[0])
    else
      GreedyFill(items[1..], capacity, current)
  }

  /** The greedy pass keeps the taken items in their order in `items`. */
  lemma {:induction false} GreedyFillSubsequence(items: seq<int>, capacity: int, current: int)
    ensures IsSubsequence(GreedyFill(items, capacity, current), items)
    decreases |items|
  {
    if items != [] {
      if current + items[0] <= capacity {
        var rest := GreedyFill(items[1..], capacity, current + items[0]);
        GreedyFillSubsequence(items[1..], capacity, current + items[0]);
        assert ([items[0]] + rest)[1..] == rest;
      } else {
        GreedyFillSubsequence(items[1..], capacity, current);
      }
    }
  }

  /** Appending an item to the input appends it to the output exactly when it fits after the rest. */
  lemma {:induction false} GreedySnoc(items: seq<int>, x: int, capacity: int, current: int)
    ensures var taken := GreedyFill(items, capacity, current);
            GreedyFill(items + [x], capacity, current) ==
            taken + if current + Sum(taken) + x <= capacity then [x] else []
    decreases |items|
  {
    if items == [] {
      assert items + [x] == [x];
      assert [x][1..] == [];
    } else {
      var y := items[0];
      assert (items + [x])[0] == y && (items + [x])[1..] == items[1..] + [x];
      if current + y <= capacity {
        var rest := GreedyFill(items[1..], capacity, current + y);
        GreedySnoc(items[1..], x, capacity, current + y);
        var last := if current + y + Sum(rest) + x <= capacity then [x] else [];
        assert ([y] + rest)[1..] == rest;
        assert [y] + (rest + last) == ([y] + rest) + last;
      } else {
        GreedySnoc(items[1..], x, capacity, current);
      }
    }
  }

  /**
   * Greedy maximality: with non-negative weights, every item the pass skipped
   * would overflow the final total.
   */
  lemma {:induction false} GreedyMaximal(items: seq<int>, capacity: int, current: int)
    requires forall i :: 0 <= i < |items| ==> items[i] >= 0
    ensures var taken := GreedyFill(items, capacity, current);
            SkippedOverflow(items, taken, current + Sum(taken), capacity)
    decreases |items|
  {
    if items != [] {
      var x0 := items[0];
      var tail := items[1..];
      assert items == [x0] + tail;
      if current + x0 <= capacity {
        GreedyMaximal(tail, capacity, current + x0);
        GreedyTakeStep(x0, tail, capacity, current);
      } else {
        GreedyMaximal(tail, capacity, current);
        GreedySkipStep(x0, tail, capacity, current);
      }
    }
  }

  /** The step of `GreedyMaximal` where the first item fits and is taken. */
  lemma GreedyTakeStep(x0: int, tail: seq<int>, capacity: int, current: int)
    requires current + x0 <= capacity
    requires var rest := GreedyFill(tail, capacity, current + x0);
             SkippedOverflow(tail, rest, current + x0 + Sum(rest), capacity)
    ensures var taken := GreedyFill([x0] + tail, capacity, current);
            SkippedOverflow([x0] + tail, taken, current + Sum(taken), capacity)
  {
    var items := [x0] + tail;
    assert items[0] == x0 && items[1..] == tail;
    var rest := GreedyFill(tail, capacity, current + x0);
    var taken := [x0] + rest;
    assert GreedyFill(items, capacity, current) == taken;
    assert taken[1..] == rest;
    MultisetConsCancel(x0, multiset(tail), multiset(rest));
  }

  /** The step of `GreedyMaximal` where the first item would overflow and is skipped. */
  lemma GreedySkipStep(x0: int, tail: seq<int>, capacity: int, current: int)
    requires current + x0 > capacity
    requires forall i :: 0 <= i < |tail| ==> tail[i] >= 0
    requires var taken := GreedyFill(tail, capacity, current);
             SkippedOverflow(tail, taken, current + Sum(taken), capacity)
    ensures var taken := GreedyFill([x0] + tail, capacity, current);
            SkippedOverflow([x0] + tail, taken, current + Sum(taken), capacity)
  {
    var items := [x0] + tail;
    assert items[0] == x0 && items[1..] == tail;
    var taken := GreedyFill(tail, capacity, current);
    assert GreedyFill(items, capacity, current) == taken;
    GreedyFillSubsequence(tail, capacity, current);
    SubsequenceMultiset(taken, tail);
    SumNonNegative(taken) by {
      forall k | 0 <= k < |taken| ensures taken[k] >= 0 {
        assert taken[k] in multiset(tail);
      }
    }
    forall x | x in multiset(items) - multiset(taken)
      ensures current + Sum(taken) + x > capacity
    {
      if x != x0 {
        assert (multiset(items) - multiset(taken))[x] == (multiset(tail) - multiset(taken))[x];
      }
    }
  }

  /** Every item of `items` left out of `taken` would push `total` over the capacity. */
  predicate SkippedOverflow(items: seq<int>, taken: seq<int>, total: int, capacity: int)
  {
    forall x :: x in multiset(items) - multiset(taken) ==> total + x > capacity
  }

  /** Taking one more copy of `x` out of both sides does not change a multiset difference. */
  lemma MultisetConsCancel(x: int, a: multiset<int>, b: multiset<int>)
    ensures (multiset{x} + a) - (multiset{x} + b) == a - b
  {
  }

  /**
   * `boat_heuristic`: sorts the weights in descending order, takes each item
   * whose addition keeps the running total within the capacity, and returns
   * the taken items in ascending order with their total.
   */
  method BoatHeuristic(weights: seq<int>, capacity: int) returns (combination: seq<int>, currentSum: int)
    ensures combination == SortAscending(GreedyFill(SortDescending(weights), capacity, 0))
    ensures currentSum == Sum(combination)
    ensures IsAscending(combination)
    ensures multiset(combination) <= multiset(weights)
    ensures combination == [] || currentSum <= capacity
    ensures capacity >= 0 ==> currentSum <= capacity
    ensures (forall i :: 0 <= i < |weights| ==> weights[i] >= 0) ==>
              forall x :: x in multiset(weights) - multiset(combination) ==> currentSum + x > capacity
  {
    var sortedWeights := SortDescending(weights);
    var chosen;
    chosen, currentSum := GreedyPass(sortedWeights, capacity);
    combination := SortAscending(chosen);
    SumPermutation(combination, chosen);
    HeuristicFacts(weights, capacity);
  }

  /**
   * The loop of `boat_heuristic` over the sorted weights: an item is added to
   * the selection when the running total plus the item still fits.
   */
  method GreedyPass(items: seq<int>, capacity: int) returns (chosen: seq<int>, currentSum: int)
    ensures chosen == GreedyFill(items, capacity, 0)
    ensures currentSum == Sum(chosen)
  {
    currentSum := 0;
    chosen := [];
    for i := 0 to |items|
      invariant chosen == GreedyFill(items[..i], capacity, 0)
      invariant currentSum == Sum(chosen)
    {
      var item := items[i];
      assert items[..i + 1] == items[..i] + [item];
      GreedySnoc(items[..i], item, capacity, 0);
      if currentSum + item <= capacity {
        SumAppend(chosen, [item]);
        chosen := chosen + [item];
        currentSum := currentSum + item;
      } else {
        assert chosen + [] == chosen;
      }
    }
    assert items[..|items|] == items;
  }

  /** The greedy result is drawn from the items, fits, and leaves out only items that would overflow. */
  lemma HeuristicFacts(weights: seq<int>, capacity: int)
    ensures var taken := GreedyFill(SortDescending(weights), capacity, 0);
            var combination := SortAscending(taken);
            && Sum(combination) == Sum(taken)
            && multiset(combination) <= multiset(weights)
            && (combination == [] || Sum(combination) <= capacity)
            && ((forall i :: 0 <= i < |weights| ==> weights[i] >= 0) ==>
                  forall x :: x in multiset(weights) - multiset(combination) ==> Sum(combination) + x > capacity)
  {
    var sortedWeights := SortDescending(weights);
    var taken := GreedyFill(sortedWeights, capacity, 0);
    var combination := SortAscending(taken);
    SumPermutation(combination, taken);
    GreedyFillSubsequence(sortedWeights, capacity, 0);
    SubsequenceMultiset(taken, sortedWeights);
    assert |combination| == |multiset(combination)| == |taken|;
    if forall i :: 0 <= i < |weights| ==> weights[i] >= 0 {
      forall i | 0 <= i < |sortedWeights| ensures sortedWeights[i] >= 0 {
        assert sortedWeights[i] in multiset(weights);
      }
      GreedyMaximal(sortedWeights, capacity, 0);
    }
  }

  // ---------------------------------------------------------------------------
  // The three solvers side by side
  // ---------------------------------------------------------------------------

  /** No run of the randomised solver, whatever its coins, beats the exhaustive one. */
  lemma ExactDominatesMonteCarlo(weights: seq<int>, capacity: int, coins: seq<seq<bool>>,
                                 exact: seq<int>, exactSum: int, sampled: seq<int>, sampledSum: int)
    requires CoinsFit(weights, coins)
    requires FirstBest(Enumeration(weights, |weights|), capacity, exact, exactSum)
    requires FirstBest(Samples(weights, coins), capacity, sampled, sampledSum)
    ensures sampledSum <= exactSum
  {
    BruteForceOptimal(weights, capacity, exact, exactSum);
    MonteCarloFeasible(weights, capacity, coins, sampled, sampledSum);
  }

  /** The greedy solver never beats the exhaustive one either. */
  lemma ExactDominatesHeuristic(weights: seq<int>, capacity: int, exact: seq<int>, exactSum: int)
    requires FirstBest(Enumeration(weights, |weights|), capacity, exact, exactSum)
    ensures Sum(SortAscending(GreedyFill(SortDescending(weights), capacity, 0))) <= exactSum
  {
    BruteForceOptimal(weights, capacity, exact, exactSum);
    HeuristicFacts(weights, capacity);
    var combination := SortAscending(GreedyFill(SortDescending(weights), capacity, 0));
    if combination != [] {
      var u := SubMultisetAsSubsequence(weights, combination);
    }
  }

  /** A single round whose coins pick `t` offers `t` to the update rule, and nothing else. */
  lemma OneRound(weights: seq<int>, capacity: int, t: seq<int>) returns (coins: seq<seq<bool>>)
    requires IsSubsequence(t, weights)
    ensures CoinsFit(weights, coins) && |coins| == 1
    ensures Scan(Samples(weights, coins), capacity) == Update(([], 0), t, capacity)
  {
    var flips := PickComplete(weights, t);
    coins := [flips];
    var cands := Samples(weights, coins);
    assert cands == [t];
    assert cands[0] == t && cands[1..] == [];
    assert ScanFrom(Update(([], 0), t, capacity), cands[1..], capacity) == Update(([], 0), t, capacity);
  }

  /**
   * The randomised solver can match the exhaustive one: a single round whose
   * coins select an optimal load reaches the optimum.
   */
  lemma MonteCarloCanMatch(weights: seq<int>, capacity: int, exact: seq<int>, exactSum: int)
    requires FirstBest(Enumeration(weights, |weights|), capacity, exact, exactSum)
    ensures exists coins :: CoinsFit(weights, coins) && |coins| == 1 && Scan(Samples(weights, coins), capacity).1 == exactSum
  {
    FirstBestOptimal(Enumeration(weights, |weights|), capacity, exact, exactSum);
    BruteForceOptimal(weights, capacity, exact, exactSum);
    var coins := OneRound(weights, capacity, exact);
  }

  /**
   * The benchmark's comparison on one instance: the three solvers run on the
   * same weights and capacity, and both approximations stay at or below the
   * exact optimum.
   */
  method CompareSolvers(weights: seq<int>, capacity: int, iterations: nat, coins: seq<seq<bool>>)
    returns (exactSum: int, sampledSum: int, greedySum: int)
    requires |coins| == iterations && CoinsFit(weights, coins)
    ensures sampledSum <= exactSum && greedySum <= exactSum
    ensures capacity >= 0 ==> exactSum <= capacity
    ensures forall t :: IsSubsequence(t, weights) && Sum(t) <= capacity ==> Sum(t) <= exactSum
  {
    var exact, sampled, greedy;
    exact, exactSum := BoatBruteForce(weights, capacity);
    sampled, sampledSum := BoatMonteCarlo(weights, capacity, iterations, coins);
    greedy, greedySum := BoatHeuristic(weights, capacity);
    ExactDominatesMonteCarlo(weights, capacity, coins, exact, exactSum, sampled, sampledSum);
    ExactDominatesHeuristic(weights, capacity, exact, exactSum);
  }
}
