# Boat loading: three solvers, modelled and proved in Dafny

`algoritmy.py` benchmarks three solvers for one problem. Given a list of item
weights and a boat capacity, choose items whose total weight is as large as
possible without exceeding the capacity. Each solver returns a pair: the
chosen weights and their total.

- `boat_brute_force` tries every non-empty `itertools.combinations` of the
  weights, by size from 1 to n. It keeps a candidate only when its sum fits
  and is strictly larger than the best so far, so among equal sums the first
  one found wins.
- `boat_monte_carlo` runs `iterations` rounds. In each round it flips a fair
  coin per item to build a candidate, then applies the same update rule to
  it.
- `boat_heuristic` sorts the weights in descending order and takes every item
  that still fits. It returns the taken items sorted ascending, together with
  the running total.

The model keeps the imperative form of the source. Each solver is a Dafny
`method` with its loops and loop invariants, and it is proved against
specification functions:

- `Scan`, a fold of the update rule over a candidate sequence.
- `FirstBest`, a declarative description of what that fold returns.
- `Enumeration`, the candidate order of the exhaustive solver.
- `Samples`, the candidates of the randomised solver.
- `GreedyFill`, the greedy pass.

The Python library calls `sum`, `sorted` and `itertools.combinations` are
specification functions (`Seqs.Sum`, `Sorting.SortAscending` /
`Sorting.SortDescending`, `Itertools.Combinations`). The source contains no
loops for these.

Randomness is injected. `random.choice([True, False])` in round `i` for item
`j` becomes the boolean `coins[i][j]`. The proved properties hold for every
coin sequence.

Module layout:

- `seqs.dfy` (`Seqs`): sums, order-preserving subsequences, multisets.
- `itertools.dfy` (`Itertools`): `itertools.combinations` and the order in
  which the exhaustive solver visits candidates.
- `sorting.dfy` (`Sorting`): `sorted`, ascending and descending.
- `selection.dfy` (`Selection`): the shared strict-improvement update and its
  specification.
- `boat.dfy` (`Boat`): the three solvers, their properties, and how they
  compare.
- `scenarios.dfy` (`Scenarios`): concrete instances worked through the model.

Only `boat_heuristic` sorts its result (`tuple(sorted(combination))`,
`algoritmy.py:43`). `boat_brute_force` and `boat_monte_carlo` return the
items in input order. For those two solvers the model proves that the result
is an order-preserving subsequence of the input (`IsSubsequence`). Only the
heuristic is proved to be ascending.

The code checks no sign of the weights or the capacity, so the model requires
none of the solvers. Feasibility is stated as "empty, or the total fits", and
as "the total fits" whenever the capacity is non-negative. Only the
greedy-maximality property needs non-negative weights, and it takes them as an
explicit hypothesis.

## Model

| member | source | states |
|---|---|---|
| Boat.BoatBruteForce | algoritmy.py:7-17 | result is the first-found best over all combinations of sizes 1..n (`FirstBest` over `Enumeration`); total equals the sum of the chosen items; items are an order-preserving subsequence of the weights; the total fits; no subsequence that fits weighs more |
| Boat.KeepBest | algoritmy.py:12-16 | the inner loop over the combinations of one size ends in the pair the update-rule fold gives from the incoming pair |
| Boat.BruteForceOptimal | algoritmy.py:11-16 | any pair the exhaustive scan can return is a fitting subsequence with its own sum as total, and is optimal among all fitting subsequences |
| Boat.ExhaustiveOptimal | algoritmy.py:11-16 | the same optimality for any candidate list that holds every non-empty selection of the items |
| Boat.BruteForceEmpty | algoritmy.py:8-9 | the exhaustive solver returns `((), 0)` if and only if no non-empty subsequence has a positive sum that fits (both directions) |
| Boat.ExhaustiveEmpty | algoritmy.py:8-9 | the same if-and-only-if for any candidate list that holds exactly the non-empty selections |
| Boat.Pick | algoritmy.py:24-27 | the candidate of one round: the items whose coin is true, in input order |
| Boat.Samples | algoritmy.py:23-27 | the candidates of all rounds in round order: one per coin row, the i-th being what row i picks |
| Boat.PickSound | algoritmy.py:24-27 | the subset one round builds from its coins is an order-preserving subsequence of the weights |
| Boat.PickComplete | algoritmy.py:24-27 | every order-preserving subsequence of the weights is built by some coin row |
| Boat.SampleRound | algoritmy.py:24-27 | the loop building one round's subset returns exactly the items whose coin is true, in input order |
| Boat.BoatMonteCarlo | algoritmy.py:20-32 | result is the first-found best over the rounds' candidates (`FirstBest` over `Samples`); total equals the sum of the chosen items; items are an order-preserving subsequence; the total fits; zero iterations give `((), 0)` |
| Boat.MonteCarloFeasible | algoritmy.py:28-32 | any pair the sampling scan returns is a fitting order-preserving subsequence with its own sum as total, and is `((), 0)` when there are no rounds |
| Boat.GreedyFill | algoritmy.py:39-42 | what the greedy pass takes is empty or fits together with the starting total |
| Boat.GreedyFillSubsequence | algoritmy.py:39-42 | the greedy pass keeps the taken items in the order it walked them |
| Boat.GreedySnoc | algoritmy.py:39-42 | one more item appended to the input is appended to the output exactly when it fits after what was taken before |
| Boat.GreedyPass | algoritmy.py:37-42 | the loop over the sorted weights returns the greedy selection and its running total |
| Boat.GreedyMaximal | algoritmy.py:40 | with non-negative weights, every item the greedy pass left out would push the final total over the capacity |
| Boat.BoatHeuristic | algoritmy.py:35-43 | result is `sorted(GreedyFill(sorted(weights, reverse=True)))`; the total is its sum; it is ascending; its items are drawn from the weights as a multiset; it fits; with non-negative weights every left-out item would overflow |
| Boat.HeuristicFacts | algoritmy.py:36-43 | the sorted greedy result keeps the greedy sum, is a sub-multiset of the weights, fits, and is greedy-maximal for non-negative weights |
| Boat.ExactDominatesMonteCarlo | algoritmy.py:7-32 | for every coin sequence, the randomised total is at most the exhaustive total |
| Boat.ExactDominatesHeuristic | algoritmy.py:7-43 | the greedy total is at most the exhaustive total |
| Boat.OneRound | algoritmy.py:23-31 | a single round whose coins pick `t` presents `t`, and only `t`, to the update rule |
| Boat.MonteCarloCanMatch | algoritmy.py:20-32 | some single-round coin sequence makes the randomised solver reach the exhaustive optimum |
| Boat.CompareSolvers | algoritmy.py:63-83 | only the per-instance comparison of the benchmark, which runs all three solvers on the same weights and capacity (lines 63, 73, 83): both approximations are at or below the exhaustive optimum, and that optimum fits and beats every fitting subsequence; timing, memory and result tables are left out |
| Selection.Improves | algoritmy.py:14 | the guard `s <= capacity and s > best_sum` shared by the exhaustive and the randomised solver (also line 29) |
| Selection.Update | algoritmy.py:14-16 | one step of the update: the best sum never goes down, and the result is the old pair or the candidate with its own sum, which fits |
| Selection.ScanFrom | algoritmy.py:11-16 | the solver loops written as a fold of the update over the candidates (also lines 23-31): the best sum never goes down, and the result is the starting pair or a candidate whose own sum fits (proved from the recursive calls' contracts) |
| Selection.Scan | algoritmy.py:8-16 | the fold from `((), 0)` (also lines 21-31): the total is non-negative, and the result is `((), 0)` or a candidate whose own sum fits |
| Selection.ScanFromNoImprovement | algoritmy.py:14 | when no candidate passes the guard against the current best, the loop leaves the best pair unchanged |
| Selection.ScanFromAppend | algoritmy.py:11-16 | scanning `a + b` is scanning `a`, then scanning `b` from where `a` ended |
| Selection.ScanIsFirstBest | algoritmy.py:14-16 | the fold of the strict-improvement update returns the pair `FirstBest` describes |
| Selection.FirstBestOptimal | algoritmy.py:14-16 | the returned pair's total is its sum, at least 0, and is either `((), 0)` or a candidate whose positive sum fits; no fitting candidate sums to more |
| Selection.FirstBestEarliest | algoritmy.py:14 | first found wins: a non-initial result is a candidate, and every earlier fitting candidate sums to strictly less |
| Selection.FirstBestEmpty | algoritmy.py:8-9 | the initial pair survives if and only if no candidate has a positive sum that fits |
| Selection.FirstBestUnique | algoritmy.py:14-16 | the candidates and the capacity determine the returned pair |
| Selection.FirstBestAccept | algoritmy.py:14-16 | a candidate the guard accepts becomes the described best pair |
| Selection.FirstBestKeep | algoritmy.py:14 | a candidate the guard rejects leaves the described best pair unchanged |
| Itertools.Combinations | algoritmy.py:12 | `itertools.combinations(s, r)`: the r-item selections of `s` by position, in lexicographic order of positions, so a selection using `s[0]` precedes every one that does not; the tie-break depends on this order |
| Itertools.Enumeration | algoritmy.py:11-12 | the candidates the exhaustive solver visits: all 1-item combinations, then all 2-item ones, and so on up to r |
| Itertools.CombinationsSound | algoritmy.py:12 | every element of `combinations(s, r)` is an r-item order-preserving subsequence of `s` |
| Itertools.CombinationsComplete | algoritmy.py:12 | every order-preserving subsequence of `s` is among the combinations of its size |
| Itertools.EnumerationSound | algoritmy.py:11-12 | every visited candidate is a non-empty subsequence of at most r items |
| Itertools.EnumerationComplete | algoritmy.py:11-12 | every non-empty subsequence of at most r items is visited |
| Itertools.EnumerationListsAll | algoritmy.py:11-12 | the candidates over all sizes are exactly the non-empty subsequences of the weights |
| Sorting.SortAscending | algoritmy.py:43 | `sorted` returns an ascending permutation of its input |
| Sorting.SortDescending | algoritmy.py:36 | `sorted(reverse=True)` returns a descending permutation of its input |
| Sorting.AscendingUnique | algoritmy.py:43 | two ascending sequences with the same items are equal, so the sorted output is determined by the multiset |
| Sorting.DescendingUnique | algoritmy.py:36 | the same for descending sequences |
| Seqs.Sum | algoritmy.py:13 | Python's `sum` over the items (also line 28) |
| Seqs.SumAppend | algoritmy.py:13 | the sum of a concatenation is the sum of the sums |
| Seqs.SumPermutation | algoritmy.py:43 | reordering items keeps their sum, so the returned total equals the sum of the sorted tuple |
| Seqs.SubMultisetAsSubsequence | algoritmy.py:43 | any sub-multiset of the weights has the sum of some order-preserving subsequence |
| Scenarios.TieScenario | algoritmy.py:14 | weights 10, 10, 20 with capacity 20: the exhaustive solver returns `(20,)` and not the later `(10, 10)` of equal sum |
| Scenarios.ExactFillScenario | algoritmy.py:7-17 | weights 10, 20, 30 with capacity 40: the exhaustive total is 40 |
| Scenarios.GreedyScenario | algoritmy.py:35-43 | weights 10, 20, 30 with capacity 40: the heuristic returns `(10, 30)` |
| Scenarios.GreedyMatchScenario | algoritmy.py:35-43 | weights 50, 50, 1 with capacity 51: the heuristic returns `(1, 50)` |
| Scenarios.GreedyFallsShort | algoritmy.py:35-43 | weights 30, 20, 20 with capacity 40: the heuristic reaches 30 while the exhaustive optimum is 40 |
| Scenarios.BruteForceZeroCapacity | algoritmy.py:7-17 | with positive weights and capacity 0 the exhaustive solver returns `((), 0)` |
| Scenarios.GreedyZeroCapacity | algoritmy.py:39-42 | with positive weights and no capacity left, the greedy pass takes nothing |

## Left out

- The `__main__` benchmark harness (`algoritmy.py:46-103`) is left out: random instance generation with `random.randint`, the capacity formula, wall-clock timing with `time`, memory measurement with `tracemalloc`, and the printed result tables are all I/O, clocks or floating point.
- `random.choice` is not modelled as a generator. Its outcomes are the `coins` parameter of `BoatMonteCarlo`, one row of `|weights|` booleans per iteration. The properties hold for every such sequence; the fair-coin distribution is not modelled.
- BoatMonteCarlo: the default `iterations=10000` is not modelled; callers pass `iterations` explicitly, and `coins` must have that many rows. `iterations` is a `nat`, so a negative count cannot be passed; in Python `range(iterations)` then runs no rounds and the result is `((), 0)`, the same as for 0 rounds, which the model proves.
- `itertools.combinations`, `sum` and `sorted` are modelled by their results, not by CPython's implementations. `sorted` is modelled on integers, where stability cannot be observed.
- Tuples and lists are both modelled as `seq<int>`. Python's "returns a tuple" versus "builds a list" therefore does not show up in the model.
- Python integers are unbounded and so are Dafny's `int`; no overflow behaviour is relevant.
- BoatHeuristic: greedy maximality is proved only for non-negative weights. With negative weights a skipped item can fit after later negative items have lowered the total, so the property does not hold there.
- The exhaustive solver's candidates are computed one size at a time, as the source does. The model does not capture the lazy, one-element-at-a-time iteration of `itertools.combinations`, which only affects memory use.
