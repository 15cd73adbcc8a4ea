/**
 * The update rule shared by the exhaustive and the randomised solver: walk a
 * sequence of candidate subsets and replace the best pair only when a
 * candidate's sum `s` passes `s <= capacity and s > best_sum`, starting from
 * the pair `((), 0)`.
 */
module Selection {
  import opened Seqs

  /** The guard of the update: the candidate fits and strictly beats the best so far. */
  predicate Improves(s: int, capacity: int, bestSum: int)
  {
    s <= capacity && s > bestSum
  }

  /** One pass of the loop body: the candidate `c` replaces `best` when the guard accepts it. */
  function Update(best: (seq<int>, int), c: seq<int>, capacity: int): (r: (seq<int>, int))
    ensures r.1 >= best.1
    ensures r == best || (r.0 == c && r.1 == Sum(c) <= capacity)
  {
    if Improves(Sum(c), capacity, best.1) then (c, Sum(c)) else best
  }

  /**
   * The best pair after walking `cands` in order, starting from `best`: the
   * loops of `boat_brute_force` and `boat_monte_carlo` written as a fold.
   */
  function ScanFrom(best: (seq<int>, int), cands: seq<seq<int>>, capacity: int): (r: (seq<int>, int))
    ensures r.1 >= best.1
    ensures r == best || (r.0 in cands && r.1 == Sum(r.0) <= capacity)
    decreases |cands|
  {
    if cands == [] then best else ScanFrom(Update(best, cands[0], capacity), cands[1..], capacity)
  }

  /** The walk from the initial pair `((), 0)`. */
  function Scan(cands: seq<seq<int>>, capacity: int): (r: (seq<int>, int))
    ensures r.1 >= 0
    ensures r == ([], 0) || (r.0 in cands && r.1 == Sum(r.0) <= capacity)
  {
    ScanFrom(([], 0), cands, capacity)
  }

  /** Walking `a + b` is walking `a` and then walking `b` from where `a` stopped. */
  lemma {:induction false} ScanFromAppend(best: (seq<int>, int), a: seq<seq<int>>, b: seq<seq<int>>, capacity: int)
    ensures ScanFrom(best, a + b, capacity) == ScanFrom(ScanFrom(best, a, capacity), b, capacity)
    decreases |a|
  {
    if a == [] {
      assert a + b == b;
    } else {
      assert (a + b)[0] == a[0] && (a + b)[1..] == a[1..] + b;
      ScanFromAppend(Update(best, a[0], capacity), a[1..], b, capacity);
    }
  }

  /** When no candidate passes the guard against `best`, the scan keeps `best`. */
  lemma {:induction false} ScanFromNoImprovement(best: (seq<int>, int), cands: seq<seq<int>>, capacity: int)
    requires forall j :: 0 <= j < |cands| ==> !Improves(Sum(cands[j]), capacity, best.1)
    ensures ScanFrom(best, cands, capacity) == best
    decreases |cands|
  {
    if cands != [] {
      assert !Improves(Sum(cands[0]), capacity, best.1);
      ScanFromNoImprovement(best, cands[1..], capacity);
    }
  }

  /**
   * After the scan of `cands` the best pair is `(comb, total)`, and the last
   * candidate the guard accepted is `cands[k]` (or none at all, when `k` is
   * negative, so that the initial pair `((), 0)` survives).
   */
  ghost predicate FirstBestAt(cands: seq<seq<int>>, capacity: int, k: int, comb: seq<int>, total: int)
  {
    if k < 0 then
      && comb == [] && total == 0
      && forall j :: 0 <= j < |cands| ==> !(0 < Sum(cands[j]) <= capacity)
    else
      && k < |cands| && comb == cands[k] && total == Sum(cands[k]) && 0 < total <= capacity
      && (forall j :: 0 <= j < k ==> Sum(cands[j]) > capacity || Sum(cands[j]) < total)
      && (forall j :: k < j < |cands| ==> Sum(cands[j]) > capacity || Sum(cands[j]) <= total)
  }

  /** `(comb, total)` is what the strict-improvement scan of `cands` returns. */
  ghost predicate FirstBest(cands: seq<seq<int>>, capacity: int, comb: seq<int>, total: int)
  {
    exists k :: -1 <= k < |cands| && FirstBestAt(cands, capacity, k, comb, total)
  }

  /** Before any candidate is seen the best pair is `((), 0)`. */
  lemma FirstBestInitial(capacity: int)
    ensures FirstBest([], capacity, [], 0)
  {
    assert FirstBestAt([], capacity, -1, [], 0);
  }

  /** A step of the scan where the guard accepts `c`: it becomes the best pair. */
  lemma FirstBestAccept(cands: seq<seq<int>>, capacity: int, comb: seq<int>, total: int, c: seq<int>)
    requires FirstBest(cands, capacity, comb, total)
    requires Improves(Sum(c), capacity, total)
    ensures FirstBest(cands + [c], capacity, c, Sum(c))
  {
    var next := cands + [c];
    assert forall j :: 0 <= j < |cands| ==> next[j] == cands[j];
    FirstBestOptimal(cands, capacity, comb, total);
    assert FirstBestAt(next, capacity, |cands|, c, Sum(c));
  }

  /** A step of the scan where the guard rejects `c`: the best pair stays. */
  lemma FirstBestKeep(cands: seq<seq<int>>, capacity: int, comb: seq<int>, total: int, c: seq<int>)
    requires FirstBest(cands, capacity, comb, total)
    requires !Improves(Sum(c), capacity, total)
    ensures FirstBest(cands + [c], capacity, comb, total)
  {
    var k :| -1 <= k < |cands| && FirstBestAt(cands, capacity, k, comb, total);
    var next := cands + [c];
    assert forall j :: 0 <= j < |cands| ==> next[j] == cands[j];
    assert FirstBestAt(next, capacity, k, comb, total);
  }

  /** Walking more candidates from a pair that describes a prefix gives the pair of the whole. */
  lemma {:induction false} ScanFromIsFirstBest(prefix: seq<seq<int>>, best: (seq<int>, int), rest: seq<seq<int>>, capacity: int)
    requires FirstBest(prefix, capacity, best.0, best.1)
    ensures var r := ScanFrom(best, rest, capacity); FirstBest(prefix + rest, capacity, r.0, r.1)
    decreases |rest|
  {
    if rest == [] {
      assert prefix + rest == prefix;
    } else {
      var c := rest[0];
      if Improves(Sum(c), capacity, best.1) {
        FirstBestAccept(prefix, capacity, best.0, best.1, c);
      } else {
        FirstBestKeep(prefix, capacity, best.0, best.1, c);
      }
      assert prefix + rest == (prefix + [c]) + rest[1..];
      ScanFromIsFirstBest(prefix + [c], Update(best, c, capacity), rest[1..], capacity);
    }
  }

  /** The fold returns exactly the pair the declarative description asks for. */
  lemma ScanIsFirstBest(cands: seq<seq<int>>, capacity: int)
    ensures FirstBest(cands, capacity, Scan(cands, capacity).0, Scan(cands, capacity).1)
  {
    FirstBestInitial(capacity);
    ScanFromIsFirstBest([], ([], 0), cands, capacity);
    assert [] + cands == cands;
  }

  /**
   * The returned pair: its total is its own sum, it is the initial pair or a
   * candidate whose positive sum fits, and no fitting candidate sums to more.
   */
  lemma FirstBestOptimal(cands: seq<seq<int>>, capacity: int, comb: seq<int>, total: int)
    requires FirstBest(cands, capacity, comb, total)
    ensures total == Sum(comb) && total >= 0
    ensures (comb == [] && total == 0) || (comb in cands && 0 < total <= capacity)
    ensures forall j :: 0 <= j < |cands| && Sum(cands[j]) <= capacity ==> Sum(cands[j]) <= total
  {
    var k :| -1 <= k < |cands| && FirstBestAt(cands, capacity, k, comb, total);
  }

  /**
   * First found wins: when the initial pair was replaced, `comb` is a
   * candidate reaching `total`, and every earlier fitting candidate sums to less.
   */
  lemma FirstBestEarliest(cands: seq<seq<int>>, capacity: int, comb: seq<int>, total: int)
    requires FirstBest(cands, capacity, comb, total) && total != 0
    ensures exists k :: 0 <= k < |cands| && cands[k] == comb &&
                        forall j :: 0 <= j < k && Sum(cands[j]) <= capacity ==> Sum(cands[j]) < total
  {
    var k :| -1 <= k < |cands| && FirstBestAt(cands, capacity, k, comb, total);
  }

  /** The initial pair `((), 0)` survives exactly when no candidate has a positive sum that fits. */
  lemma FirstBestEmpty(cands: seq<seq<int>>, capacity: int, comb: seq<int>, total: int)
    requires FirstBest(cands, capacity, comb, total)
    ensures (comb == [] && total == 0) <==> forall j :: 0 <= j < |cands| ==> !(0 < Sum(cands[j]) <= capacity)
  {
    var k :| -1 <= k < |cands| && FirstBestAt(cands, capacity, k, comb, total);
    if k >= 0 {
      assert 0 < Sum(cands[k]) <= capacity;
    }
  }

  /** The scan is deterministic: the candidates and the capacity fix the returned pair. */
  lemma FirstBestUnique(cands: seq<seq<int>>, capacity: int, comb1: seq<int>, total1: int, comb2: seq<int>, total2: int)
    requires FirstBest(cands, capacity, comb1, total1)
    requires FirstBest(cands, capacity, comb2, total2)
    ensures comb1 == comb2 && total1 == total2
  {
    var k1 :| -1 <= k1 < |cands| && FirstBestAt(cands, capacity, k1, comb1, total1);
    var k2 :| -1 <= k2 < |cands| && FirstBestAt(cands, capacity, k2, comb2, total2);
  }
}
