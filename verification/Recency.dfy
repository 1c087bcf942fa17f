/**
  Least-recently-used ranks: each place has a rank, and touching a place moves it to rank 0
  and moves up the ranks that were below it. Caches, tables and miss caches all age this way.
 */
module Recency {
  import opened Counting

  /** Ranks of `n` places are the numbers below `n`, each once. */
  ghost predicate Permutation(r: seq<nat>) {
    Distinct(r) && forall i :: 0 <= i < |r| ==> r[i] < |r|
  }

  function Touch(r: seq<nat>, w: nat): seq<nat>
    requires w < |r|
  {
    seq(|r|, i requires 0 <= i < |r| => if i == w then 0 else if r[i] < r[w] then r[i] + 1 else r[i])
  }

  lemma TouchKeepsPermutation(r: seq<nat>, w: nat)
    requires Permutation(r) && w < |r|
    ensures Permutation(Touch(r, w)) && |Touch(r, w)| == |r|
  {
  }

  /** Every rank is somebody's. */
  lemma RankIsTaken(r: seq<nat>, rank: nat) returns (w: nat)
    requires Permutation(r) && rank < |r|
    ensures w < |r| && r[w] == rank
  {
    Pigeonhole(r, |r|);
    assert rank in r;
    w :| w < |r| && r[w] == rank;
  }

  // ---- Recency ----

  /** The ranks after a history of touches, the latest last. */
  function Play(r: seq<nat>, history: seq<nat>): (r1: seq<nat>)
    requires forall k :: 0 <= k < |history| ==> history[k] < |r|
    ensures |r1| == |r|
  {
    if history == [] then r
    else Touch(Play(r, history[..|history| - 1]), history[|history| - 1])
  }

  /** When a place was touched last; -1 if never. */
  function LastTouch(history: seq<nat>, w: nat): (t: int)
    ensures -1 <= t < |history|
    ensures t >= 0 ==> history[t] == w
    ensures forall k :: t < k < |history| ==> history[k] != w
  {
    if history == [] then -1
    else if history[|history| - 1] == w then |history| - 1
    else LastTouch(history[..|history| - 1], w)
  }

  /** Place `i` was touched more recently than `j`, or neither ever was and `i` started before `j`. */
  predicate MoreRecent(r: seq<nat>, history: seq<nat>, i: nat, j: nat)
    requires i < |r| && j < |r|
  {
    LastTouch(history, i) > LastTouch(history, j)
    || (LastTouch(history, i) == LastTouch(history, j) == -1 && r[i] < r[j])
  }

  /** Ranks are a permutation at all times, and order the places by how recently they were touched. */
  lemma {:induction false} RanksAreRecency(r: seq<nat>, history: seq<nat>)
    requires Permutation(r) && forall k :: 0 <= k < |history| ==> history[k] < |r|
    ensures Permutation(Play(r, history))
    ensures forall i, j :: 0 <= i < |r| && 0 <= j < |r| ==>
              (Play(r, history)[i] < Play(r, history)[j] <==> MoreRecent(r, history, i, j))
  {
    if history != [] {
      var n := |history| - 1;
      var earlier := history[..n];
      RanksAreRecency(r, earlier);
      var r1 := Play(r, earlier);
      TouchKeepsPermutation(r1, history[n]);
      forall i, j | 0 <= i < |r| && 0 <= j < |r|
        ensures Play(r, history)[i] < Play(r, history)[j] <==> MoreRecent(r, history, i, j)
      {
        assert r1[i] < r1[j] <==> MoreRecent(r, earlier, i, j);
      }
    }
  }

  /** The place with the highest rank is the one whose last touch is the longest ago. */
  lemma HighestIsOldest(r: seq<nat>, history: seq<nat>, w: nat, i: nat)
    requires Permutation(r) && forall k :: 0 <= k < |history| ==> history[k] < |r|
    requires w < |r| && i < |r| && i != w && Play(r, history)[w] == |r| - 1
    ensures MoreRecent(r, history, i, w)
  {
    RanksAreRecency(r, history);
  }
}
