/** Runs that lead to a failing assertion of execute_store, and to a store that serves the wrong load. */
module ForwardingWitnesses {
  import opened Options
  import opened RingOrder
  import opened Forwarding
  import opened ForwardingSafety
  import opened ForwardingSteps
  import opened ForwardingStores
  import opened ForwardingChecks
  import opened ForwardingRuns

  function Memory(id: nat, src: seq<nat>, dst: seq<nat>, ops: int): Instr {
    EMPTY.(id := id, src := src, dst := dst, memOps := ops)
  }

  /** Stores to addresses 1 and 2. */
  const FIRST := Memory(1, [0, 0, 0, 0], [1, 2], 2)
  /** Stores to address 1. */
  const SECOND := Memory(2, [0, 0, 0, 0], [1, 0], 1)
  /** Loads from both. */
  const THIRD := Memory(3, [1, 2, 0, 0], [0, 0], 2)
  /** Loads from address 2. */
  const FOURTH := Memory(4, [2, 0, 0, 0], [0, 0], 1)

  lemma AllAreFresh()
    ensures Fresh(FIRST) && Fresh(SECOND) && Fresh(THIRD) && Fresh(FOURTH)
  {
    assert OpenLoads(FIRST) == {} && OpenStores(FIRST) == {0, 1};
    assert OpenLoads(SECOND) == {} && OpenStores(SECOND) == {0};
    assert OpenLoads(THIRD) == {0, 1} && OpenStores(THIRD) == {};
    assert OpenLoads(FOURTH) == {0} && OpenStores(FOURTH) == {};
  }

  /** The four instructions are dispatched into a core of four entries. */
  lemma FourDispatched() returns (run: seq<Lsq>, steps: seq<Step>)
    ensures IsRun(run, steps) && |steps| == 4 && |run| == 5
    ensures run[4] == Initial(4, 2, 3).(rob := [FIRST, SECOND, THIRD, FOURTH], occupancy := 4)
  {
    AllAreFresh();
    var s := Initial(4, 2, 3);
    var s1 := Dispatch(s, FIRST);
    var s2 := Dispatch(s1, SECOND);
    var s3 := Dispatch(s2, THIRD);
    var s4 := Dispatch(s3, FOURTH);
    run, steps := [s, s1, s2, s3, s4], [Dispatched(FIRST), Dispatched(SECOND), Dispatched(THIRD), Dispatched(FOURTH)];
    assert s1.rob == [FIRST, EMPTY, EMPTY, EMPTY] && s2.rob == [FIRST, SECOND, EMPTY, EMPTY];
    assert s3.rob == [FIRST, SECOND, THIRD, EMPTY] && s4.rob == [FIRST, SECOND, THIRD, FOURTH];
    assert Steps(s, s1, steps[0]) && Steps(s1, s2, steps[1]) && Steps(s2, s3, steps[2]) && Steps(s3, s4, steps[3]);
  }

  /** A run that goes on for one more step. */
  lemma Extends(run: seq<Lsq>, steps: seq<Step>, s: Lsq, step: Step)
    requires IsRun(run, steps) && Steps(run[|run| - 1], s, step)
    ensures IsRun(run + [s], steps + [step])
  {
    forall k | 0 <= k < |steps| + 1 ensures Steps((run + [s])[k], (run + [s])[k + 1], (steps + [step])[k]) {
      assert k < |steps| ==> Steps(run[k], run[k + 1], steps[k]);
    }
    assert (run + [s])[0] == run[0];
  }

  /** In a full ring of four with the head at 0 the youngest older store is the nearest one. */
  lemma YoungestOfFour(s: Lsq, i: nat, a: nat, p: nat)
    requires |s.rob| == 4 && s.head == 0 && s.occupancy == 4 && p < i < 4
    requires a in s.rob[p].dst && forall q :: p < q < i ==> a !in s.rob[q].dst
    ensures Youngest(s, i, a) == Some(p)
  {
    assert IsYoungest(s, i, a, Some(p));
    YoungestIsUnique(s, i, a, Some(p));
  }

  // ---- The third instruction has added its loads, the first its store to 1 ----

  /** It waits for the second instruction with its load of 1, and for the first with its load of 2. */
  const LOADING := THIRD.(srcAdded := [true, true, false, false], lqIndex := [0, 1, 0, 0])
  const LOADS := [Load(1, 3, 2, 0, Some(2)), Load(2, 3, 2, 1, Some(1))]
  const FEEDING := FIRST.(dependents := {2}, sqIndex := [Some(0), None])

  lemma LoadsAdded() returns (run: seq<Lsq>, steps: seq<Step>)
    ensures IsRun(run, steps) && |steps| == 7 && |run| == 8
    ensures run[7] == Initial(4, 2, 3).(rob := [FEEDING, SECOND.(dependents := {2}), LOADING, FOURTH], occupancy := 4,
                                        lq := LOADS, sq := [Store(1, 1, 0, 0, false), NO_STORE, NO_STORE])
  {
    hide IsRun;
    run, steps := FourDispatched();
    var s4 := run[4];
    YoungestOfFour(s4, 2, 1, 1);
    var s5 := AddLoad(s4, 2, 0, 0);
    assert THIRD.srcAdded[0 := true] == [true, false, false, false] && THIRD.lqIndex[0 := 0] == THIRD.lqIndex;
    assert WithDependent(SECOND, 2) == SECOND.(dependents := {2});
    assert s5.rob == [FIRST, SECOND.(dependents := {2}), THIRD.(srcAdded := [true, false, false, false]), FOURTH];
    assert s5.lq == [Load(1, 3, 2, 0, Some(2)), NO_LOAD];
    Extends(run, steps, s5, LoadAdded(2, 0, 0));
    run, steps := run + [s5], steps + [LoadAdded(2, 0, 0)];
    YoungestOfFour(s5, 2, 2, 0);
    var s6 := AddLoad(s5, 2, 1, 1);
    assert s5.rob[2].srcAdded[1 := true] == LOADING.srcAdded && s5.rob[2].lqIndex[1 := 1] == LOADING.lqIndex;
    assert WithDependent(FIRST, 2) == FIRST.(dependents := {2});
    assert s6.rob == [FIRST.(dependents := {2}), SECOND.(dependents := {2}), LOADING, FOURTH] && s6.lq == LOADS;
    Extends(run, steps, s6, LoadAdded(2, 1, 1));
    run, steps := run + [s6], steps + [LoadAdded(2, 1, 1)];
    var s7 := AddStore(s6, 0, 0, 0);
    assert FIRST.sqIndex[0 := Some(0)] == FEEDING.sqIndex;
    assert s7.rob == [FEEDING, SECOND.(dependents := {2}), LOADING, FOURTH];
    assert s7.sq == [Store(1, 1, 0, 0, false), NO_STORE, NO_STORE];
    Extends(run, steps, s7, StoreAdded(0, 0, 0));
    run, steps := run + [s7], steps + [StoreAdded(0, 0, 0)];
  }

  /**
    The store to address 1 of the first instruction visits the third's load of 1, which waits
    for the second instruction: the assertion fails.
   */
  lemma AssertionCanFail() returns (run: seq<Lsq>, steps: seq<Step>, s: Lsq)
    ensures IsRun(run, steps) && s == run[|run| - 1]
    ensures Shape(s) && CanExecute(s, 0) && s.sq[0].robIndex < |s.rob| && !CheckHolds(s, 0)
  {
    run, steps := LoadsAdded();
    s := run[7];
    assert Leads(s, 0, 2, 0, 0);
  }

  // ---- The second store executes first, and its load's entry is used again ----

  const SERVED := LOADING.(loaded := [FromStore(2, 1), Pending, Pending, Pending], memOps := 1)

  lemma SecondServes(s: Lsq)
    requires s == Initial(4, 2, 3).(rob := [FEEDING, SECOND.(dependents := {2}, sqIndex := [Some(2), None]), LOADING, FOURTH],
                                    occupancy := 4, lq := LOADS,
                                    sq := [Store(1, 1, 0, 0, false), NO_STORE, Store(1, 2, 1, 0, false)])
    ensures CanExecute(s, 2) && CheckHolds(s, 2)
    ensures ExecuteStore(s, 2)
            == s.(rob := [FEEDING, SECOND.(dependents := {2}, sqIndex := [Some(2), None], stored := [true, false], memOps := 0), SERVED, FOURTH],
                  lq := [NO_LOAD, LOADS[1]], sq := s.sq[2 := s.sq[2].(done := true)])
  {
    assert forall d: nat, j, l: nat :: Leads(s, 2, d, j, l) <==> d == 2 && j == 0 && l == 0;
    assert forall l: nat :: Reaches(s, 2, l) <==> l == 0 by {
      assert Leads(s, 2, 2, 0, 0);
    }
    var s1 := ExecuteStore(s, 2);
    hide Reaches, Leads;
    assert Hits(s, 2, 0) == {} && Hits(s, 2, 3) == {};
    assert Hits(s, 2, 2) == {0};
    assert s1.rob[0].loaded == FEEDING.loaded && s1.rob[3].loaded == FOURTH.loaded && s1.rob[2].loaded == SERVED.loaded;
    assert s.rob[1].stored[0 := true] == [true, false];
    assert s1.lq == [NO_LOAD, LOADS[1]];
    assert s1.rob[0] == FEEDING && s1.rob[2] == SERVED && s1.rob[3] == FOURTH;
  }

  lemma SecondExecuted() returns (run: seq<Lsq>, steps: seq<Step>)
    ensures IsRun(run, steps) && |steps| == 9 && |run| == 10
    ensures run[9] == Initial(4, 2, 3).(
              rob := [FEEDING, SECOND.(dependents := {2}, sqIndex := [Some(2), None], stored := [true, false], memOps := 0), SERVED, FOURTH],
              occupancy := 4, lq := [NO_LOAD, LOADS[1]],
              sq := [Store(1, 1, 0, 0, false), NO_STORE, Store(1, 2, 1, 0, true)])
  {
    hide IsRun;
    run, steps := LoadsAdded();
    var s7 := run[7];
    var s8 := AddStore(s7, 1, 0, 2);
    assert SECOND.sqIndex[0 := Some(2)] == [Some(2), None];
    assert s8.rob == [FEEDING, SECOND.(dependents := {2}, sqIndex := [Some(2), None]), LOADING, FOURTH];
    assert s8.sq == [Store(1, 1, 0, 0, false), NO_STORE, Store(1, 2, 1, 0, false)];
    Extends(run, steps, s8, StoreAdded(1, 0, 2));
    run, steps := run + [s8], steps + [StoreAdded(1, 0, 2)];
    SecondServes(s8);
    hide CheckHolds, ExecuteStore;
    Extends(run, steps, ExecuteStore(s8, 2), StoreExecuted(2));
    run, steps := run + [ExecuteStore(s8, 2)], steps + [StoreExecuted(2)];
  }

  ghost predicate IsUsedAgain(s: Lsq) {
    s == Initial(4, 2, 3).(
           rob := [FEEDING.(dependents := {2, 3}, sqIndex := [Some(0), Some(1)]),
                   SECOND.(dependents := {2}, sqIndex := [Some(2), None], stored := [true, false], memOps := 0),
                   SERVED, FOURTH.(srcAdded := [true, false, false, false])],
           occupancy := 4, lq := [Load(2, 4, 3, 0, Some(1)), LOADS[1]],
           sq := [Store(1, 1, 0, 0, false), Store(2, 1, 0, 1, false), Store(1, 2, 1, 0, true)])
  }

  /** The entry of the third instruction's load of 1 now holds the fourth's load, which waits for the first. */
  lemma EntryUsedAgain() returns (run: seq<Lsq>, steps: seq<Step>)
    ensures IsRun(run, steps) && |steps| == 11 && |run| == 12 && IsUsedAgain(run[11])
  {
    hide IsRun;
    run, steps := SecondExecuted();
    var s9 := run[9];
    YoungestOfFour(s9, 3, 2, 0);
    var s10 := AddLoad(s9, 3, 0, 0);
    assert FOURTH.srcAdded[0 := true] == [true, false, false, false] && FOURTH.lqIndex[0 := 0] == FOURTH.lqIndex;
    assert WithDependent(FEEDING, 3) == FEEDING.(dependents := {2, 3});
    assert s10.lq == [Load(2, 4, 3, 0, Some(1)), LOADS[1]];
    assert s10.rob == [FEEDING.(dependents := {2, 3}), s9.rob[1], SERVED, FOURTH.(srcAdded := [true, false, false, false])];
    Extends(run, steps, s10, LoadAdded(3, 0, 0));
    run, steps := run + [s10], steps + [LoadAdded(3, 0, 0)];
    var s11 := AddStore(s10, 0, 1, 1);
    assert FEEDING.sqIndex[1 := Some(1)] == [Some(0), Some(1)];
    assert s11.rob == [FEEDING.(dependents := {2, 3}, sqIndex := [Some(0), Some(1)]), s10.rob[1], s10.rob[2], s10.rob[3]];
    assert s11.sq == [Store(1, 1, 0, 0, false), Store(2, 1, 0, 1, false), Store(1, 2, 1, 0, true)];
    Extends(run, steps, s11, StoreAdded(0, 1, 1));
    run, steps := run + [s11], steps + [StoreAdded(0, 1, 1)];
  }

  /** The first instruction's store to 1 visits the third's load of 1 only, and is led to the fourth's load of 2. */
  lemma FirstMisfeeds(s: Lsq)
    requires IsUsedAgain(s)
    ensures Shape(s) && CanExecute(s, 0) && s.sq[0].robIndex < |s.rob| && CheckHolds(s, 0) && Misfeeds(s, 0)
    ensures s.sq[0].slot < |s.rob[s.sq[0].robIndex].stored| && Reaches(s, 0, 0)
  {
    assert forall d: nat, j, l: nat :: Leads(s, 0, d, j, l) <==> d == 2 && j == 0 && l == 0;
    assert Leads(s, 0, 2, 0, s.rob[3].lqIndex[0]);
    hide Leads;
    assert Hit(s, 0, 3, 0);
  }

  /** Its store to 2 then visits the fourth's load, whose entry is gone. */
  lemma FirstFails(s: Lsq)
    requires IsUsedAgain(s) && Reaches(s, 0, 0)
    ensures s.sq[0].robIndex < |s.rob| && s.sq[0].slot < |s.rob[s.sq[0].robIndex].stored|
    ensures var s1 := ExecuteStore(s, 0); CanExecute(s1, 1) && s1.sq[1].robIndex < |s1.rob| && !CheckHolds(s1, 1)
  {
    var s1 := ExecuteStore(s, 0);
    hide Reaches;
    assert s1.lq[0] == NO_LOAD;
    assert Leads(s1, 1, 3, 0, 0);
  }

  /**
    The store to address 1 of the first instruction passes the assertions, although it visits
    only a load that has its data: the entry is the fourth instruction's, which is served
    with the wrong data. The store to address 2 then has to fail.
   */
  lemma WrongLoadCanBeServed() returns (run: seq<Lsq>, steps: seq<Step>, s: Lsq)
    ensures IsRun(run, steps) && s == run[|run| - 1] && forall i :: Live(s, i) ==> StoresOnce(s.rob[i])
    ensures Shape(s) && CanExecute(s, 0) && s.sq[0].robIndex < |s.rob| && CheckHolds(s, 0) && Misfeeds(s, 0)
    ensures s.sq[0].slot < |s.rob[s.sq[0].robIndex].stored|
    ensures var s1 := ExecuteStore(s, 0); CanExecute(s1, 1) && s1.sq[1].robIndex < |s1.rob| && !CheckHolds(s1, 1)
  {
    run, steps := EntryUsedAgain();
    s := run[11];
    hide IsRun, CheckHolds, Misfeeds, Reaches, ExecuteStore;
    FirstMisfeeds(s);
    FirstFails(s);
  }
}
