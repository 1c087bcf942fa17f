/** Runs of the store queue: program order throughout, no deadlock and no overflow of STA. */
module StoreOrderRuns {
  import opened Options
  import opened RingOrder
  import opened StoreOrder
  import opened StoreOrderSafety

  // ---- Retirement keeps the invariant ----

  lemma RingDrop(s: Unit, n: nat, all: seq<StoreId>)
    requires RingHolds(s.sq, s.head, s.occupancy, all) && n <= s.occupancy
    ensures var w := Without(s, n);
            && RingHolds(w.sq, w.head, w.occupancy, all[n..])
            && forall t :: 0 <= t < |s.sq| && Pos(t, s.head, |s.sq|) >= n ==>
                 w.sq[t] == s.sq[t] && Pos(t, w.head, |w.sq|) == Pos(t, s.head, |s.sq|) - n
  {
    var w := Without(s, n);
    forall m | 0 <= m < w.occupancy ensures Holds(w.sq[At(m, w.head, |w.sq|)], all[n..][m]) {
      assert Holds(s.sq[At(n + m, s.head, |s.sq|)], all[n + m]);
    }
  }

  /** The places of the instructions that stay, once the first `n` stores have left the queue. */
  lemma RetirePlaces(s: Unit, s1: Unit, n: nat, i: nat, k: nat)
    requires Shape(s) && Listed(s) && Placed(s) && Shape(s1) && Listed(s1)
    requires 0 < i < |s.prog| && s1.prog == s.prog[1..] && k < |s.prog[i].dst|
    requires |s1.sq| == |s.sq| && s1.occupancy == s.occupancy - n && n == |StoresOf(s.prog[0])|
    requires All(s.prog) == StoresOf(s.prog[0]) + All(s1.prog)
    requires forall t :: 0 <= t < |s.sq| && Pos(t, s.head, |s.sq|) >= n ==>
               Pos(t, s1.head, |s1.sq|) == Pos(t, s.head, |s.sq|) - n
    ensures PlacedAt(s1, i - 1, k)
  {
    assert PlacedAt(s, i, k);
    hide All, StoresOf, Placed;
    assert s1.prog[i - 1] == s.prog[i];
    match s.prog[i].sqIndex[k]
    case Some(t) =>
      var m := Pos(t, s.head, |s.sq|);
      if m < n {
        NewIds(s.prog[0], m);
      }
    case None =>
      forall m | 0 <= m < s1.occupancy ensures All(s1.prog)[m] != StoreId(s.prog[i].id, k) {
        assert All(s1.prog)[m] == All(s.prog)[n + m];
      }
  }

  ghost predicate RetireIsWithout(s: Unit)
    requires Shape(s) && s.dispatched > 0
  {
    Inside(s.prog[0], |s.sq|) && |StoresOf(s.prog[0])| <= s.occupancy
    && Retire(s) == Without(s, |StoresOf(s.prog[0])|).(prog := s.prog[1..], dispatched := s.dispatched - 1)
  }

  lemma RetireListed(s: Unit)
    requires Inv(s) && CanRetire(s)
    ensures RetireIsWithout(s) && Shape(Retire(s)) && Listed(Retire(s))
  {
    RetireFreesTheFront(s);
    hide Release, StoresBelow;
    assert All(s.prog) == StoresOf(s.prog[0]) + All(s.prog[1..]);
  }

  lemma RetireInv(s: Unit)
    requires Inv(s) && CanRetire(s)
    ensures RetireIsWithout(s) && Inv(Retire(s))
  {
    RetireListed(s);
    var s1 := Retire(s);
    var n := |StoresOf(s.prog[0])|;
    RingDrop(s, n, All(s.prog));
    assert All(s.prog) == StoresOf(s.prog[0]) + All(s1.prog);
    assert All(s.prog)[n..] == All(s1.prog);
    hide All, RingHolds, StoresOf;
    forall i, k | 0 <= i < |s1.prog| && 0 <= k < |s1.prog[i].dst| ensures PlacedAt(s1, i, k) {
      RetirePlaces(s, s1, n, i + 1, k);
    }
    RetireMoves(s);
  }

  lemma RetireMoves(s: Unit)
    requires Inv(s) && CanRetire(s) && RetireIsWithout(s)
    ensures Moving(Retire(s))
  {
    var s1 := Retire(s);
    var n := |StoresOf(s.prog[0])|;
    forall t: nat | OnWay(s, t) ensures Pos(t, s.head, |s.sq|) >= n {
      FrontHasExecuted(s, t);
    }
    assert forall t: nat :: OnWay(s1, t) <==> OnWay(s, t);
  }

  /** Stores that are about to retire have executed. */
  lemma FrontHasExecuted(s: Unit, t: nat)
    requires Inv(s) && CanRetire(s) && t < |s.sq| && s.sq[t].Used? && !s.sq[t].done
    ensures Pos(t, s.head, |s.sq|) >= |StoresOf(s.prog[0])|
  {
    var e := s.prog[0];
    var m := Pos(t, s.head, |s.sq|);
    if m < |StoresOf(e)| {
      StoresBelowAre(e.id, e.dst, |e.dst|);
      var x := StoresOf(e)[m];
      assert x in StoresOf(e) && All(s.prog)[m] == x;
      PlaceIs(s, 0, x.slot, m);
    }
  }

  // ---- Runs ----

  datatype Step =
    | WasRead(id: nat, dst: seq<nat>)
    | Dispatched
    | Checked(i: nat)
    | Sent
    | Translated(t: nat)
    | Executed
    | Retired

  ghost predicate Steps(s: Unit, s1: Unit, step: Step) {
    && Shape(s)
    && match step
       case WasRead(id, dst) => (forall i :: 0 <= i < |s.prog| ==> s.prog[i].id < id) && s1 == Read(s, id, dst)
       case Dispatched => s.dispatched < |s.prog| && s1 == Dispatch(s)
       case Checked(i) => i < s.dispatched && s1 == AddStores(s, i, 0)
       case Sent => s.rts0 != [] && s1 == SendStore(s)
       case Translated(t) => t in s.translating && s1 == StoreTranslated(s, t)
       case Executed => s.rts1 != [] && s.rts1[0] < |s.sq| && s.sq[s.rts1[0]].Used? && s1 == ExecuteStore(s)
       case Retired => CanRetire(s) && Inside(s.prog[0], |s.sq|) && s1 == Retire(s)
  }

  lemma StepsInv(s: Unit, s1: Unit, step: Step)
    requires Inv(s) && Steps(s, s1, step)
    ensures Inv(s1)
  {
    hide Listed, InQueue, Placed, Moving, AddStores, Release, All;
    match step
    case WasRead(id, dst) => ReadInv(s, id, dst);
    case Dispatched => DispatchInv(s);
    case Checked(i) => AddStoresInv(s, i, 0);
    case Sent => SendStoreInv(s);
    case Translated(t) => StoreTranslatedInv(s, t);
    case Executed => ExecuteStoreInv(s);
    case Retired => RetireInv(s);
  }

  ghost predicate IsRun(run: seq<Unit>, steps: seq<Step>) {
    && |run| == |steps| + 1
    && (exists n: nat :: n > 0 && run[0] == Initial(n))
    && forall k :: 0 <= k < |steps| ==> Steps(run[k], run[k + 1], steps[k])
  }

  /** Every reachable store queue keeps the invariant. */
  lemma {:induction false} ReachableInv(run: seq<Unit>, steps: seq<Step>, k: nat)
    requires IsRun(run, steps) && k < |run|
    ensures Inv(run[k])
  {
    if k == 0 {
      assert All(run[0].prog) == [];
    } else {
      ReachableInv(run, steps, k - 1);
      StepsInv(run[k - 1], run[k], steps[k - 1]);
    }
  }

  /** In every reachable state the queue, from head to tail, and then STA list the program's stores in order. */
  lemma ReachableProgramOrder(run: seq<Unit>, steps: seq<Step>, k: nat, m: nat, n: nat)
    requires IsRun(run, steps) && k < |run| && m < n < |All(run[k].prog)|
    ensures var s := run[k]; var all := All(s.prog);
            && Before(all[m], all[n]) && |all| == s.occupancy + |s.sta|
            && if m < s.occupancy then s.head < |s.sq| && 0 <= At(m, s.head, |s.sq|) < |s.sq| && Holds(s.sq[At(m, s.head, |s.sq|)], all[m])
               else s.sta[m - s.occupancy] == all[m].id
  {
    ReachableInv(run, steps, k);
    AllInOrder(run[k].prog, m, n);
  }

  // ---- No deadlock, no overflow ----

  /**
    The oldest instruction can always enter all its stores, as long as the queue is as large
    as the number of destinations: younger stores never take the place it needs.
   */
  lemma {:induction false} OldestEnters(s: Unit, k: nat)
    requires Inv(s) && s.dispatched > 0 && |s.prog[0].dst| <= |s.sq| && k <= |s.prog[0].dst|
    requires LowerAdded(s.prog[0], k)
    ensures |AddStores(s, 0, k).prog| == |s.prog| && LowerAdded(AddStores(s, 0, k).prog[0], |s.prog[0].dst|)
    decreases |s.prog[0].dst| - k
  {
    hide Listed, InQueue, Placed, Moving, All;
    if k < |s.prog[0].dst| {
      if s.prog[0].dst[k] != 0 && s.prog[0].sqIndex[k] == None {
        OldestHasRoom(s, k);
        AddStoreInv(s, 0, k);
        AddedBelow(s, 0, k);
        OldestEnters(AddStore(s, 0, k), k + 1);
      } else {
        OldestEnters(s, k + 1);
      }
    }
  }

  lemma OldestHasRoom(s: Unit, k: nat)
    requires Inv(s) && s.dispatched > 0 && |s.prog[0].dst| <= |s.sq| && k < |s.prog[0].dst|
    requires s.prog[0].dst[k] != 0 && s.prog[0].sqIndex[k] == None
    ensures Room(s, 0)
  {
    var e := s.prog[0];
    var n := |StoresBelow(e.id, e.dst, k)|;
    OldestFirst(s.prog, k);
    PrefixStores(e.id, e.dst, k + 1, |e.dst|);
    assert PlacedAt(s, 0, k);
    assert s.occupancy <= n < |StoresOf(e)|;
    assert All(s.prog)[s.occupancy] == StoresOf(e)[s.occupancy];
    NewIds(e, s.occupancy);
  }

  /** NUM_INSTR_DESTINATIONS_SPARC: how many members of STA there are for each entry of the reorder buffer. */
  const STA_SHARE: nat := 4

  /**
    STA has room for the stores of the reorder buffer and of the instructions read ahead of it,
    if these together do not have more destinations than STA has members.
   */
  lemma StaFits(s: Unit, robSize: nat, readAhead: nat, destinations: nat)
    requires Inv(s) && s.dispatched <= robSize && |s.prog| - s.dispatched <= readAhead
    requires forall i :: 0 <= i < |s.prog| ==> |s.prog[i].dst| <= destinations
    requires destinations * (robSize + readAhead) <= robSize * STA_SHARE
    ensures |s.sta| <= robSize * STA_SHARE
  {
    AllBounded(s.prog, destinations);
    Monotone(destinations, |s.prog|, robSize + readAhead);
  }

  /**
    So it has, with two destinations an instruction, 352 entries in the reorder buffer, 12 in
    the fetch buffer and 18 in the decode buffer.
   */
  lemma StaFitsAsConfigured(s: Unit)
    requires Inv(s) && s.dispatched <= 352 && |s.prog| - s.dispatched <= 12 + 18
    requires forall i :: 0 <= i < |s.prog| ==> |s.prog[i].dst| <= 2
    ensures |s.sta| <= 352 * STA_SHARE
  {
    StaFits(s, 352, 30, 2);
  }

  lemma Monotone(d: nat, m: nat, n: nat)
    requires m <= n
    ensures d * m <= d * n
  {
    assert d * n == d * m + d * (n - m);
  }
}
