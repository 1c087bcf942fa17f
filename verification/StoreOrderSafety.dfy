/** Every reachable store queue holds the oldest stores of the program, in program order. */
module StoreOrderSafety {
  import opened Options
  import opened RingOrder
  import opened Counting
  import opened StoreOrder

  // ---- The invariant ----

  ghost predicate Shape(s: Unit) {
    && s.head < |s.sq| && 0 <= s.occupancy <= |s.sq| && s.dispatched <= |s.prog| && IdsGrow(s.prog)
    && forall i :: 0 <= i < |s.prog| ==> |s.prog[i].sqIndex| == |s.prog[i].dst|
  }

  /** STA lists exactly the stores that are not in the queue yet, in program order. */
  ghost predicate Listed(s: Unit) {
    && |All(s.prog)| == s.occupancy + |s.sta|
    && forall m :: 0 <= m < |s.sta| ==> 0 <= s.occupancy && s.sta[m] == All(s.prog)[s.occupancy + m].id
  }

  ghost predicate Holds(e: Entry, x: StoreId) { e.Used? && e.id == x.id && e.slot == x.slot }

  /** From head to tail the ring holds the first `n` of the stores `all`. */
  ghost predicate RingHolds(sq: seq<Entry>, head: int, n: int, all: seq<StoreId>) {
    && 0 <= head < |sq| && 0 <= n <= |sq| && n <= |all|
    && (forall m :: 0 <= m < n ==> Holds(sq[At(m, head, |sq|)], all[m]))
    && (forall t :: 0 <= t < |sq| && Pos(t, head, |sq|) >= n ==> sq[t] == Free)
  }

  lemma RingPush(sq: seq<Entry>, head: int, n: int, all: seq<StoreId>)
    requires RingHolds(sq, head, n, all) && n < |sq| && n < |all|
    ensures RingHolds(sq[At(n, head, |sq|) := Used(all[n].id, all[n].slot, false)], head, n + 1, all)
  {
  }

  /** The queue holds, from head to tail, the stores that come first in the program. */
  ghost predicate InQueue(s: Unit) { RingHolds(s.sq, s.head, s.occupancy, All(s.prog)) }

  ghost predicate PlacedAt(s: Unit, i: int, k: int)
    requires Listed(s) && Shape(s) && 0 <= i < |s.prog| && 0 <= k < |s.prog[i].dst|
  {
    match s.prog[i].sqIndex[k]
    case None => forall m :: 0 <= m < s.occupancy ==> All(s.prog)[m] != StoreId(s.prog[i].id, k)
    case Some(t) =>
      t < |s.sq| && Pos(t, s.head, |s.sq|) < s.occupancy
      && All(s.prog)[Pos(t, s.head, |s.sq|)] == StoreId(s.prog[i].id, k)
  }

  /** sq_index is the place of the store in the queue, if it is there. */
  ghost predicate Placed(s: Unit)
    requires Listed(s) && Shape(s)
  {
    && (forall i, k :: 0 <= i < |s.prog| && 0 <= k < |s.prog[i].dst| ==> PlacedAt(s, i, k))
    && (forall i, k :: s.dispatched <= i < |s.prog| && 0 <= k < |s.prog[i].dst| ==> s.prog[i].sqIndex[k] == None)
  }

  ghost predicate OnWay(s: Unit, t: nat) { t in s.rts0 || t in s.translating || t in s.rts1 }

  /** Each store that has not executed is at one stage of its way. */
  ghost predicate Moving(s: Unit) {
    && Distinct(s.rts0) && Distinct(s.rts1)
    && (forall t :: t in s.rts0 ==> t !in s.translating && t !in s.rts1)
    && (forall t :: t in s.translating ==> t !in s.rts1)
    && (forall t: nat :: OnWay(s, t) <==> t < |s.sq| && s.sq[t].Used? && !s.sq[t].done)
  }

  ghost predicate Inv(s: Unit) { Shape(s) && Listed(s) && InQueue(s) && Placed(s) && Moving(s) }

  // ---- Entering the queue ----

  ghost predicate LowerAdded(e: Op, k: nat) {
    |e.sqIndex| == |e.dst| && forall m :: 0 <= m < k && m < |e.dst| && e.dst[m] != 0 ==> e.sqIndex[m].Some?
  }

  lemma OpIsUnique(prog: seq<Op>, i: nat, j: nat)
    requires IdsGrow(prog) && i < |prog| && j < |prog| && prog[i].id == prog[j].id
    ensures i == j
  {
  }

  /** A store at the head of STA whose instruction has its lower stores in is the next in program order. */
  lemma NextStore(s: Unit, i: nat, k: nat)
    requires Shape(s) && Listed(s) && Placed(s) && i < |s.prog| && k < |s.prog[i].dst| && s.prog[i].dst[k] != 0
    requires s.prog[i].sqIndex[k] == None && s.sta != [] && s.sta[0] == s.prog[i].id && LowerAdded(s.prog[i], k)
    ensures All(s.prog)[s.occupancy] == StoreId(s.prog[i].id, k)
  {
    hide All;
    var all := All(s.prog);
    var x := all[s.occupancy];
    AllMembers(s.prog, x);
    var h :| 0 <= h < |s.prog| && HasStore(s.prog[h], x);
    OpIsUnique(s.prog, i, h);
    assert PlacedAt(s, i, x.slot) && PlacedAt(s, i, k);
    var y := StoreId(s.prog[i].id, k);
    assert HasStore(s.prog[i], y);
    AllMembers(s.prog, y);
    var m :| 0 <= m < |all| && all[m] == y;
    if x.slot < k {
      AllInOrder(s.prog, Pos(s.prog[i].sqIndex[x.slot].value, s.head, |s.sq|), s.occupancy);
    } else if x.slot > k {
      AllInOrder(s.prog, s.occupancy, m);
    }
  }

  ghost predicate CanAdd(s: Unit, i: nat, k: nat)
    requires Shape(s)
  {
    && i < s.dispatched && k < |s.prog[i].dst| && s.prog[i].dst[k] != 0 && s.prog[i].sqIndex[k] == None
    && Room(s, i) && LowerAdded(s.prog[i], k)
  }

  /** After a store the lower slots are in. */
  lemma AddedBelow(s: Unit, i: nat, k: nat)
    requires Shape(s) && CanAdd(s, i, k)
    ensures LowerAdded(AddStore(s, i, k).prog[i], k + 1) && AddStore(s, i, k).prog[i].dst == s.prog[i].dst
  {
  }

  /** The tail slot is free when a store enters: the sanity check of add_store_queue holds. */
  lemma TailIsFree(s: Unit)
    requires Inv(s) && s.occupancy < |s.sq|
    ensures var t := At(s.occupancy, s.head, |s.sq|); 0 <= t < |s.sq| && s.sq[t] == Free
  {
    assert Pos(At(s.occupancy, s.head, |s.sq|), s.head, |s.sq|) == s.occupancy;
  }

  lemma AddStoreQueue(s: Unit, i: nat, k: nat)
    requires Inv(s) && CanAdd(s, i, k)
    ensures var s1 := AddStore(s, i, k); Shape(s1) && Listed(s1) && InQueue(s1) && All(s1.prog) == All(s.prog)
  {
    var s1 := AddStore(s, i, k);
    AllSame(s.prog, s1.prog);
    NextStore(s, i, k);
    hide All, Placed, Moving;
    RingPush(s.sq, s.head, s.occupancy, All(s.prog));
    hide RingHolds;
  }

  lemma AddStorePlaces(s: Unit, i: nat, k: nat)
    requires Inv(s) && CanAdd(s, i, k)
    ensures var s1 := AddStore(s, i, k); Shape(s1) && Listed(s1) && Placed(s1)
  {
    var s1 := AddStore(s, i, k);
    AddStoreQueue(s, i, k);
    hide Moving, All;
    forall h, m | 0 <= h < |s1.prog| && 0 <= m < |s1.prog[h].dst| ensures PlacedAt(s1, h, m) {
      AddStorePlace(s, i, k, h, m);
    }
  }

  lemma AddStorePlace(s: Unit, i: nat, k: nat, h: nat, m: nat)
    requires Inv(s) && CanAdd(s, i, k) && h < |s.prog| && m < |s.prog[h].dst|
    ensures var s1 := AddStore(s, i, k); Shape(s1) && Listed(s1) && PlacedAt(s1, h, m)
  {
    AddStoreQueue(s, i, k);
    NextStore(s, i, k);
    assert PlacedAt(s, h, m);
    hide Moving, All, InQueue, Placed;
    if s.prog[h].id == s.prog[i].id {
      OpIsUnique(s.prog, h, i);
    }
  }

  lemma AddStoreMoves(s: Unit, i: nat, k: nat)
    requires Inv(s) && CanAdd(s, i, k)
    ensures Moving(AddStore(s, i, k))
  {
    var s1 := AddStore(s, i, k);
    TailIsFree(s);
    hide Listed, InQueue, Placed, All;
    var t := At(s.occupancy, s.head, |s.sq|);
    assert !OnWay(s, t);
    assert forall u: nat :: OnWay(s1, u) <==> OnWay(s, u) || u == t;
  }

  lemma AddStoreInv(s: Unit, i: nat, k: nat)
    requires Inv(s) && CanAdd(s, i, k)
    ensures Inv(AddStore(s, i, k))
  {
    AddStoreQueue(s, i, k);
    AddStorePlaces(s, i, k);
    AddStoreMoves(s, i, k);
  }

  /** check_and_add_lsq lets stores in only in program order. */
  lemma {:induction false} AddStoresInv(s: Unit, i: nat, k: nat)
    requires Inv(s) && i < s.dispatched && k <= |s.prog[i].dst|
    requires Room(s, i) ==> LowerAdded(s.prog[i], k)
    ensures Inv(AddStores(s, i, k)) && AddStores(s, i, k).dispatched == s.dispatched
    ensures |AddStores(s, i, k).prog| == |s.prog| && All(AddStores(s, i, k).prog) == All(s.prog)
    decreases |s.prog[i].dst| - k
  {
    hide Listed, InQueue, Placed, Moving, All;
    if k < |s.prog[i].dst| {
      if s.prog[i].dst[k] != 0 && s.prog[i].sqIndex[k] == None && Room(s, i) {
        AddStoreInv(s, i, k);
        AddStoreQueue(s, i, k);
        AddedBelow(s, i, k);
        AddStoresInv(AddStore(s, i, k), i, k + 1);
      } else {
        AddStoresInv(s, i, k + 1);
      }
    }
  }

  // ---- The other steps ----

  lemma ReadListed(s: Unit, id: nat, dst: seq<nat>)
    requires Shape(s) && Listed(s)
    ensures Listed(Read(s, id, dst)) && All(s.prog) <= All(Read(s, id, dst).prog)
  {
    var s1 := Read(s, id, dst);
    var e := s1.prog[|s.prog|];
    AllAppend(s.prog, e);
    assert s1.prog == s.prog + [e];
    hide All, StoresOf;
    forall m | 0 <= m < |s1.sta| ensures s1.sta[m] == All(s1.prog)[s1.occupancy + m].id {
      if m >= |s.sta| {
        NewIds(e, m - |s.sta|);
      }
    }
  }

  lemma ReadInv(s: Unit, id: nat, dst: seq<nat>)
    requires Inv(s) && forall i :: 0 <= i < |s.prog| ==> s.prog[i].id < id
    ensures Inv(Read(s, id, dst))
  {
    var s1 := Read(s, id, dst);
    ReadListed(s, id, dst);
    hide All;
    assert Placed(s1) by {
      hide InQueue, Moving;
      forall i, k | 0 <= i < |s1.prog| && 0 <= k < |s1.prog[i].dst| ensures PlacedAt(s1, i, k) {
        if i < |s.prog| {
          assert PlacedAt(s, i, k);
        } else {
          NotListedYet(s, id, k);
        }
      }
    }
    assert InQueue(s1) by {
      hide Moving, Placed;
    }
    assert forall t: nat :: OnWay(s1, t) <==> OnWay(s, t);
  }

  lemma NewIds(e: Op, m: nat)
    requires m < |StoresOf(e)|
    ensures StoresOf(e)[m].id == e.id
  {
    StoresBelowAre(e.id, e.dst, |e.dst|);
    assert StoresOf(e)[m] in StoresOf(e);
  }

  lemma NotListedYet(s: Unit, id: nat, k: nat)
    requires forall i :: 0 <= i < |s.prog| ==> s.prog[i].id < id
    ensures StoreId(id, k) !in All(s.prog)
  {
    AllMembers(s.prog, StoreId(id, k));
  }

  lemma DispatchInv(s: Unit)
    requires Inv(s) && s.dispatched < |s.prog|
    ensures Inv(Dispatch(s))
  {
    var s1 := Dispatch(s);
    forall i, k | 0 <= i < |s1.prog| && 0 <= k < |s1.prog[i].dst| ensures PlacedAt(s1, i, k) {
      assert PlacedAt(s, i, k);
    }
    assert forall t: nat :: OnWay(s1, t) <==> OnWay(s, t);
  }

  /** Only the stages of stores change, and which of them have executed. */
  lemma StageInv(s: Unit, s1: Unit)
    requires Inv(s) && Moving(s1)
    requires s1.prog == s.prog && s1.dispatched == s.dispatched && s1.sta == s.sta && s1.head == s.head
    requires s1.occupancy == s.occupancy && |s1.sq| == |s.sq|
    requires forall t :: 0 <= t < |s.sq| ==> s1.sq[t] == s.sq[t] || (s.sq[t].Used? && s1.sq[t] == s.sq[t].(done := true))
    ensures Inv(s1)
  {
    assert InQueue(s1) by {
      forall m | 0 <= m < s1.occupancy ensures Holds(s1.sq[At(m, s1.head, |s1.sq|)], All(s1.prog)[m]) {
        assert Holds(s.sq[At(m, s.head, |s.sq|)], All(s.prog)[m]);
      }
    }
    forall i, k | 0 <= i < |s1.prog| && 0 <= k < |s1.prog[i].dst| ensures PlacedAt(s1, i, k) {
      assert PlacedAt(s, i, k);
    }
  }

  lemma SendStoreInv(s: Unit)
    requires Inv(s) && s.rts0 != []
    ensures Inv(SendStore(s))
  {
    var s1 := SendStore(s);
    assert s.rts0[0] in s.rts0 && s.rts0 == [s.rts0[0]] + s1.rts0;
    assert forall t: nat :: OnWay(s1, t) <==> OnWay(s, t);
    StageInv(s, s1);
  }

  lemma StoreTranslatedInv(s: Unit, t: nat)
    requires Inv(s) && t in s.translating
    ensures Inv(StoreTranslated(s, t))
  {
    var s1 := StoreTranslated(s, t);
    assert forall u: nat :: OnWay(s1, u) <==> OnWay(s, u);
    StageInv(s, s1);
  }

  lemma ExecuteStoreInv(s: Unit)
    requires Inv(s) && s.rts1 != []
    ensures s.rts1[0] < |s.sq| && s.sq[s.rts1[0]].Used? && Inv(ExecuteStore(s))
  {
    assert OnWay(s, s.rts1[0]);
    var s1 := ExecuteStore(s);
    assert s.rts1 == [s.rts1[0]] + s1.rts1;
    assert forall t: nat :: OnWay(s1, t) <==> OnWay(s, t) && t != s.rts1[0];
    StageInv(s, s1);
  }

  // ---- Retirement ----

  /** The oldest instruction has all its stores in the queue, executed. */
  ghost predicate CanRetire(s: Unit)
    requires Shape(s)
  {
    && s.dispatched > 0
    && forall k :: 0 <= k < |s.prog[0].dst| && s.prog[0].dst[k] != 0 ==>
         match s.prog[0].sqIndex[k]
         case None => false
         case Some(t) => t < |s.sq| && s.sq[t].Used? && s.sq[t].done
  }

  /** The queue without its first `n` stores. */
  function Without(s: Unit, n: nat): Unit
    requires s.head < |s.sq| && n <= |s.sq|
  {
    s.(sq := seq(|s.sq|, t requires 0 <= t < |s.sq| => if Pos(t, s.head, |s.sq|) < n then Free else s.sq[t]),
       head := At(n, s.head, |s.sq|), occupancy := s.occupancy - n)
  }

  /** A store in the queue is as far from the head as it is from the start of the program. */
  lemma PlaceIs(s: Unit, i: nat, k: nat, n: nat)
    requires Shape(s) && Listed(s) && Placed(s) && i < |s.prog| && k < |s.prog[i].dst| && s.prog[i].sqIndex[k].Some?
    requires n < |All(s.prog)| && All(s.prog)[n] == StoreId(s.prog[i].id, k)
    ensures n < s.occupancy && s.prog[i].sqIndex[k] == Some(At(n, s.head, |s.sq|))
  {
    assert PlacedAt(s, i, k);
    hide All;
    var m := Pos(s.prog[i].sqIndex[k].value, s.head, |s.sq|);
    if m < n {
      AllInOrder(s.prog, m, n);
    } else if n < m {
      AllInOrder(s.prog, n, m);
    }
  }

  lemma OldestFirst(prog: seq<Op>, k: nat)
    requires prog != [] && k < |prog[0].dst| && prog[0].dst[k] != 0
    ensures var n := |StoresBelow(prog[0].id, prog[0].dst, k)|;
            n < |All(prog)| && All(prog)[n] == StoreId(prog[0].id, k)
  {
    var e := prog[0];
    PrefixStores(e.id, e.dst, k + 1, |e.dst|);
  }

  /** The stores of the oldest instruction are at the front of the queue. */
  lemma OldestStores(s: Unit, k: nat)
    requires Inv(s) && CanRetire(s) && k < |s.prog[0].dst| && s.prog[0].dst[k] != 0
    ensures var n := |StoresBelow(s.prog[0].id, s.prog[0].dst, k)|;
            n < s.occupancy && s.prog[0].sqIndex[k] == Some(At(n, s.head, |s.sq|))
  {
    hide All, StoresBelow;
    OldestFirst(s.prog, k);
    PlaceIs(s, 0, k, |StoresBelow(s.prog[0].id, s.prog[0].dst, k)|);
  }

  lemma {:induction false} PrefixStores(id: nat, dst: seq<nat>, k: nat, n: nat)
    requires k <= n <= |dst|
    ensures StoresBelow(id, dst, k) <= StoresBelow(id, dst, n)
    decreases n
  {
    if k < n {
      PrefixStores(id, dst, k, n - 1);
      var r := StoresBelow(id, dst, n - 1);
      assert StoresBelow(id, dst, n) == r || StoresBelow(id, dst, n) == r + [StoreId(id, n - 1)];
      hide StoresBelow;
      assert r <= StoresBelow(id, dst, n);
    }
  }

  lemma NoStoreId(prog: seq<Op>, i: nat, k: nat)
    requires IdsGrow(prog) && i < |prog| && k < |prog[i].dst| && prog[i].dst[k] == 0
    ensures StoreId(prog[i].id, k) !in All(prog)
  {
    AllMembers(prog, StoreId(prog[i].id, k));
    forall h | 0 <= h < |prog| && HasStore(prog[h], StoreId(prog[i].id, k)) ensures h == i {
      OpIsUnique(prog, h, i);
    }
  }

  /** Only stores are in the queue. */
  lemma NoStoreNoPlace(s: Unit, i: nat, k: nat)
    requires Shape(s) && Listed(s) && Placed(s) && i < |s.prog| && k < |s.prog[i].dst| && s.prog[i].dst[k] == 0
    ensures s.prog[i].sqIndex[k] == None
  {
    assert PlacedAt(s, i, k);
    NoStoreId(s.prog, i, k);
  }

  /** One slot of the oldest instruction is released: the front of the queue, or nothing. */
  lemma ReleaseStep(s: Unit, k: nat)
    requires Inv(s) && CanRetire(s) && k < |s.prog[0].dst| && Inside(s.prog[0], |s.sq|)
    requires |StoresBelow(s.prog[0].id, s.prog[0].dst, k + 1)| <= s.occupancy
    ensures var n := |StoresBelow(s.prog[0].id, s.prog[0].dst, k)|; var n1 := |StoresBelow(s.prog[0].id, s.prog[0].dst, k + 1)|;
            n <= s.occupancy && Without(s, n).head < |s.sq| && Without(s, n1).head < |s.sq|
            && Release(Without(s, n), k) == Release(Without(s, n1), k + 1)
  {
    hide Listed, InQueue, Placed, Moving, All;
    var n := |StoresBelow(s.prog[0].id, s.prog[0].dst, k)|;
    if s.prog[0].dst[k] != 0 {
      OldestStores(s, k);
      ReleaseOne(s, n);
    } else {
      NoStoreNoPlace(s, 0, k);
    }
    hide StoresBelow, Inv, CanRetire;
  }

  /** From slot `k` on, what is released are the stores at the front of the queue, one by one. */
  lemma {:induction false} ReleaseFrom(s: Unit, k: nat)
    requires Inv(s) && CanRetire(s) && k <= |s.prog[0].dst| && Inside(s.prog[0], |s.sq|)
    ensures |StoresBelow(s.prog[0].id, s.prog[0].dst, k)| <= s.occupancy && |StoresOf(s.prog[0])| <= s.occupancy
    ensures Without(s, |StoresBelow(s.prog[0].id, s.prog[0].dst, k)|).head < |s.sq|
    ensures Release(Without(s, |StoresBelow(s.prog[0].id, s.prog[0].dst, k)|), k) == Without(s, |StoresOf(s.prog[0])|)
    decreases |s.prog[0].dst| - k
  {
    hide Listed, InQueue, Placed, Moving, All, StoresBelow;
    OldestFit(s, k);
    OldestFit(s, |s.prog[0].dst|);
    if k < |s.prog[0].dst| {
      ReleaseFrom(s, k + 1);
      ReleaseStep(s, k);
      hide Release;
    }
  }

  lemma {:induction false} OldestFit(s: Unit, k: nat)
    requires Inv(s) && CanRetire(s) && k <= |s.prog[0].dst|
    ensures |StoresBelow(s.prog[0].id, s.prog[0].dst, k)| <= s.occupancy
  {
    if k > 0 {
      OldestFit(s, k - 1);
      if s.prog[0].dst[k - 1] != 0 {
        OldestStores(s, k - 1);
      }
    }
  }

  /** The store at the front goes. */
  lemma ReleaseOne(s: Unit, n: nat)
    requires s.head < |s.sq| && n < |s.sq|
    ensures var w := Without(s, n); var t := At(n, s.head, |s.sq|);
            && w.head == t && w.head < |w.sq|
            && w.(sq := w.sq[t := Free], head := At(1, w.head, |w.sq|), occupancy := w.occupancy - 1) == Without(s, n + 1)
  {
    var w := Without(s, n);
    var t := At(n, s.head, |s.sq|);
    assert w.sq[t := Free] == Without(s, n + 1).sq;
  }

  lemma RetireInside(s: Unit)
    requires Inv(s) && s.dispatched > 0
    ensures Inside(s.prog[0], |s.sq|)
  {
    forall k | 0 <= k < |s.prog[0].sqIndex| && s.prog[0].sqIndex[k].Some? ensures s.prog[0].sqIndex[k].value < |s.sq| {
      assert PlacedAt(s, 0, k);
    }
  }

  /** Retirement frees exactly the slots at SQ.head: those of the instruction's own stores, in order. */
  lemma RetireFreesTheFront(s: Unit)
    requires Inv(s) && CanRetire(s)
    ensures Inside(s.prog[0], |s.sq|) && |StoresOf(s.prog[0])| <= s.occupancy
    ensures Retire(s) == Without(s, |StoresOf(s.prog[0])|).(prog := s.prog[1..], dispatched := s.dispatched - 1)
    ensures forall m :: 0 <= m < |StoresOf(s.prog[0])| ==> Holds(s.sq[At(m, s.head, |s.sq|)], StoresOf(s.prog[0])[m])
  {
    RetireInside(s);
    ReleaseFrom(s, 0);
    assert Without(s, 0).sq == s.sq;
    assert Without(s, 0) == s;
    forall m | 0 <= m < |StoresOf(s.prog[0])| ensures Holds(s.sq[At(m, s.head, |s.sq|)], StoresOf(s.prog[0])[m]) {
      assert All(s.prog)[m] == StoresOf(s.prog[0])[m];
    }
  }
}
