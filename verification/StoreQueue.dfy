/** The store queue and STA as the simulator runs them: rings with head and tail, in place. */
module StoreQueues {
  import opened Options
  import opened RingOrder
  import opened IndexRings
  import opened Counting
  import opened StoreOrder
  import opened StoreOrderSafety
  import opened StoreOrderRuns

  /** Where a cycle over the destinations of an instruction stands after slot `k`. */
  ghost predicate Reading(sta0: seq<nat>, sta: seq<nat>, id: nat, dst: seq<nat>, k: nat) {
    k <= |dst| && sta == sta0 + seq(|StoresBelow(id, dst, k)|, _ => id)
  }

  lemma ReadingMore(sta0: seq<nat>, sta: seq<nat>, id: nat, dst: seq<nat>, k: nat)
    requires Reading(sta0, sta, id, dst, k) && k < |dst|
    ensures Reading(sta0, if dst[k] == 0 then sta else sta + [id], id, dst, k + 1)
  {
  }

  /** A store that enters leaves its stage ring with room for it. */
  lemma RingHasRoom(s: Unit)
    requires Inv(s) && s.occupancy < |s.sq|
    ensures |s.rts0| < |s.sq|
  {
    TailIsFree(s);
    forall a | 0 <= a < |s.rts0| ensures s.rts0[a] < |s.sq| {
      assert OnWay(s, s.rts0[a]);
    }
    var t := At(s.occupancy, s.head, |s.sq|);
    assert !OnWay(s, t);
    Pigeonhole(s.rts0, |s.sq|);
  }

  class StoreQueue {
    const sta: IndexRing
    const rts0: IndexRing
    const sq: array<Entry>
    const robSize: nat
    const readAhead: nat
    const destinations: nat
    var prog: seq<Op>
    var dispatched: nat
    var head: nat
    var tail: nat
    var occupancy: nat
    ghost var translating: set<nat>
    var rts1: seq<nat>

    ghost predicate Rings()
      reads this, sta, sta.slots, rts0, rts0.slots, sq
    {
      && sta != rts0 && sta.slots != rts0.slots && sta.Valid() && rts0.Valid()
      && sq as object != sta.slots && sq as object != rts0.slots
      && rts0.slots.Length == rts0.empty == sq.Length && sta.slots.Length == robSize * STA_SHARE
      && head < sq.Length && occupancy <= sq.Length && tail == At(occupancy, head, sq.Length)
    }

    ghost function Value(): Unit
      reads this, sta, rts0, sq
    {
      Unit(prog, dispatched, sta.contents, sq[..], head, occupancy, rts0.contents, translating, rts1)
    }

    constructor (size: nat, robSize: nat, readAhead: nat, destinations: nat, noId: nat)
      requires size > 0 && robSize > 0
      ensures Rings() && Value() == Initial(size) && sta.empty == noId
      ensures this.robSize == robSize && this.readAhead == readAhead && this.destinations == destinations
    {
      var a := new IndexRing(robSize * STA_SHARE, noId);
      var b := new IndexRing(size, size);
      sta, rts0 := a, b;
      sq := new Entry[size](_ => Free);
      this.robSize, this.readAhead, this.destinations := robSize, readAhead, destinations;
      prog, dispatched, head, tail, occupancy, translating, rts1 := [], 0, 0, 0, 0, {}, [];
      new;
      assert Value() == Initial(size);
    }

    /** List every store of an instruction in STA. */
    method ListStores(id: nat, dst: seq<nat>)
      requires Rings() && id < sta.empty && |sta.contents| + |StoresBelow(id, dst, |dst|)| <= sta.slots.Length
      modifies sta, sta.slots
      ensures Rings() && Reading(old(sta.contents), sta.contents, id, dst, |dst|)
      ensures sq[..] == old(sq[..]) && rts0.contents == old(rts0.contents)
    {
      ghost var sta0 := sta.contents;
      assert Reading(sta0, sta0, id, dst, 0);
      hide Pos, At, StoresBelow, Reading;
      for k := 0 to |dst|
        invariant Rings() && Reading(sta0, sta.contents, id, dst, k)
      {
        ReadingMore(sta0, sta.contents, id, dst, k);
        if dst[k] != 0 {
          ReadingFits(sta0, sta.contents, id, dst, k);
          sta.Push(id);
        }
      }
    }

    /**
      read_from_trace, while the buffers between the trace and the reorder buffer have room:
      every store of the instruction is listed in STA, which has room for it.
     */
    method ReadFromTrace(id: nat, dst: seq<nat>)
      requires Rings() && Inv(Value()) && (forall i :: 0 <= i < |prog| ==> prog[i].id < id) && id < sta.empty
      requires dispatched <= robSize && |prog| - dispatched < readAhead
      requires |dst| <= destinations && forall i :: 0 <= i < |prog| ==> |prog[i].dst| <= destinations
      requires destinations * (robSize + readAhead) <= robSize * STA_SHARE
      modifies this`prog, sta, sta.slots
      ensures Rings() && Inv(Value()) && Value() == Read(old(Value()), id, dst)
    {
      ghost var s := Value();
      ReadInv(s, id, dst);
      StaFits(Read(s, id, dst), robSize, readAhead, destinations);
      hide Inv, StoresBelow, Pos, At;
      ListStores(id, dst);
      prog := prog + [Op(id, dst, seq(|dst|, _ => None))];
    }

    /** add_store_queue: a store takes the tail slot, which is free. */
    method AddStoreQueue(i: nat, k: nat)
      requires Rings() && Inv(Value()) && CanAdd(Value(), i, k)
      modifies this`prog, this`tail, this`occupancy, sta, sta.slots, rts0, rts0.slots, sq
      ensures Rings() && Inv(Value()) && Value() == AddStore(old(Value()), i, k)
    {
      ghost var s := Value();
      TailIsFree(s);
      RingHasRoom(s);
      AddStoreInv(s, i, k);
      hide Inv;
      var t := tail;
      // The sanity check of the source: the tail slot is free.
      assert sq[t] == Free;
      prog := prog[i := prog[i].(sqIndex := prog[i].sqIndex[k := Some(t)])];
      sq[t] := Used(prog[i].id, k, false);
      occupancy := occupancy + 1;
      tail := tail + 1;
      if tail == sq.Length {
        tail := 0;
      }
      sta.Pop();
      rts0.Push(t);
    }

    /** The store half of check_and_add_lsq. */
    method AddStoresOf(i: nat)
      requires Rings() && Inv(Value()) && i < dispatched
      modifies this`prog, this`tail, this`occupancy, sta, sta.slots, rts0, rts0.slots, sq
      ensures Rings() && Inv(Value()) && old(Inv(Value())) && Value() == AddStores(old(Value()), i, 0)
    {
      ghost var s := Value();
      for k := 0 to |prog[i].dst|
        invariant Rings() && Inv(Value()) && dispatched == s.dispatched
        invariant |prog| == |s.prog| && prog[i].dst == s.prog[i].dst
        invariant Room(Value(), i) ==> LowerAdded(prog[i], k)
        invariant AddStores(Value(), i, k) == AddStores(s, i, 0)
      {
        hide Listed, InQueue, Placed, Moving;
        if prog[i].dst[k] != 0 && prog[i].sqIndex[k] == None {
          if occupancy < sq.Length {
            var occupied, id := sta.Peek();
            if occupied && id == prog[i].id {
              AddedBelow(Value(), i, k);
              AddStoreQueue(i, k);
            }
          }
        }
      }
    }

    /** Free the queue slot of one store of the oldest instruction. */
    method ReleaseSlot(t: nat)
      requires Rings() && t < sq.Length && occupancy > 0
      modifies this`head, this`occupancy, sq
      ensures Rings() && sq[..] == old(sq[..])[t := Free] && head == At(1, old(head), sq.Length) && occupancy == old(occupancy) - 1
    {
      sq[t] := Free;
      occupancy := occupancy - 1;
      head := head + 1;
      if head == sq.Length {
        head := 0;
      }
    }

    /** Free the queue slots of the oldest instruction one by one. */
    method ReleaseSlots()
      requires Rings() && Inv(Value()) && CanRetire(Value()) && RetireIsWithout(Value())
      modifies this`head, this`occupancy, sq
      ensures Rings() && old(RetireIsWithout(Value())) && Value() == Release(old(Value()), 0)
    {
      ghost var s := Value();
      assert s.dispatched > 0 && |s.prog[0].sqIndex| == |s.prog[0].dst| && Inside(s.prog[0], |s.sq|);
      assert 0 <= s.head < |s.sq|;
      hide Inv, CanRetire, RetireIsWithout, Shape, Inside;
      for k := 0 to |prog[0].sqIndex|
        invariant Rings() && prog == s.prog && dispatched == s.dispatched
        invariant Release(Value(), k) == Release(s, 0)
        invariant occupancy + |StoresBelow(prog[0].id, prog[0].dst, k)| == s.occupancy
      {
        StoreCounts(s, k);
        if prog[0].sqIndex[k] != None {
          ReleaseSlot(prog[0].sqIndex[k].value);
        }
      }
    }

    /** retire_rob, the oldest instruction. */
    method RetireHead()
      requires Rings() && Inv(Value()) && CanRetire(Value())
      modifies this`prog, this`dispatched, this`head, this`occupancy, sq
      ensures Rings() && Inv(Value()) && RetireIsWithout(old(Value())) && Value() == Retire(old(Value()))
    {
      RetireInv(Value());
      ReleaseSlots();
      hide Inv, Release;
      prog := prog[1..];
      dispatched := dispatched - 1;
    }
  }

  /** The list has room for one more store of an instruction that fits. */
  lemma ReadingFits(sta0: seq<nat>, sta: seq<nat>, id: nat, dst: seq<nat>, k: nat)
    requires Reading(sta0, sta, id, dst, k) && k < |dst| && dst[k] != 0
    ensures |sta| < |sta0| + |StoresBelow(id, dst, |dst|)|
  {
    PrefixStores(id, dst, k + 1, |dst|);
  }

  /** A retiring instruction has a slot to free exactly for each of its stores. */
  lemma StoreCounts(s: Unit, k: nat)
    requires Inv(s) && CanRetire(s) && k < |s.prog[0].dst|
    ensures s.prog[0].sqIndex[k] != None <==> s.prog[0].dst[k] != 0
    ensures s.prog[0].dst[k] != 0 ==> |StoresBelow(s.prog[0].id, s.prog[0].dst, k)| < s.occupancy
  {
    if s.prog[0].dst[k] == 0 {
      NoStoreNoPlace(s, 0, k);
    } else {
      OldestStores(s, k);
    }
  }
}
