/** Who waits for a line that is on its way: requests that merge are gathered, none is forgotten. */
module CacheWaiters {
  import opened Options
  import opened Powers
  import opened Recency
  import opened CacheModel
  import opened CacheSafety
  import opened CacheRuns

  /** The loads to tell when the request is answered: its own, and those merged into it. */
  ghost function LoadsOf(p: Packet): set<nat> {
    (if p.kind == Load then {p.lqIndex} else {}) + (if p.loadMerged then p.loads else {})
  }

  /** The stores to tell; only a translation for a store has one of its own. */
  ghost function StoresOf(p: Packet): set<nat> {
    (if p.kind == Rfo && p.tlbAccess then {p.sqIndex} else {}) + (if p.storeMerged then p.stores else {})
  }

  /** The sets of dependents are only filled where the flags say so, and a prefetch has none. */
  ghost predicate Honest(p: Packet) {
    && (!p.loadMerged ==> p.loads == {}) && (!p.storeMerged ==> p.stores == {})
    && (p.kind == Prefetch ==> !p.loadMerged && !p.storeMerged)
  }

  ghost predicate AllHonest(c: Cache) { forall i :: 0 <= i < |c.mshr| ==> Honest(c.mshr[i]) }

  /** A demand read: a load, or a translation for a store. */
  predicate IsDemand(p: Packet) { p.kind == Load || (p.kind == Rfo && p.tlbAccess) }

  lemma GatherLoads(e: Packet, p: Packet)
    requires Honest(e) && Honest(p) && IsDemand(p)
    ensures LoadsOf(Gather(e, p)) == LoadsOf(e) + LoadsOf(p)
  {
  }

  lemma GatherStores(e: Packet, p: Packet)
    requires Honest(e) && Honest(p) && IsDemand(p)
    ensures StoresOf(Gather(e, p)) == StoresOf(e) + StoresOf(p)
  {
  }

  lemma GatherHonest(e: Packet, p: Packet)
    requires Honest(e) && Honest(p) && IsDemand(p)
    ensures Gather(e, p).kind == e.kind && (e.kind != Prefetch ==> Honest(Gather(e, p)))
  {
  }

  /** A read that merges adds its waiters to those of the register, even where it overwrites a prefetch. */
  lemma MergeGathers(e: Packet, p: Packet)
    requires Honest(e) && Honest(p) && IsDemand(p)
    ensures Honest(Merge(e, p, Reads))
    ensures LoadsOf(Merge(e, p, Reads)) == LoadsOf(e) + LoadsOf(p)
    ensures StoresOf(Merge(e, p, Reads)) == StoresOf(e) + StoresOf(p)
  {
    GatherHonest(e, p);
    if e.kind == Prefetch {
      assert LoadsOf(e) == {} && StoresOf(e) == {};
      hide Gather;
    } else {
      GatherLoads(e, p);
      GatherStores(e, p);
      hide Gather;
    }
  }

  /** A write of an L1D, or a prefetch, brings no waiter and takes none away. */
  lemma MergeKeeps(e: Packet, p: Packet, from: Queue)
    requires Honest(e) && Honest(p) && from != Reads && LoadsOf(p) == {} && StoresOf(p) == {}
    requires from == Prefetches ==> p.kind == Prefetch
    ensures Honest(Merge(e, p, from))
    ensures LoadsOf(Merge(e, p, from)) == LoadsOf(e) && StoresOf(Merge(e, p, from)) == StoresOf(e)
  {
  }

  /** Load `x` will be told when the line of `a` has come. */
  ghost predicate LoadWaits(c: Cache, a: nat, x: nat) {
    exists i :: 0 <= i < |c.mshr| && c.mshr[i].address == a && x in LoadsOf(c.mshr[i])
  }

  ghost predicate StoreWaits(c: Cache, a: nat, x: nat) {
    exists i :: 0 <= i < |c.mshr| && c.mshr[i].address == a && x in StoresOf(c.mshr[i])
  }

  // ---- Conservation ----

  /** What a handler may be given: demands from above to read, stores to write, prefetches to prefetch. */
  ghost predicate Sensible(step: Step) {
    match step
    case Read(p) => Honest(p) && IsDemand(p)
    case Wrote(p) => Honest(p) && LoadsOf(p) == {} && StoresOf(p) == {}
    case Prefetched(p, _) => Honest(p) && p.kind == Prefetch
    case _ => true
  }

  /** The request that a step answers: a read that hits, or the register that a fill empties. */
  ghost function Answered(c: Cache, step: Step): Option<Packet>
    requires |c.sets| > 0
  {
    match step
    case Read(p) => if Cached(c, p.address) then Some(p) else None
    case Filling(now, lowerRoom) => if CanFill(c, now, lowerRoom) then Some(c.mshr[c.nextIndex]) else None
    case _ => None
  }

  /** The request that a step leaves waiting. */
  ghost function Joined(c: Cache, step: Step): Option<Packet>
    requires |c.sets| > 0
  {
    match step
    case Read(p) => if !Cached(c, p.address) && HandleRead(c, p).handled then Some(p) else None
    case _ => None
  }

  /** One register changes: its new waiters are the given ones. */
  lemma RegisterChange(c: Cache, c1: Cache, i: nat, a: nat, x: nat)
    requires MshrOk(c) && MshrOk(c1) && i < |c.mshr| && |c1.mshr| == |c.mshr| && a != 0
    requires forall k :: 0 <= k < |c.mshr| && k != i ==> c1.mshr[k] == c.mshr[k]
    ensures c.mshr[i].address != a && c1.mshr[i].address != a ==>
              (LoadWaits(c1, a, x) <==> LoadWaits(c, a, x)) && (StoreWaits(c1, a, x) <==> StoreWaits(c, a, x))
    ensures c1.mshr[i].address == a ==>
              (LoadWaits(c1, a, x) <==> x in LoadsOf(c1.mshr[i])) && (StoreWaits(c1, a, x) <==> x in StoresOf(c1.mshr[i]))
    ensures c.mshr[i].address == a ==>
              (LoadWaits(c, a, x) <==> x in LoadsOf(c.mshr[i])) && (StoreWaits(c, a, x) <==> x in StoresOf(c.mshr[i]))
    ensures c1.mshr[i].address == a != c.mshr[i].address ==> !LoadWaits(c, a, x) && !StoreWaits(c, a, x)
    ensures c.mshr[i].address == a != c1.mshr[i].address ==> !LoadWaits(c1, a, x) && !StoreWaits(c1, a, x)
  {
    assert forall k :: 0 <= k < |c.mshr| && k != i ==> c1.mshr[k].address == c.mshr[k].address;
  }

  ghost predicate JoinsOnly(c: Cache, c1: Cache, p: Packet, a: nat, x: nat) {
    && (LoadWaits(c1, a, x) <==> LoadWaits(c, a, x) || (a == p.address && x in LoadsOf(p)))
    && (StoreWaits(c1, a, x) <==> StoreWaits(c, a, x) || (a == p.address && x in StoresOf(p)))
  }

  /** After a miss the line has the waiters it had and those of the request; other lines are as before. */
  lemma MissJoins(c: Cache, p: Packet, from: Queue, keep: bool, a: nat, x: nat)
    requires Inv(c) && AllHonest(c) && p.address != 0 && !Cached(c, p.address) && Honest(p) && a != 0
    requires from == Reads ==> IsDemand(p) && keep
    requires from != Reads ==> LoadsOf(p) == {} && StoresOf(p) == {}
    requires from == Prefetches ==> p.kind == Prefetch
    ensures var r := Miss(c, p, from, keep); r.handled ==> JoinsOnly(c, r.cache, p, a, x)
    ensures AllHonest(Miss(c, p, from, keep).cache)
  {
    MissInv(c, p, from, keep);
    RegisterIsFree(c);
    var c1 := Miss(c, p, from, keep).cache;
    match CheckMshr(c.mshr, p.address)
    case Some(i) =>
      if from == Reads {
        MergeGathers(c.mshr[i], p);
      } else {
        MergeKeeps(c.mshr[i], p, from);
      }
      MergeKeepsArrival(c.mshr[i], p, from);
      hide Merge, LoadsOf, StoresOf, SetsOk, Exclusive, NextOk;
      RegisterChange(c, c1, i, a, x);
    case None =>
      if c.occupancy < |c.mshr| && keep {
        var i := CheckMshr(c.mshr, 0).value;
        assert LoadsOf(p.(returned := false)) == LoadsOf(p) && StoresOf(p.(returned := false)) == StoresOf(p);
        hide Merge, LoadsOf, StoresOf, SetsOk, Exclusive, NextOk;
        RegisterChange(c, c1, i, a, x);
      }
  }

  /** No register changes, or one changes only when its line arrives. */
  lemma NobodyJoins(c: Cache, c1: Cache, a: nat, x: nat)
    requires |c1.mshr| == |c.mshr|
    requires forall i :: 0 <= i < |c.mshr| ==>
               c1.mshr[i].address == c.mshr[i].address && LoadsOf(c1.mshr[i]) == LoadsOf(c.mshr[i])
               && StoresOf(c1.mshr[i]) == StoresOf(c.mshr[i])
    ensures LoadWaits(c1, a, x) <==> LoadWaits(c, a, x)
    ensures StoreWaits(c1, a, x) <==> StoreWaits(c, a, x)
  {
  }

  lemma FillAnswers(c: Cache, now: nat, lowerRoom: bool, a: nat, x: nat)
    requires Inv(c) && CanFill(c, now, lowerRoom) && a != 0
    ensures var c1 := HandleFill(c, now, lowerRoom); var e := c.mshr[c.nextIndex];
            && (LoadWaits(c, a, x) <==> LoadWaits(c1, a, x) || (a == e.address && x in LoadsOf(e)))
            && (StoreWaits(c, a, x) <==> StoreWaits(c1, a, x) || (a == e.address && x in StoresOf(e)))
            && !LoadWaits(c1, e.address, x) && !StoreWaits(c1, e.address, x)
  {
    var c1 := HandleFill(c, now, lowerRoom);
    var i := c.nextIndex;
    assert c1.mshr == c.mshr[i := NO_PACKET];
    HandleFillInv(c, now, lowerRoom);
    hide HandleFill, CanFill, SetsOk, Exclusive, NextOk, LoadsOf, StoresOf;
    RegisterChange(c, c1, i, a, x);
    RegisterChange(c, c1, i, c.mshr[i].address, x);
  }

  /**
    Across every step: who waited for a line still does, or is told; who reads still waits, or
    is told; and nobody else comes to wait.
   */
  lemma NobodyIsForgotten(c: Cache, c1: Cache, step: Step, a: nat, x: nat)
    requires Inv(c) && AllHonest(c) && Steps(c, c1, step) && Sensible(step) && a != 0
    ensures AllHonest(c1)
    ensures var told := Answered(c, step); var joined := Joined(c, step);
            && (LoadWaits(c, a, x) || (joined.Some? && joined.value.address == a && x in LoadsOf(joined.value))
                <==> LoadWaits(c1, a, x) || (told.Some? && step.Filling? && told.value.address == a && x in LoadsOf(told.value)))
            && (StoreWaits(c, a, x) || (joined.Some? && joined.value.address == a && x in StoresOf(joined.value))
                <==> StoreWaits(c1, a, x) || (told.Some? && step.Filling? && told.value.address == a && x in StoresOf(told.value)))
    ensures step.Read? && Joined(c, step) == None && Answered(c, step) == None ==> !HandleRead(c, step.p).handled
  {
    hide SetsOk, MshrOk, Exclusive, NextOk, LoadsOf, StoresOf;
    match step
    case Read(p) =>
      if Cached(c, p.address) {
        NobodyJoins(c, c1, a, x);
      } else {
        MissJoins(c, p, Reads, true, a, x);
        MissInv(c, p, Reads, true);
        hide Miss;
      }
    case Wrote(p) =>
      if Cached(c, p.address) {
        NobodyJoins(c, c1, a, x);
      } else {
        MissJoins(c, p, Writes, true, a, x);
        MissInv(c, p, Writes, true);
        hide Miss;
      }
    case Prefetched(p, lowerRoom) => PrefetchForgetsNobody(c, p, lowerRoom, a, x);
    case Returned(i, now) =>
      ReturnKeepsWaiters(c, i, now);
      NobodyJoins(c, c1, a, x);
    case Filling(now, lowerRoom) =>
      if CanFill(c, now, lowerRoom) {
        FillAnswers(c, now, lowerRoom, a, x);
        assert Honest(NO_PACKET);
      }
    case Invalidated(_) => NobodyJoins(c, c1, a, x);
  }

  lemma ReturnKeepsWaiters(c: Cache, i: nat, now: nat)
    requires i < |c.mshr| && AllHonest(c)
    ensures AllHonest(ReturnData(c, i, now)) && |ReturnData(c, i, now).mshr| == |c.mshr|
    ensures forall k :: 0 <= k < |c.mshr| ==> ReturnData(c, i, now).mshr[k].address == c.mshr[k].address
                                              && LoadsOf(ReturnData(c, i, now).mshr[k]) == LoadsOf(c.mshr[k])
                                              && StoresOf(ReturnData(c, i, now).mshr[k]) == StoresOf(c.mshr[k])
  {
  }

  lemma PrefetchForgetsNobody(c: Cache, p: Packet, lowerRoom: bool, a: nat, x: nat)
    requires Inv(c) && AllHonest(c) && p.address != 0 && Honest(p) && p.kind == Prefetch && a != 0
    ensures var c1 := HandlePrefetch(c, p, lowerRoom).cache;
            && AllHonest(c1) && (LoadWaits(c1, a, x) <==> LoadWaits(c, a, x)) && (StoreWaits(c1, a, x) <==> StoreWaits(c, a, x))
  {
    var c1 := HandlePrefetch(c, p, lowerRoom).cache;
    assert LoadsOf(p) == {} && StoresOf(p) == {};
    hide LoadsOf, StoresOf;
    if Cached(c, p.address) || c1 == c {
      NobodyJoins(c, c1, a, x);
    } else {
      MissJoins(c, p, Prefetches, p.fillLevel <= c.level, a, x);
      MissInv(c, p, Prefetches, p.fillLevel <= c.level);
      hide Miss;
    }
  }
}
