/** When a store makes its line dirty, and when the cache forgets that it did. */
module CacheStores {
  import opened Options
  import opened Powers
  import opened Recency
  import opened CacheModel
  import opened CacheSafety
  import opened CacheRuns

  /** The line is cached and dirty. */
  ghost predicate DirtyLine(c: Cache, a: nat)
    requires |c.sets| > 0
  {
    exists w :: HeldAt(c, SetOf(|c.sets|, a), w, a) && c.sets[SetOf(|c.sets|, a)][w].dirty
  }

  /** The line is on its way for a store. */
  ghost predicate StorePends(c: Cache, a: nat) {
    exists i :: 0 <= i < |c.mshr| && c.mshr[i].address == a && c.mshr[i].kind == Rfo
  }

  /** The line is on its way for something else that a store does not take over. */
  ghost predicate LoadPends(c: Cache, a: nat) {
    exists i :: 0 <= i < |c.mshr| && c.mshr[i].address == a && c.mshr[i].kind != Rfo && c.mshr[i].kind != Prefetch
  }

  ghost predicate Remembered(c: Cache, a: nat)
    requires |c.sets| > 0
  {
    DirtyLine(c, a) || StorePends(c, a)
  }

  /**
    A store that has been handled is remembered exactly if its line was not already on its
    way for a load: a merge takes over the register of a prefetch, but drops the store there.
   */
  lemma StoreIsRememberedIff(c: Cache, p: Packet)
    requires Inv(c) && p.address != 0 && p.kind == Rfo && HandleWrite(c, p).handled
    ensures |HandleWrite(c, p).cache.sets| > 0
    ensures Remembered(HandleWrite(c, p).cache, p.address) <==> !LoadPends(c, p.address)
  {
    var a := p.address;
    var c1 := HandleWrite(c, p).cache;
    var s := SetOf(|c.sets|, a);
    assert RowOk(c.sets[s], s, |c.sets|);
    match CheckHit(c.sets[s], a)
    case Some(w) =>
      assert HeldAt(c1, s, w, a);
      assert Cached(c, a);
    case None =>
      RegisterIsFree(c);
      StoreMisses(c, p);
  }

  lemma StoreMisses(c: Cache, p: Packet)
    requires Inv(c) && p.address != 0 && p.kind == Rfo && CheckHit(c.sets[SetOf(|c.sets|, p.address)], p.address) == None
    requires Miss(c, p, Writes, true).handled
    ensures var c1 := Miss(c, p, Writes, true).cache;
            |c1.sets| > 0 && (Remembered(c1, p.address) <==> !LoadPends(c, p.address))
  {
    RegisterIsFree(c);
    var c1 := Miss(c, p, Writes, true).cache;
    assert c1.sets == c.sets && !DirtyLine(c1, p.address);
    hide SetsOk, Exclusive, NextOk, DirtyLine;
    match CheckMshr(c.mshr, p.address)
    case Some(i) => assert c1.mshr[i] == Merge(c.mshr[i], p, Writes);
    case None =>
      var i := CheckMshr(c.mshr, 0).value;
      assert c1.mshr[i].address == p.address && c1.mshr[i].kind == Rfo;
  }

  /** A filled line is dirty exactly if it was on its way for a store. */
  lemma FillIsDirtyIff(c: Cache, now: nat, lowerRoom: bool)
    requires Inv(c) && CanFill(c, now, lowerRoom)
    ensures var c1 := HandleFill(c, now, lowerRoom); var e := c.mshr[c.nextIndex];
            |c1.sets| > 0 && (DirtyLine(c1, e.address) <==> e.kind == Rfo)
  {
    var e := c.mshr[c.nextIndex];
    var s := SetOf(|c.sets|, e.address);
    var w := Victim(c.sets[s]).value;
    var c1 := HandleFill(c, now, lowerRoom);
    HandleFillInv(c, now, lowerRoom);
    assert RowOk(c1.sets[s], s, |c1.sets|);
    assert c1.sets[s][w] == Filled(TouchRow(c.sets[s], w)[w], e) && HeldAt(c1, s, w, e.address);
  }

  /** Whom a line is on its way for does not change until it is filled, but for prefetches. */
  lemma DemandKindStays(c: Cache, c1: Cache, step: Step, i: nat)
    requires Inv(c) && Steps(c, c1, step) && i < |c.mshr| && c.mshr[i].address != 0 && c.mshr[i].kind != Prefetch
    ensures i < |c1.mshr|
    ensures (c1.mshr[i].address == c.mshr[i].address && c1.mshr[i].kind == c.mshr[i].kind)
            || (step.Filling? && CanFill(c, step.now, step.lowerRoom) && i == c.nextIndex)
  {
    hide SetsOk, MshrOk, Exclusive, NextOk, Victim;
  }

  /** A store is remembered until its line is written back or invalidated. */
  lemma RememberedUntilWrittenBack(c: Cache, c1: Cache, step: Step, a: nat)
    requires Inv(c) && Steps(c, c1, step) && a != 0 && Remembered(c, a)
    ensures |c1.sets| == |c.sets|
    ensures Remembered(c1, a) || Evicted(c, step) == Some(a) || step == Invalidated(a)
  {
    if StorePends(c, a) {
      PendingStays(c, c1, step, a);
    } else {
      DirtyStays(c, c1, step, a);
    }
  }

  lemma PendingStays(c: Cache, c1: Cache, step: Step, a: nat)
    requires Inv(c) && Steps(c, c1, step) && a != 0 && StorePends(c, a)
    ensures |c1.sets| == |c.sets| && Remembered(c1, a)
  {
    var i :| 0 <= i < |c.mshr| && c.mshr[i].address == a && c.mshr[i].kind == Rfo;
    DemandKindStays(c, c1, step, i);
    if step.Filling? && CanFill(c, step.now, step.lowerRoom) && i == c.nextIndex {
      FillIsDirtyIff(c, step.now, step.lowerRoom);
    }
    hide SetsOk, MshrOk, Exclusive, NextOk, Victim, DirtyLine;
  }

  lemma DirtyStays(c: Cache, c1: Cache, step: Step, a: nat)
    requires Inv(c) && Steps(c, c1, step) && a != 0 && DirtyLine(c, a)
    ensures |c1.sets| == |c.sets|
    ensures DirtyLine(c1, a) || Evicted(c, step) == Some(a) || step == Invalidated(a)
  {
    var s := SetOf(|c.sets|, a);
    var w :| HeldAt(c, s, w, a) && c.sets[s][w].dirty;
    DirtyUntilWrittenBack(c, c1, step, s, w, a);
    CachedOnce(c, s, w, a);
    StaysValid(c, c1, step, s, w, a);
  }

  /** A line that stays in its way stays valid there. */
  lemma StaysValid(c: Cache, c1: Cache, step: Step, s: nat, w: nat, a: nat)
    requires Inv(c) && Steps(c, c1, step) && a != 0 && HeldAt(c, s, w, a) && c.sets[s][w].dirty && CheckHit(c.sets[SetOf(|c.sets|, a)], a) == Some(w)
    ensures |c1.sets| == |c.sets|
    ensures Dirty(c1, s, w, a) && step != Invalidated(a) && Evicted(c, step) != Some(a) ==> HeldAt(c1, s, w, a)
  {
    hide MshrOk, Exclusive, NextOk, Victim, SetsOk;
  }
}
