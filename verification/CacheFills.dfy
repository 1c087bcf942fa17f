/**
  What the handlers of a cache do to blocks and registers, in their fields: when a line is
  filled and where, what a hit leaves behind, and what becomes of a miss.
 */
module CacheFills {
  import opened Options
  import opened Powers
  import opened Counting
  import opened Recency
  import opened CacheModel
  import opened CacheSafety
  import opened CacheRuns

  // ---- Fills ----

  /** Register `i` has its line and is due, and no other is due earlier; of equals it is the first. */
  ghost predicate FillsNext(c: Cache, i: nat, now: nat) {
    && i < |c.mshr| && c.mshr[i].returned && c.mshr[i].eventCycle <= now
    && (forall k :: 0 <= k < |c.mshr| && c.mshr[k].returned ==> c.mshr[i].eventCycle <= c.mshr[k].eventCycle)
    && (forall k :: 0 <= k < i && c.mshr[k].returned ==> c.mshr[i].eventCycle < c.mshr[k].eventCycle)
  }

  /** Way `w` is the first invalid one or, in a full set, the one of the highest rank. */
  ghost predicate Replaced(row: seq<Block>, w: nat) {
    && w < |row|
    && if exists v :: 0 <= v < |row| && !row[v].valid then !row[w].valid && forall v :: 0 <= v < w ==> row[v].valid
       else row[w].lru == |row| - 1
  }

  /** The line of register `i` is the next to fill, into way `w`, whose block is clean or can be written back. */
  ghost predicate MayFill(c: Cache, i: nat, w: nat, now: nat, lowerRoom: bool) {
    && |c.sets| > 0 && FillsNext(c, i, now)
    && var row := c.sets[SetOf(|c.sets|, c.mshr[i].address)];
    Replaced(row, w) && (row[w].dirty ==> lowerRoom)
  }

  /** A block but for its rank. */
  predicate SameBlock(b: Block, b1: Block) { b1 == b.(lru := b1.lru) }

  /** Register `i` is free, and its line is in way `w` of its set; nothing else has changed but ranks of that set. */
  ghost predicate FilledInto(c: Cache, c1: Cache, i: nat, w: nat) {
    && |c.sets| > 0 && i < |c.mshr|
    && var e := c.mshr[i];
    var s := SetOf(|c.sets|, e.address);
    && c1.mshr == c.mshr[i := NO_PACKET] && c1.occupancy == c.occupancy - 1
    && |c1.sets| == |c.sets| && (forall u :: 0 <= u < |c.sets| && u != s ==> c1.sets[u] == c.sets[u])
    && w < |c.sets[s]| == |c1.sets[s]|
    && c1.sets[s][w] == Block(true, e.kind == Rfo, e.kind == Prefetch, false, e.address, 0)
    && (forall v :: 0 <= v < |c.sets[s]| && v != w ==> SameBlock(c.sets[s][v], c1.sets[s][v]))
  }

  /** In a set whose ranks are a permutation, the victim is the way that is replaced. */
  lemma VictimIsReplaced(c: Cache, s: nat)
    requires SetsOk(c) && s < |c.sets|
    ensures Victim(c.sets[s]).Some? && Replaced(c.sets[s], Victim(c.sets[s]).value)
  {
    VictimExists(c, s);
  }

  lemma ReplacedIsVictim(c: Cache, s: nat, w: nat)
    requires SetsOk(c) && s < |c.sets| && Replaced(c.sets[s], w)
    ensures Victim(c.sets[s]) == Some(w)
  {
    VictimIsReplaced(c, s);
    var v := Victim(c.sets[s]).value;
    assert RowOk(c.sets[s], s, |c.sets|);
    assert Ranks(c.sets[s])[v] == c.sets[s][v].lru && Ranks(c.sets[s])[w] == c.sets[s][w].lru;
  }

  /** The register remembered as the next is the earliest of those with their line. */
  lemma NextIsDueIff(c: Cache, now: nat, i: nat)
    requires Inv(c)
    ensures FillsNext(c, i, now) <==> i < |c.mshr| && c.nextIndex == i && c.nextCycle.Some? && c.nextCycle.value <= now
    ensures FillsNext(c, i, now) ==> c.mshr[i].address != 0
  {
    hide SetsOk, Exclusive;
  }

  /**
    A fill takes place if and only if some line has arrived and is due, and the block that the
    earliest of them replaces is clean or the queue below has room; then the line is in the
    place of that block.
   */
  lemma FillsIff(c: Cache, now: nat, lowerRoom: bool)
    requires Inv(c)
    ensures |c.sets| > 0
    ensures HandleFill(c, now, lowerRoom) != c <==> exists i: nat, w: nat :: MayFill(c, i, w, now, lowerRoom)
    ensures forall i: nat, w: nat :: MayFill(c, i, w, now, lowerRoom) ==> FilledInto(c, HandleFill(c, now, lowerRoom), i, w)
  {
    hide Inv, FillsNext, Replaced, Victim, Fill, FilledInto, SetOf;
    HasSets(c);
    forall i: nat, w: nat | MayFill(c, i, w, now, lowerRoom)
      ensures CanFill(c, now, lowerRoom) && c.nextIndex == i && Victim(c.sets[SetOf(|c.sets|, c.mshr[i].address)]) == Some(w)
    {
      NextIsDueIff(c, now, i);
      ReplacedIsVictim(c, SetOf(|c.sets|, c.mshr[i].address), w);
    }
    if CanFill(c, now, lowerRoom) {
      NextIsDueIff(c, now, c.nextIndex);
      VictimIsReplaced(c, SetOf(|c.sets|, c.mshr[c.nextIndex].address));
      FillFills(c);
      assert MayFill(c, c.nextIndex, Victim(c.sets[SetOf(|c.sets|, c.mshr[c.nextIndex].address)]).value, now, lowerRoom);
    }
  }

  lemma HasSets(c: Cache)
    requires Inv(c)
    ensures |c.sets| > 0 && SetsOk(c)
  {
  }

  lemma FillFills(c: Cache)
    requires |c.sets| > 0 && c.nextIndex < |c.mshr| && c.mshr[c.nextIndex].address != 0
    requires Victim(c.sets[SetOf(|c.sets|, c.mshr[c.nextIndex].address)]).Some?
    ensures FilledInto(c, Fill(c), c.nextIndex, Victim(c.sets[SetOf(|c.sets|, c.mshr[c.nextIndex].address)]).value)
    ensures Fill(c) != c
  {
    hide Victim, IsEarliest;
    assert Fill(c).mshr[c.nextIndex] == NO_PACKET;
  }

  /** While the queue below has no room, no fill changes a dirty block, of whichever set. */
  lemma DirtyStaysWithoutRoom(c: Cache, c1: Cache, now: nat, s: nat, w: nat)
    requires Inv(c) && Steps(c, c1, Filling(now, false)) && s < |c.sets| && w < |c.sets[s]| && c.sets[s][w].dirty
    ensures s < |c1.sets| && w < |c1.sets[s]| && SameBlock(c.sets[s][w], c1.sets[s][w])
  {
    hide Inv, FillsNext, Replaced, HandleFill;
    FillsIff(c, now, false);
    if c1 != c {
      var i: nat, v: nat :| MayFill(c, i, v, now, false);
      assert FilledInto(c, c1, i, v);
    }
  }

  ghost predicate IsDirtyLine(c: Cache, s: nat, w: nat, a: nat) {
    s < |c.sets| && w < |c.sets[s]| && c.sets[s][w].dirty && c.sets[s][w].tag == a
  }

  /** A line is written back if and only if it is dirty and a fill takes its place. */
  lemma WritesBackIff(c: Cache, now: nat, lowerRoom: bool, a: nat)
    requires Inv(c)
    ensures |c.sets| > 0
    ensures WrittenBack(c, now, lowerRoom) == Some(a)
            <==> exists i: nat, w: nat :: MayFill(c, i, w, now, lowerRoom) && IsDirtyLine(c, SetOf(|c.sets|, c.mshr[i].address), w, a)
  {
    hide Inv, FillsNext, Replaced, Victim, Fill, FilledInto, SetOf;
    HasSets(c);
    forall i: nat, w: nat | MayFill(c, i, w, now, lowerRoom)
      ensures CanFill(c, now, lowerRoom) && c.nextIndex == i && Victim(c.sets[SetOf(|c.sets|, c.mshr[i].address)]) == Some(w)
    {
      NextIsDueIff(c, now, i);
      ReplacedIsVictim(c, SetOf(|c.sets|, c.mshr[i].address), w);
    }
    if CanFill(c, now, lowerRoom) {
      NextIsDueIff(c, now, c.nextIndex);
      VictimIsReplaced(c, SetOf(|c.sets|, c.mshr[c.nextIndex].address));
      assert MayFill(c, c.nextIndex, Victim(c.sets[SetOf(|c.sets|, c.mshr[c.nextIndex].address)]).value, now, lowerRoom);
    }
  }

  // ---- Hits ----

  /** Only way `w` of set `s` has changed, but for the ranks of the set; without a touch these are as before too. */
  ghost predicate OnlyBlock(c: Cache, c1: Cache, s: nat, w: nat, touched: bool) {
    && s < |c.sets| == |c1.sets| && (forall u :: 0 <= u < |c.sets| && u != s ==> c1.sets[u] == c.sets[u])
    && w < |c.sets[s]| == |c1.sets[s]|
    && (forall v :: 0 <= v < |c.sets[s]| && v != w ==> SameBlock(c.sets[s][v], c1.sets[s][v]))
    && (if touched then c1.sets[s][w].lru == 0
        else forall v :: 0 <= v < |c.sets[s]| ==> c1.sets[s][v].lru == c.sets[s][v].lru)
    && c1.mshr == c.mshr && c1.occupancy == c.occupancy && c1.nextIndex == c.nextIndex && c1.nextCycle == c.nextCycle
  }

  /**
    A line that is cached is served by its block: a write makes it dirty, a read marks it as
    used and no longer as prefetched, a prefetch does neither. Writebacks from above leave the
    ranks alone; anything else makes the block the most recent.
   */
  lemma HitsInFields(c: Cache, p: Packet, lowerRoom: bool, w: nat)
    requires Inv(c) && |c.sets| > 0 && p.address != 0
    requires w < |c.sets[SetOf(|c.sets|, p.address)]| && IsHit(c.sets[SetOf(|c.sets|, p.address)][w], p.address)
    ensures var s := SetOf(|c.sets|, p.address); var b := c.sets[s][w]; var r := HandleWrite(c, p);
            && r.handled && OnlyBlock(c, r.cache, s, w, p.kind != Writeback)
            && SameBlock(Block(true, true, b.prefetch, b.used, b.tag, 0), r.cache.sets[s][w])
    ensures var s := SetOf(|c.sets|, p.address); var b := c.sets[s][w]; var r := HandleRead(c, p);
            && r.handled && OnlyBlock(c, r.cache, s, w, p.kind != Writeback)
            && SameBlock(Block(true, b.dirty, false, true, b.tag, 0), r.cache.sets[s][w])
    ensures var s := SetOf(|c.sets|, p.address); var r := HandlePrefetch(c, p, lowerRoom);
            && r.handled && OnlyBlock(c, r.cache, s, w, p.kind != Writeback)
            && SameBlock(c.sets[s][w], r.cache.sets[s][w])
  {
    CachedOnce(c, SetOf(|c.sets|, p.address), w, p.address);
    hide MshrOk, Exclusive, NextOk, RowOk, SetOf;
  }

  /** Invalidating a cached line takes its valid bit and nothing else. */
  lemma InvalidatedInFields(c: Cache, a: nat, w: nat)
    requires Inv(c) && |c.sets| > 0
    requires w < |c.sets[SetOf(|c.sets|, a)]| && IsHit(c.sets[SetOf(|c.sets|, a)][w], a)
    ensures var s := SetOf(|c.sets|, a);
            Invalidate(c, a) == c.(sets := c.sets[s := c.sets[s][w := c.sets[s][w].(valid := false)]])
  {
    CachedOnce(c, SetOf(|c.sets|, a), w, a);
  }

  // ---- Misses ----

  ghost predicate IsCached(c: Cache, a: nat) {
    |c.sets| > 0 && exists w :: 0 <= w < |c.sets[SetOf(|c.sets|, a)]| && IsHit(c.sets[SetOf(|c.sets|, a)][w], a)
  }

  /** `p` has a free register of its own, and has yet to arrive. */
  ghost predicate TakesRegister(c: Cache, c1: Cache, p: Packet) {
    && c1.sets == c.sets && c1.occupancy == c.occupancy + 1
    && exists i :: 0 <= i < |c.mshr| && c.mshr[i].address == 0 && c1.mshr == c.mshr[i := p.(returned := false)]
  }

  /** Register `i` has been changed to `e`, and nothing else has. */
  ghost predicate Rewritten(c: Cache, c1: Cache, i: nat, e: Packet) { i < |c.mshr| && c1 == c.(mshr := c.mshr[i := e]) }

  /**
    A read that misses where no register has its line waits for a free register, and takes it;
    so does a write. A prefetch also waits for room below, and one for a lower level takes no
    register.
   */
  lemma MissesInFields(c: Cache, p: Packet, lowerRoom: bool)
    requires Inv(c) && p.address != 0 && !IsCached(c, p.address) && !Pending(c, p.address)
    ensures |c.sets| > 0
    ensures var r := HandleRead(c, p);
            (r.handled <==> Pending(c, 0)) && (if r.handled then TakesRegister(c, r.cache, p) else r.cache == c)
    ensures var r := HandleWrite(c, p);
            (r.handled <==> Pending(c, 0)) && (if r.handled then TakesRegister(c, r.cache, p) else r.cache == c)
    ensures var r := HandlePrefetch(c, p, lowerRoom);
            && (r.handled <==> Pending(c, 0) && lowerRoom)
            && (if r.handled && p.fillLevel <= c.level then TakesRegister(c, r.cache, p) else r.cache == c)
  {
    RegisterIsFree(c);
    hide SetsOk, MshrOk, Exclusive, NextOk, SetOf;
  }

  function LowerOf(a: nat, b: nat): nat { if a < b then a else b }

  /** What becomes of the register `e` of a line that a demand `p` asks for: `p` replaces a prefetch, which keeps its arrival. */
  predicate TakesOver(e: Packet, p: Packet, e1: Packet) {
    if e.kind == Prefetch then e1 == p.(returned := e.returned, eventCycle := e.eventCycle)
    else e1 == e.(fillLevel := LowerOf(e.fillLevel, p.fillLevel), loadMerged := e1.loadMerged, storeMerged := e1.storeMerged,
                  loads := e1.loads, stores := e1.stores)
  }

  /**
    A request for a line that has a register is always handled. A demand replaces a prefetch
    there; otherwise the register keeps its request, and the lower of the two fill levels. Only
    a read may add to what waits for the register.
   */
  lemma MergesInFields(c: Cache, p: Packet, lowerRoom: bool, i: nat)
    requires Inv(c) && p.address != 0 && !IsCached(c, p.address) && i < |c.mshr| && c.mshr[i].address == p.address
    ensures |c.sets| > 0
    ensures var r := HandlePrefetch(c, p, lowerRoom); var e := c.mshr[i];
            r.handled && Rewritten(c, r.cache, i, e.(fillLevel := LowerOf(e.fillLevel, p.fillLevel)))
    ensures var r := HandleWrite(c, p); var e := c.mshr[i];
            && r.handled && i < |r.cache.mshr| && Rewritten(c, r.cache, i, r.cache.mshr[i]) && TakesOver(e, p, r.cache.mshr[i])
            && (e.kind != Prefetch ==> r.cache.mshr[i] == e.(fillLevel := r.cache.mshr[i].fillLevel))
    ensures var r := HandleRead(c, p);
            r.handled && i < |r.cache.mshr| && Rewritten(c, r.cache, i, r.cache.mshr[i]) && TakesOver(c.mshr[i], p, r.cache.mshr[i])
  {
    hide SetsOk, MshrOk, Exclusive, NextOk, SetOf, Overwrite, Lower, Gather, TakesOver, Merge;
    HasSets(c);
    FirstRegister(c, i, p.address);
    MergeTakesOver(c.mshr[i], p);
  }

  lemma FirstRegister(c: Cache, i: nat, a: nat)
    requires Inv(c) && a != 0 && i < |c.mshr| && c.mshr[i].address == a
    ensures CheckMshr(c.mshr, a) == Some(i)
  {
  }

  lemma MergeTakesOver(e: Packet, p: Packet)
    ensures Merge(e, p, Prefetches) == e.(fillLevel := LowerOf(e.fillLevel, p.fillLevel))
    ensures TakesOver(e, p, Merge(e, p, Reads)) && TakesOver(e, p, Merge(e, p, Writes))
    ensures e.kind != Prefetch ==> Merge(e, p, Writes) == e.(fillLevel := Merge(e, p, Writes).fillLevel)
  {
  }

  /**
    A line that arrives is due the latency of the cache later, counted from now or from its own
    cycle if that is later; nothing else changes but which line is filled next.
   */
  lemma ArrivalIsDue(c: Cache, i: nat, now: nat)
    requires i < |c.mshr|
    ensures var c1 := ReturnData(c, i, now); var e := c.mshr[i];
            && c1.mshr == c.mshr[i := e.(returned := true, eventCycle := c1.mshr[i].eventCycle)]
            && c1.mshr[i].eventCycle == (if now >= e.eventCycle then now else e.eventCycle) + c.latency
            && c1.sets == c.sets && c1.occupancy == c.occupancy
  {
  }

  /** A cache of 2^k sets tells them apart by the lowest k bits of the line. */
  lemma SetIsLowBits(k: nat, address: nat)
    ensures SetOf(Pow2(k), address) == address % Pow2(k)
  {
    Lg2Exact(k);
  }
}
