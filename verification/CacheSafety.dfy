/** What every step of a cache keeps, over all runs. */
module CacheSafety {
  import opened Options
  import opened Powers
  import opened Recency
  import opened Counting
  import opened CacheModel

  // ---- The invariant ----

  /** The ranks of a set are a permutation, its lines belong there, and no line is there twice. */
  ghost predicate RowOk(row: seq<Block>, s: int, sets: nat)
    requires sets > 0
  {
    && |row| > 0 && Permutation(Ranks(row))
    && (forall w :: 0 <= w < |row| && row[w].valid ==> row[w].tag != 0 && SetOf(sets, row[w].tag) == s)
    && (forall v, w :: 0 <= v < w < |row| && row[v].valid && row[w].valid ==> row[v].tag != row[w].tag)
  }

  ghost predicate SetsOk(c: Cache) {
    |c.sets| > 0 && forall s :: 0 <= s < |c.sets| ==> RowOk(c.sets[s], s, |c.sets|)
  }

  ghost function Busy(mshr: seq<Packet>): set<nat> { set i: nat | i < |mshr| && mshr[i].address != 0 }

  /** No line has two registers, and MSHR.occupancy counts the registers in use. */
  ghost predicate MshrOk(c: Cache) {
    && (forall i, j :: 0 <= i < j < |c.mshr| && c.mshr[i].address != 0 ==> c.mshr[i].address != c.mshr[j].address)
    && (forall i :: 0 <= i < |c.mshr| && c.mshr[i].address == 0 ==> c.mshr[i] == NO_PACKET)
    && c.occupancy == |Busy(c.mshr)|
  }

  ghost predicate Cached(c: Cache, a: nat)
    requires |c.sets| > 0
  {
    CheckHit(c.sets[SetOf(|c.sets|, a)], a).Some?
  }

  ghost predicate Pending(c: Cache, a: nat) { exists i :: 0 <= i < |c.mshr| && c.mshr[i].address == a }

  /** No line is cached and has a miss register. */
  ghost predicate Exclusive(c: Cache)
    requires |c.sets| > 0
  {
    forall i :: 0 <= i < |c.mshr| && c.mshr[i].address != 0 ==> !Cached(c, c.mshr[i].address)
  }

  /** The next fill is the earliest line that has arrived, if one has. */
  ghost predicate NextOk(c: Cache) {
    match c.nextCycle
    case None => forall i :: 0 <= i < |c.mshr| ==> !c.mshr[i].returned
    case Some(t) => IsEarliest(c.mshr, |c.mshr|, c.nextIndex) && c.mshr[c.nextIndex].eventCycle == t
  }

  ghost predicate Inv(c: Cache) { SetsOk(c) && MshrOk(c) && Exclusive(c) && NextOk(c) }

  // ---- What the invariant rules out ----

  /** Every set has a victim: the error "no victim" cannot happen. It is the least recent way of a full set. */
  lemma VictimExists(c: Cache, s: nat)
    requires SetsOk(c) && s < |c.sets|
    ensures Victim(c.sets[s]).Some?
    ensures var row := c.sets[s]; var w := Victim(row).value;
            if exists v :: 0 <= v < |row| && !row[v].valid then !row[w].valid
            else forall v :: 0 <= v < |row| ==> row[v].lru <= row[w].lru
  {
    var row := c.sets[s];
    assert RowOk(row, s, |c.sets|);
    var w := RankIsTaken(Ranks(row), |row| - 1);
    assert row[w].lru == Ranks(row)[w];
    assert forall v :: 0 <= v < |row| ==> row[v].lru == Ranks(row)[v];
  }

  /** While the occupancy is below the size a register is free; MSHR errors cannot happen. */
  lemma RegisterIsFree(c: Cache)
    requires MshrOk(c)
    ensures 0 <= c.occupancy <= |c.mshr|
    ensures c.occupancy < |c.mshr| <==> CheckMshr(c.mshr, 0).Some?
  {
    CardinalOfSubset(Busy(c.mshr), Numbers(|c.mshr|));
    match CheckMshr(c.mshr, 0)
    case None => assert Busy(c.mshr) == Numbers(|c.mshr|);
    case Some(i) => CardinalOfSubset(Busy(c.mshr), Numbers(|c.mshr|) - {i});
  }

  /** A cached line is in exactly one way. */
  lemma CachedOnce(c: Cache, s: nat, w: nat, a: nat)
    requires SetsOk(c) && s < |c.sets| && w < |c.sets[s]| && IsHit(c.sets[s][w], a)
    ensures s == SetOf(|c.sets|, a) && CheckHit(c.sets[s], a) == Some(w)
  {
    assert RowOk(c.sets[s], s, |c.sets|);
  }

  // ---- Steps on the blocks ----

  /** The same lines are in the same ways. */
  ghost predicate SameLines(row: seq<Block>, row1: seq<Block>) {
    |row| == |row1| && forall w :: 0 <= w < |row| ==> row1[w].valid == row[w].valid && row1[w].tag == row[w].tag
  }

  lemma TouchRanks(row: seq<Block>, w: nat)
    requires w < |row|
    ensures Ranks(TouchRow(row, w)) == Touch(Ranks(row), w) && SameLines(row, TouchRow(row, w))
  {
  }

  /** New ranks and flags for the lines of a set. */
  lemma RowInv(c: Cache, s: nat, row: seq<Block>)
    requires Inv(c) && s < |c.sets| && SameLines(c.sets[s], row) && Permutation(Ranks(row))
    ensures Inv(c.(sets := c.sets[s := row]))
  {
    var c1 := c.(sets := c.sets[s := row]);
    assert RowOk(c.sets[s], s, |c.sets|);
    assert forall a :: Cached(c1, a) == Cached(c, a);
  }

  lemma TouchedPermutation(c: Cache, s: nat, w: nat)
    requires SetsOk(c) && s < |c.sets| && w < |c.sets[s]|
    ensures Permutation(Ranks(TouchRow(c.sets[s], w)))
  {
    assert RowOk(c.sets[s], s, |c.sets|);
    TouchRanks(c.sets[s], w);
    TouchKeepsPermutation(Ranks(c.sets[s]), w);
  }

  /** A hit touches the line, except that a writeback from above does not, and sets its flags. */
  lemma HitInv(c: Cache, s: nat, w: nat, touched: bool, b: Block)
    requires Inv(c) && s < |c.sets| && w < |c.sets[s]|
    requires var row := if touched then TouchRow(c.sets[s], w) else c.sets[s];
             b.valid == row[w].valid && b.tag == row[w].tag && b.lru == row[w].lru
    ensures var row := if touched then TouchRow(c.sets[s], w) else c.sets[s];
            Inv(c.(sets := c.sets[s := row[w := b]]))
  {
    var row := if touched then TouchRow(c.sets[s], w) else c.sets[s];
    assert RowOk(c.sets[s], s, |c.sets|);
    TouchedPermutation(c, s, w);
    TouchRanks(c.sets[s], w);
    assert Ranks(row[w := b]) == Ranks(row);
    RowInv(c, s, row[w := b]);
  }

  // ---- Steps on the registers ----

  /** A register keeps its address, and whether and when its line has arrived. */
  ghost predicate SameArrival(e: Packet, e1: Packet) {
    e1.address == e.address && e1.returned == e.returned && e1.eventCycle == e.eventCycle
  }

  lemma MergeInv(c: Cache, i: nat, e: Packet)
    requires Inv(c) && i < |c.mshr| && c.mshr[i].address != 0 && SameArrival(c.mshr[i], e)
    ensures Inv(c.(mshr := c.mshr[i := e]))
  {
    var c1 := c.(mshr := c.mshr[i := e]);
    assert Busy(c1.mshr) == Busy(c.mshr);
    assert forall a :: Cached(c1, a) == Cached(c, a);
  }

  lemma AddedRegister(c: Cache, p: Packet)
    requires MshrOk(c) && p.address != 0 && !Pending(c, p.address) && c.occupancy < |c.mshr|
    ensures MshrOk(AddMshr(c, p)) && Pending(AddMshr(c, p), p.address) && AddMshr(c, p).occupancy == c.occupancy + 1
  {
    RegisterIsFree(c);
    var i := CheckMshr(c.mshr, 0).value;
    var c1 := AddMshr(c, p);
    assert Busy(c1.mshr) == Busy(c.mshr) + {i};
    assert c1.mshr[i].address == p.address;
  }

  lemma AddMshrInv(c: Cache, p: Packet)
    requires Inv(c) && p.address != 0 && !Cached(c, p.address) && !Pending(c, p.address) && c.occupancy < |c.mshr|
    ensures Inv(AddMshr(c, p)) && Pending(AddMshr(c, p), p.address)
    ensures AddMshr(c, p).occupancy == c.occupancy + 1
  {
    RegisterIsFree(c);
    AddedRegister(c, p);
    var c1 := AddMshr(c, p);
    hide MshrOk, SetsOk, CheckHit;
    assert Exclusive(c1) by {
      hide NextOk;
      assert forall a :: Cached(c1, a) == Cached(c, a);
    }
    hide Exclusive;
  }

  lemma ReturnDataInv(c: Cache, i: nat, now: nat)
    requires Inv(c) && i < |c.mshr| && c.mshr[i].address != 0
    ensures Inv(ReturnData(c, i, now))
  {
    var c1 := ReturnData(c, i, now);
    assert Busy(c1.mshr) == Busy(c.mshr);
    assert forall a :: Cached(c1, a) == Cached(c, a);
  }

  /** Even a merge that overwrites a prefetch keeps when its line has arrived. */
  lemma MergeKeepsArrival(e: Packet, p: Packet, from: Queue)
    requires e.address == p.address
    ensures SameArrival(e, Merge(e, p, from))
  {
    GatherKeepsArrival(e, p);
    hide Gather;
    match from
    case Reads => assert SameArrival(e, Lower(Gather(e, p), p));
    case Writes =>
    case Prefetches =>
  }

  lemma GatherKeepsArrival(e: Packet, p: Packet)
    ensures SameArrival(e, Gather(e, p)) && Gather(e, p).kind == e.kind && Gather(e, p).fillLevel == e.fillLevel
  {
  }

  lemma MissInv(c: Cache, p: Packet, from: Queue, keep: bool)
    requires Inv(c) && p.address != 0 && !Cached(c, p.address)
    ensures Inv(Miss(c, p, from, keep).cache)
    ensures Miss(c, p, from, keep).handled && keep ==> Pending(Miss(c, p, from, keep).cache, p.address)
    ensures !Miss(c, p, from, keep).handled ==> Miss(c, p, from, keep).cache == c && c.occupancy == |c.mshr|
  {
    RegisterIsFree(c);
    match CheckMshr(c.mshr, p.address)
    case Some(i) =>
      MergeKeepsArrival(c.mshr[i], p, from);
      hide Merge;
      MergeInv(c, i, Merge(c.mshr[i], p, from));
      assert Miss(c, p, from, keep).cache.mshr[i].address == p.address;
    case None =>
      if c.occupancy < |c.mshr| {
        AddMshrInv(c, p);
      }
  }

  // ---- The steps of the cache ----

  lemma HandleWriteInv(c: Cache, p: Packet)
    requires Inv(c) && p.address != 0
    ensures Inv(HandleWrite(c, p).cache)
  {
    var s := SetOf(|c.sets|, p.address);
    var row := c.sets[s];
    match CheckHit(row, p.address)
    case Some(w) =>
      var touched := p.kind != Writeback;
      var row1 := if touched then TouchRow(row, w) else row;
      HitInv(c, s, w, touched, row1[w].(dirty := true));
    case None =>
      hide Miss;
      MissInv(c, p, Writes, true);
  }

  lemma HandleReadInv(c: Cache, p: Packet)
    requires Inv(c) && p.address != 0
    ensures Inv(HandleRead(c, p).cache)
  {
    var s := SetOf(|c.sets|, p.address);
    var row := c.sets[s];
    match CheckHit(row, p.address)
    case Some(w) =>
      var touched := p.kind != Writeback;
      var row1 := if touched then TouchRow(row, w) else row;
      HitInv(c, s, w, touched, row1[w].(prefetch := false, used := true));
    case None =>
      hide Miss;
      MissInv(c, p, Reads, true);
  }

  lemma HandlePrefetchInv(c: Cache, p: Packet, lowerRoom: bool)
    requires Inv(c) && p.address != 0
    ensures Inv(HandlePrefetch(c, p, lowerRoom).cache)
  {
    var s := SetOf(|c.sets|, p.address);
    var row := c.sets[s];
    match CheckHit(row, p.address)
    case Some(w) =>
      var touched := p.kind != Writeback;
      var row1 := if touched then TouchRow(row, w) else row;
      HitInv(c, s, w, touched, row1[w]);
      assert row1[w := row1[w]] == row1;
    case None =>
      hide Miss;
      MissInv(c, p, Prefetches, p.fillLevel <= c.level);
  }

  lemma InvalidateInv(c: Cache, a: nat)
    requires Inv(c)
    ensures Inv(Invalidate(c, a)) && (a != 0 ==> !Cached(Invalidate(c, a), a))
  {
    var s := SetOf(|c.sets|, a);
    var row := c.sets[s];
    assert RowOk(row, s, |c.sets|);
    match CheckHit(row, a)
    case Some(w) =>
      var c1 := Invalidate(c, a);
      assert Ranks(c1.sets[s]) == Ranks(row);
      assert forall b :: Cached(c1, b) ==> Cached(c, b);
    case None =>
  }

  lemma HandleFillInv(c: Cache, now: nat, lowerRoom: bool)
    requires Inv(c)
    ensures Inv(HandleFill(c, now, lowerRoom))
  {
    if CanFill(c, now, lowerRoom) {
      var e := c.mshr[c.nextIndex];
      var s := SetOf(|c.sets|, e.address);
      var w := Victim(c.sets[s]).value;
      FilledRow(c, s, w, e);
      RemoveMshr(c, c.nextIndex);
      var c1 := c.(sets := c.sets[s := TouchRow(c.sets[s], w)[w := Filled(TouchRow(c.sets[s], w)[w], e)]],
                   mshr := c.mshr[c.nextIndex := NO_PACKET], occupancy := c.occupancy - 1);
      hide Victim;
      FilledExclusive(c, s, w, c.nextIndex);
      assert SetsOk(c1);
      hide SetsOk, MshrOk, Exclusive, Filled, TouchRow;
    }
  }

  /** remove_queue on a miss register. */
  lemma RemoveMshr(c: Cache, i: nat)
    requires MshrOk(c) && i < |c.mshr| && c.mshr[i].address != 0
    ensures MshrOk(c.(mshr := c.mshr[i := NO_PACKET], occupancy := c.occupancy - 1))
  {
    assert Busy(c.mshr[i := NO_PACKET]) == Busy(c.mshr) - {i};
  }

  /** What else has a register is not the line that was filled. */
  lemma FilledExclusive(c: Cache, s: nat, w: nat, i: nat)
    requires SetsOk(c) && MshrOk(c) && Exclusive(c) && i < |c.mshr| && c.mshr[i].address != 0
    requires s == SetOf(|c.sets|, c.mshr[i].address) && w < |c.sets[s]|
    ensures var e := c.mshr[i];
            Exclusive(c.(sets := c.sets[s := TouchRow(c.sets[s], w)[w := Filled(TouchRow(c.sets[s], w)[w], e)]],
                         mshr := c.mshr[i := NO_PACKET], occupancy := c.occupancy - 1))
  {
    var e := c.mshr[i];
    var row := TouchRow(c.sets[s], w)[w := Filled(TouchRow(c.sets[s], w)[w], e)];
    var c1 := c.(sets := c.sets[s := row], mshr := c.mshr[i := NO_PACKET], occupancy := c.occupancy - 1);
    forall b | Cached(c1, b) ensures Cached(c, b) || b == e.address {
      assert c1.sets[SetOf(|c.sets|, b)] == if SetOf(|c.sets|, b) == s then row else c.sets[SetOf(|c.sets|, b)];
    }
  }

  /** The victim's way takes the new line. */
  lemma FilledRow(c: Cache, s: nat, w: nat, e: Packet)
    requires SetsOk(c) && s < |c.sets| && w < |c.sets[s]| && e.address != 0
    requires s == SetOf(|c.sets|, e.address) && !Cached(c, e.address)
    ensures RowOk(TouchRow(c.sets[s], w)[w := Filled(TouchRow(c.sets[s], w)[w], e)], s, |c.sets|)
  {
    var row := c.sets[s];
    assert RowOk(row, s, |c.sets|);
    TouchedPermutation(c, s, w);
    TouchRanks(row, w);
    var row1 := TouchRow(row, w);
    assert Ranks(row1[w := Filled(row1[w], e)]) == Ranks(row1);
  }
}
