/**
  A cache that is filled only through its miss registers (cache.cc, the L1D path): sets of
  blocks with least-recently-used replacement, miss registers that merge requests to a line,
  and the cached choice of the next line to fill. The caches below and above are parameters:
  what they answer, and whether they have room.
 */
module CacheModel {
  import opened Options
  import opened Powers
  import opened Recency

  datatype Kind = Load | Rfo | Prefetch | Writeback

  /**
    A request. `loads` and `stores` are lq_index_depend_on_me and sq_index_depend_on_me;
    `returned` says that the line has arrived.
   */
  datatype Packet = Packet(address: nat, fullAddr: nat, kind: Kind, fillLevel: nat, tlbAccess: bool, lqIndex: nat, sqIndex: nat,
                           loadMerged: bool, storeMerged: bool, loads: set<nat>, stores: set<nat>,
                           eventCycle: nat, returned: bool)

  /** Address 0 marks a free register. */
  const NO_PACKET := Packet(0, 0, Load, 0, false, 0, 0, false, false, {}, {}, 0, false)

  datatype Block = Block(valid: bool, dirty: bool, prefetch: bool, used: bool, tag: nat, lru: nat)

  /**
    `nextIndex` and `nextCycle` are next_fill_index and next_fill_cycle; no cycle is
    UINT64_MAX.
   */
  datatype Cache = Cache(level: nat, latency: nat, sets: seq<seq<Block>>, mshr: seq<Packet>, occupancy: int,
                         nextIndex: nat, nextCycle: Option<nat>)

  /** get_set: the low bits of the address. */
  function SetOf(sets: nat, address: nat): (s: nat)
    requires sets > 0
    ensures s < sets
  {
    address % Pow2(Lg2(sets))
  }

  // ---- Searches ----

  predicate IsHit(b: Block, a: nat) { b.valid && b.tag == a }

  function FindTag(row: seq<Block>, a: nat, n: nat): (r: Option<nat>)
    requires n <= |row|
    ensures r.Some? ==> r.value < n && IsHit(row[r.value], a) && forall v :: 0 <= v < r.value ==> !IsHit(row[v], a)
    ensures r.None? ==> forall v :: 0 <= v < n ==> !IsHit(row[v], a)
  {
    if n == 0 then None
    else match FindTag(row, a, n - 1)
      case Some(w) => Some(w)
      case None => if IsHit(row[n - 1], a) then Some(n - 1) else None
  }

  /** check_hit: the first way that holds the address. */
  function CheckHit(row: seq<Block>, a: nat): (r: Option<nat>)
    ensures r.Some? ==> r.value < |row| && IsHit(row[r.value], a) && forall v :: 0 <= v < r.value ==> !IsHit(row[v], a)
    ensures r.None? ==> forall v :: 0 <= v < |row| ==> !IsHit(row[v], a)
  {
    FindTag(row, a, |row|)
  }

  function FindAddress(mshr: seq<Packet>, a: nat, n: nat): (r: Option<nat>)
    requires n <= |mshr|
    ensures r.Some? ==> r.value < n && mshr[r.value].address == a && forall i :: 0 <= i < r.value ==> mshr[i].address != a
    ensures r.None? ==> forall i :: 0 <= i < n ==> mshr[i].address != a
  {
    if n == 0 then None
    else match FindAddress(mshr, a, n - 1)
      case Some(i) => Some(i)
      case None => if mshr[n - 1].address == a then Some(n - 1) else None
  }

  /** check_mshr: the first register of the address; address 0 finds the first free register. */
  function CheckMshr(mshr: seq<Packet>, a: nat): (r: Option<nat>)
    ensures r.Some? ==> r.value < |mshr| && mshr[r.value].address == a && forall i :: 0 <= i < r.value ==> mshr[i].address != a
    ensures r.None? ==> forall i :: 0 <= i < |mshr| ==> mshr[i].address != a
  {
    FindAddress(mshr, a, |mshr|)
  }

  /** Among the first `n` registers that have returned, `i` is the earliest, and the first of these. */
  predicate IsEarliest(mshr: seq<Packet>, n: nat, i: nat) {
    && i < n <= |mshr| && mshr[i].returned
    && (forall k :: 0 <= k < n && mshr[k].returned ==> mshr[i].eventCycle <= mshr[k].eventCycle)
    && (forall k :: 0 <= k < i && mshr[k].returned ==> mshr[i].eventCycle < mshr[k].eventCycle)
  }

  function FindEarliest(mshr: seq<Packet>, n: nat): (r: Option<nat>)
    requires n <= |mshr|
    ensures r.Some? ==> IsEarliest(mshr, n, r.value)
    ensures r.None? ==> forall k :: 0 <= k < n ==> !mshr[k].returned
  {
    if n == 0 then None
    else match FindEarliest(mshr, n - 1)
      case None => if mshr[n - 1].returned then Some(n - 1) else None
      case Some(i) => if mshr[n - 1].returned && mshr[n - 1].eventCycle < mshr[i].eventCycle then Some(n - 1) else Some(i)
  }

  /** update_fill_cycle */
  function UpdateFillCycle(c: Cache): Cache {
    match FindEarliest(c.mshr, |c.mshr|)
    case Some(i) => c.(nextIndex := i, nextCycle := Some(c.mshr[i].eventCycle))
    case None => c.(nextIndex := |c.mshr|, nextCycle := None)
  }

  // ---- Replacement ----

  function Ranks(row: seq<Block>): (r: seq<nat>)
    ensures |r| == |row|
  {
    seq(|row|, w requires 0 <= w < |row| => row[w].lru)
  }

  /** lru_update */
  function TouchRow(row: seq<Block>, w: nat): seq<Block>
    requires w < |row|
  {
    seq(|row|, i requires 0 <= i < |row| => row[i].(lru := Touch(Ranks(row), w)[i]))
  }

  function FindInvalid(row: seq<Block>, n: nat): (r: Option<nat>)
    requires n <= |row|
    ensures r.Some? ==> r.value < n && !row[r.value].valid && forall v :: 0 <= v < r.value ==> row[v].valid
    ensures r.None? ==> forall v :: 0 <= v < n ==> row[v].valid
  {
    if n == 0 then None
    else match FindInvalid(row, n - 1)
      case Some(w) => Some(w)
      case None => if !row[n - 1].valid then Some(n - 1) else None
  }

  function FindRank(row: seq<Block>, rank: int, n: nat): (r: Option<nat>)
    requires n <= |row|
    ensures r.Some? ==> r.value < n && row[r.value].lru == rank && forall v :: 0 <= v < r.value ==> row[v].lru != rank
    ensures r.None? ==> forall v :: 0 <= v < n ==> row[v].lru != rank
  {
    if n == 0 then None
    else match FindRank(row, rank, n - 1)
      case Some(w) => Some(w)
      case None => if row[n - 1].lru == rank then Some(n - 1) else None
  }

  /** lru_victim: the first invalid way, else the one of the highest rank; none is an error. */
  function Victim(row: seq<Block>): (r: Option<nat>)
    ensures r.Some? ==> r.value < |row|
  {
    match FindInvalid(row, |row|)
    case Some(w) => Some(w)
    case None => FindRank(row, |row| - 1, |row|)
  }

  // ---- The miss registers ----

  /** add_mshr: the request takes the first free register. */
  function AddMshr(c: Cache, p: Packet): Cache {
    match CheckMshr(c.mshr, 0)
    case Some(i) => c.(mshr := c.mshr[i := p.(returned := false)], occupancy := c.occupancy + 1)
    case None => c
  }

  function Lower(e: Packet, p: Packet): Packet {
    if p.fillLevel < e.fillLevel then e.(fillLevel := p.fillLevel) else e
  }

  /** A prefetch gives way to a demand, but keeps whether and when the line has arrived. */
  function Overwrite(e: Packet, p: Packet): Packet {
    if e.kind == Prefetch then p.(returned := e.returned, eventCycle := e.eventCycle) else e
  }

  /** handle_read: what waits for the request will wait for the register. */
  function Gather(e: Packet, p: Packet): Packet {
    if p.kind == Rfo then
      var e1 := if p.tlbAccess then e.(storeMerged := true, stores := e.stores + {p.sqIndex} + p.stores) else e;
      if p.loadMerged then e1.(loadMerged := true, loads := e1.loads + p.loads) else e1
    else
      var e1 := e.(loadMerged := true, loads := e.loads + {p.lqIndex} + p.loads);
      if p.storeMerged then e1.(storeMerged := true, stores := e1.stores + p.stores) else e1
  }

  /** Which handler meets a miss. */
  datatype Queue = Reads | Writes | Prefetches

  /** The register of a line for which another request misses. */
  function Merge(e: Packet, p: Packet, from: Queue): Packet {
    match from
    case Reads => Overwrite(Lower(Gather(e, p), p), p)
    case Writes => Overwrite(Lower(e, p), p)
    case Prefetches => Lower(e, p)
  }

  // ---- The steps ----

  datatype Result = Result(cache: Cache, handled: bool)

  function HitRow(c: Cache, a: nat, row: seq<Block>): Cache
    requires |c.sets| > 0
  {
    c.(sets := c.sets[SetOf(|c.sets|, a) := row])
  }

  /** A miss: a new register, a merge, or no register is free. */
  function Miss(c: Cache, p: Packet, from: Queue, keep: bool): Result {
    match CheckMshr(c.mshr, p.address)
    case Some(i) => Result(c.(mshr := c.mshr[i := Merge(c.mshr[i], p, from)]), true)
    case None =>
      if c.occupancy < |c.mshr| then Result(if keep then AddMshr(c, p) else c, true) else Result(c, false)
  }

  /** handle_writeback of an L1D: a store hits and makes the line dirty, or fetches it. */
  function HandleWrite(c: Cache, p: Packet): Result
    requires |c.sets| > 0
  {
    var row := c.sets[SetOf(|c.sets|, p.address)];
    match CheckHit(row, p.address)
    case Some(w) =>
      var row1 := if p.kind == Writeback then row else TouchRow(row, w);
      Result(HitRow(c, p.address, row1[w := row1[w].(dirty := true)]), true)
    case None => Miss(c, p, Writes, true)
  }

  /** handle_read */
  function HandleRead(c: Cache, p: Packet): Result
    requires |c.sets| > 0
  {
    var row := c.sets[SetOf(|c.sets|, p.address)];
    match CheckHit(row, p.address)
    case Some(w) =>
      var row1 := if p.kind == Writeback then row else TouchRow(row, w);
      Result(HitRow(c, p.address, row1[w := row1[w].(prefetch := false, used := true)]), true)
    case None => Miss(c, p, Reads, true)
  }

  /** handle_prefetch; a prefetch for a lower level takes no register. */
  function HandlePrefetch(c: Cache, p: Packet, lowerRoom: bool): Result
    requires |c.sets| > 0
  {
    var row := c.sets[SetOf(|c.sets|, p.address)];
    match CheckHit(row, p.address)
    case Some(w) => Result(HitRow(c, p.address, if p.kind == Writeback then row else TouchRow(row, w)), true)
    case None =>
      if CheckMshr(c.mshr, p.address) == None && c.occupancy < |c.mshr| && !lowerRoom then Result(c, false)
      else Miss(c, p, Prefetches, p.fillLevel <= c.level)
  }

  /** return_data: the line of a register has arrived. */
  function ReturnData(c: Cache, i: nat, now: nat): Cache
    requires i < |c.mshr|
  {
    var e := c.mshr[i];
    var cycle := if e.eventCycle < now then now + c.latency else e.eventCycle + c.latency;
    UpdateFillCycle(c.(mshr := c.mshr[i := e.(returned := true, eventCycle := cycle)]))
  }

  function Filled(b: Block, p: Packet): Block {
    Block(true, p.kind == Rfo, p.kind == Prefetch, false, p.address, b.lru)
  }

  /** A fill takes place: a line has arrived, and its victim can be written back if need be. */
  predicate CanFill(c: Cache, now: nat, lowerRoom: bool)
    requires |c.sets| > 0
  {
    && c.nextIndex < |c.mshr| && c.mshr[c.nextIndex].address != 0
    && c.nextCycle.Some? && c.nextCycle.value <= now
    && var row := c.sets[SetOf(|c.sets|, c.mshr[c.nextIndex].address)];
       Victim(row).Some? && (row[Victim(row).value].dirty ==> lowerRoom)
  }

  /** The next line takes the place of its victim, and its register becomes free. */
  function Fill(c: Cache): Cache
    requires |c.sets| > 0 && c.nextIndex < |c.mshr|
    requires Victim(c.sets[SetOf(|c.sets|, c.mshr[c.nextIndex].address)]).Some?
  {
    var e := c.mshr[c.nextIndex];
    var row := c.sets[SetOf(|c.sets|, e.address)];
    var w := Victim(row).value;
    var row1 := TouchRow(row, w);
    UpdateFillCycle(HitRow(c, e.address, row1[w := Filled(row1[w], e)]).(
      mshr := c.mshr[c.nextIndex := NO_PACKET], occupancy := c.occupancy - 1))
  }

  /** handle_fill */
  function HandleFill(c: Cache, now: nat, lowerRoom: bool): Cache
    requires |c.sets| > 0
  {
    if CanFill(c, now, lowerRoom) then Fill(c) else c
  }

  /** The address that a fill writes back. */
  function WrittenBack(c: Cache, now: nat, lowerRoom: bool): Option<nat>
    requires |c.sets| > 0
  {
    if !CanFill(c, now, lowerRoom) then None
    else
      var row := c.sets[SetOf(|c.sets|, c.mshr[c.nextIndex].address)];
      var b := row[Victim(row).value];
      if b.dirty then Some(b.tag) else None
  }

  /** invalidate_entry */
  function Invalidate(c: Cache, a: nat): Cache
    requires |c.sets| > 0
  {
    var row := c.sets[SetOf(|c.sets|, a)];
    match CheckHit(row, a)
    case Some(w) => HitRow(c, a, row[w := row[w].(valid := false)])
    case None => c
  }

  function EmptyRow(ways: nat): seq<Block> { seq(ways, w requires 0 <= w < ways => Block(false, false, false, false, 0, w)) }

  function Initial(level: nat, latency: nat, sets: nat, ways: nat, registers: nat): Cache {
    Cache(level, latency, seq(sets, _ => EmptyRow(ways)), seq(registers, _ => NO_PACKET), 0, 0, None)
  }
}
