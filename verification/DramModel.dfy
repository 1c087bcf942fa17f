/**
  One channel of the DRAM controller (dram_controller.cc) as a value: the two request
  queues, the banks, the read/write mode and the data bus. The functions below say what
  each operation of the controller does to that value; class `MemoryController` performs
  the same operations in place, and the lemmas of `DramSafety`, `DramBus` and `DramDrain`
  speak about every run of them.

  Cycle numbers are unbounded, and `None` stands for the all-ones cycle, row or index.
*/
module DramModel {
  import opened Options
  import opened Powers

  // The address is split channel : bank : column : rank : row, least significant first.
  const LOG2_CHANNELS: nat := 0
  const LOG2_BANKS: nat := 3
  const LOG2_COLUMNS: nat := 7
  const LOG2_RANKS: nat := 0
  const LOG2_ROWS: nat := 16

  /** `bits` bits of an address from bit `shift` up; a field of no bits reads as 0. */
  function Field(address: nat, shift: nat, bits: nat): (r: nat)
    ensures r < Pow2(bits)
  {
    if bits == 0 then 0 else (address / Pow2(shift)) % Pow2(bits)
  }

  function RowOf(address: nat): nat {
    Field(address, LOG2_RANKS + LOG2_COLUMNS + LOG2_BANKS + LOG2_CHANNELS, LOG2_ROWS)
  }

  const BANK_COUNT: nat := Pow2(LOG2_RANKS) * Pow2(LOG2_BANKS)

  /** The bank an address maps to, counting all banks of all ranks of the channel. */
  function BankOf(address: nat): (b: nat)
    ensures b < BANK_COUNT
  {
    var rank := Field(address, LOG2_COLUMNS + LOG2_BANKS + LOG2_CHANNELS, LOG2_RANKS);
    var bank := Field(address, LOG2_CHANNELS, LOG2_BANKS);
    FlatIndexInRange(rank, bank, Pow2(LOG2_RANKS), Pow2(LOG2_BANKS));
    rank * Pow2(LOG2_BANKS) + bank
  }

  lemma FlatIndexInRange(i: nat, j: nat, m: nat, n: nat)
    requires i < m && j < n
    ensures i * n + j < m * n
  {
    assert (i + 1) * n <= m * n;
  }

  datatype Timing = Timing(tRP: nat, tRCD: nat, tCAS: nat, returnTime: nat, turnAround: nat)

  /** Address 0 marks an empty queue slot. */
  datatype Packet = Packet(address: nat, scheduled: bool, eventCycle: nat)

  const EMPTY := Packet(0, false, 0)

  /** A queue slot and the cycle it becomes due; no cycle when nothing is waiting. */
  datatype Due = Due(index: nat, cycle: Option<nat>)

  datatype Queue = Queue(entry: seq<Packet>, occupancy: int, nextSchedule: Due, nextProcess: Due)

  datatype Bank = Bank(working: bool, openRow: Option<nat>, cycleAvailable: nat,
                       requestIndex: Option<nat>, rowBufferHit: bool, isWrite: bool, isRead: bool)

  const IDLE_BANK := Bank(false, None, 0, None, false, false, false)

  /** One use of the data bus. */
  datatype Transfer = Transfer(cycle: nat, isWrite: bool, address: nat)

  /** `transfers` is the history of bus uses; the simulator keeps no such list. */
  datatype Channel = Channel(rq: Queue, wq: Queue, bank: seq<Bank>, writeMode: bool,
                             scheduledReads: int, scheduledWrites: int, dbus: nat,
                             transfers: seq<Transfer>)
  {
    function Q(isWrite: bool): Queue { if isWrite then wq else rq }

    function WithQ(isWrite: bool, q: Queue): Channel {
      if isWrite then this.(wq := q) else this.(rq := q)
    }

    function ScheduledCount(isWrite: bool): int { if isWrite then scheduledWrites else scheduledReads }

    function WithScheduledCount(isWrite: bool, n: int): Channel {
      if isWrite then this.(scheduledWrites := n) else this.(scheduledReads := n)
    }
  }

  // ---- Which slots of a queue are of interest ----

  function Occupied(entry: seq<Packet>): set<nat> {
    set i | 0 <= i < |entry| && entry[i].address != 0
  }

  function Scheduled(entry: seq<Packet>): set<nat> {
    set i | 0 <= i < |entry| && entry[i].scheduled
  }

  function Waiting(entry: seq<Packet>): set<nat> {
    set i | 0 <= i < |entry| && entry[i].address != 0 && !entry[i].scheduled
  }

  /** Waiting requests whose bank is free. */
  function Idle(entry: seq<Packet>, bank: seq<Bank>): set<nat>
    requires |bank| == BANK_COUNT
  {
    set i | 0 <= i < |entry| && entry[i].address != 0 && !entry[i].scheduled
            && !bank[BankOf(entry[i].address)].working
  }

  /** Waiting requests whose bank is free and has their row open. */
  function RowHits(entry: seq<Packet>, bank: seq<Bank>): set<nat>
    requires |bank| == BANK_COUNT
  {
    set i | 0 <= i < |entry| && entry[i].address != 0 && !entry[i].scheduled
            && !bank[BankOf(entry[i].address)].working
            && bank[BankOf(entry[i].address)].openRow == Some(RowOf(entry[i].address))
  }

  /** `d` names the slot of `cand` with the smallest event cycle, the first of equals. */
  ghost predicate IsEarliest(entry: seq<Packet>, cand: set<nat>, d: Due)
    requires forall i <- cand :: i < |entry|
  {
    if cand == {} then d == Due(|entry|, None)
    else
      && d.index in cand
      && d.cycle == Some(entry[d.index].eventCycle)
      && (forall k <- cand :: entry[d.index].eventCycle < entry[k].eventCycle
                              || (entry[d.index].eventCycle == entry[k].eventCycle && d.index <= k))
  }

  ghost function Earliest(entry: seq<Packet>, cand: set<nat>): (d: Due)
    requires forall i <- cand :: i < |entry|
    ensures IsEarliest(entry, cand, d)
  {
    EarliestExists(entry, cand);
    var d :| IsEarliest(entry, cand, d);
    d
  }

  lemma {:induction false} EarliestExists(entry: seq<Packet>, cand: set<nat>)
    requires forall i <- cand :: i < |entry|
    ensures exists d :: IsEarliest(entry, cand, d)
  {
    if cand == {} {
      assert IsEarliest(entry, cand, Due(|entry|, None));
    } else {
      var k :| k in cand;
      EarliestExists(entry, cand - {k});
      var d :| IsEarliest(entry, cand - {k}, d);
      var first := Due(k, Some(entry[k].eventCycle));
      if cand == {k} || entry[k].eventCycle < entry[d.index].eventCycle
         || (entry[k].eventCycle == entry[d.index].eventCycle && k <= d.index) {
        assert IsEarliest(entry, cand, first);
      } else {
        assert IsEarliest(entry, cand, d);
      }
    }
  }

  lemma EarliestIsUnique(entry: seq<Packet>, cand: set<nat>, d: Due)
    requires forall i <- cand :: i < |entry|
    requires IsEarliest(entry, cand, d)
    ensures d == Earliest(entry, cand)
  {}

  /** update_schedule_cycle */
  ghost function RefreshSchedule(q: Queue): Queue {
    q.(nextSchedule := Earliest(q.entry, Waiting(q.entry)))
  }

  /** update_process_cycle */
  ghost function RefreshProcess(q: Queue): Queue {
    q.(nextProcess := Earliest(q.entry, Scheduled(q.entry)))
  }

  // ---- The operations ----

  /** A request that was scheduled but not served is put back, and its bank released. */
  function Unscheduled(entry: seq<Packet>, now: nat): (r: seq<Packet>)
    ensures |r| == |entry|
  {
    seq(|entry|, i requires 0 <= i < |entry| =>
      if entry[i].scheduled then entry[i].(scheduled := false, eventCycle := now) else entry[i])
  }

  function ReleasedBank(b: Bank, entry: seq<Packet>, now: nat, t: Timing): Bank {
    if b.working && b.requestIndex.Some? && b.requestIndex.value < |entry| && entry[b.requestIndex.value].scheduled then
      var row := if b.cycleAvailable - t.tCAS <= now then Some(RowOf(entry[b.requestIndex.value].address)) else None;
      Bank(false, row, now, None, false, false, false)
    else
      b
  }

  function ReleasedBanks(bank: seq<Bank>, entry: seq<Packet>, now: nat, t: Timing): (r: seq<Bank>)
    ensures |r| == |bank|
  {
    seq(|bank|, b requires 0 <= b < |bank| => ReleasedBank(bank[b], entry, now, t))
  }

  function PutBack(c: Channel, isWrite: bool, now: nat, t: Timing): Channel {
    var q := c.Q(isWrite);
    c.WithQ(isWrite, q.(entry := Unscheduled(q.entry, now)))
     .WithScheduledCount(isWrite, c.ScheduledCount(isWrite) - |Scheduled(q.entry)|)
     .(bank := ReleasedBanks(c.bank, q.entry, now, t))
  }

  ghost function Refreshed(c: Channel): Channel {
    c.(rq := RefreshProcess(RefreshSchedule(c.rq)), wq := RefreshProcess(RefreshSchedule(c.wq)))
  }

  /** reset_remain_requests */
  ghost function ResetRemain(c: Channel, isWrite: bool, now: nat, t: Timing): Channel {
    Refreshed(PutBack(c, isWrite, now, t))
  }

  /** The request the scheduler takes: the oldest row hit, else the oldest on a free bank. */
  ghost function Choice(q: Queue, bank: seq<Bank>): (r: Option<(nat, bool)>)
    requires |bank| == BANK_COUNT
    ensures r.Some? ==> r.value.0 in Idle(q.entry, bank)
    ensures r == None ==> Idle(q.entry, bank) == {}
  {
    var hits := RowHits(q.entry, bank);
    var idle := Idle(q.entry, bank);
    if hits != {} then Some((Earliest(q.entry, hits).index, true))
    else if idle != {} then Some((Earliest(q.entry, idle).index, false))
    else None
  }

  /** schedule */
  ghost function Schedule(c: Channel, isWrite: bool, now: nat, t: Timing): Channel
    requires |c.bank| == BANK_COUNT
  {
    match Choice(c.Q(isWrite), c.bank)
    case None => c
    case Some(pick) => ScheduleAt(c, isWrite, pick.0, pick.1, now, t)
  }

  function Started(p: Packet, ready: nat): Packet { p.(scheduled := true, eventCycle := ready) }

  function ReadyAt(hit: bool, now: nat, t: Timing): nat {
    now + (if hit then t.tCAS else t.tRP + t.tRCD + t.tCAS)
  }

  function BusyBank(p: Packet, i: nat, hit: bool, isWrite: bool, now: nat, t: Timing): Bank {
    Bank(true, Some(RowOf(p.address)), ReadyAt(hit, now, t), Some(i), hit, isWrite, !isWrite)
  }

  ghost function ScheduleAt(c: Channel, isWrite: bool, i: nat, hit: bool, now: nat, t: Timing): Channel
    requires |c.bank| == BANK_COUNT && i < |c.Q(isWrite).entry|
  {
    var q := c.Q(isWrite);
    var p := q.entry[i];
    var q1 := q.(entry := q.entry[i := Started(p, ReadyAt(hit, now, t))]);
    c.WithQ(isWrite, RefreshProcess(RefreshSchedule(q1)))
     .WithScheduledCount(isWrite, c.ScheduledCount(isWrite) + 1)
     .(bank := c.bank[BankOf(p.address) := BusyBank(p, i, hit, isWrite, now, t)])
  }

  /** What `process` asserts before it serves the request it was pointed at. */
  ghost predicate ProcessSane(c: Channel, isWrite: bool)
    requires |c.bank| == BANK_COUNT
  {
    var q := c.Q(isWrite);
    && q.nextProcess.index < |q.entry|
    && c.bank[BankOf(q.entry[q.nextProcess.index].address)].requestIndex == Some(q.nextProcess.index)
    && q.occupancy > 0
  }

  function FreedBank(b: Bank): Bank {
    b.(requestIndex := None, rowBufferHit := false, working := false, isWrite := false, isRead := false)
  }

  /** The request at `i` uses the bus now and leaves its queue. */
  ghost function ServeAt(c: Channel, isWrite: bool, i: nat, now: nat, t: Timing): Channel
    requires |c.bank| == BANK_COUNT && i < |c.Q(isWrite).entry|
  {
    var q := c.Q(isWrite);
    var p := q.entry[i];
    var b := BankOf(p.address);
    c.WithQ(isWrite, RefreshProcess(q.(entry := q.entry[i := EMPTY], occupancy := q.occupancy - 1)))
     .WithScheduledCount(isWrite, c.ScheduledCount(isWrite) - 1)
     .(bank := c.bank[b := FreedBank(c.bank[b])], dbus := now + t.returnTime,
       transfers := c.transfers + [Transfer(now, isWrite, p.address)])
  }

  /** process: serve the request once its bank and then the bus are available. */
  ghost function Process(c: Channel, isWrite: bool, now: nat, t: Timing): Channel
    requires |c.bank| == BANK_COUNT
    requires c.Q(isWrite).nextProcess.index < |c.Q(isWrite).entry|
  {
    var i := c.Q(isWrite).nextProcess.index;
    var b := BankOf(c.Q(isWrite).entry[i].address);
    if now < c.bank[b].cycleAvailable then
      c
    else if now < c.dbus then
      c.(bank := c.bank[b := c.bank[b].(cycleAvailable := c.dbus)])
    else
      ServeAt(c, isWrite, i, now, t)
  }

  // ---- Read/write mode ----

  datatype Marks = Marks(high: nat, low: nat)

  predicate TurnsToWrites(c: Channel, m: Marks) {
    !c.writeMode && (c.wq.occupancy >= m.high || (c.rq.occupancy == 0 && c.wq.occupancy > 0))
  }

  predicate TurnsToReads(c: Channel, m: Marks) {
    c.writeMode && (c.wq.occupancy == 0 || (c.rq.occupancy != 0 && c.wq.occupancy < m.low))
  }

  /** The mode turns over, and so does the direction of the bus. */
  ghost function Turn(c: Channel, now: nat, t: Timing): Channel {
    var c1 := ResetRemain(c.(writeMode := !c.writeMode), c.writeMode, now, t);
    c1.(dbus := c1.dbus + t.turnAround)
  }

  /** The first part of operate: change mode when the watermarks say so. */
  ghost function SwitchMode(c: Channel, now: nat, t: Timing, m: Marks): Channel {
    if TurnsToWrites(c, m) || TurnsToReads(c, m) then Turn(c, now, t) else c
  }

  predicate IsDue(d: Due, size: nat, now: nat) {
    d.index < size && d.cycle.Some? && d.cycle.value <= now
  }

  ghost function ScheduleIfDue(c: Channel, now: nat, t: Timing): Channel
    requires |c.bank| == BANK_COUNT
  {
    var q := c.Q(c.writeMode);
    if IsDue(q.nextSchedule, |q.entry|, now) then Schedule(c, c.writeMode, now, t) else c
  }

  ghost function ProcessIfDue(c: Channel, now: nat, t: Timing): Channel
    requires |c.bank| == BANK_COUNT
  {
    var q := c.Q(c.writeMode);
    if IsDue(q.nextProcess, |q.entry|, now) then Process(c, c.writeMode, now, t) else c
  }

  /** The rest of operate: schedule one request of the active queue, then serve one. */
  ghost function Serve(c: Channel, now: nat, t: Timing): Channel
    requires |c.bank| == BANK_COUNT
  {
    ProcessIfDue(ScheduleIfDue(c, now, t), now, t)
  }

  /** One call of operate. */
  ghost function Operate(c: Channel, now: nat, t: Timing, m: Marks): Channel
    requires |c.bank| == BANK_COUNT
  {
    Serve(SwitchMode(c, now, t, m), now, t)
  }

  // ---- Arrivals ----

  /** check_dram_queue: the first slot holding the address. */
  function Find(entry: seq<Packet>, address: nat): (r: Option<nat>)
    ensures r.Some? ==> r.value < |entry| && entry[r.value].address == address
                        && forall k :: 0 <= k < r.value ==> entry[k].address != address
    ensures r == None ==> forall k :: 0 <= k < |entry| ==> entry[k].address != address
  {
    FindFrom(entry, address, 0)
  }

  function FindFrom(entry: seq<Packet>, address: nat, n: nat): (r: Option<nat>)
    requires n <= |entry|
    ensures r.Some? ==> n <= r.value < |entry| && entry[r.value].address == address
                        && forall k :: n <= k < r.value ==> entry[k].address != address
    ensures r == None ==> forall k :: n <= k < |entry| ==> entry[k].address != address
    decreases |entry| - n
  {
    if n == |entry| then None
    else if entry[n].address == address then Some(n)
    else FindFrom(entry, address, n + 1)
  }

  /** Put the request in the first empty slot; a full queue drops it, as the source's loop does. */
  ghost function Insert(q: Queue, p: Packet): Queue {
    match Find(q.entry, 0)
    case None => RefreshSchedule(q)
    case Some(i) => RefreshSchedule(q.(entry := q.entry[i := p], occupancy := q.occupancy + 1))
  }

  /** add_rq: answered at once from the write queue, merged with a pending read, or queued. */
  ghost function AddRead(c: Channel, p: Packet): Channel {
    if Find(c.wq.entry, p.address).Some? || Find(c.rq.entry, p.address).Some? then c
    else c.(rq := Insert(c.rq, p))
  }

  /** add_wq */
  ghost function AddWrite(c: Channel, p: Packet): Channel {
    if Find(c.wq.entry, p.address).Some? then c else c.(wq := Insert(c.wq, p))
  }

  // ---- Runs ----

  function EmptyQueue(size: nat): Queue {
    Queue(seq(size, _ => EMPTY), 0, Due(0, None), Due(0, None))
  }

  function Initial(rqSize: nat, wqSize: nat): Channel {
    Channel(EmptyQueue(rqSize), EmptyQueue(wqSize), seq(BANK_COUNT, _ => IDLE_BANK), false, 0, 0, 0, [])
  }

  datatype Event = ReadArrives(p: Packet) | WriteArrives(p: Packet) | Cycle(now: nat)

  /** A request arrives with a real address and not yet scheduled. */
  predicate Arrivable(p: Packet) { p.address != 0 && !p.scheduled }

  predicate Legal(e: Event) { e.Cycle? || Arrivable(e.p) }
}
