/** What every step of the DRAM channel keeps, over all runs. */
module DramSafety {
  import opened Options
  import opened DramModel

  /** The cached pair is the earliest candidate; with no cycle there is no candidate. */
  ghost predicate DueIsExact(entry: seq<Packet>, cand: set<nat>, d: Due)
    requires forall i <- cand :: i < |entry|
  {
    if d.cycle == None then cand == {} else d == Earliest(entry, cand)
  }

  ghost predicate QueueInv(q: Queue) {
    && q.occupancy == |Occupied(q.entry)|
    && (forall i :: 0 <= i < |q.entry| && q.entry[i].scheduled ==> q.entry[i].address != 0)
    && (forall i, j :: 0 <= i < j < |q.entry| && q.entry[i].address != 0 ==> q.entry[i].address != q.entry[j].address)
    && DueIsExact(q.entry, Waiting(q.entry), q.nextSchedule)
    && DueIsExact(q.entry, Scheduled(q.entry), q.nextProcess)
  }

  /** A scheduled request of the active queue owns its bank. */
  ghost predicate OwnsItsBank(entry: seq<Packet>, bank: seq<Bank>, i: nat)
    requires |bank| == BANK_COUNT && i < |entry|
  {
    bank[BankOf(entry[i].address)].working && bank[BankOf(entry[i].address)].requestIndex == Some(i)
  }

  /** A working bank serves the scheduled request it names; a free one names none. */
  ghost predicate BankInv(entry: seq<Packet>, bank: seq<Bank>, b: nat, isWrite: bool, t: Timing)
    requires b < |bank|
  {
    if bank[b].working then
      && bank[b].requestIndex.Some?
      && bank[b].requestIndex.value < |entry|
      && entry[bank[b].requestIndex.value].scheduled
      && BankOf(entry[bank[b].requestIndex.value].address) == b
      && bank[b].isWrite == isWrite
      && bank[b].isRead == !isWrite
      && bank[b].cycleAvailable >= t.tCAS
    else
      bank[b].requestIndex == None && !bank[b].rowBufferHit && !bank[b].isWrite && !bank[b].isRead
  }

  /** The queue of the current mode and the banks name each other. */
  ghost predicate Correspond(entry: seq<Packet>, bank: seq<Bank>, isWrite: bool, t: Timing)
    requires |bank| == BANK_COUNT
  {
    && (forall i :: 0 <= i < |entry| && entry[i].scheduled ==> OwnsItsBank(entry, bank, i))
    && (forall b :: 0 <= b < |bank| ==> BankInv(entry, bank, b, isWrite, t))
  }

  ghost predicate QueuesInv(c: Channel) { QueueInv(c.rq) && QueueInv(c.wq) }

  /** Only the queue of the current mode has scheduled requests, and they own the busy banks. */
  ghost predicate BanksInv(c: Channel, t: Timing) {
    && |c.bank| == BANK_COUNT
    && Scheduled(c.Q(!c.writeMode).entry) == {}
    && Correspond(c.Q(c.writeMode).entry, c.bank, c.writeMode, t)
  }

  ghost predicate CountsInv(c: Channel) {
    c.scheduledReads == |Scheduled(c.rq.entry)| && c.scheduledWrites == |Scheduled(c.wq.entry)|
  }

  ghost predicate Inv(c: Channel, t: Timing) { QueuesInv(c) && BanksInv(c, t) && CountsInv(c) }

  // ---- Each operation keeps the invariant ----

  lemma InitialInv(rqSize: nat, wqSize: nat, t: Timing)
    ensures Inv(Initial(rqSize, wqSize), t)
  {
    forall n: nat ensures Occupied(EmptyQueue(n).entry) == {} && Scheduled(EmptyQueue(n).entry) == {}
                          && Waiting(EmptyQueue(n).entry) == {}
    {}
  }

  lemma UnscheduledQueue(q: Queue, now: nat)
    requires QueueInv(q)
    ensures QueueInv(RefreshProcess(RefreshSchedule(q.(entry := Unscheduled(q.entry, now)))))
    ensures Scheduled(Unscheduled(q.entry, now)) == {}
  {
    assert Occupied(Unscheduled(q.entry, now)) == Occupied(q.entry);
  }

  lemma NoneScheduled(entry: seq<Packet>)
    ensures Scheduled(entry) == {} <==> forall i :: 0 <= i < |entry| ==> !entry[i].scheduled
  {
    assert forall i :: 0 <= i < |entry| && entry[i].scheduled ==> i in Scheduled(entry);
  }

  lemma RefreshedQueue(q: Queue)
    requires QueueInv(q)
    ensures QueueInv(RefreshProcess(RefreshSchedule(q)))
  {}

  lemma BankIsReleased(entry: seq<Packet>, bank: seq<Bank>, isWrite: bool, now: nat, t: Timing, b: nat)
    requires |bank| == BANK_COUNT && Correspond(entry, bank, isWrite, t) && b < |bank|
    ensures var r := ReleasedBank(bank[b], entry, now, t);
            !r.working && r.requestIndex == None && !r.rowBufferHit && !r.isWrite && !r.isRead
  {
    assert BankInv(entry, bank, b, isWrite, t);
  }

  lemma AllBanksFree(entry: seq<Packet>, bank: seq<Bank>, other: seq<Packet>, isWrite: bool, now: nat, t: Timing)
    requires |bank| == BANK_COUNT && Correspond(entry, bank, isWrite, t) && Scheduled(other) == {}
    ensures Correspond(other, ReleasedBanks(bank, entry, now, t), !isWrite, t)
    ensures forall b :: 0 <= b < |bank| ==> !ReleasedBanks(bank, entry, now, t)[b].working
  {
    var bank1 := ReleasedBanks(bank, entry, now, t);
    forall b | 0 <= b < |bank1| ensures !bank1[b].working && BankInv(other, bank1, b, !isWrite, t) {
      BankIsReleased(entry, bank, isWrite, now, t, b);
    }
    NoneScheduled(other);
  }

  /** Changing mode keeps every request, puts back the scheduled ones and frees every bank. */
  lemma ResetInv(c: Channel, now: nat, t: Timing)
    requires Inv(c, t)
    ensures var c1 := ResetRemain(c.(writeMode := !c.writeMode), c.writeMode, now, t);
            && Inv(c1, t)
            && c1.ScheduledCount(c.writeMode) == 0
            && (forall b :: 0 <= b < |c1.bank| ==> !c1.bank[b].working)
            && Scheduled(c1.rq.entry) == Scheduled(c1.wq.entry) == {}
  {
    UnscheduledQueue(c.Q(c.writeMode), now);
    RefreshedQueue(c.Q(!c.writeMode));
    AllBanksFree(c.Q(c.writeMode).entry, c.bank, c.Q(!c.writeMode).entry, c.writeMode, now, t);
  }

  lemma StartedSlots(entry: seq<Packet>, i: nat, ready: nat)
    requires i < |entry| && !entry[i].scheduled
    ensures var entry1 := entry[i := Started(entry[i], ready)];
            && Occupied(entry1) == Occupied(entry)
            && Scheduled(entry1) == Scheduled(entry) + {i}
            && |Scheduled(entry1)| == |Scheduled(entry)| + 1
  {
    assert Scheduled(entry[i := Started(entry[i], ready)]) == Scheduled(entry) + {i};
  }

  lemma ScheduledQueue(q: Queue, i: nat, ready: nat)
    requires QueueInv(q) && i < |q.entry| && q.entry[i].address != 0 && !q.entry[i].scheduled
    ensures QueueInv(RefreshProcess(RefreshSchedule(q.(entry := q.entry[i := Started(q.entry[i], ready)]))))
  {
    StartedSlots(q.entry, i, ready);
  }

  lemma TakesBank(entry: seq<Packet>, bank: seq<Bank>, isWrite: bool, i: nat, hit: bool, now: nat, t: Timing)
    requires |bank| == BANK_COUNT && Correspond(entry, bank, isWrite, t)
    requires i < |entry| && !entry[i].scheduled && !bank[BankOf(entry[i].address)].working
    ensures Correspond(entry[i := Started(entry[i], ReadyAt(hit, now, t))],
                       bank[BankOf(entry[i].address) := BusyBank(entry[i], i, hit, isWrite, now, t)], isWrite, t)
  {
    var entry1 := entry[i := Started(entry[i], ReadyAt(hit, now, t))];
    var bank1 := bank[BankOf(entry[i].address) := BusyBank(entry[i], i, hit, isWrite, now, t)];
    forall k | 0 <= k < |entry1| && entry1[k].scheduled ensures OwnsItsBank(entry1, bank1, k) {
      if k != i { assert OwnsItsBank(entry, bank, k); }
    }
    forall k | 0 <= k < |bank1| ensures BankInv(entry1, bank1, k, isWrite, t) {
      assert BankInv(entry, bank, k, isWrite, t);
    }
  }

  lemma ScheduleAtQueues(c: Channel, isWrite: bool, i: nat, hit: bool, now: nat, t: Timing)
    requires QueuesInv(c) && |c.bank| == BANK_COUNT && i in Waiting(c.Q(isWrite).entry)
    ensures QueuesInv(ScheduleAt(c, isWrite, i, hit, now, t))
  {
    ScheduledQueue(c.Q(isWrite), i, ReadyAt(hit, now, t));
  }

  lemma ScheduleAtBanks(c: Channel, i: nat, hit: bool, now: nat, t: Timing)
    requires BanksInv(c, t) && i in Idle(c.Q(c.writeMode).entry, c.bank)
    ensures BanksInv(ScheduleAt(c, c.writeMode, i, hit, now, t), t)
  {
    TakesBank(c.Q(c.writeMode).entry, c.bank, c.writeMode, i, hit, now, t);
  }

  lemma ScheduleAtCounts(c: Channel, isWrite: bool, i: nat, hit: bool, now: nat, t: Timing)
    requires CountsInv(c) && |c.bank| == BANK_COUNT && i in Waiting(c.Q(isWrite).entry)
    ensures CountsInv(ScheduleAt(c, isWrite, i, hit, now, t))
  {
    StartedSlots(c.Q(isWrite).entry, i, ReadyAt(hit, now, t));
  }

  lemma ScheduleAtInv(c: Channel, i: nat, hit: bool, now: nat, t: Timing)
    requires Inv(c, t) && i in Idle(c.Q(c.writeMode).entry, c.bank)
    ensures Inv(ScheduleAt(c, c.writeMode, i, hit, now, t), t)
  {
    ScheduleAtQueues(c, c.writeMode, i, hit, now, t);
    ScheduleAtBanks(c, i, hit, now, t);
    ScheduleAtCounts(c, c.writeMode, i, hit, now, t);
  }

  lemma ScheduleInv(c: Channel, now: nat, t: Timing)
    requires Inv(c, t)
    ensures Inv(Schedule(c, c.writeMode, now, t), t)
  {
    match Choice(c.Q(c.writeMode), c.bank) {
      case None =>
      case Some(pick) => ScheduleAtInv(c, pick.0, pick.1, now, t);
    }
  }

  /** When the controller is told to process a request, the request exists and owns its bank. */
  lemma ProcessIsSane(c: Channel, now: nat, t: Timing)
    requires Inv(c, t)
    requires IsDue(c.Q(c.writeMode).nextProcess, |c.Q(c.writeMode).entry|, now)
    ensures ProcessSane(c, c.writeMode)
  {
    var q := c.Q(c.writeMode);
    var i := q.nextProcess.index;
    assert i in Scheduled(q.entry);
    assert OwnsItsBank(q.entry, c.bank, i);
    assert i in Occupied(q.entry);
  }

  lemma ServedSlots(entry: seq<Packet>, i: nat)
    requires i < |entry| && entry[i].scheduled
    ensures Occupied(entry[i := EMPTY]) == Occupied(entry) - {i}
    ensures Scheduled(entry[i := EMPTY]) == Scheduled(entry) - {i}
    ensures Waiting(entry[i := EMPTY]) == Waiting(entry)
  {}

  lemma ServedQueue(q: Queue, i: nat)
    requires QueueInv(q) && i < |q.entry| && q.entry[i].scheduled
    ensures var q1 := q.(entry := q.entry[i := EMPTY], occupancy := q.occupancy - 1);
            && QueueInv(RefreshProcess(q1))
            && Scheduled(q1.entry) == Scheduled(q.entry) - {i}
  {
    assert i in Occupied(q.entry);
    ServedSlots(q.entry, i);
    EarliestSkips(q.entry, q.entry[i := EMPTY], Waiting(q.entry));
  }

  lemma FreesBank(entry: seq<Packet>, bank: seq<Bank>, isWrite: bool, t: Timing, i: nat, free: Bank)
    requires |bank| == BANK_COUNT && Correspond(entry, bank, isWrite, t)
    requires i < |entry| && entry[i].scheduled
    requires !free.working && free.requestIndex == None && !free.rowBufferHit && !free.isWrite && !free.isRead
    ensures Correspond(entry[i := EMPTY], bank[BankOf(entry[i].address) := free], isWrite, t)
  {
    assert OwnsItsBank(entry, bank, i);
    var b := BankOf(entry[i].address);
    var entry1, bank1 := entry[i := EMPTY], bank[b := free];
    forall k | 0 <= k < |entry1| && entry1[k].scheduled ensures OwnsItsBank(entry1, bank1, k) {
      assert OwnsItsBank(entry, bank, k);
    }
    forall k | 0 <= k < |bank1| ensures BankInv(entry1, bank1, k, isWrite, t) {
      assert BankInv(entry, bank, k, isWrite, t);
    }
  }

  lemma DelaysBank(entry: seq<Packet>, bank: seq<Bank>, isWrite: bool, t: Timing, b: nat, until: nat)
    requires |bank| == BANK_COUNT && Correspond(entry, bank, isWrite, t)
    requires b < |bank| && bank[b].cycleAvailable <= until
    ensures Correspond(entry, bank[b := bank[b].(cycleAvailable := until)], isWrite, t)
  {
    var bank1 := bank[b := bank[b].(cycleAvailable := until)];
    forall k | 0 <= k < |entry| && entry[k].scheduled ensures OwnsItsBank(entry, bank1, k) {
      assert OwnsItsBank(entry, bank, k);
    }
    forall k | 0 <= k < |bank1| ensures BankInv(entry, bank1, k, isWrite, t) {
      assert BankInv(entry, bank, k, isWrite, t);
    }
  }

  lemma ProcessInv(c: Channel, now: nat, t: Timing)
    requires Inv(c, t)
    requires IsDue(c.Q(c.writeMode).nextProcess, |c.Q(c.writeMode).entry|, now)
    ensures Inv(Process(c, c.writeMode, now, t), t)
  {
    ProcessIsSane(c, now, t);
    var q := c.Q(c.writeMode);
    var i := q.nextProcess.index;
    var b := BankOf(q.entry[i].address);
    if c.bank[b].cycleAvailable <= now {
      if now < c.dbus {
        DelaysBank(q.entry, c.bank, c.writeMode, t, b, c.dbus);
      } else {
        ServedQueue(q, i);
        FreesBank(q.entry, c.bank, c.writeMode, t, i, FreedBank(c.bank[b]));
      }
    }
  }

  /** The earliest candidate depends on the candidates' cycles only. */
  lemma EarliestSkips(e1: seq<Packet>, e2: seq<Packet>, cand: set<nat>)
    requires |e1| == |e2| && forall i <- cand :: i < |e1| && e1[i].eventCycle == e2[i].eventCycle
    ensures Earliest(e1, cand) == Earliest(e2, cand)
  {
    EarliestIsUnique(e2, cand, Earliest(e1, cand));
  }

  lemma OperateInv(c: Channel, now: nat, t: Timing, m: Marks)
    requires Inv(c, t)
    ensures Inv(Operate(c, now, t, m), t)
  {
    var c1 := SwitchMode(c, now, t, m);
    SwitchInv(c, now, t, m);
    var c2 := ScheduleIfDue(c1, now, t);
    ScheduleInv(c1, now, t);
    if IsDue(c2.Q(c2.writeMode).nextProcess, |c2.Q(c2.writeMode).entry|, now) {
      ProcessInv(c2, now, t);
    }
  }

  lemma SwitchInv(c: Channel, now: nat, t: Timing, m: Marks)
    requires Inv(c, t)
    ensures Inv(SwitchMode(c, now, t, m), t)
  {
    ResetInv(c, now, t);
  }

  lemma InsertedSlots(entry: seq<Packet>, i: nat, p: Packet)
    requires i < |entry| && entry[i].address == 0 && !entry[i].scheduled && Arrivable(p)
    ensures Occupied(entry[i := p]) == Occupied(entry) + {i}
    ensures Scheduled(entry[i := p]) == Scheduled(entry)
  {}

  lemma InsertInv(q: Queue, p: Packet)
    requires QueueInv(q) && Arrivable(p) && Find(q.entry, p.address) == None
    ensures QueueInv(Insert(q, p))
    ensures Scheduled(Insert(q, p).entry) == Scheduled(q.entry)
    ensures |Insert(q, p).entry| == |q.entry|
    ensures forall i :: 0 <= i < |q.entry| && q.entry[i].scheduled ==> Insert(q, p).entry[i] == q.entry[i]
  {
    match Find(q.entry, 0) {
      case None =>
      case Some(i) =>
        InsertedSlots(q.entry, i, p);
        EarliestSkips(q.entry, q.entry[i := p], Scheduled(q.entry));
    }
  }

  /** A queue with room takes the request. */
  lemma InsertTakes(q: Queue, p: Packet)
    requires QueueInv(q) && Arrivable(p) && q.occupancy < |q.entry|
    ensures exists i :: 0 <= i < |q.entry| && q.entry[i].address == 0 && Insert(q, p).entry == q.entry[i := p]
    ensures Insert(q, p).occupancy == q.occupancy + 1
  {
    if Find(q.entry, 0) == None {
      assert forall i :: 0 <= i < |q.entry| ==> i in Occupied(q.entry);
      FullSet(Occupied(q.entry), |q.entry|);
    }
  }

  lemma {:induction false} FullSet(s: set<nat>, n: nat)
    requires forall i :: 0 <= i < n ==> i in s
    ensures |s| >= n
  {
    if n > 0 {
      var rest := s - {n - 1};
      assert forall i :: 0 <= i < n - 1 ==> i in rest;
      FullSet(rest, n - 1);
    }
  }

  /** New requests leave the scheduled ones, and so the banks, alone. */
  lemma CorrespondKept(e: seq<Packet>, e1: seq<Packet>, bank: seq<Bank>, isWrite: bool, t: Timing)
    requires |bank| == BANK_COUNT && Correspond(e, bank, isWrite, t)
    requires |e1| == |e| && Scheduled(e1) == Scheduled(e)
    requires forall i :: 0 <= i < |e| && e[i].scheduled ==> e1[i] == e[i]
    ensures Correspond(e1, bank, isWrite, t)
  {
    forall i | 0 <= i < |e1| && e1[i].scheduled ensures OwnsItsBank(e1, bank, i) {
      assert i in Scheduled(e1);
      assert OwnsItsBank(e, bank, i);
    }
    forall b | 0 <= b < |bank| ensures BankInv(e1, bank, b, isWrite, t) {
      assert BankInv(e, bank, b, isWrite, t);
    }
  }

  lemma InsertKeepsInv(c: Channel, isWrite: bool, p: Packet, t: Timing)
    requires Inv(c, t) && Arrivable(p) && Find(c.Q(isWrite).entry, p.address) == None
    ensures Inv(c.WithQ(isWrite, Insert(c.Q(isWrite), p)), t)
  {
    InsertInv(c.Q(isWrite), p);
    if isWrite == c.writeMode {
      CorrespondKept(c.Q(isWrite).entry, Insert(c.Q(isWrite), p).entry, c.bank, c.writeMode, t);
    }
    var c1 := c.WithQ(isWrite, Insert(c.Q(isWrite), p));
    assert QueuesInv(c1);
    assert BanksInv(c1, t);
    assert CountsInv(c1);
  }

  lemma ArrivalInv(c: Channel, e: Event, t: Timing)
    requires Inv(c, t) && Legal(e) && !e.Cycle?
    ensures Inv(if e.ReadArrives? then AddRead(c, e.p) else AddWrite(c, e.p), t)
  {
    if Find(c.Q(e.WriteArrives?).entry, e.p.address) == None {
      InsertKeepsInv(c, e.WriteArrives?, e.p, t);
    }
  }

  // ---- Runs ----

  ghost function Apply(c: Channel, e: Event, t: Timing, m: Marks): Channel
    requires |c.bank| == BANK_COUNT
  {
    match e
    case ReadArrives(p) => AddRead(c, p)
    case WriteArrives(p) => AddWrite(c, p)
    case Cycle(now) => Operate(c, now, t, m)
  }

  lemma ApplyInv(c: Channel, e: Event, t: Timing, m: Marks)
    requires Inv(c, t) && Legal(e)
    ensures Inv(Apply(c, e, t, m), t)
  {
    match e {
      case Cycle(now) => OperateInv(c, now, t, m);
      case _ => ArrivalInv(c, e, t);
    }
  }

  ghost predicate Steps(c: Channel, c1: Channel, t: Timing, m: Marks) {
    |c.bank| == BANK_COUNT && exists e :: Legal(e) && c1 == Apply(c, e, t, m)
  }

  /** A run of a channel from empty queues: requests arrive and operate is called in any order. */
  ghost predicate IsRun(run: seq<Channel>, t: Timing, m: Marks) {
    && run != [] && (exists rqSize, wqSize :: run[0] == Initial(rqSize, wqSize))
    && forall k :: 0 <= k < |run| - 1 ==> Steps(run[k], run[k + 1], t, m)
  }

  lemma StepsInv(c: Channel, c1: Channel, t: Timing, m: Marks)
    requires Inv(c, t) && Steps(c, c1, t, m)
    ensures Inv(c1, t)
  {
    var e :| Legal(e) && c1 == Apply(c, e, t, m);
    ApplyInv(c, e, t, m);
  }

  lemma {:induction false} ReachableInv(run: seq<Channel>, k: nat, t: Timing, m: Marks)
    requires IsRun(run, t, m) && k < |run|
    ensures Inv(run[k], t)
  {
    if k == 0 {
      var rqSize, wqSize :| run[0] == Initial(rqSize, wqSize);
      InitialInv(rqSize, wqSize, t);
    } else {
      ReachableInv(run, k - 1, t, m);
      StepsInv(run[k - 1], run[k], t, m);
    }
  }

  // ---- What the invariant means ----

  /** A bank is busy exactly when one scheduled request of the active queue maps to it. */
  lemma BankIsBusyIffOneRequest(c: Channel, t: Timing, b: nat)
    requires Inv(c, t) && b < BANK_COUNT
    ensures c.bank[b].working <==>
            exists i :: 0 <= i < |c.Q(c.writeMode).entry| && c.Q(c.writeMode).entry[i].scheduled
                        && BankOf(c.Q(c.writeMode).entry[i].address) == b
    ensures forall i, j :: 0 <= i < |c.Q(c.writeMode).entry| && 0 <= j < |c.Q(c.writeMode).entry|
              && c.Q(c.writeMode).entry[i].scheduled && c.Q(c.writeMode).entry[j].scheduled
              && BankOf(c.Q(c.writeMode).entry[i].address) == BankOf(c.Q(c.writeMode).entry[j].address)
              ==> i == j && c.bank[BankOf(c.Q(c.writeMode).entry[i].address)].requestIndex == Some(i)
  {
    var entry := c.Q(c.writeMode).entry;
    forall i | 0 <= i < |entry| && entry[i].scheduled ensures OwnsItsBank(entry, c.bank, i) {}
    assert BankInv(entry, c.bank, b, c.writeMode, t);
  }

  /**
    The scheduler takes a waiting request with a free bank whenever there is one; it takes a
    row hit if there is one, and no request that would have done as well is older.
   */
  lemma ScheduleTakesOldestRowHit(c: Channel, now: nat, t: Timing) returns (i: nat)
    requires Inv(c, t) && Idle(c.Q(c.writeMode).entry, c.bank) != {}
    ensures i in Idle(c.Q(c.writeMode).entry, c.bank)
    ensures Schedule(c, c.writeMode, now, t)
            == ScheduleAt(c, c.writeMode, i, i in RowHits(c.Q(c.writeMode).entry, c.bank), now, t)
    ensures i in RowHits(c.Q(c.writeMode).entry, c.bank) || RowHits(c.Q(c.writeMode).entry, c.bank) == {}
    ensures forall k :: k in Idle(c.Q(c.writeMode).entry, c.bank)
              && (k in RowHits(c.Q(c.writeMode).entry, c.bank) || RowHits(c.Q(c.writeMode).entry, c.bank) == {})
              ==> c.Q(c.writeMode).entry[i].eventCycle < c.Q(c.writeMode).entry[k].eventCycle
                  || (c.Q(c.writeMode).entry[i].eventCycle == c.Q(c.writeMode).entry[k].eventCycle && i <= k)
  {
    i := Choice(c.Q(c.writeMode), c.bank).value.0;
  }
}
