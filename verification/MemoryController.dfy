/** The DRAM controller of one channel as the simulator runs it: in place, slot by slot. */
module MemoryControllers {
  import opened Options
  import opened DramModel
  import opened DramSafety

  ghost function Below(cand: set<nat>, n: nat): set<nat> { set i <- cand | i < n }

  /** One step of a search for the earliest candidate. */
  lemma SearchStep(entry: seq<Packet>, cand: set<nat>, n: nat, d: Due)
    requires n < |entry| && IsEarliest(entry, Below(cand, n), d)
    ensures IsEarliest(entry, Below(cand, n + 1),
                       if n in cand && (d.cycle == None || entry[n].eventCycle < d.cycle.value)
                       then Due(n, Some(entry[n].eventCycle)) else d)
  {
    if n in cand {
      assert Below(cand, n + 1) == Below(cand, n) + {n};
    } else {
      assert Below(cand, n + 1) == Below(cand, n);
    }
  }

  lemma SearchDone(entry: seq<Packet>, cand: set<nat>, d: Due)
    requires (forall i <- cand :: i < |entry|) && IsEarliest(entry, Below(cand, |entry|), d)
    ensures d == Earliest(entry, cand)
  {
    assert Below(cand, |entry|) == cand;
  }

  class RequestQueue {
    const entry: array<Packet>
    const isWQ: bool
    var occupancy: int
    var nextSchedule: Due
    var nextProcess: Due

    ghost function Value(): Queue
      reads this, entry
    {
      Queue(entry[..], occupancy, nextSchedule, nextProcess)
    }

    constructor (size: nat, isWQ: bool)
      ensures Value() == EmptyQueue(size) && this.isWQ == isWQ && fresh(entry)
    {
      entry := new Packet[size](_ => EMPTY);
      this.isWQ := isWQ;
      occupancy := 0;
      nextSchedule := Due(0, None);
      nextProcess := Due(0, None);
    }

    method UpdateScheduleCycle()
      modifies this`nextSchedule
      ensures Value() == RefreshSchedule(old(Value()))
    {
      var min := Due(entry.Length, None);
      ghost var cand := Waiting(entry[..]);
      assert Below(cand, 0) == {};
      for i := 0 to entry.Length
        invariant IsEarliest(entry[..], Below(cand, i), min)
      {
        SearchStep(entry[..], cand, i, min);
        if entry[i].address != 0 && !entry[i].scheduled && (min.cycle == None || entry[i].eventCycle < min.cycle.value) {
          min := Due(i, Some(entry[i].eventCycle));
        }
      }
      SearchDone(entry[..], cand, min);
      nextSchedule := min;
    }

    method UpdateProcessCycle()
      modifies this`nextProcess
      ensures Value() == RefreshProcess(old(Value()))
    {
      var min := Due(entry.Length, None);
      ghost var cand := Scheduled(entry[..]);
      assert Below(cand, 0) == {};
      for i := 0 to entry.Length
        invariant IsEarliest(entry[..], Below(cand, i), min)
      {
        SearchStep(entry[..], cand, i, min);
        if entry[i].scheduled && (min.cycle == None || entry[i].eventCycle < min.cycle.value) {
          min := Due(i, Some(entry[i].eventCycle));
        }
      }
      SearchDone(entry[..], cand, min);
      nextProcess := min;
    }

    /** check_dram_queue */
    method Check(address: nat) returns (r: Option<nat>)
      ensures r == Find(entry[..], address)
    {
      for i := 0 to entry.Length
        invariant forall k :: 0 <= k < i ==> entry[k].address != address
      {
        if entry[i].address == address {
          return Some(i);
        }
      }
      return None;
    }

    /** Put a request in the first empty slot, if there is one. */
    method Add(p: Packet)
      modifies this, entry
      ensures Value() == Insert(old(Value()), p)
    {
      for i := 0 to entry.Length
        invariant Value() == old(Value())
        invariant forall k :: 0 <= k < i ==> entry[k].address != 0
      {
        if entry[i].address == 0 {
          entry[i] := p;
          occupancy := occupancy + 1;
          assert entry[..] == old(entry[..])[i := p];
          break;
        }
      }
      UpdateScheduleCycle();
    }
  }

  // ---- Facts about half-finished loops ----

  /** Slots below `i` put back, the rest as they were. */
  ghost predicate PutBackBelow(e0: seq<Packet>, e: seq<Packet>, i: nat, now: nat) {
    |e| == |e0| && forall k :: 0 <= k < |e0| ==> e[k] == if k < i then Unscheduled(e0, now)[k] else e0[k]
  }

  lemma PutBackNext(e0: seq<Packet>, e: seq<Packet>, i: nat, now: nat)
    requires PutBackBelow(e0, e, i, now) && i < |e0|
    ensures PutBackBelow(e0, if e0[i].scheduled then e[i := e[i].(scheduled := false, eventCycle := now)] else e, i + 1, now)
  {}

  lemma CountNext(e0: seq<Packet>, i: nat)
    requires i < |e0|
    ensures |Below(Scheduled(e0), i + 1)| == |Below(Scheduled(e0), i)| + if e0[i].scheduled then 1 else 0
  {
    if e0[i].scheduled {
      assert Below(Scheduled(e0), i + 1) == Below(Scheduled(e0), i) + {i};
    } else {
      assert Below(Scheduled(e0), i + 1) == Below(Scheduled(e0), i);
    }
  }

  /** Banks serving a slot below `i` released, the rest as they were. */
  ghost predicate ReleasedBelow(b0: seq<Bank>, b: seq<Bank>, e0: seq<Packet>, i: nat, now: nat, t: Timing) {
    |b| == |b0| && forall k :: 0 <= k < |b0| ==>
      b[k] == if b0[k].requestIndex.Some? && b0[k].requestIndex.value < i then ReleasedBank(b0[k], e0, now, t) else b0[k]
  }

  lemma AllReleased(e0: seq<Packet>, b0: seq<Bank>, b: seq<Bank>, isWrite: bool, now: nat, t: Timing)
    requires |b0| == BANK_COUNT && Correspond(e0, b0, isWrite, t) && ReleasedBelow(b0, b, e0, |e0|, now, t)
    ensures b == DramModel.ReleasedBanks(b0, e0, now, t)
  {
    forall k | 0 <= k < |b0| ensures b[k] == ReleasedBank(b0[k], e0, now, t) {
      assert BankInv(e0, b0, k, isWrite, t);
    }
  }

  /** Slot `i` is scheduled: its bank is the next to be released. */
  lemma ReleaseNext(e0: seq<Packet>, b0: seq<Bank>, b: seq<Bank>, i: nat, isWrite: bool, now: nat, t: Timing)
    requires |b0| == BANK_COUNT && Correspond(e0, b0, isWrite, t) && ReleasedBelow(b0, b, e0, i, now, t)
    requires i < |e0| && e0[i].scheduled
    ensures b[BankOf(e0[i].address)] == b0[BankOf(e0[i].address)]
    ensures b0[BankOf(e0[i].address)].isWrite == isWrite && b0[BankOf(e0[i].address)].isRead == !isWrite
    ensures b0[BankOf(e0[i].address)].cycleAvailable >= t.tCAS
    ensures ReleasedBelow(b0, b[BankOf(e0[i].address) := ReleasedBank(b0[BankOf(e0[i].address)], e0, now, t)], e0, i + 1, now, t)
  {
    assert OwnsItsBank(e0, b0, i);
    assert BankInv(e0, b0, BankOf(e0[i].address), isWrite, t);
    var b1 := b[BankOf(e0[i].address) := ReleasedBank(b0[BankOf(e0[i].address)], e0, now, t)];
    forall k | 0 <= k < |b0| && b0[k].requestIndex == Some(i) ensures k == BankOf(e0[i].address) {
      assert BankInv(e0, b0, k, isWrite, t);
    }
  }

  lemma ReleaseSkip(e0: seq<Packet>, b0: seq<Bank>, b: seq<Bank>, i: nat, isWrite: bool, now: nat, t: Timing)
    requires |b0| == BANK_COUNT && Correspond(e0, b0, isWrite, t) && ReleasedBelow(b0, b, e0, i, now, t)
    requires i < |e0| && !e0[i].scheduled
    ensures ReleasedBelow(b0, b, e0, i + 1, now, t)
  {
    forall k | 0 <= k < |b0| && b0[k].requestIndex == Some(i) ensures ReleasedBank(b0[k], e0, now, t) == b0[k] {
      assert BankInv(e0, b0, k, isWrite, t);
    }
  }

  class MemoryController {
    const rq: RequestQueue
    const wq: RequestQueue
    const bank: array<Bank>
    const t: Timing
    const m: Marks
    var writeMode: bool
    var scheduledReads: int
    var scheduledWrites: int
    var dbus: nat
    ghost var transfers: seq<Transfer>

    ghost predicate Valid() {
      && rq != wq && !rq.isWQ && wq.isWQ && rq.entry != wq.entry
      && bank.Length == BANK_COUNT
      && bank as object != rq.entry && bank as object != wq.entry
    }

    ghost function Value(): Channel
      reads this, rq, wq, rq.entry, wq.entry, bank
    {
      Channel(rq.Value(), wq.Value(), bank[..], writeMode, scheduledReads, scheduledWrites, dbus, transfers)
    }

    constructor (rqSize: nat, wqSize: nat, t: Timing, m: Marks)
      ensures Valid() && Value() == Initial(rqSize, wqSize) && this.t == t && this.m == m
      ensures fresh(rq) && fresh(wq) && fresh(rq.entry) && fresh(wq.entry) && fresh(bank)
    {
      var q0 := new RequestQueue(rqSize, false);
      var q1 := new RequestQueue(wqSize, true);
      rq := q0;
      wq := q1;
      bank := new Bank[BANK_COUNT](_ => IDLE_BANK);
      this.t := t;
      this.m := m;
      writeMode := false;
      scheduledReads := 0;
      scheduledWrites := 0;
      dbus := 0;
      transfers := [];
    }

    /** The loop of reset_remain_requests: put every scheduled request back and free its bank. */
    method ReleaseScheduled(queue: RequestQueue, now: nat)
      requires Valid() && (queue == rq || queue == wq)
      requires Correspond(queue.entry[..], bank[..], queue.isWQ, t)
      modifies this`scheduledReads, this`scheduledWrites, queue.entry, bank
      ensures Value() == PutBack(old(Value()), queue.isWQ, now, t)
    {
      ghost var e0, b0 := queue.entry[..], bank[..];
      assert Below(Scheduled(e0), 0) == {};
      for i := 0 to queue.entry.Length
        invariant PutBackBelow(e0, queue.entry[..], i, now)
        invariant ReleasedBelow(b0, bank[..], e0, i, now, t)
        invariant scheduledWrites == old(scheduledWrites) - if queue.isWQ then |Below(Scheduled(e0), i)| else 0
        invariant scheduledReads == old(scheduledReads) - if queue.isWQ then 0 else |Below(Scheduled(e0), i)|
      {
        PutBackNext(e0, queue.entry[..], i, now);
        CountNext(e0, i);
        if queue.entry[i].scheduled {
          var b := BankOf(queue.entry[i].address);
          ReleaseNext(e0, b0, bank[..], i, queue.isWQ, now, t);
          var row := if bank[b].cycleAvailable - t.tCAS <= now then Some(RowOf(queue.entry[i].address)) else None;
          if bank[b].isWrite {
            scheduledWrites := scheduledWrites - 1;
          } else if bank[b].isRead {
            scheduledReads := scheduledReads - 1;
          }
          bank[b] := Bank(false, row, now, None, false, false, false);
          queue.entry[i] := queue.entry[i].(scheduled := false, eventCycle := now);
        } else {
          ReleaseSkip(e0, b0, bank[..], i, queue.isWQ, now, t);
        }
      }
      AllReleased(e0, b0, bank[..], queue.isWQ, now, t);
      assert queue.entry[..] == Unscheduled(e0, now);
      assert Below(Scheduled(e0), |e0|) == Scheduled(e0);
    }

    method UpdateCycles()
      requires Valid()
      modifies rq, wq
      ensures Value() == Refreshed(old(Value()))
    {
      rq.UpdateScheduleCycle();
      wq.UpdateScheduleCycle();
      rq.UpdateProcessCycle();
      wq.UpdateProcessCycle();
    }

    /** The mode has just been turned away from `queue`; put its scheduled requests back. */
    method ResetRemainRequests(queue: RequestQueue, now: nat)
      requires Valid() && (queue == rq || queue == wq) && writeMode == !queue.isWQ
      requires Inv(Value().(writeMode := queue.isWQ), t)
      modifies this, rq, wq, rq.entry, wq.entry, bank
      ensures Value() == ResetRemain(old(Value()), queue.isWQ, now, t)
    {
      ReleaseScheduled(queue, now);
      UpdateCycles();
      // The sanity check of the source: nothing of the abandoned queue is still counted.
      assert queue.isWQ ==> scheduledWrites == 0;
      assert !queue.isWQ ==> scheduledReads == 0;
    }

    /** The first search of schedule: the oldest request whose row is open. */
    method OldestRowHit(queue: RequestQueue) returns (oldest: Due)
      requires Valid()
      ensures oldest == Earliest(queue.entry[..], RowHits(queue.entry[..], bank[..]))
    {
      ghost var cand := RowHits(queue.entry[..], bank[..]);
      oldest := Due(queue.entry.Length, None);
      assert Below(cand, 0) == {};
      for i := 0 to queue.entry.Length
        invariant IsEarliest(queue.entry[..], Below(cand, i), oldest)
      {
        SearchStep(queue.entry[..], cand, i, oldest);
        var p := queue.entry[i];
        if p.scheduled || p.address == 0 || bank[BankOf(p.address)].working
           || bank[BankOf(p.address)].openRow != Some(RowOf(p.address)) {
          continue;
        }
        if oldest.cycle == None || p.eventCycle < oldest.cycle.value {
          oldest := Due(i, Some(p.eventCycle));
        }
      }
      SearchDone(queue.entry[..], cand, oldest);
    }

    /** The second search of schedule: the oldest request whose bank is free. */
    method OldestIdle(queue: RequestQueue) returns (oldest: Due)
      requires Valid()
      ensures oldest == Earliest(queue.entry[..], Idle(queue.entry[..], bank[..]))
    {
      ghost var cand := Idle(queue.entry[..], bank[..]);
      oldest := Due(queue.entry.Length, None);
      assert Below(cand, 0) == {};
      for i := 0 to queue.entry.Length
        invariant IsEarliest(queue.entry[..], Below(cand, i), oldest)
      {
        SearchStep(queue.entry[..], cand, i, oldest);
        var p := queue.entry[i];
        if p.scheduled || p.address == 0 || bank[BankOf(p.address)].working {
          continue;
        }
        if oldest.cycle == None || p.eventCycle < oldest.cycle.value {
          oldest := Due(i, Some(p.eventCycle));
        }
      }
      SearchDone(queue.entry[..], cand, oldest);
    }

    /** Take the oldest row hit of the queue, else the oldest request on a free bank. */
    method Schedule(queue: RequestQueue, now: nat)
      requires Valid() && (queue == rq || queue == wq)
      modifies this`scheduledReads, this`scheduledWrites, queue, queue.entry, bank
      ensures Value() == DramModel.Schedule(old(Value()), queue.isWQ, now, t)
    {
      var oldest := OldestRowHit(queue);
      var rowBufferHit := oldest.cycle.Some?;
      if oldest.cycle == None {
        oldest := OldestIdle(queue);
      }
      if oldest.cycle.Some? {
        Start(queue, oldest.index, rowBufferHit, now);
      }
    }

    /** The request at `i` occupies its bank from now on. */
    method Start(queue: RequestQueue, i: nat, rowBufferHit: bool, now: nat)
      requires Valid() && (queue == rq || queue == wq) && i < queue.entry.Length
      modifies this`scheduledReads, this`scheduledWrites, queue, queue.entry, bank
      ensures Value() == ScheduleAt(old(Value()), queue.isWQ, i, rowBufferHit, now, t)
    {
      var latency := if rowBufferHit then t.tCAS else t.tRP + t.tRCD + t.tCAS;
      var p := queue.entry[i];
      bank[BankOf(p.address)] := Bank(true, Some(RowOf(p.address)), now + latency, Some(i), rowBufferHit,
                                      queue.isWQ, !queue.isWQ);
      if queue.isWQ {
        scheduledWrites := scheduledWrites + 1;
      } else {
        scheduledReads := scheduledReads + 1;
      }
      queue.entry[i] := p.(scheduled := true, eventCycle := now + latency);
      assert queue.entry[..] == old(queue.entry[..])[i := Started(p, ReadyAt(rowBufferHit, now, t))];
      assert bank[..] == old(bank[..])[BankOf(p.address) := BusyBank(p, i, rowBufferHit, queue.isWQ, now, t)];
      queue.UpdateScheduleCycle();
      queue.UpdateProcessCycle();
    }

    /** Serve the request the queue points at, if its bank and the bus allow it. */
    method Process(queue: RequestQueue, now: nat)
      requires Valid() && (queue == rq || queue == wq) && queue.isWQ == writeMode
      requires Inv(Value(), t) && IsDue(queue.nextProcess, queue.entry.Length, now)
      modifies this`scheduledReads, this`scheduledWrites, this`dbus, this`transfers, queue, queue.entry, bank
      ensures Value() == DramModel.Process(old(Value()), queue.isWQ, now, t)
    {
      ProcessIsSane(Value(), now, t);
      var i := queue.nextProcess.index;
      // The sanity checks of the source.
      assert i != queue.entry.Length;
      var p := queue.entry[i];
      var b := BankOf(p.address);
      assert bank[b].requestIndex == Some(i);
      if bank[b].cycleAvailable <= now {
        if dbus <= now {
          assert queue.occupancy != 0;
          Transfer(queue, i, now);
        } else {
          bank[b] := bank[b].(cycleAvailable := dbus);
        }
      }
    }

    /** The request at `i` uses the bus now and leaves its queue. */
    method Transfer(queue: RequestQueue, i: nat, now: nat)
      requires Valid() && (queue == rq || queue == wq) && i < queue.entry.Length
      modifies this`scheduledReads, this`scheduledWrites, this`dbus, this`transfers, queue, queue.entry, bank
      ensures Value() == ServeAt(old(Value()), queue.isWQ, i, now, t)
    {
      var p := queue.entry[i];
      var b := BankOf(p.address);
      dbus := now + t.returnTime;
      transfers := transfers + [DramModel.Transfer(now, queue.isWQ, p.address)];
      bank[b] := bank[b].(requestIndex := None, rowBufferHit := false, working := false,
                          isWrite := false, isRead := false);
      if queue.isWQ {
        scheduledWrites := scheduledWrites - 1;
      } else {
        scheduledReads := scheduledReads - 1;
      }
      queue.entry[i] := EMPTY;
      queue.occupancy := queue.occupancy - 1;
      queue.UpdateProcessCycle();
    }

    /** A read: answered from the write queue, merged with a pending read, or queued. */
    method AddRq(p: Packet) returns (answered: bool)
      requires Valid()
      modifies rq, rq.entry
      ensures Value() == AddRead(old(Value()), p)
      ensures answered <==> Find(old(wq.entry[..]), p.address).Some?
    {
      var w := wq.Check(p.address);
      if w.Some? {
        return true;
      }
      answered := false;
      var r := rq.Check(p.address);
      if r == None {
        rq.Add(p);
      }
    }

    /** A write: merged with a pending write to the same address, or queued. */
    method AddWq(p: Packet)
      requires Valid()
      modifies wq, wq.entry
      ensures Value() == AddWrite(old(Value()), p)
    {
      var w := wq.Check(p.address);
      if w == None {
        wq.Add(p);
      }
    }

    /** One cycle of the channel. */
    method Operate(now: nat)
      requires Valid() && Inv(Value(), t)
      modifies this, rq, wq, rq.entry, wq.entry, bank
      ensures Value() == DramModel.Operate(old(Value()), now, t, m) && Inv(Value(), t)
    {
      OperateInv(Value(), now, t, m);
      SwitchInv(Value(), now, t, m);
      UpdateMode(now);
      ServeOnce(now);
    }

    method UpdateMode(now: nat)
      requires Valid() && Inv(Value(), t)
      modifies this, rq, wq, rq.entry, wq.entry, bank
      ensures Value() == SwitchMode(old(Value()), now, t, m)
    {
      if !writeMode && (wq.occupancy >= m.high || (rq.occupancy == 0 && wq.occupancy > 0)) {
        TurnMode(rq, now);
      } else if writeMode {
        if wq.occupancy == 0 || (rq.occupancy != 0 && wq.occupancy < m.low) {
          TurnMode(wq, now);
        }
      }
    }

    /** Leave the mode that serves `queue`. */
    method TurnMode(queue: RequestQueue, now: nat)
      requires Valid() && Inv(Value(), t)
      requires (queue == rq || queue == wq) && queue.isWQ == writeMode
      modifies this, rq, wq, rq.entry, wq.entry, bank
      ensures Value() == Turn(old(Value()), now, t)
    {
      ghost var c := Value();
      writeMode := !writeMode;
      assert Value() == c.(writeMode := !c.writeMode);
      assert Value().(writeMode := queue.isWQ) == c;
      ResetRemainRequests(queue, now);
      dbus := dbus + t.turnAround;
    }

    method ServeOnce(now: nat)
      requires Valid() && Inv(Value(), t)
      modifies this, rq, wq, rq.entry, wq.entry, bank
      ensures Value() == Serve(old(Value()), now, t)
    {
      ScheduleInv(Value(), now, t);
      var queue := if writeMode then wq else rq;
      ScheduleDue(queue, now);
      ProcessDue(queue, now);
    }

    method ScheduleDue(queue: RequestQueue, now: nat)
      requires Valid() && (queue == rq || queue == wq) && queue.isWQ == writeMode
      modifies this`scheduledReads, this`scheduledWrites, queue, queue.entry, bank
      ensures Value() == ScheduleIfDue(old(Value()), now, t)
    {
      if queue.nextSchedule.index < queue.entry.Length && queue.nextSchedule.cycle.Some?
         && queue.nextSchedule.cycle.value <= now {
        Schedule(queue, now);
      }
    }

    method ProcessDue(queue: RequestQueue, now: nat)
      requires Valid() && (queue == rq || queue == wq) && queue.isWQ == writeMode && Inv(Value(), t)
      modifies this`scheduledReads, this`scheduledWrites, this`dbus, this`transfers, queue, queue.entry, bank
      ensures Value() == ProcessIfDue(old(Value()), now, t)
    {
      if queue.nextProcess.index < queue.entry.Length && queue.nextProcess.cycle.Some?
         && queue.nextProcess.cycle.value <= now {
        Process(queue, now);
      }
    }
  }
}
