/**
  What the operations of the DRAM channel do in numbers: how long an access takes, when the
  bus is used, when the mode turns over and which arrivals are queued.
*/
module DramTiming {
  import opened Options
  import opened Powers
  import opened DramModel
  import opened DramSafety

  // ---- Addresses ----

  /** The bits of an address from the lowest: 3 for the bank, 7 for the column, 16 for the row. */
  lemma AddressParts(address: nat)
    ensures BankOf(address) == address % 8 && RowOf(address) == address / 1024 % 65536
    ensures BANK_COUNT == 8
  {
    assert Pow2(3) == 8 && Pow2(0) == 1 by { assert Pow2(1) == 2 && Pow2(2) == 4; }
    assert Pow2(10) == 1024 by { assert Pow2(5) == 32 && Pow2(7) == 128 && Pow2(9) == 512; }
    assert Pow2(16) == 65536 by { assert Pow2(12) == 4096 && Pow2(14) == 16384; }
  }

  // ---- One step ----

  /** An access costs tCAS if the bank has the row open, and otherwise a precharge and an activation more. */
  function AccessTime(b: Bank, p: Packet, t: Timing): nat {
    if b.openRow == Some(RowOf(p.address)) then t.tCAS else t.tRP + t.tRCD + t.tCAS
  }

  /** The request in slot `k` waits, and its bank is free. */
  ghost predicate Startable(c: Channel, k: nat)
    requires |c.bank| == BANK_COUNT && k < |c.Q(c.writeMode).entry|
  {
    var p := c.Q(c.writeMode).entry[k];
    p.address != 0 && !p.scheduled && !c.bank[BankOf(p.address)].working
  }

  /** The request in slot `i` is scheduled, and it and its bank are due when its access is over. */
  ghost predicate Scheduling(c: Channel, r: Channel, i: nat, now: nat, t: Timing)
    requires |c.bank| == BANK_COUNT && i < |c.Q(c.writeMode).entry|
  {
    var w := c.writeMode;
    var p := c.Q(w).entry[i];
    var b := BankOf(p.address);
    var ready := now + AccessTime(c.bank[b], p, t);
    && r.Q(w).entry == c.Q(w).entry[i := Packet(p.address, true, ready)] && r.Q(w).occupancy == c.Q(w).occupancy
    && r.bank == c.bank[b := Bank(true, Some(RowOf(p.address)), ready, Some(i), c.bank[b].openRow == Some(RowOf(p.address)), w, !w)]
    && r.Q(!w) == c.Q(!w) && r.writeMode == w && r.dbus == c.dbus && r.transfers == c.transfers
  }

  /** The scheduler takes a waiting request with a free bank whenever there is one. */
  lemma ScheduleInNumbers(c: Channel, now: nat, t: Timing) returns (i: nat)
    requires Inv(c, t)
    requires exists k :: 0 <= k < |c.Q(c.writeMode).entry| && Startable(c, k)
    ensures i < |c.Q(c.writeMode).entry| && Startable(c, i) && Scheduling(c, Schedule(c, c.writeMode, now, t), i, now, t)
  {
    hide Schedule, ScheduleAt, Scheduling, QueuesInv, CountsInv, Correspond;
    var q := c.Q(c.writeMode);
    var k :| 0 <= k < |q.entry| && Startable(c, k);
    assert k in Idle(q.entry, c.bank);
    i := ScheduleTakesOldestRowHit(c, now, t);
    ScheduleAtInNumbers(c, i, i in RowHits(q.entry, c.bank), now, t);
  }

  lemma ScheduleAtInNumbers(c: Channel, i: nat, hit: bool, now: nat, t: Timing)
    requires |c.bank| == BANK_COUNT && i < |c.Q(c.writeMode).entry| && Startable(c, i)
    requires var p := c.Q(c.writeMode).entry[i]; hit <==> c.bank[BankOf(p.address)].openRow == Some(RowOf(p.address))
    ensures Scheduling(c, ScheduleAt(c, c.writeMode, i, hit, now, t), i, now, t)
  {
    hide IsEarliest;
  }

  /** Without such a request it does nothing. */
  lemma NothingToSchedule(c: Channel, now: nat, t: Timing)
    requires Inv(c, t)
    requires forall k :: 0 <= k < |c.Q(c.writeMode).entry| ==> !Startable(c, k)
    ensures Schedule(c, c.writeMode, now, t) == c
  {
    assert forall k :: k in Idle(c.Q(c.writeMode).entry, c.bank) ==> Startable(c, k);
    assert RowHits(c.Q(c.writeMode).entry, c.bank) <= Idle(c.Q(c.writeMode).entry, c.bank);
  }

  /** The request to serve next is scheduled, and no scheduled one is due earlier. */
  lemma NextIsEarliest(c: Channel, now: nat, t: Timing)
    requires Inv(c, t) && IsDue(c.Q(c.writeMode).nextProcess, |c.Q(c.writeMode).entry|, now)
    ensures var q := c.Q(c.writeMode); var p := q.entry[q.nextProcess.index];
            && p.scheduled && p.eventCycle <= now
            && forall k :: 0 <= k < |q.entry| && q.entry[k].scheduled ==> p.eventCycle <= q.entry[k].eventCycle
  {
    var q := c.Q(c.writeMode);
    forall k | 0 <= k < |q.entry| && q.entry[k].scheduled
      ensures k in Scheduled(q.entry)
    {
    }
  }

  /**
    A request is served if and only if its bank and the bus are both available; then it leaves,
    its bank keeps the row open, and the bus is taken for the return time. If only the bus is
    missing, the bank waits for it; otherwise nothing changes.
   */
  lemma ProcessInNumbers(c: Channel, now: nat, t: Timing)
    requires Inv(c, t) && c.Q(c.writeMode).nextProcess.index < |c.Q(c.writeMode).entry|
    ensures var w := c.writeMode; var q := c.Q(w); var i := q.nextProcess.index; var p := q.entry[i];
            var b := BankOf(p.address); var r := Process(c, w, now, t);
            if c.bank[b].cycleAvailable <= now && c.dbus <= now then
              && r.Q(w).entry == q.entry[i := Packet(0, false, 0)] && r.Q(w).occupancy == q.occupancy - 1
              && r.bank == c.bank[b := Bank(false, c.bank[b].openRow, c.bank[b].cycleAvailable, None, false, false, false)]
              && r.dbus == now + t.returnTime && r.transfers == c.transfers + [Transfer(now, w, p.address)]
              && r.Q(!w) == c.Q(!w) && r.writeMode == w
            else if c.bank[b].cycleAvailable <= now then
              r == c.(bank := c.bank[b := c.bank[b].(cycleAvailable := c.dbus)])
            else
              r == c
  {
  }

  /** A cycle schedules if and only if some waiting request is due, and serves if and only if some scheduled one is. */
  lemma ActsWhenDue(c: Channel, now: nat, t: Timing)
    requires Inv(c, t)
    ensures var q := c.Q(c.writeMode);
            && ScheduleIfDue(c, now, t)
               == (if exists k :: 0 <= k < |q.entry| && q.entry[k].address != 0 && !q.entry[k].scheduled && q.entry[k].eventCycle <= now
                   then Schedule(c, c.writeMode, now, t) else c)
            && (IsDue(q.nextProcess, |q.entry|, now) <==> exists k :: 0 <= k < |q.entry| && q.entry[k].scheduled && q.entry[k].eventCycle <= now)
  {
    hide Correspond, CountsInv, Schedule;
    var q := c.Q(c.writeMode);
    DueIff(q.entry, Waiting(q.entry), q.nextSchedule, now);
    DueIff(q.entry, Scheduled(q.entry), q.nextProcess, now);
    assert forall k :: 0 <= k < |q.entry| && q.entry[k].address != 0 && !q.entry[k].scheduled <==> k in Waiting(q.entry);
    assert forall k :: 0 <= k < |q.entry| && q.entry[k].scheduled <==> k in Scheduled(q.entry);
  }

  lemma DueIff(entry: seq<Packet>, cand: set<nat>, d: Due, now: nat)
    requires (forall i <- cand :: i < |entry|) && DueIsExact(entry, cand, d)
    ensures IsDue(d, |entry|, now) <==> exists k :: k in cand && entry[k].eventCycle <= now
  {
  }

  // ---- The mode ----

  /**
    Reads give way when the writes reach the high mark or there is no read; writes give way when
    there is none left, or fewer than the low mark while a read waits. The bus is then busy for
    the turn-around time longer.
   */
  lemma ModeTurnsIff(c: Channel, now: nat, t: Timing, m: Marks)
    ensures var r := SwitchMode(c, now, t, m);
            && (r.writeMode != c.writeMode <==>
                  if c.writeMode then c.wq.occupancy == 0 || (c.rq.occupancy != 0 && c.wq.occupancy < m.low)
                  else c.wq.occupancy >= m.high || (c.rq.occupancy == 0 && c.wq.occupancy > 0))
            && (r.writeMode == c.writeMode ==> r == c)
            && (r.writeMode != c.writeMode ==> r.dbus == c.dbus + t.turnAround)
  {
  }

  /**
    When the mode turns, each scheduled request waits again from now on. Its bank is free from
    now on, and has the row open if and only if the column access could have begun by now.
   */
  lemma TurnPutsBack(c: Channel, now: nat, t: Timing, i: nat)
    requires Inv(c, t) && i < |c.Q(c.writeMode).entry|
    ensures var w := c.writeMode; var p := c.Q(w).entry[i]; var b := BankOf(p.address); var r := Turn(c, now, t);
            && |r.Q(w).entry| == |c.Q(w).entry| && r.Q(!w).entry == c.Q(!w).entry && r.transfers == c.transfers
            && r.Q(w).entry[i] == (if p.scheduled then Packet(p.address, false, now) else p)
            && |r.bank| == BANK_COUNT
            && (p.scheduled ==>
                  !r.bank[b].working && r.bank[b].cycleAvailable == now
                  && r.bank[b].openRow == if c.bank[b].cycleAvailable - t.tCAS <= now then Some(RowOf(p.address)) else None)
  {
    var entry := c.Q(c.writeMode).entry;
    if entry[i].scheduled {
      assert OwnsItsBank(entry, c.bank, i);
    }
  }

  /** A bank without a request of the old mode is as before. */
  lemma TurnLeavesFreeBanks(c: Channel, now: nat, t: Timing, b: nat)
    requires Inv(c, t) && b < BANK_COUNT && !c.bank[b].working
    ensures |Turn(c, now, t).bank| == BANK_COUNT && Turn(c, now, t).bank[b] == c.bank[b]
  {
  }

  // ---- Arrivals ----

  /** Some slot holds the address. */
  ghost predicate Holds(entry: seq<Packet>, address: nat) { exists k :: 0 <= k < |entry| && entry[k].address == address }

  /** `p` has gone into an empty slot of the queue. */
  ghost predicate Joined(q: Queue, q1: Queue, p: Packet) {
    && q1.occupancy == q.occupancy + 1
    && exists i :: 0 <= i < |q.entry| && q.entry[i].address == 0 && q1.entry == q.entry[i := p]
  }

  /** A read joins its queue if and only if neither queue holds its address and there is a free slot. */
  lemma ReadJoinsIff(c: Channel, p: Packet)
    requires Arrivable(p)
    ensures var r := AddRead(c, p);
            && r.wq == c.wq && r.bank == c.bank && r.dbus == c.dbus && r.writeMode == c.writeMode && r.transfers == c.transfers
            && if !Holds(c.wq.entry, p.address) && !Holds(c.rq.entry, p.address) && Holds(c.rq.entry, 0) then Joined(c.rq, r.rq, p)
               else r.rq.entry == c.rq.entry && r.rq.occupancy == c.rq.occupancy
  {
  }

  /** A write joins if and only if no write to its address waits and there is a free slot. */
  lemma WriteJoinsIff(c: Channel, p: Packet)
    requires Arrivable(p)
    ensures var r := AddWrite(c, p);
            && r.rq == c.rq && r.bank == c.bank && r.dbus == c.dbus && r.writeMode == c.writeMode && r.transfers == c.transfers
            && if !Holds(c.wq.entry, p.address) && Holds(c.wq.entry, 0) then Joined(c.wq, r.wq, p)
               else r.wq.entry == c.wq.entry && r.wq.occupancy == c.wq.occupancy
  {
  }

  // ---- Runs ----

  ghost predicate Happens(c: Channel, e: Event, c1: Channel, t: Timing, m: Marks) {
    |c.bank| == BANK_COUNT && Legal(e) && c1 == Apply(c, e, t, m)
  }

  ghost predicate IsTimedRun(run: seq<Channel>, evs: seq<Event>, t: Timing, m: Marks) {
    && |run| == |evs| + 1 && (exists rqSize, wqSize :: run[0] == Initial(rqSize, wqSize))
    && forall k :: 0 <= k < |evs| ==> Happens(run[k], evs[k], run[k + 1], t, m)
  }

  lemma {:induction false} TimedRunInv(run: seq<Channel>, evs: seq<Event>, k: nat, t: Timing, m: Marks)
    requires IsTimedRun(run, evs, t, m) && k < |run|
    ensures Inv(run[k], t)
  {
    if k == 0 {
      var rqSize, wqSize :| run[0] == Initial(rqSize, wqSize);
      InitialInv(rqSize, wqSize, t);
    } else {
      TimedRunInv(run, evs, k - 1, t, m);
      assert Happens(run[k - 1], evs[k - 1], run[k - 1 + 1], t, m);
      ApplyInv(run[k - 1], evs[k - 1], t, m);
    }
  }

  /** At `now` the request in slot `i` is scheduled on its free bank, due when its access is over. */
  ghost predicate StartsAt(c: Channel, now: nat, w: bool, i: nat, p: Packet, t: Timing) {
    && |c.bank| == BANK_COUNT && c.writeMode == w && i < |c.Q(w).entry|
    && c.Q(w).entry[i].address == p.address && !c.Q(w).entry[i].scheduled
    && !c.bank[BankOf(p.address)].working
    && p.scheduled && p.eventCycle == now + AccessTime(c.bank[BankOf(p.address)], p, t)
  }

  /** Scheduled requests come from scheduling, and keep their cycle while they are scheduled. */
  lemma ScheduledComesFrom(c: Channel, now: nat, w: bool, i: nat, t: Timing, m: Marks)
    requires Inv(c, t)
    ensures var c1 := SwitchMode(c, now, t, m);
            && Inv(c1, t) && Inv(ScheduleIfDue(c1, now, t), t)
            && var q := ScheduleIfDue(c1, now, t).Q(w);
               |q.entry| == |c.Q(w).entry|
               && (i < |q.entry| && q.entry[i].scheduled ==> q.entry[i] == c.Q(w).entry[i] || StartsAt(c1, now, w, i, q.entry[i], t))
  {
    SwitchInv(c, now, t, m);
    var c1 := SwitchMode(c, now, t, m);
    SwitchSchedulesNone(c, now, w, i, t, m);
    if IsDue(c1.Q(c1.writeMode).nextSchedule, |c1.Q(c1.writeMode).entry|, now) {
      ScheduleInv(c1, now, t);
      ScheduleStarts(c1, now, w, i, t);
    }
  }

  lemma SwitchSchedulesNone(c: Channel, now: nat, w: bool, i: nat, t: Timing, m: Marks)
    requires Inv(c, t)
    ensures var q := SwitchMode(c, now, t, m).Q(w);
            |q.entry| == |c.Q(w).entry| && (i < |q.entry| && q.entry[i].scheduled ==> q.entry[i] == c.Q(w).entry[i])
  {
  }

  lemma ScheduleStarts(c: Channel, now: nat, w: bool, i: nat, t: Timing)
    requires Inv(c, t)
    ensures var q := Schedule(c, c.writeMode, now, t).Q(w);
            && |q.entry| == |c.Q(w).entry|
            && (i < |q.entry| && q.entry[i].scheduled ==> q.entry[i] == c.Q(w).entry[i] || StartsAt(c, now, w, i, q.entry[i], t))
  {
    hide QueuesInv, CountsInv, Correspond, Schedule;
    if k: nat :| k < |c.Q(c.writeMode).entry| && Startable(c, k) {
      var j := ScheduleInNumbers(c, now, t);
    } else {
      NothingToSchedule(c, now, t);
    }
  }

  /** Serving schedules nothing, and only a request that is scheduled and due uses the bus. */
  lemma ServesTheDue(c: Channel, now: nat, w: bool, i: nat, t: Timing)
    requires Inv(c, t)
    ensures var r := ProcessIfDue(c, now, t); var q := c.Q(c.writeMode);
            && |r.Q(w).entry| == |c.Q(w).entry|
            && (i < |c.Q(w).entry| && r.Q(w).entry[i].scheduled ==> r.Q(w).entry[i] == c.Q(w).entry[i])
            && (r.transfers != c.transfers ==>
                  && q.nextProcess.index < |q.entry| && q.entry[q.nextProcess.index].scheduled && q.entry[q.nextProcess.index].eventCycle <= now
                  && r.transfers == c.transfers + [Transfer(now, c.writeMode, q.entry[q.nextProcess.index].address)])
  {
    if IsDue(c.Q(c.writeMode).nextProcess, |c.Q(c.writeMode).entry|, now) {
      NextIsEarliest(c, now, t);
      ProcessInNumbers(c, now, t);
    }
  }

  lemma StepComesFrom(c: Channel, e: Event, w: bool, i: nat, t: Timing, m: Marks)
    requires Inv(c, t) && Legal(e)
    ensures |Apply(c, e, t, m).Q(w).entry| == |c.Q(w).entry|
    ensures i < |c.Q(w).entry| && Apply(c, e, t, m).Q(w).entry[i].scheduled ==>
              var p := Apply(c, e, t, m).Q(w).entry[i];
              p == c.Q(w).entry[i] || (e.Cycle? && StartsAt(SwitchMode(c, e.now, t, m), e.now, w, i, p, t))
  {
    match e {
      case Cycle(now) =>
        ScheduledComesFrom(c, now, w, i, t, m);
        ServesTheDue(ScheduleIfDue(SwitchMode(c, now, t, m), now, t), now, w, i, t);
      case ReadArrives(p) => ReadJoinsIff(c, p);
      case WriteArrives(p) => WriteJoinsIff(c, p);
    }
  }

  /** Slot `i` holds `p` from step `m`, which scheduled it, up to `k`. */
  ghost predicate WaitsSince(run: seq<Channel>, evs: seq<Event>, n: nat, k: nat, w: bool, i: nat, p: Packet, t: Timing, m: Marks) {
    && n < |evs| && n < |run| && k < |run| && evs[n].Cycle?
    && StartsAt(SwitchMode(run[n], evs[n].now, t, m), evs[n].now, w, i, p, t)
    && forall j :: n < j <= k ==> i < |run[j].Q(w).entry| && run[j].Q(w).entry[i] == p
  }

  lemma {:induction false} WasScheduled(run: seq<Channel>, evs: seq<Event>, k: nat, w: bool, i: nat, t: Timing, m: Marks) returns (n: nat)
    requires IsTimedRun(run, evs, t, m) && k < |run| && i < |run[k].Q(w).entry| && run[k].Q(w).entry[i].scheduled
    ensures n < k && WaitsSince(run, evs, n, k, w, i, run[k].Q(w).entry[i], t, m)
  {
    hide Inv, Apply, StartsAt, SwitchMode, Legal;
    if k == 0 {
      StartsEmpty(run[0], w, i);
    } else {
      assert Happens(run[k - 1], evs[k - 1], run[k - 1 + 1], t, m);
      TimedRunInv(run, evs, k - 1, t, m);
      StepComesFrom(run[k - 1], evs[k - 1], w, i, t, m);
      var p := run[k].Q(w).entry[i];
      if p == run[k - 1].Q(w).entry[i] {
        n := WasScheduled(run, evs, k - 1, w, i, t, m);
      } else {
        n := k - 1;
      }
    }
  }

  lemma StartsEmpty(c: Channel, w: bool, i: nat)
    requires exists rqSize, wqSize :: c == Initial(rqSize, wqSize)
    ensures i < |c.Q(w).entry| ==> !c.Q(w).entry[i].scheduled
  {
  }

  /**
    In every run, a request uses the bus at least the time of its access after it was scheduled:
    tCAS if its bank had the row open at that moment, and tRP + tRCD + tCAS otherwise. In
    between it keeps its slot.
   */
  lemma TransfersWaitForTheAccess(run: seq<Channel>, evs: seq<Event>, k: nat, t: Timing, m: Marks) returns (n: nat, i: nat, p: Packet)
    requires IsTimedRun(run, evs, t, m) && k < |evs| && run[k + 1].transfers != run[k].transfers
    ensures evs[k].Cycle? && n <= k && evs[n].Cycle?
    ensures var w := run[k + 1].writeMode; var c := SwitchMode(run[n], evs[n].now, t, m);
            && run[k + 1].transfers == run[k].transfers + [Transfer(evs[k].now, w, p.address)]
            && WaitsSince(run, evs, n, k, w, i, p, t, m)
            && |c.bank| == BANK_COUNT
            && evs[n].now + (if c.bank[BankOf(p.address)].openRow == Some(RowOf(p.address)) then t.tCAS else t.tRP + t.tRCD + t.tCAS)
               <= evs[k].now
  {
    assert Happens(run[k], evs[k], run[k + 1], t, m);
    TimedRunInv(run, evs, k, t, m);
    i, p := TransferStep(run[k], evs[k], t, m);
    var w := run[k + 1].writeMode;
    if p == run[k].Q(w).entry[i] {
      n := WasScheduled(run, evs, k, w, i, t, m);
    } else {
      n := k;
    }
  }

  lemma TransferStep(c: Channel, e: Event, t: Timing, m: Marks) returns (i: nat, p: Packet)
    requires Inv(c, t) && Legal(e) && Apply(c, e, t, m).transfers != c.transfers
    ensures e.Cycle? && p.scheduled && p.eventCycle <= e.now
    ensures var r := Apply(c, e, t, m);
            && r.transfers == c.transfers + [Transfer(e.now, r.writeMode, p.address)]
            && i < |c.Q(r.writeMode).entry|
            && (p == c.Q(r.writeMode).entry[i] || StartsAt(SwitchMode(c, e.now, t, m), e.now, r.writeMode, i, p, t))
  {
    hide QueuesInv, BanksInv, CountsInv, StartsAt, Insert, Schedule, Process, Turn, TurnsToWrites, TurnsToReads, IsDue;
    if e.Cycle? {
      KeepsTransfers(c, e.now, t, m);
      var c1 := SwitchMode(c, e.now, t, m);
      var c2 := ScheduleIfDue(c1, e.now, t);
      i := c2.Q(c2.writeMode).nextProcess.index;
      ScheduledComesFrom(c, e.now, c2.writeMode, i, t, m);
      ServesTheDue(c2, e.now, c2.writeMode, i, t);
      p := c2.Q(c2.writeMode).entry[i];
    }
  }

  /** The mode and the scheduler do not use the bus; serving does not change the mode. */
  lemma KeepsTransfers(c: Channel, now: nat, t: Timing, m: Marks)
    requires Inv(c, t)
    ensures var c1 := SwitchMode(c, now, t, m);
            && Inv(c1, t) && |c1.bank| == BANK_COUNT
            && var c2 := ScheduleIfDue(c1, now, t);
            && Inv(c2, t) && |c2.bank| == BANK_COUNT && c1.transfers == c2.transfers == c.transfers
            && ProcessIfDue(c2, now, t).writeMode == c2.writeMode == c1.writeMode
  {
    hide QueuesInv, CountsInv, Correspond, StartsAt, Schedule, Process, SwitchMode;
    ScheduledComesFrom(c, now, c.writeMode, 0, t, m);
    SwitchKeepsTransfers(c, now, t, m);
    var c1 := SwitchMode(c, now, t, m);
    ScheduleKeepsTransfers(c1, now, t);
    var c2 := ScheduleIfDue(c1, now, t);
    if c2.Q(c2.writeMode).nextProcess.index < |c2.Q(c2.writeMode).entry| {
      ProcessKeepsMode(c2, now, t);
    }
  }

  lemma SwitchKeepsTransfers(c: Channel, now: nat, t: Timing, m: Marks)
    ensures SwitchMode(c, now, t, m).transfers == c.transfers
  {
    hide IsEarliest;
  }

  lemma ScheduleKeepsTransfers(c: Channel, now: nat, t: Timing)
    requires |c.bank| == BANK_COUNT
    ensures Schedule(c, c.writeMode, now, t).transfers == c.transfers && Schedule(c, c.writeMode, now, t).writeMode == c.writeMode
  {
    hide IsEarliest;
  }

  lemma ProcessKeepsMode(c: Channel, now: nat, t: Timing)
    requires |c.bank| == BANK_COUNT && c.Q(c.writeMode).nextProcess.index < |c.Q(c.writeMode).entry|
    ensures Process(c, c.writeMode, now, t).writeMode == c.writeMode
  {
    hide IsEarliest;
  }
}
