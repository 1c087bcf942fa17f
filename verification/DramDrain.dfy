/** With no arrivals and an advancing clock the controller serves every queued request. */
module DramDrain {
  import opened Options
  import opened DramModel
  import opened DramSafety

  ghost predicate Empty(c: Channel) { c.rq.occupancy == 0 && c.wq.occupancy == 0 }

  /** The source's watermarks are 6/8 and 7/8 of the write queue. */
  ghost predicate Sensible(m: Marks) { 0 < m.high && m.low <= m.high }

  /** How often the mode can still change before the controller rests in read mode. */
  ghost function SwitchesLeft(c: Channel, m: Marks): nat {
    if c.writeMode then
      if c.wq.occupancy == 0 || c.rq.occupancy == 0 then 1 else 3
    else if c.wq.occupancy == 0 then 0
    else if c.wq.occupancy >= m.high && c.rq.occupancy != 0 then 4
    else 2
  }

  ghost function Left(c: Channel): int { c.rq.occupancy + c.wq.occupancy }

  ghost function Max(a: nat, b: nat): nat { if a < b then b else a }

  /** The cycle from which the controller can next act on the active queue. */
  ghost function ActsFrom(c: Channel): nat
    requires |c.bank| == BANK_COUNT
  {
    var q := c.Q(c.writeMode);
    if q.nextProcess.cycle.Some? && q.nextProcess.index < |q.entry| then
      Max(q.nextProcess.cycle.value,
          Max(c.dbus, c.bank[BankOf(q.entry[q.nextProcess.index].address)].cycleAvailable))
    else if q.nextSchedule.cycle.Some? then q.nextSchedule.cycle.value
    else 0
  }

  ghost function UntilActs(c: Channel, now: nat): nat
    requires |c.bank| == BANK_COUNT
  {
    if now < ActsFrom(c) then ActsFrom(c) - now else 0
  }

  ghost function WaitingCount(c: Channel): nat { |Waiting(c.Q(c.writeMode).entry)| }

  // ---- One operate makes progress ----

  /** A mode change uses up one of the changes left and loses no request. */
  lemma SwitchProgress(c: Channel, now: nat, t: Timing, m: Marks)
    requires Inv(c, t) && Sensible(m)
    ensures var c1 := SwitchMode(c, now, t, m);
            && c1.rq.occupancy == c.rq.occupancy && c1.wq.occupancy == c.wq.occupancy
            && (c1.writeMode != c.writeMode ==> SwitchesLeft(c1, m) < SwitchesLeft(c, m))
            && (c1.writeMode == c.writeMode ==> c1 == c)
            && (!Empty(c) ==> c1.Q(c1.writeMode).occupancy != 0)
            && (Empty(c) ==> !c1.writeMode)
            && (!c1.writeMode ==> c1.wq.occupancy < m.high || c1.rq.occupancy == 0)
  {
    assert c.rq.occupancy >= 0 && c.wq.occupancy >= 0;
  }

  /** If nothing of the active queue is scheduled, a due request can be scheduled. */
  lemma SomethingIsIdle(c: Channel, t: Timing)
    requires Inv(c, t) && c.Q(c.writeMode).occupancy != 0
    requires Scheduled(c.Q(c.writeMode).entry) == {}
    ensures Idle(c.Q(c.writeMode).entry, c.bank) != {}
    ensures Waiting(c.Q(c.writeMode).entry) != {}
  {
    var q := c.Q(c.writeMode);
    assert Occupied(q.entry) != {};
    var i :| i in Occupied(q.entry);
    NoneScheduled(q.entry);
    assert BankInv(q.entry, c.bank, BankOf(q.entry[i].address), c.writeMode, t);
    assert i in Idle(q.entry, c.bank);
    assert i in Waiting(q.entry);
  }

  lemma ScheduleProgress(c: Channel, now: nat, t: Timing)
    requires Inv(c, t)
    ensures var c1 := ScheduleIfDue(c, now, t);
            && c1.rq.occupancy == c.rq.occupancy && c1.wq.occupancy == c.wq.occupancy
            && c1.writeMode == c.writeMode
            && (c1 == c || WaitingCount(c1) < WaitingCount(c))
  {
    var q := c.Q(c.writeMode);
    var c1 := ScheduleIfDue(c, now, t);
    if c1 != c {
      var i := Choice(q, c.bank).value.0;
      assert i in Idle(q.entry, c.bank);
      StartedWaiting(q.entry, i, ReadyAt(Choice(q, c.bank).value.1, now, t));
    }
  }

  lemma StartedWaiting(entry: seq<Packet>, i: nat, ready: nat)
    requires i in Waiting(entry)
    ensures |Waiting(entry[i := Started(entry[i], ready)])| < |Waiting(entry)|
  {
    assert Waiting(entry[i := Started(entry[i], ready)]) == Waiting(entry) - {i};
  }

  /** Processing either served a request, or left the queues alone and waits for a later cycle. */
  ghost predicate ServedOrWaits(c: Channel, c1: Channel, now: nat)
    requires |c.bank| == |c1.bank| == BANK_COUNT
  {
    || c1.Q(c.writeMode).occupancy == c.Q(c.writeMode).occupancy - 1
    || (c1.Q(c.writeMode) == c.Q(c.writeMode) && ActsFrom(c1) == ActsFrom(c)
        && (c.Q(c.writeMode).nextProcess.cycle.Some? ==> now < ActsFrom(c)))
  }

  lemma ProcessProgress(c: Channel, now: nat, t: Timing)
    requires Inv(c, t)
    ensures var c1 := ProcessIfDue(c, now, t);
            && c1.writeMode == c.writeMode && c1.Q(!c.writeMode) == c.Q(!c.writeMode)
            && |c1.bank| == BANK_COUNT && ServedOrWaits(c, c1, now)
  {
    var q := c.Q(c.writeMode);
    var i := q.nextProcess.index;
    if q.nextProcess.cycle.Some? {
      assert i in Scheduled(q.entry);
    }
  }

  /** Serving requests in the same mode never adds a mode change. */
  lemma ServingAddsNoSwitch(c: Channel, c1: Channel, m: Marks)
    requires c1.writeMode == c.writeMode
    requires 0 <= c1.rq.occupancy <= c.rq.occupancy && 0 <= c1.wq.occupancy <= c.wq.occupancy
    requires c.writeMode || c1.wq.occupancy == c.wq.occupancy
    requires c.writeMode || c.wq.occupancy < m.high || c.rq.occupancy == 0
    ensures SwitchesLeft(c1, m) <= SwitchesLeft(c, m)
  {}

  /** The order in which each operate goes down. */
  ghost predicate Below(c1: Channel, next: nat, c: Channel, now: nat, m: Marks)
    requires |c1.bank| == BANK_COUNT && |c.bank| == BANK_COUNT
  {
    || SwitchesLeft(c1, m) < SwitchesLeft(c, m)
    || (SwitchesLeft(c1, m) == SwitchesLeft(c, m) && Left(c1) < Left(c))
    || (SwitchesLeft(c1, m) == SwitchesLeft(c, m) && Left(c1) == Left(c) && WaitingCount(c1) < WaitingCount(c))
    || (SwitchesLeft(c1, m) == SwitchesLeft(c, m) && Left(c1) == Left(c) && WaitingCount(c1) == WaitingCount(c)
        && UntilActs(c1, next) < UntilActs(c, now))
  }

  /** A queue with nothing scheduled that was not scheduled from now waits for a later cycle. */
  lemma WaitsForSchedule(c: Channel, now: nat, t: Timing)
    requires Inv(c, t) && c.Q(c.writeMode).occupancy != 0
    requires c.Q(c.writeMode).nextProcess.cycle == None && ScheduleIfDue(c, now, t) == c
    ensures now < ActsFrom(c)
  {
    SomethingIsIdle(c, t);
  }

  lemma StepIsBelow(c: Channel, c2: Channel, c3: Channel, now: nat, next: nat, m: Marks)
    requires |c.bank| == |c2.bank| == |c3.bank| == BANK_COUNT
    requires now < next && SwitchesLeft(c3, m) <= SwitchesLeft(c, m)
    requires c.writeMode == c2.writeMode == c3.writeMode && c3.Q(!c.writeMode) == c2.Q(!c.writeMode)
    requires c2.rq.occupancy == c.rq.occupancy && c2.wq.occupancy == c.wq.occupancy
    requires c2 == c || WaitingCount(c2) < WaitingCount(c)
    requires ServedOrWaits(c2, c3, now)
    requires c2 == c && c.Q(c.writeMode).nextProcess.cycle == None ==> now < ActsFrom(c)
    ensures Below(c3, next, c, now, m)
  {}

  /** With the mode settled, one operate serves a request, schedules one, or waits for a known cycle. */
  lemma ServeProgress(c: Channel, now: nat, next: nat, t: Timing, m: Marks)
    requires Inv(c, t) && now < next && c.Q(c.writeMode).occupancy != 0
    requires c.writeMode || c.wq.occupancy < m.high || c.rq.occupancy == 0
    ensures |Serve(c, now, t).bank| == BANK_COUNT && Below(Serve(c, now, t), next, c, now, m)
    ensures SwitchesLeft(Serve(c, now, t), m) <= SwitchesLeft(c, m)
  {
    var c2 := ScheduleIfDue(c, now, t);
    var c3 := ProcessIfDue(c2, now, t);
    ScheduleProgress(c, now, t);
    ScheduleInv(c, now, t);
    ProcessProgress(c2, now, t);
    if c2 == c && c.Q(c.writeMode).nextProcess.cycle == None {
      WaitsForSchedule(c, now, t);
    }
    assert 0 <= c2.rq.occupancy && 0 <= c2.wq.occupancy;
    OccupancyStays(c2, now, t);
    ServingAddsNoSwitch(c, c3, m);
    StepIsBelow(c, c2, c3, now, next, m);
  }

  lemma OccupancyStays(c: Channel, now: nat, t: Timing)
    requires Inv(c, t)
    ensures ProcessIfDue(c, now, t).rq.occupancy >= 0 && ProcessIfDue(c, now, t).wq.occupancy >= 0
  {
    if IsDue(c.Q(c.writeMode).nextProcess, |c.Q(c.writeMode).entry|, now) {
      ProcessInv(c, now, t);
    }
  }

  /** Each operate goes down in the order: mode changes, requests, unscheduled requests, cycles to wait. */
  lemma OperateProgress(c: Channel, now: nat, next: nat, t: Timing, m: Marks)
    requires Inv(c, t) && Sensible(m) && !Empty(c) && now < next
    ensures |Operate(c, now, t, m).bank| == BANK_COUNT && Below(Operate(c, now, t, m), next, c, now, m)
  {
    SwitchProgress(c, now, t, m);
    SwitchInv(c, now, t, m);
    var c1 := SwitchMode(c, now, t, m);
    ServeProgress(c1, now, next, t, m);
  }

  // ---- Whole runs ----

  ghost predicate Advances(clock: nat -> nat) {
    forall k: nat :: clock(k) < clock(k + 1)
  }

  /** State `k + 1` is what operate makes of state `k` at the `k`-th reading of the clock. */
  ghost predicate Steps(run: nat -> Channel, clock: nat -> nat, k: nat, t: Timing, m: Marks) {
    |run(k).bank| == BANK_COUNT && run(k + 1) == Operate(run(k), clock(k), t, m)
  }

  /** An endless run without arrivals from a reachable state. */
  ghost predicate IsRun(run: nat -> Channel, clock: nat -> nat, t: Timing, m: Marks) {
    Inv(run(0), t) && forall k: nat :: Steps(run, clock, k, t, m)
  }

  lemma StepInv(run: nat -> Channel, clock: nat -> nat, k: nat, t: Timing, m: Marks)
    requires Steps(run, clock, k, t, m) && Inv(run(k), t)
    ensures Inv(run(k + 1), t)
  {
    OperateInv(run(k), clock(k), t, m);
  }

  lemma {:induction false} RunInv(run: nat -> Channel, clock: nat -> nat, k: nat, t: Timing, m: Marks)
    requires IsRun(run, clock, t, m)
    ensures Inv(run(k), t)
  {
    if k > 0 {
      RunInv(run, clock, k - 1, t, m);
      StepInv(run, clock, k - 1, t, m);
    }
  }

  /** Without arrivals both queues become empty. */
  lemma {:induction false} Drains(run: nat -> Channel, clock: nat -> nat, k: nat, t: Timing, m: Marks) returns (n: nat)
    requires IsRun(run, clock, t, m) && Advances(clock) && Sensible(m) && Inv(run(k), t)
    ensures Empty(run(n))
    decreases SwitchesLeft(run(k), m), Left(run(k)), WaitingCount(run(k)), UntilActs(run(k), clock(k))
  {
    if Empty(run(k)) {
      n := k;
    } else {
      assert Left(run(k)) >= 0;
      OperateProgress(run(k), clock(k), clock(k + 1), t, m);
      assert Steps(run, clock, k, t, m);
      RunInv(run, clock, k + 1, t, m);
      n := Drains(run, clock, k + 1, t, m);
    }
  }

  ghost function ModeChanges(run: nat -> Channel, n: nat): nat {
    if n == 0 then 0
    else ModeChanges(run, n - 1) + if run(n).writeMode == run(n - 1).writeMode then 0 else 1
  }

  lemma OperateSpendsSwitches(c: Channel, now: nat, t: Timing, m: Marks)
    requires Inv(c, t) && Sensible(m)
    ensures SwitchesLeft(Operate(c, now, t, m), m)
            + (if Operate(c, now, t, m).writeMode == c.writeMode then 0 else 1) <= SwitchesLeft(c, m)
  {
    SwitchProgress(c, now, t, m);
    SwitchInv(c, now, t, m);
    ServeSpendsNoSwitch(SwitchMode(c, now, t, m), now, t, m);
  }

  lemma ServeSpendsNoSwitch(c: Channel, now: nat, t: Timing, m: Marks)
    requires Inv(c, t)
    requires c.writeMode || c.wq.occupancy < m.high || c.rq.occupancy == 0
    ensures SwitchesLeft(Serve(c, now, t), m) <= SwitchesLeft(c, m)
    ensures Serve(c, now, t).writeMode == c.writeMode
  {
    var c2 := ScheduleIfDue(c, now, t);
    ScheduleProgress(c, now, t);
    ScheduleInv(c, now, t);
    ProcessProgress(c2, now, t);
    OccupancyStays(c2, now, t);
    ServingAddsNoSwitch(c, ProcessIfDue(c2, now, t), m);
  }

  lemma StepSpendsSwitches(run: nat -> Channel, clock: nat -> nat, k: nat, t: Timing, m: Marks)
    requires IsRun(run, clock, t, m) && Sensible(m)
    ensures SwitchesLeft(run(k + 1), m) + (if run(k + 1).writeMode == run(k).writeMode then 0 else 1)
            <= SwitchesLeft(run(k), m)
  {
    RunInv(run, clock, k, t, m);
    OperateSpendsSwitches(run(k), clock(k), t, m);
    assert Steps(run, clock, k, t, m);
  }

  /** However long a run without arrivals is, its mode changes at most four times. */
  lemma {:induction false} AtMostFourModeChanges(run: nat -> Channel, clock: nat -> nat, n: nat, t: Timing, m: Marks)
    requires IsRun(run, clock, t, m) && Sensible(m)
    ensures ModeChanges(run, n) + SwitchesLeft(run(n), m) <= SwitchesLeft(run(0), m) <= 4
  {
    if n > 0 {
      AtMostFourModeChanges(run, clock, n - 1, t, m);
      StepSpendsSwitches(run, clock, n - 1, t, m);
    }
  }

  // ---- Every bus use serves one queued request ----

  ghost function Addresses(entry: seq<Packet>): set<nat> {
    set i | 0 <= i < |entry| && entry[i].address != 0 :: entry[i].address
  }

  ghost function Pending(c: Channel, isWrite: bool): set<nat> { Addresses(c.Q(isWrite).entry) }

  /** `c1` has the requests of `c`, or all but one, which made the next use of the bus. */
  ghost predicate ServesOne(c: Channel, c1: Channel) {
    || (c1.transfers == c.transfers && Left(c1) == Left(c)
        && Pending(c1, true) == Pending(c, true) && Pending(c1, false) == Pending(c, false))
    || (exists x: Transfer :: c1.transfers == c.transfers + [x] && Left(c1) == Left(c) - 1
         && x.address in Pending(c, x.isWrite)
         && Pending(c1, x.isWrite) == Pending(c, x.isWrite) - {x.address}
         && Pending(c1, !x.isWrite) == Pending(c, !x.isWrite))
  }

  lemma SameAddresses(e1: seq<Packet>, e2: seq<Packet>)
    requires |e1| == |e2| && forall i :: 0 <= i < |e1| ==> e1[i].address == e2[i].address
    ensures Addresses(e1) == Addresses(e2)
  {
    assert forall i :: 0 <= i < |e1| && e1[i].address != 0 ==> e2[i].address in Addresses(e2);
    assert forall i :: 0 <= i < |e1| && e2[i].address != 0 ==> e1[i].address in Addresses(e1);
  }

  lemma ServedAddresses(q: Queue, i: nat)
    requires QueueInv(q) && i < |q.entry| && q.entry[i].scheduled
    ensures Addresses(q.entry[i := EMPTY]) == Addresses(q.entry) - {q.entry[i].address}
    ensures q.entry[i].address in Addresses(q.entry)
  {
    var e1, e2 := q.entry, q.entry[i := EMPTY];
    assert forall k :: 0 <= k < |e1| && k != i && e1[k].address != 0 ==> e2[k].address in Addresses(e2);
  }

  lemma SwitchKeepsRequests(c: Channel, now: nat, t: Timing, m: Marks)
    requires Inv(c, t)
    ensures var c1 := SwitchMode(c, now, t, m);
            && c1.transfers == c.transfers && Left(c1) == Left(c)
            && Pending(c1, true) == Pending(c, true) && Pending(c1, false) == Pending(c, false)
  {
    SameAddresses(c.rq.entry, Unscheduled(c.rq.entry, now));
    SameAddresses(c.wq.entry, Unscheduled(c.wq.entry, now));
  }

  lemma ScheduleKeepsRequests(c: Channel, now: nat, t: Timing)
    requires Inv(c, t)
    ensures var c1 := ScheduleIfDue(c, now, t);
            && c1.transfers == c.transfers && Left(c1) == Left(c) && c1.writeMode == c.writeMode
            && Pending(c1, true) == Pending(c, true) && Pending(c1, false) == Pending(c, false)
  {
    var q := c.Q(c.writeMode);
    if Choice(q, c.bank).Some? {
      var pick := Choice(q, c.bank).value;
      SameAddresses(q.entry, q.entry[pick.0 := Started(q.entry[pick.0], ReadyAt(pick.1, now, t))]);
    }
  }

  lemma ProcessServesOne(c: Channel, now: nat, t: Timing)
    requires Inv(c, t)
    ensures ServesOne(c, ProcessIfDue(c, now, t))
  {
    var q := c.Q(c.writeMode);
    var i := q.nextProcess.index;
    var c1 := ProcessIfDue(c, now, t);
    if c1.transfers != c.transfers {
      assert i in Scheduled(q.entry);
      ServedAddresses(q, i);
      var x := Transfer(now, c.writeMode, q.entry[i].address);
      assert c1.transfers == c.transfers + [x];
    }
  }

  lemma OperateServesOne(c: Channel, now: nat, t: Timing, m: Marks)
    requires Inv(c, t)
    ensures ServesOne(c, Operate(c, now, t, m))
  {
    var c1 := SwitchMode(c, now, t, m);
    SwitchKeepsRequests(c, now, t, m);
    SwitchInv(c, now, t, m);
    var c2 := ScheduleIfDue(c1, now, t);
    ScheduleKeepsRequests(c1, now, t);
    ScheduleInv(c1, now, t);
    ProcessServesOne(c2, now, t);
  }

  /** A request was served by a bus use from position `from` on. */
  ghost predicate ServedSince(ts: seq<Transfer>, from: nat, isWrite: bool, address: nat) {
    exists i :: from <= i < |ts| && ts[i].isWrite == isWrite && ts[i].address == address
  }

  /** Between `c` and `c1`, what left the queues is what used the bus. */
  ghost predicate ServedBetween(c: Channel, c1: Channel) {
    && c.transfers <= c1.transfers
    && |c1.transfers| - |c.transfers| == Left(c) - Left(c1)
    && (forall w, a :: a in Pending(c, w) && a !in Pending(c1, w) ==> ServedSince(c1.transfers, |c.transfers|, w, a))
  }

  lemma ServedNow(c: Channel, mid: Channel, ts: seq<Transfer>, w: bool, a: nat)
    requires ServesOne(c, mid) && mid.transfers <= ts && a in Pending(c, w) && a !in Pending(mid, w)
    ensures ServedSince(ts, |c.transfers|, w, a)
  {
    var x: Transfer :| mid.transfers == c.transfers + [x] && x.address in Pending(c, x.isWrite)
                       && Pending(mid, x.isWrite) == Pending(c, x.isWrite) - {x.address}
                       && Pending(mid, !x.isWrite) == Pending(c, !x.isWrite);
    assert ts[|c.transfers|] == x;
  }

  lemma ServedOneMore(c: Channel, mid: Channel, c1: Channel)
    requires ServedBetween(c, mid) && ServesOne(mid, c1)
    ensures ServedBetween(c, c1)
  {
    forall w, a | a in Pending(c, w) && a !in Pending(c1, w)
      ensures ServedSince(c1.transfers, |c.transfers|, w, a)
    {
      if a in Pending(mid, w) {
        ServedNow(mid, c1, c1.transfers, w, a);
      } else {
        assert ServedSince(mid.transfers, |c.transfers|, w, a);
        assert mid.transfers <= c1.transfers;
        assert forall i :: 0 <= i < |mid.transfers| ==> c1.transfers[i] == mid.transfers[i];
      }
    }
  }

  lemma StepServes(run: nat -> Channel, clock: nat -> nat, k: nat, t: Timing, m: Marks)
    requires IsRun(run, clock, t, m)
    ensures ServesOne(run(k), run(k + 1))
  {
    RunInv(run, clock, k, t, m);
    OperateServesOne(run(k), clock(k), t, m);
    assert Steps(run, clock, k, t, m);
  }

  /** While nothing arrives, what has left the queues is what has used the bus, once each. */
  lemma {:induction false} RunServes(run: nat -> Channel, clock: nat -> nat, n: nat, t: Timing, m: Marks)
    requires IsRun(run, clock, t, m)
    ensures ServedBetween(run(0), run(n))
  {
    if n > 0 {
      RunServes(run, clock, n - 1, t, m);
      StepServes(run, clock, n - 1, t, m);
      ServedOneMore(run(0), run(n - 1), run(n));
    }
  }

  /** Without arrivals every queued request is served exactly once, and then the queues are empty. */
  lemma EveryRequestIsServed(run: nat -> Channel, clock: nat -> nat, t: Timing, m: Marks) returns (n: nat)
    requires IsRun(run, clock, t, m) && Advances(clock) && Sensible(m)
    ensures Empty(run(n))
    ensures |run(n).transfers| == |run(0).transfers| + run(0).rq.occupancy + run(0).wq.occupancy
    ensures forall w, a :: a in Pending(run(0), w) ==> ServedSince(run(n).transfers, |run(0).transfers|, w, a)
  {
    n := Drains(run, clock, 0, t, m);
    RunServes(run, clock, n, t, m);
    RunInv(run, clock, n, t, m);
    forall w | true ensures Pending(run(n), w) == {} {
      NothingOccupied(run(n).Q(w));
    }
  }

  lemma NothingOccupied(q: Queue)
    requires QueueInv(q) && q.occupancy == 0
    ensures Addresses(q.entry) == {}
  {
    assert forall i :: 0 <= i < |q.entry| && q.entry[i].address != 0 ==> i in Occupied(q.entry);
  }
}
