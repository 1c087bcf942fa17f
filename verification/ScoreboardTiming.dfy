/** When instructions start and complete: never early, and a memory instruction not without its data. */
module ScoreboardTiming {
  import opened Options
  import opened RingOrder
  import opened Scoreboard
  import opened ScoreboardSafety
  import opened ScoreboardRuns

  // ---- What one step does to one entry ----

  /** The entry can complete: it executes, is due and, if it is a memory instruction, has all its data. */
  ghost predicate Finishes(e: Instr, now: nat) { e.executed == Inflight && e.eventCycle <= now && (e.isMemory ==> e.memOps == 0) }

  /** A check changes nothing that another check looks at. */
  lemma CheckKeepsOthers(c: Core, i: nat, now: nat)
    requires Inv(c) && i < |c.rob|
    ensures |c.rob[i].slotDependents| == SOURCES
    ensures var r := CompleteExecution(c, i, now);
            && r.head == c.head && |r.rob| == |c.rob|
            && forall x :: 0 <= x < |c.rob| ==>
                 && r.rob[x].executed == (if x == i && Finishes(c.rob[i], now) then Completed else c.rob[x].executed)
                 && r.rob[x].eventCycle == c.rob[x].eventCycle && r.rob[x].isMemory == c.rob[x].isMemory && r.rob[x].memOps == c.rob[x].memOps
  {
    hide LinkInv, SetInv, CountInv, QueueInv, NearestInv, ReadyInv, Woken;
  }

  /** Scheduling an entry leaves all entries at their stage, and the operands of all. */
  lemma SchedulingKeepsStages(c: Core, i: nat, now: nat, latency: nat)
    requires Inv(c) && Live(c, i) && c.rob[i].scheduled == NotYet
    ensures c.head < |c.rob| && AllShaped(c.rob) && c.rob[i].executed == NotYet
    ensures var r := DoScheduling(c, i, now, latency);
            && r.head == c.head && |r.rob| == |c.rob|
            && forall x :: 0 <= x < |c.rob| ==>
                 && r.rob[x].executed == c.rob[x].executed
                 && (x == i || r.rob[x].eventCycle == c.rob[x].eventCycle) && r.rob[x].isMemory == c.rob[x].isMemory && r.rob[x].memOps == c.rob[x].memOps
  {
    hide LinkInv, SetInv, CountInv, QueueInv, NearestInv;
    assert ReadyOk(c.rob[i]);
  }

  /**
    An entry completes exactly when it is checked while it executes, its cycle has come and,
    if it is a memory instruction, none of its operands is outstanding.
   */
  lemma CompletesIff(c: Core, ev: Event, i: nat)
    requires Inv(c) && Enabled(c, ev) && i < |c.rob| && c.rob[i].executed != Completed
    ensures i < |Apply(c, ev).rob|
    ensures Apply(c, ev).rob[i].executed == Completed
            <==> ev.Checked? && ev.i == i && c.rob[i].executed == Inflight && c.rob[i].eventCycle <= ev.now
                 && (c.rob[i].isMemory ==> c.rob[i].memOps == 0)
  {
    hide LinkInv, SetInv, CountInv, QueueInv, NearestInv, ReadyInv, CompleteExecution, DoScheduling;
    if ev.Checked? {
      CheckKeepsOthers(c, ev.i, ev.now);
    } else if ev.Scheduled? {
      SchedulingKeepsStages(c, ev.i, ev.now, ev.latency);
    }
  }

  /** Only retirement and a new instruction undo a completion. */
  lemma StaysCompleted(c: Core, ev: Event, i: nat)
    requires Inv(c) && Enabled(c, ev) && i < |c.rob| && c.rob[i].executed == Completed
    ensures i < |Apply(c, ev).rob|
    ensures Apply(c, ev).rob[i].executed == Completed || (ev.Retired? && i == c.head)
  {
    hide LinkInv, SetInv, CountInv, NearestInv, ReadyInv, CompleteExecution, DoScheduling;
    if ev.Checked? {
      CheckKeepsOthers(c, ev.i, ev.now);
    } else if ev.Scheduled? {
      SchedulingKeepsStages(c, ev.i, ev.now, ev.latency);
    }
  }

  /**
    An entry starts exactly when it is the first of a due execution queue, or is handed to the
    load/store queue; the first takes its latency from now, or from its own cycle if that is later.
   */
  lemma StartsIff(c: Core, ev: Event, i: nat)
    requires Inv(c) && Enabled(c, ev) && i < |c.rob| && c.rob[i].executed == NotYet
    ensures i < |Apply(c, ev).rob|
    ensures Apply(c, ev).rob[i].executed == Inflight
            <==> (ev.Started0? && c.rte0[0] == i) || (ev.Started1? && c.rte1[0] == i) || (ev.IssuedMemory? && ev.i == i)
    ensures (ev.Started0? && c.rte0[0] == i) || (ev.Started1? && c.rte1[0] == i) ==>
              c.rob[i].eventCycle <= ev.now && Apply(c, ev).rob[i].eventCycle == ev.now + ev.latency
  {
    hide LinkInv, SetInv, CountInv, QueueInv, NearestInv, ReadyInv;
  }

  /** Scheduling puts a memory instruction in flight, and delays any other by the latency. */
  lemma ScheduledWhen(c: Core, i: nat, now: nat, latency: nat)
    requires Inv(c) && Live(c, i) && c.rob[i].scheduled == NotYet
    ensures c.head < |c.rob| && AllShaped(c.rob)
    ensures var e := c.rob[i]; var c1 := DoScheduling(c, i, now, latency); var e1 := c1.rob[i];
            && e1.scheduled == (if e.isMemory then Inflight else Completed)
            && e1.eventCycle == (if e.isMemory then e.eventCycle else if e.eventCycle >= now then e.eventCycle + latency else now + latency)
            && forall k :: 0 <= k < |c.rob| && k != i ==>
                 c1.rob[k].scheduled == c.rob[k].scheduled && c1.rob[k].eventCycle == c.rob[k].eventCycle && c1.rob[k].ip == c.rob[k].ip
  {
    hide LinkInv, SetInv, CountInv, QueueInv, NearestInv, ReadyInv;
  }

  // ---- Runs ----

  /** Operands of an instruction that has completed do not come back. */
  ghost predicate Orderly(c: Core, ev: Event) { ev.Progressed? && ev.i < |c.rob| ==> c.rob[ev.i].executed != Completed }

  ghost predicate Happens(c: Core, ev: Event, c1: Core) {
    c.head < |c.rob| && AllShaped(c.rob) && Enabled(c, ev) && Orderly(c, ev) && c1 == Apply(c, ev)
  }

  ghost predicate IsTimedRun(run: seq<Core>, evs: seq<Event>, n: nat) {
    && n > 0 && |run| == |evs| + 1 && run[0] == Initial(n)
    && forall k :: 0 <= k < |evs| ==> Happens(run[k], evs[k], run[k + 1])
  }

  lemma {:induction false} TimedRunInv(run: seq<Core>, evs: seq<Event>, n: nat, k: nat)
    requires IsTimedRun(run, evs, n) && k < |run|
    ensures Inv(run[k]) && |run[k].rob| == n
  {
    if k == 0 {
      InitialInv(n);
    } else {
      TimedRunInv(run, evs, n, k - 1);
      assert Happens(run[k - 1], evs[k - 1], run[k - 1 + 1]);
      ApplyInv(run[k - 1], evs[k - 1]);
      SameSize(run[k - 1], evs[k - 1]);
    }
  }

  lemma SameSize(c: Core, ev: Event)
    requires Inv(c) && Enabled(c, ev)
    ensures |Apply(c, ev).rob| == |c.rob|
  {
    hide LinkInv, SetInv, CountInv, QueueInv, NearestInv, ReadyInv;
  }

  ghost predicate HasItsData(e: Instr) { e.isMemory && e.executed == Completed ==> e.memOps == 0 }

  /** A completed entry has the operands it had before, unless some have been counted in this step. */
  lemma CompletedOperands(c: Core, ev: Event, i: nat)
    requires Inv(c) && Enabled(c, ev) && i < |c.rob|
    ensures i < |Apply(c, ev).rob|
    ensures Apply(c, ev).rob[i].executed == Completed ==>
              && Apply(c, ev).rob[i].isMemory == c.rob[i].isMemory
              && (Apply(c, ev).rob[i].memOps == c.rob[i].memOps || (ev.Progressed? && ev.i == i))
  {
    hide LinkInv, SetInv, CountInv, QueueInv, NearestInv, ReadyInv, CompleteExecution, DoScheduling;
    if ev.Checked? {
      CheckKeepsOthers(c, ev.i, ev.now);
    } else if ev.Scheduled? {
      SchedulingKeepsStages(c, ev.i, ev.now, ev.latency);
    }
  }

  lemma StepKeepsData(c: Core, ev: Event, i: nat)
    requires Inv(c) && Enabled(c, ev) && Orderly(c, ev) && i < |c.rob| && HasItsData(c.rob[i])
    ensures i < |Apply(c, ev).rob| && HasItsData(Apply(c, ev).rob[i])
  {
    hide Inv, Apply, Enabled;
    CompletedOperands(c, ev, i);
    if c.rob[i].executed != Completed {
      CompletesIff(c, ev, i);
    }
  }

  /** In every run, a memory instruction that has completed has none of its operands outstanding. */
  lemma {:induction false} CompletedHaveTheirData(run: seq<Core>, evs: seq<Event>, n: nat, k: nat, i: nat)
    requires IsTimedRun(run, evs, n) && k < |run| && i < |run[k].rob|
    ensures run[k].rob[i].isMemory && run[k].rob[i].executed == Completed ==> run[k].rob[i].memOps == 0
  {
    if k > 0 {
      TimedRunInv(run, evs, n, k - 1);
      TimedRunInv(run, evs, n, k);
      CompletedHaveTheirData(run, evs, n, k - 1, i);
      assert Happens(run[k - 1], evs[k - 1], run[k - 1 + 1]);
      StepKeepsData(run[k - 1], evs[k - 1], i);
    }
  }

  lemma StepAt(run: seq<Core>, evs: seq<Event>, n: nat, k: nat)
    requires IsTimedRun(run, evs, n) && k < |evs|
    ensures |run| == |evs| + 1 && Inv(run[k]) && |run[k].rob| == n && |run[k + 1].rob| == n && Happens(run[k], evs[k], run[k + 1])
  {
    TimedRunInv(run, evs, n, k);
    TimedRunInv(run, evs, n, k + 1);
  }

  /** The entry executes, and is due no earlier than `cycle`. */
  ghost predicate ExecutesUntil(c: Core, i: nat, cycle: nat) {
    i < |c.rob| && c.rob[i].executed == Inflight && !c.rob[i].isMemory && c.rob[i].eventCycle >= cycle
  }

  /** An entry that executes keeps its cycle, unless the memory side sets it. */
  lemma ExecutingCycle(c: Core, ev: Event, i: nat)
    requires Inv(c) && Enabled(c, ev) && i < |c.rob| && c.rob[i].executed == Inflight
    ensures i < |Apply(c, ev).rob|
    ensures Apply(c, ev).rob[i].executed == Inflight ==>
              && Apply(c, ev).rob[i].isMemory == c.rob[i].isMemory
              && (Apply(c, ev).rob[i].eventCycle == c.rob[i].eventCycle || (ev.Progressed? && c.rob[i].isMemory))
  {
    hide LinkInv, SetInv, CountInv, NearestInv, CompleteExecution, DoScheduling;
    assert ReadyOk(c.rob[i]);
    if ev.Checked? {
      CheckKeepsOthers(c, ev.i, ev.now);
    } else if ev.Scheduled? {
      SchedulingKeepsStages(c, ev.i, ev.now, ev.latency);
    }
  }

  /** While an instruction of the execution queues executes, its cycle is not brought forward. */
  lemma StaysDue(c: Core, ev: Event, c1: Core, i: nat, cycle: nat)
    requires Inv(c) && Happens(c, ev, c1) && ExecutesUntil(c, i, cycle)
    ensures Executes(c1, i) ==> ExecutesUntil(c1, i, cycle)
  {
    hide Inv, Apply, Enabled;
    ExecutingCycle(c, ev, i);
  }

  /** The event starts entry `i` from an execution queue; it is due at `cycle`. */
  ghost predicate Starts(c: Core, ev: Event, i: nat, cycle: nat) {
    || (ev.Started0? && c.rte0 != [] && c.rte0[0] == i && cycle == ev.now + ev.latency)
    || (ev.Started1? && c.rte1 != [] && c.rte1[0] == i && cycle == ev.now + ev.latency)
  }

  lemma StartsUntil(c: Core, ev: Event, c1: Core, i: nat, cycle: nat)
    requires Inv(c) && Happens(c, ev, c1) && Starts(c, ev, i, cycle)
    ensures ExecutesUntil(c1, i, cycle)
  {
    hide LinkInv, SetInv, CountInv, NearestInv, ReadyInv;
    assert ev.Started0? ==> i in c.rte0;
    assert ev.Started1? ==> i in c.rte1;
    assert i < |c.rob| && Runnable(c.rob[i]);
    hide QueueInv;
    StartsIff(c, ev, i);
  }

  ghost predicate Executes(c: Core, i: nat) { i < |c.rob| && c.rob[i].executed == Inflight }

  lemma {:induction false} ExecutingUntil(run: seq<Core>, evs: seq<Event>, n: nat, i: nat, cycle: nat, m: nat, k: nat)
    requires IsTimedRun(run, evs, n) && m < k < |run| == |evs| + 1 && Starts(run[m], evs[m], i, cycle)
    requires forall x :: m < x <= k ==> Executes(run[x], i)
    ensures ExecutesUntil(run[k], i, cycle)
  {
    hide IsTimedRun, Happens, Inv, Starts, ExecutesUntil;
    StepAt(run, evs, n, k - 1);
    if k == m + 1 {
      StartsUntil(run[m], evs[m], run[k], i, cycle);
    } else {
      ExecutingUntil(run, evs, n, i, cycle, m, k - 1);
      StaysDue(run[k - 1], evs[k - 1], run[k], i, cycle);
    }
  }

  /** In every run, an instruction of the execution queues completes no earlier than its latency after it started. */
  lemma ExecutionTakesItsLatency(run: seq<Core>, evs: seq<Event>, n: nat, i: nat, cycle: nat, m: nat, k: nat)
    requires IsTimedRun(run, evs, n) && m < k < |evs| == |run| - 1 && Starts(run[m], evs[m], i, cycle)
    requires forall x :: m < x <= k ==> Executes(run[x], i)
    requires i < |run[k + 1].rob| && run[k + 1].rob[i].executed == Completed
    ensures evs[k].Checked? && evs[k].i == i && cycle <= evs[k].now
  {
    ExecutingUntil(run, evs, n, i, cycle, m, k);
    StepAt(run, evs, n, k);
    hide IsTimedRun, Inv;
    CompletesIff(run[k], evs[k], i);
  }
}
