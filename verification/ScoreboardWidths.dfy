/** How far the loops of one cycle get: scheduling, execution and retirement stop where they must, and not before. */
module ScoreboardWidths {
  import opened Options
  import opened RingOrder
  import opened Counting
  import opened Scoreboard
  import opened ScoreboardSafety
  import opened ScoreboardSteps
  import opened ScoreboardLinks
  import opened ScoreboardRuns
  import opened ScoreboardTiming
  import opened OutOfOrderCores

  /** Scheduling does not get past an entry that is empty or not due yet. */
  ghost predicate Blocks(e: Instr, now: nat) { e.ip == 0 || e.eventCycle > now }

  /** The entries from `i` to `stop` are scheduled, and nothing else has changed. */
  ghost predicate ScheduledTo(c: Core, r: Core, i: nat, stop: nat, window: nat, now: nat) {
    && i <= stop <= |c.rob| == |r.rob| && stop <= i + window
    && (stop == |c.rob| || stop == i + window || Blocks(c.rob[stop], now))
    && (forall x :: i <= x < stop ==> !Blocks(c.rob[x], now) && r.rob[x].scheduled != NotYet)
    && forall x :: 0 <= x < |c.rob| && !(i <= x < stop) ==>
         r.rob[x].scheduled == c.rob[x].scheduled && r.rob[x].eventCycle == c.rob[x].eventCycle
  }

  lemma ScheduledOneMore(c: Core, c1: Core, r: Core, i: nat, stop: nat, window: nat, now: nat)
    requires i < |c.rob| == |c1.rob| && window > 0 && !Blocks(c.rob[i], now) && c1.rob[i].scheduled != NotYet
    requires forall x :: 0 <= x < |c.rob| && x != i ==>
               c1.rob[x].scheduled == c.rob[x].scheduled && c1.rob[x].eventCycle == c.rob[x].eventCycle && c1.rob[x].ip == c.rob[x].ip
    requires ScheduledTo(c1, r, i + 1, stop, window - 1, now)
    ensures ScheduledTo(c, r, i, stop, window, now)
  {
  }

  lemma ScheduleStep(c: Core, i: nat, now: nat, latency: nat) returns (c1: Core)
    requires Inv(c) && c.head <= i < |c.rob| && !Blocks(c.rob[i], now) && c.rob[i].scheduled == NotYet
    ensures AllShaped(c.rob) && c1 == DoScheduling(c, i, now, latency) && Inv(c1)
    ensures c1.head == c.head && |c1.rob| == |c.rob| && c1.rob[i].scheduled != NotYet
    ensures forall x :: 0 <= x < |c.rob| && x != i ==>
              c1.rob[x].scheduled == c.rob[x].scheduled && c1.rob[x].eventCycle == c.rob[x].eventCycle && c1.rob[x].ip == c.rob[x].ip
  {
    OccupiedIsLive(c, i);
    DoSchedulingInv(c, i, now, latency);
    ScheduledWhen(c, i, now, latency);
    c1 := DoScheduling(c, i, now, latency);
  }

  lemma ScheduleStops(c: Core, i: nat, window: nat, now: nat, latency: nat)
    requires Inv(c) && i <= |c.rob| && (i == |c.rob| || window == 0 || Blocks(c.rob[i], now))
    ensures ScheduledTo(c, ScheduleFrom(c, i, window, now, latency), i, i, window, now)
  {
    hide Inv, AllShaped, DoScheduling;
  }

  /** One turn of the loop. */
  lemma ScheduleTurn(c: Core, i: nat, window: nat, now: nat, latency: nat, c1: Core)
    requires Inv(c) && Inv(c1) && |c.rob| == |c1.rob| && i < |c.rob| && window > 0 && !Blocks(c.rob[i], now)
    requires c.rob[i].scheduled != NotYet ==> c1 == c
    requires c.rob[i].scheduled == NotYet ==> c.head < |c.rob| && AllShaped(c.rob) && c1 == DoScheduling(c, i, now, latency)
    ensures ScheduleFrom(c, i, window, now, latency) == ScheduleFrom(c1, i + 1, window - 1, now, latency)
  {
    hide Inv, AllShaped, DoScheduling;
  }

  /**
    schedule_instruction gets to the first entry that blocks, to the end of its window or to
    the end of the array; up to there everything is scheduled, and beyond nothing has changed.
   */
  lemma {:induction false} SchedulesUpTo(c: Core, i: nat, window: nat, now: nat, latency: nat) returns (stop: nat)
    requires Inv(c) && c.head <= i <= |c.rob|
    ensures ScheduledTo(c, ScheduleFrom(c, i, window, now, latency), i, stop, window, now)
    decreases |c.rob| - i
  {
    hide Inv, ScheduledTo, DoScheduling, AllShaped, ScheduleFrom;
    if i == |c.rob| || window == 0 || Blocks(c.rob[i], now) {
      stop := i;
      ScheduleStops(c, i, window, now, latency);
    } else {
      var c1 := c;
      if c.rob[i].scheduled == NotYet {
        c1 := ScheduleStep(c, i, now, latency);
      }
      ScheduleTurn(c, i, window, now, latency, c1);
      stop := SchedulesUpTo(c1, i + 1, window - 1, now, latency);
      ScheduledOneMore(c, c1, ScheduleFrom(c1, i + 1, window - 1, now, latency), i, stop, window, now);
    }
  }

  // ---- The execution queues ----

  /** Members go into a queue in ascending order, after those that are there. */
  ghost predicate Appended(q: seq<nat>, q1: seq<nat>) {
    && |q| <= |q1| && q1[..|q|] == q && forall a, b :: |q| <= a < b < |q1| ==> q1[a] < q1[b]
  }

  /**
    Instructions leave an execution queue at the front, one at each start, and enter at the
    end: RTE1 when they are scheduled, RTE0 when their last producer completes.
   */
  lemma QueuesKeepOrder(c: Core, ev: Event)
    requires Inv(c) && Enabled(c, ev)
    ensures var c1 := Apply(c, ev);
            && (if ev.Started0? then c1.rte0 == c.rte0[1..] else if ev.Checked? then Appended(c.rte0, c1.rte0) else c1.rte0 == c.rte0)
            && (if ev.Started1? then c1.rte1 == c.rte1[1..]
                else c1.rte1 == c.rte1 || (ev.Scheduled? && c1.rte1 == c.rte1 + [ev.i]))
  {
    hide LinkInv, SetInv, CountInv, QueueInv, NearestInv, ReadyInv, Freed, Woken;
  }

  // ---- Execution ----

  /** The first `n` entries of a queue have started, as many as are due and as the width allows. */
  ghost predicate StartedSome(q: seq<nat>, rob: seq<Instr>, q1: seq<nat>, rob1: seq<Instr>, n: nat, width: nat, now: nat, latency: nat) {
    && n <= |q| && n <= width && q1 == q[n..] && |rob1| == |rob| && (forall a :: 0 <= a < |q| ==> q[a] < |rob|)
    && (n == width || n == |q| || rob[q[n]].eventCycle > now)
    && (forall a :: 0 <= a < n ==>
          rob[q[a]].eventCycle <= now && rob1[q[a]].executed == Inflight && rob1[q[a]].eventCycle == now + latency)
    && forall x :: 0 <= x < |rob| && x !in q[..n] ==> rob1[x] == rob[x]
  }

  /** Each entry is in the queue once, and in the reorder buffer. */
  ghost predicate Queued(q: seq<nat>, rob: seq<Instr>) { Distinct(q) && forall a :: 0 <= a < |q| ==> q[a] < |rob| }

  /** The first of the queue has started, and nothing else has changed. */
  ghost predicate StartedOne(q: seq<nat>, rob: seq<Instr>, q1: seq<nat>, rob1: seq<Instr>, now: nat, latency: nat) {
    && Queued(q, rob) && q != [] && q1 == q[1..] && |rob1| == |rob|
    && rob[q[0]].eventCycle <= now && rob1[q[0]].executed == Inflight && rob1[q[0]].eventCycle == now + latency
    && forall x :: 0 <= x < |rob| && x != q[0] ==> rob1[x] == rob[x]
  }

  lemma StartedNone(q: seq<nat>, rob: seq<Instr>, width: nat, now: nat, latency: nat)
    requires Queued(q, rob)
    requires width == 0 || q == [] || rob[q[0]].eventCycle > now
    ensures StartedSome(q, rob, q, rob, 0, width, now, latency)
  {
  }

  lemma StartedOneMore(q: seq<nat>, rob: seq<Instr>, q1: seq<nat>, rob1: seq<Instr>, q2: seq<nat>, rob2: seq<Instr>, n: nat, width: nat, now: nat, latency: nat)
    requires width > 0 && StartedOne(q, rob, q1, rob1, now, latency)
    requires StartedSome(q1, rob1, q2, rob2, n, width - 1, now, latency)
    ensures StartedSome(q, rob, q2, rob2, n + 1, width, now, latency)
  {
    var rest := q[1..];
    assert forall a :: 0 < a < |q| ==> q[a] == rest[a - 1] && q[a] != q[0];
    assert q[..n + 1] == [q[0]] + rest[..n];
    assert q[0] !in rest[..n];
  }

  lemma InRob(c: Core)
    requires Inv(c)
    ensures Queued(c.rte0, c.rob) && Queued(c.rte1, c.rob)
    ensures (c.rte0 != [] ==> c.rte0[0] < |c.rob|) && (c.rte1 != [] ==> c.rte1[0] < |c.rob|)
  {
  }

  lemma StartedFirst0(c: Core, now: nat, latency: nat) returns (c1: Core)
    requires Inv(c) && c.rte0 != [] && (c.rte0[0] < |c.rob| ==> c.rob[c.rte0[0]].eventCycle <= now)
    ensures c.rte0[0] < |c.rob| && c1 == Execute0(c, now, latency) && Inv(c1)
    ensures StartedOne(c.rte0, c.rob, c1.rte0, c1.rob, now, latency) && c1.rte1 == c.rte1
  {
    Execute0Inv(c, now, latency);
    c1 := Execute0(c, now, latency);
  }

  lemma StartedFirst1(c: Core, now: nat, latency: nat) returns (c1: Core)
    requires Inv(c) && c.rte1 != [] && (c.rte1[0] < |c.rob| ==> c.rob[c.rte1[0]].eventCycle <= now)
    ensures c.rte1[0] < |c.rob| && c1 == Execute1(c, now, latency) && Inv(c1)
    ensures StartedOne(c.rte1, c.rob, c1.rte1, c1.rob, now, latency) && c1.rte0 == c.rte0
  {
    Execute1Inv(c, now, latency);
    c1 := Execute1(c, now, latency);
  }

  lemma StartFirstStops(c: Core, width: nat, now: nat, latency: nat)
    requires Inv(c) && (c.rte0 != [] ==> c.rte0[0] < |c.rob|)
    requires width == 0 || c.rte0 == [] || c.rob[c.rte0[0]].eventCycle > now
    ensures StartFirst(c, width, now, latency) == (c, width)
  {
    hide Inv, Execute0;
  }

  lemma StartFirstTurn(c: Core, width: nat, now: nat, latency: nat, c1: Core)
    requires Inv(c) && Inv(c1) && width > 0 && c.rte0 != [] && c.rte0[0] < |c.rob| && c.rob[c.rte0[0]].eventCycle <= now
    requires c1 == Execute0(c, now, latency)
    ensures StartFirst(c, width, now, latency) == StartFirst(c1, width - 1, now, latency)
  {
    hide Inv, Execute0;
  }

  lemma StartSecondStops(c: Core, width: nat, now: nat, latency: nat)
    requires Inv(c) && (c.rte1 != [] ==> c.rte1[0] < |c.rob|)
    requires width == 0 || c.rte1 == [] || c.rob[c.rte1[0]].eventCycle > now
    ensures StartSecond(c, width, now, latency) == c
  {
    hide Inv, Execute1;
  }

  lemma StartSecondTurn(c: Core, width: nat, now: nat, latency: nat, c1: Core)
    requires Inv(c) && Inv(c1) && width > 0 && c.rte1 != [] && c.rte1[0] < |c.rob| && c.rob[c.rte1[0]].eventCycle <= now
    requires c1 == Execute1(c, now, latency)
    ensures StartSecond(c, width, now, latency) == StartSecond(c1, width - 1, now, latency)
  {
    hide Inv, Execute1;
  }

  /** The first loop of execute_instruction starts the first entries of RTE0, and no others. */
  lemma {:induction false} StartsFirst(c: Core, width: nat, now: nat, latency: nat) returns (n: nat)
    requires Inv(c)
    ensures var (r, left) := StartFirst(c, width, now, latency);
            StartedSome(c.rte0, c.rob, r.rte0, r.rob, n, width, now, latency) && r.rte1 == c.rte1 && left == width - n
    decreases width
  {
    hide Inv, StartedSome, StartedOne, Queued, Execute0, StartFirst;
    InRob(c);
    if width == 0 || c.rte0 == [] || c.rob[c.rte0[0]].eventCycle > now {
      n := 0;
      StartedNone(c.rte0, c.rob, width, now, latency);
      StartFirstStops(c, width, now, latency);
    } else {
      var c1 := StartedFirst0(c, now, latency);
      StartFirstTurn(c, width, now, latency, c1);
      var m := StartsFirst(c1, width - 1, now, latency);
      n := m + 1;
      var r := StartFirst(c1, width - 1, now, latency).0;
      StartedOneMore(c.rte0, c.rob, c1.rte0, c1.rob, r.rte0, r.rob, m, width, now, latency);
    }
  }

  /** So does the second loop with RTE1. */
  lemma {:induction false} StartsSecond(c: Core, width: nat, now: nat, latency: nat) returns (n: nat)
    requires Inv(c)
    ensures var r := StartSecond(c, width, now, latency);
            StartedSome(c.rte1, c.rob, r.rte1, r.rob, n, width, now, latency) && r.rte0 == c.rte0
    decreases width
  {
    hide Inv, StartedSome, StartedOne, Queued, Execute1, StartSecond;
    InRob(c);
    if width == 0 || c.rte1 == [] || c.rob[c.rte1[0]].eventCycle > now {
      n := 0;
      StartedNone(c.rte1, c.rob, width, now, latency);
      StartSecondStops(c, width, now, latency);
    } else {
      var c1 := StartedFirst1(c, now, latency);
      StartSecondTurn(c, width, now, latency, c1);
      var m := StartsSecond(c1, width - 1, now, latency);
      n := m + 1;
      var r := StartSecond(c1, width - 1, now, latency);
      StartedOneMore(c.rte1, c.rob, c1.rte1, c1.rob, r.rte1, r.rob, m, width, now, latency);
    }
  }

  // ---- Retirement ----

  /** The `n` oldest entries are gone, which had all completed; the next has not, or the width is used up. */
  ghost predicate RetiredSome(c: Core, r: Core, n: nat, width: nat) {
    && c.head < |c.rob| == |r.rob| && n <= width && n <= c.occupancy <= |c.rob| && r.occupancy == c.occupancy - n
    && r.head == At(n, c.head, |c.rob|) % |c.rob|
    && (forall x :: 0 <= x < |c.rob| && Pos(x, c.head, |c.rob|) < n ==> c.rob[x].executed == Completed && r.rob[x] == EMPTY)
    && (forall x :: 0 <= x < |c.rob| && Pos(x, c.head, |c.rob|) >= n ==> r.rob[x] == c.rob[x])
    && (n == width || n == c.occupancy || forall x :: 0 <= x < |c.rob| && Pos(x, c.head, |c.rob|) == n ==> c.rob[x].executed != Completed)
  }

  lemma RetiredOneMore(c: Core, r: Core, n: nat, width: nat)
    requires c.head < |c.rob| && 0 < c.occupancy <= |c.rob| && width > 0 && c.rob[c.head].executed == Completed
    requires RetiredSome(Retire(c), r, n, width - 1)
    ensures RetiredSome(c, r, n + 1, width)
  {
    var h := At(1, c.head, |c.rob|);
    assert forall x :: 0 <= x < |c.rob| && x != c.head ==> Pos(x, h, |c.rob|) == Pos(x, c.head, |c.rob|) - 1;
    assert Pos(c.head, h, |c.rob|) == |c.rob| - 1;
  }

  lemma RetireStops(c: Core, width: nat)
    requires Inv(c) && c.head < |c.rob| && (width == 0 || c.occupancy == 0 || c.rob[c.head].executed != Completed)
    ensures RetireSome(c, width) == c && RetiredSome(c, c, 0, width)
  {
    hide LinkInv, SetInv, CountInv, QueueInv, NearestInv, ReadyInv;
  }

  lemma RetireTurn(c: Core, width: nat)
    requires Inv(c) && c.head < |c.rob| && width > 0 && c.occupancy > 0 && c.rob[c.head].executed == Completed
    ensures Inv(Retire(c)) && RetireSome(c, width) == RetireSome(Retire(c), width - 1)
  {
    hide Inv, Retire;
    RetireInv(c);
  }

  lemma HeadInRob(c: Core)
    requires Inv(c)
    ensures c.head < |c.rob| && c.occupancy <= |c.rob|
  {
  }

  /** retire_rob takes the oldest instructions, one after the other, as long as they have completed. */
  lemma {:induction false} RetiresInOrder(c: Core, width: nat) returns (n: nat)
    requires Inv(c)
    ensures RetiredSome(c, RetireSome(c, width), n, width)
    decreases width
  {
    hide Inv, RetiredSome, RetireSome, Retire;
    HeadInRob(c);
    if width == 0 || c.occupancy == 0 || c.rob[c.head].executed != Completed {
      n := 0;
      RetireStops(c, width);
    } else {
      RetireTurn(c, width);
      var m := RetiresInOrder(Retire(c), width - 1);
      n := m + 1;
      RetiredOneMore(c, RetireSome(Retire(c), width - 1), m, width);
    }
  }

  // ---- Completion ----

  /** Of the `k` oldest places exactly those that can complete have done so, and no other entry has changed its stage. */
  ghost predicate FinishedUpTo(c: Core, r: Core, k: nat, now: nat) {
    && c.head == r.head < |c.rob| == |r.rob|
    && forall i :: 0 <= i < |c.rob| ==>
         && r.rob[i].executed == (if Pos(i, c.head, |c.rob|) < k && Finishes(c.rob[i], now) then Completed else c.rob[i].executed)
         && r.rob[i].eventCycle == c.rob[i].eventCycle && r.rob[i].isMemory == c.rob[i].isMemory && r.rob[i].memOps == c.rob[i].memOps
  }

  lemma FinishedOneMore(c: Core, r: Core, r1: Core, k: nat, now: nat)
    requires FinishedUpTo(c, r, k, now) && k < |c.rob| && |r1.rob| == |r.rob| && r1.head == r.head
    requires var i := At(k, c.head, |c.rob|);
             forall x :: 0 <= x < |c.rob| ==>
               && r1.rob[x].executed == (if x == i && Finishes(r.rob[i], now) then Completed else r.rob[x].executed)
               && r1.rob[x].eventCycle == r.rob[x].eventCycle && r1.rob[x].isMemory == r.rob[x].isMemory && r1.rob[x].memOps == r.rob[x].memOps
    ensures FinishedUpTo(c, r1, k + 1, now)
  {
    var i := At(k, c.head, |c.rob|);
    assert Pos(i, c.head, |c.rob|) == k;
    assert forall x :: 0 <= x < |c.rob| && Pos(x, c.head, |c.rob|) == k ==> x == i;
  }

  /** update_rob completes all that can complete, at most once each, and nothing else. */
  lemma {:induction false} CompletesAll(c: Core, k: nat, now: nat)
    requires Inv(c) && k <= |c.rob|
    ensures FinishedUpTo(c, CompleteUpTo(c, k, now), k, now)
  {
    hide Inv, FinishedUpTo, CompleteExecution;
    if k == 0 {
      FinishedNothing(c, now);
    } else {
      CompletesAll(c, k - 1, now);
      var r := CompleteUpTo(c, k - 1, now);
      UpToHere(c, k - 1, now);
      CheckKeepsOthers(r, At(k - 1, c.head, |c.rob|), now);
      FinishedOneMore(c, r, CompleteExecution(r, At(k - 1, c.head, |c.rob|), now), k - 1, now);
    }
  }

  lemma FinishedNothing(c: Core, now: nat)
    requires Inv(c)
    ensures FinishedUpTo(c, c, 0, now)
  {
    hide LinkInv, SetInv, CountInv, QueueInv, NearestInv, ReadyInv;
  }

  lemma UpToHere(c: Core, k: nat, now: nat)
    requires Inv(c) && k < |c.rob|
    ensures var r := CompleteUpTo(c, k, now); Inv(r) && |r.rob| == |c.rob| && r.head == c.head && c.head < |c.rob|
  {
    hide LinkInv, SetInv, CountInv, QueueInv, NearestInv, ReadyInv;
  }
}
