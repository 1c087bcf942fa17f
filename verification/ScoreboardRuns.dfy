/** Every run of the scoreboard, whatever the order of its steps. */
module ScoreboardRuns {
  import opened Options
  import opened RingOrder
  import opened Counting
  import opened Scoreboard
  import opened ScoreboardSafety
  import opened ScoreboardSteps
  import opened ScoreboardLinks

  datatype Event =
    | Dispatched(e: Instr)
    | Scheduled(i: nat, now: nat, latency: nat)
    | Started0(now: nat, latency: nat)
    | Started1(now: nat, latency: nat)
    | IssuedMemory(i: nat)
    | Progressed(i: nat, memOps: int, cycle: nat)
    | Checked(i: nat, now: nat)
    | Retired

  ghost predicate Enabled(c: Core, ev: Event) {
    match ev
    case Dispatched(e) => c.occupancy < |c.rob| && Fresh(e)
    case Scheduled(i, _, _) => Live(c, i) && c.rob[i].scheduled == NotYet
    case Started0(now, _) => c.rte0 != [] && c.rte0[0] < |c.rob| && c.rob[c.rte0[0]].eventCycle <= now
    case Started1(now, _) => c.rte1 != [] && c.rte1[0] < |c.rob| && c.rob[c.rte1[0]].eventCycle <= now
    case IssuedMemory(i) => i < |c.rob| && CanIssueMemory(c.rob[i])
    case Progressed(i, _, _) => Live(c, i) && c.rob[i].isMemory
    case Checked(i, _) => i < |c.rob|
    case Retired => c.occupancy > 0 && c.head < |c.rob| && c.rob[c.head].executed == Completed
  }

  ghost function Apply(c: Core, ev: Event): Core
    requires c.head < |c.rob| && AllShaped(c.rob) && Enabled(c, ev)
  {
    match ev
    case Dispatched(e) => Dispatch(c, e)
    case Scheduled(i, now, latency) => DoScheduling(c, i, now, latency)
    case Started0(now, latency) => Execute0(c, now, latency)
    case Started1(now, latency) => Execute1(c, now, latency)
    case IssuedMemory(i) => IssueMemory(c, i)
    case Progressed(i, memOps, cycle) => MemoryProgress(c, i, memOps, cycle)
    case Checked(i, now) => CompleteExecution(c, i, now)
    case Retired => Retire(c)
  }

  lemma ApplyInv(c: Core, ev: Event)
    requires Inv(c) && Enabled(c, ev)
    ensures Inv(Apply(c, ev))
  {
    match ev {
      case Dispatched(e) => DispatchInv(c, e);
      case Scheduled(i, now, latency) => DoSchedulingInv(c, i, now, latency);
      case Started0(now, latency) => Execute0Inv(c, now, latency);
      case Started1(now, latency) => Execute1Inv(c, now, latency);
      case IssuedMemory(i) => IssueMemoryInv(c, i);
      case Progressed(i, memOps, cycle) => MemoryProgressInv(c, i, memOps, cycle);
      case Checked(i, now) => CompleteExecutionInv(c, i, now);
      case Retired => RetireInv(c);
    }
  }

  ghost predicate Steps(c: Core, c1: Core) {
    c.head < |c.rob| && AllShaped(c.rob) && exists ev :: Enabled(c, ev) && c1 == Apply(c, ev)
  }

  /** A run from an empty reorder buffer of `n` entries. */
  ghost predicate IsRun(run: seq<Core>, n: nat) {
    n > 0 && run != [] && run[0] == Initial(n) && forall k :: 0 <= k < |run| - 1 ==> Steps(run[k], run[k + 1])
  }

  lemma InitialInv(n: nat)
    requires n > 0
    ensures Inv(Initial(n))
  {
    var c := Initial(n);
    forall x | 0 <= x < n ensures Links(c.rob, x) == {} {
      assert forall l :: l in Links(c.rob, x) ==> Waits(c.rob, l.0, x, l.1);
    }
    forall p, x: nat | 0 <= p < n ensures SlotsFed(c.rob[p], x) == {} {}
  }

  lemma {:induction false} ReachableInv(run: seq<Core>, n: nat, k: nat)
    requires IsRun(run, n) && k < |run|
    ensures Inv(run[k])
  {
    if k == 0 {
      InitialInv(n);
    } else {
      ReachableInv(run, n, k - 1);
      assert Steps(run[k - 1], run[k]);
      var ev :| Enabled(run[k - 1], ev) && run[k] == Apply(run[k - 1], ev);
      ApplyInv(run[k - 1], ev);
    }
  }

  /**
    In every reachable state: what has started executing waits for nobody, the nearest older
    writer of each of its sources has completed, and both execution queues fit their rings.
   */
  lemma RunsAreSafe(run: seq<Core>, n: nat, k: nat)
    requires IsRun(run, n) && k < |run|
    ensures var c := run[k];
            && (forall x :: 0 <= x < |c.rob| && c.rob[x].executed != NotYet ==>
                  c.rob[x].pending == 0 && forall p, j :: !Waits(c.rob, p, x, j))
            && (forall p: nat, x: nat, j: nat :: NearestWriter(c, p, x, j) && c.rob[x].executed != NotYet
                  ==> c.rob[p].executed == Completed)
            && |c.rte0| + |c.rte1| <= |c.rob|
  {
    ReachableInv(run, n, k);
    var c := run[k];
    forall x | 0 <= x < |c.rob| && c.rob[x].executed != NotYet
      ensures c.rob[x].pending == 0 && forall p, j :: !Waits(c.rob, p, x, j)
    {
      assert ReadyOk(c.rob[x]);
      NoStartBeforeProducer(c, x);
    }
    forall p: nat, x: nat, j: nat | NearestWriter(c, p, x, j) && c.rob[x].executed != NotYet
      ensures c.rob[p].executed == Completed
    {
      NoReadBeforeWrite(c, p, x, j);
    }
    QueuesFit(c);
  }
}
