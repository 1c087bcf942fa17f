/**
  Whole runs of the load and store queues, as far as the assertions of execute_store let them
  go: each operand gets its data once, num_mem_ops counts what is outstanding, and nothing
  retires with the data of another address.
 */
module ForwardingRuns {
  import opened Options
  import opened RingOrder
  import opened Forwarding
  import opened ForwardingSafety
  import opened ForwardingSteps
  import opened ForwardingStores
  import opened ForwardingChecks

  // ---- Runs ----

  datatype Step =
    | Dispatched(e: Instr)
    | LoadAdded(i: nat, j: nat, l: nat)
    | StoreAdded(i: nat, k: nat, t: nat)
    | Issued(i: nat)
    | LoadSent
    | Translated(l: nat)
    | Fetched
    | Answered(l: nat)
    | StoreExecuted(t: nat)
    | Finished(i: nat)
    | Retired

  /** What the core does from one moment to the next, if no store runs into an assertion. */
  ghost predicate FreeSteps(s: Lsq, s1: Lsq, step: Step) {
    && Shape(s)
    && match step
       case Dispatched(e) => CanDispatch(s, e) && s1 == Dispatch(s, e)
       case LoadAdded(i, j, l) => CanAdd(s, i, j, l) && s1 == AddLoad(s, i, j, l)
       case StoreAdded(i, k, t) =>
         && Live(s, i) && k < DESTS && s.rob[i].dst[k] != 0 && s.rob[i].sqIndex[k] == None
         && t < |s.sq| && s.sq[t].address == 0 && s1 == AddStore(s, i, k, t)
       case Issued(i) => Live(s, i) && AllAdded(s.rob[i]) && s1 == Issue(s, i)
       case LoadSent => s.rtl0 != [] && s1 == SendLoad(s)
       case Translated(l) => l in s.translating && s1 == LoadTranslated(s, l)
       case Fetched => s.rtl1 != [] && s1 == FetchLoad(s)
       case Answered(l) =>
         && l in s.fetching && l < |s.lq| && s.lq[l].robIndex < |s.rob| && s.lq[l].slot < SOURCES
         && s1 == LoadReturned(s, l)
       case StoreExecuted(t) =>
         && CanExecute(s, t) && s.sq[t].robIndex < |s.rob| && s.sq[t].slot < DESTS && s1 == ExecuteStore(s, t)
       case Finished(i) => Live(s, i) && s1 == Complete(s, i)
       case Retired => CanRetire(s) && s1 == Retire(s)
  }

  /** The simulator stops where an assertion of execute_store fails. */
  ghost predicate Steps(s: Lsq, s1: Lsq, step: Step) {
    FreeSteps(s, s1, step) && (step.StoreExecuted? ==> CheckHolds(s, step.t))
  }

  lemma StepsInv(s: Lsq, s1: Lsq, step: Step)
    requires Inv(s) && Steps(s, s1, step)
    ensures Inv(s1)
  {
    hide InOrder, OperandsOk, LoadsOk, DestinationsOk, StoresOk, WaitsOk, DependentsOk, SourcesOk, DebtsOk, PathOk, CountsOk;
    hide CheckHolds, Reaches, AllAdded;
    match step
    case Dispatched(e) => DispatchInv(s, e);
    case LoadAdded(i, j, l) => AddLoadInv(s, i, j, l);
    case StoreAdded(i, k, t) => AddStoreInv(s, i, k, t);
    case Issued(i) =>
      if s.rob[i].executed == NotYet {
        StageInv(s, s1, i, Inflight);
      }
    case LoadSent => SendLoadInv(s);
    case Translated(l) => LoadTranslatedInv(s, l);
    case Fetched => FetchLoadInv(s);
    case Answered(l) => LoadReturnedInv(s, l);
    case StoreExecuted(t) => ExecuteStoreInv(s, t);
    case Finished(i) =>
      assert StageOk(s.rob[i]);
      if s.rob[i].executed == Inflight && s.rob[i].memOps == 0 {
        StageInv(s, s1, i, Completed);
      }
    case Retired => RetireInv(s);
  }

  ghost predicate IsRun(run: seq<Lsq>, steps: seq<Step>) {
    && |run| == |steps| + 1
    && (exists r: nat, l: nat, q: nat :: r > 0 && run[0] == Initial(r, l, q))
    && forall k :: 0 <= k < |steps| ==> Steps(run[k], run[k + 1], steps[k])
  }

  lemma InitialInv(r: nat, l: nat, q: nat)
    requires r > 0
    ensures Inv(Initial(r, l, q))
  {
  }

  /** Every reachable state keeps the invariant. */
  lemma {:induction false} ReachableInv(run: seq<Lsq>, steps: seq<Step>, k: nat)
    requires IsRun(run, steps) && k < |run|
    ensures Inv(run[k])
  {
    if k == 0 {
      var r: nat, l: nat, q: nat :| r > 0 && run[0] == Initial(r, l, q);
      InitialInv(r, l, q);
    } else {
      ReachableInv(run, steps, k - 1);
      StepsInv(run[k - 1], run[k], steps[k - 1]);
    }
  }

  // ---- Each operand gets its data once, from the right place ----

  /** The same instruction is in entry `i` before and after. */
  ghost predicate Stays(s: Lsq, s1: Lsq, i: int) {
    Shape(s) && Shape(s1) && Live(s, i) && Live(s1, i) && s.rob[i].id == s1.rob[i].id
  }

  /** Where the data of an operand has to come from. */
  ghost function Wanted(s: Lsq, i: int, a: nat): How
    requires s.head < |s.rob|
  {
    match ProducerId(s, i, a)
    case Some(id) => FromStore(id, a)
    case None => FromMemory
  }

  /** The step gives the operand the data of another store of the instruction it waits for. */
  ghost predicate FedWrongly(s: Lsq, step: Step, i: int, a: nat, how: How)
    requires s.head < |s.rob|
  {
    && step.StoreExecuted? && step.t < |s.sq| && s.sq[step.t].address != a
    && ProducerId(s, i, a) == Some(s.sq[step.t].id) && how == FromStore(s.sq[step.t].id, s.sq[step.t].address)
  }

  /**
    A step changes an operand's data only from none to what is wanted: forwarded from the
    youngest older store to the address if the reorder buffer holds one, else from memory.
    The exception is a store that serves the wrong load.
   */
  lemma DataComesFromTheRightPlace(s: Lsq, s1: Lsq, step: Step, i: int, j: nat)
    requires Inv(s) && Steps(s, s1, step) && Inv(s1) && Stays(s, s1, i) && j < SOURCES
    ensures 0 <= i < |s.rob| && i < |s1.rob| && s1.rob[i].src == s.rob[i].src
    ensures s1.rob[i].loaded[j] == s.rob[i].loaded[j]
            || (s.rob[i].loaded[j] == Pending && s1.rob[i].loaded[j] == Wanted(s, i, s.rob[i].src[j]))
            || (s.rob[i].loaded[j] == Pending && FedWrongly(s, step, i, s.rob[i].src[j], s1.rob[i].loaded[j]))
  {
    hide InOrder, LoadsOk, DestinationsOk, StoresOk, WaitsOk, DependentsOk, SourcesOk, DebtsOk, PathOk, CountsOk, StagesOk, CheckHolds, Reaches;
    match step
    case Dispatched(e) => DispatchPlaces(s, e);
    case LoadAdded(d, m, l) =>
      AddLoadShape(s, d, m, l);
      assert OperandOk(s, d, m);
    case Answered(l) => AnswerIsAwaited(s, l);
    case StoreExecuted(t) =>
      ExecuteStoreShape(s, t);
      if Hit(s, t, i, j) {
        HitWaitsForStore(s, t, i, j);
      }
    case Retired => RetirePlaces(s);
    case _ =>
  }

  /** That happens only when the store visits a foreign operand. */
  lemma FedWronglyOnlyByForeignVisits(s: Lsq, s1: Lsq, step: Step, i: int, j: nat)
    requires Inv(s) && Steps(s, s1, step) && Inv(s1) && Stays(s, s1, i) && j < SOURCES
    requires s.rob[i].loaded[j] == Pending && FedWrongly(s, step, i, s.rob[i].src[j], s1.rob[i].loaded[j])
    ensures CanExecute(s, step.t) && s.sq[step.t].robIndex < |s.rob|
    ensures exists d: nat, m :: Visits(s, step.t, d, m) && Foreign(s, step.t, d, m)
  {
    hide InOrder, LoadsOk, DestinationsOk, StoresOk, WaitsOk, DependentsOk, SourcesOk, DebtsOk, PathOk, CountsOk, StagesOk, CheckHolds, Reaches;
    ExecuteStoreShape(s, step.t);
    assert Hit(s, step.t, i, j);
    MisfeedsIff(s, step.t);
  }

  lemma StepAt(run: seq<Lsq>, steps: seq<Step>, k: nat)
    requires IsRun(run, steps) && k < |run| - 1
    ensures k < |steps| && Inv(run[k]) && Inv(run[k + 1]) && Steps(run[k], run[k + 1], steps[k])
  {
    ReachableInv(run, steps, k);
    ReachableInv(run, steps, k + 1);
  }

  /** Once an operand has its data, the data stays until the instruction retires. */
  lemma {:induction false} DataArrivesOnce(run: seq<Lsq>, steps: seq<Step>, i: int, j: nat, m: nat, n: nat)
    requires IsRun(run, steps) && m <= n < |run| && j < SOURCES
    requires forall k :: m <= k <= n ==> Stays(run[m], run[k], i)
    ensures 0 <= i < |run[m].rob| && i < |run[n].rob| && Formed(run[m].rob[i]) && Formed(run[n].rob[i])
    ensures run[m].rob[i].loaded[j] != Pending ==> run[n].rob[i].loaded[j] == run[m].rob[i].loaded[j]
  {
    hide Inv, Steps, IsRun;
    assert Stays(run[m], run[n], i);
    if m < n {
      DataArrivesOnce(run, steps, i, j, m, n - 1);
      StepAt(run, steps, n - 1);
      DataComesFromTheRightPlace(run[n - 1], run[n], steps[n - 1], i, j);
    }
  }

  ghost predicate HasData(s: Lsq, i: int, j: nat) {
    0 <= i < |s.rob| && j < |s.rob[i].loaded| && s.rob[i].loaded[j] != Pending
  }

  /** An operand that gets its data gets it at exactly one step: the right data, or else it is misfed for good. */
  lemma {:induction false} DataArrives(run: seq<Lsq>, steps: seq<Step>, i: int, j: nat, m: nat, n: nat) returns (k: nat)
    requires IsRun(run, steps) && m <= n < |run| && j < SOURCES
    requires forall x :: m <= x <= n ==> Stays(run[m], run[x], i)
    requires !HasData(run[m], i, j) && HasData(run[n], i, j)
    ensures m <= k < n && run[k].head < |run[k].rob| && 0 <= i < |run[k].rob| && j < |run[k].rob[i].src|
    ensures forall x :: m <= x <= n ==> (HasData(run[x], i, j) <==> x > k)
    ensures Stays(run[m], run[n], i)
    ensures run[n].rob[i].loaded[j] == Wanted(run[k], i, run[k].rob[i].src[j]) || Misfed(run[n], i, j)
  {
    hide Inv, Steps, IsRun;
    assert Stays(run[m], run[n], i) && Stays(run[m], run[n - 1], i);
    StepAt(run, steps, n - 1);
    DataComesFromTheRightPlace(run[n - 1], run[n], steps[n - 1], i, j);
    if HasData(run[n - 1], i, j) {
      k := DataArrives(run, steps, i, j, m, n - 1);
    } else {
      k := n - 1;
      forall x | m <= x < n ensures !HasData(run[x], i, j) {
        DataArrivesOnce(run, steps, i, j, x, n - 1);
      }
    }
  }

  // ---- What retires ----

  /** An instruction retires with the data of every load, none of another address, and after all its stores. */
  lemma RetiresComplete(s: Lsq, j: nat)
    requires Inv(s) && CanRetire(s)
    ensures j < SOURCES && s.rob[s.head].src[j] != 0 ==> s.rob[s.head].loaded[j] != Pending
    ensures !Misfed(s, s.head, j)
    ensures j < DESTS && s.rob[s.head].dst[j] != 0 ==> s.rob[s.head].stored[j]
  {
    RetiresDone(s);
    assert j !in OpenLoads(s.rob[s.head]) && j !in OpenStores(s.rob[s.head]);
    if j < SOURCES {
      var y := Youngest(s, s.head, s.rob[s.head].src[j]);
      assert IsYoungest(s, s.head, s.rob[s.head].src[j], y);
    }
  }

  /** So what retires got each of its operands from the right place. */
  lemma RetiresWithTheRightData(run: seq<Lsq>, steps: seq<Step>, i: int, j: nat, m: nat, n: nat) returns (k: nat)
    requires IsRun(run, steps) && m <= n < |run| && j < SOURCES
    requires forall x :: m <= x <= n ==> Stays(run[m], run[x], i)
    requires !HasData(run[m], i, j) && Shape(run[n]) && CanRetire(run[n]) && run[n].head == i && run[n].rob[i].src[j] != 0
    ensures m <= k < n && run[k].head < |run[k].rob| && 0 <= i < |run[k].rob| && j < |run[k].rob[i].src|
    ensures run[n].rob[i].loaded[j] == Wanted(run[k], i, run[k].rob[i].src[j])
  {
    hide Inv, IsRun;
    assert Stays(run[m], run[n], i);
    ReachableInv(run, steps, n);
    RetiresComplete(run[n], j);
    k := DataArrives(run, steps, i, j, m, n);
  }

  lemma OwesAfterStore(s: Lsq, t: nat, p: nat)
    requires Inv(s) && CanExecute(s, t) && s.sq[t].robIndex < |s.rob| && CheckHolds(s, t) && Owes(s, p)
    ensures s.sq[t].slot < DESTS && Shape(ExecuteStore(s, t)) && SameProgram(s, ExecuteStore(s, t)) && Owes(ExecuteStore(s, t), p)
  {
    hide InOrder, LoadsOk, DestinationsOk, StoresOk, WaitsOk, DependentsOk, SourcesOk, DebtsOk, PathOk, CountsOk, StagesOk, OperandsOk;
    hide CheckHolds, Reaches, Owes;
    ExecuteStoreShape(s, t);
    StillOwes(s, ExecuteStore(s, t), t, p);
  }

  /** Steps that dispatch, retire and execute nothing keep all claims. */
  lemma ClaimsStay(s: Lsq, s1: Lsq, step: Step)
    requires Inv(s) && Steps(s, s1, step) && Shape(s1) && !step.Dispatched? && !step.StoreExecuted? && !step.Retired?
    ensures SameProgram(s, s1) && KeepsClaims(s, s1)
  {
    hide InOrder, LoadsOk, DestinationsOk, StoresOk, WaitsOk, DependentsOk, SourcesOk, DebtsOk, PathOk, CountsOk, StagesOk, OperandsOk;
    match step
    case LoadAdded(i, j, l) => AddLoadShape(s, i, j, l);
    case _ =>
  }

  /** Who owes a store goes on owing it. */
  lemma OwesOn(s: Lsq, s1: Lsq, step: Step, p: nat)
    requires Inv(s) && Steps(s, s1, step) && Inv(s1) && Owes(s, p)
    ensures Owes(s1, p) && Stays(s, s1, p)
  {
    hide InOrder, LoadsOk, DestinationsOk, StoresOk, WaitsOk, DependentsOk, SourcesOk, DebtsOk, PathOk, CountsOk, StagesOk, OperandsOk;
    hide CheckHolds, Reaches;
    LiveOwer(s, p);
    hide Owes, KeepsClaims;
    match step
    case Dispatched(e) =>
      DispatchPlaces(s, e);
      DispatchOwing(s, e, p);
    case StoreExecuted(t) => OwesAfterStore(s, t, p);
    case Retired =>
      RetirePlaces(s);
      RetireOwing(s, p);
    case _ =>
      ClaimsStay(s, s1, step);
      KeepsOwing(s, s1, p);
  }

  lemma {:induction false} OwesForever(run: seq<Lsq>, steps: seq<Step>, p: nat, m: nat, n: nat)
    requires IsRun(run, steps) && m <= n < |run| && Shape(run[m]) && Owes(run[m], p)
    ensures Shape(run[n]) && Owes(run[n], p) && Stays(run[m], run[n], p)
  {
    hide Inv, Steps, IsRun;
    if m < n {
      OwesForever(run, steps, p, m, n - 1);
      StepAt(run, steps, n - 1);
      assert Shape(run[n]) by { ShapeOf(run[n]); }
      OwesOn(run[n - 1], run[n], steps[n - 1], p);
    } else {
      LiveOwer(run[m], p);
    }
  }

  lemma ShapeOf(s: Lsq)
    requires Inv(s)
    ensures Shape(s)
  {
  }

  lemma LiveOwer(s: Lsq, p: nat)
    requires Shape(s) && Owes(s, p)
    ensures Stays(s, s, p)
  {
  }

  /** An instruction whose store served a wrong load never retires: its other store runs into the assertion. */
  lemma WhoMisfeedsNeverRetires(run: seq<Lsq>, steps: seq<Step>, k: nat, n: nat)
    requires IsRun(run, steps) && k < n < |run| == |steps| + 1 && steps[k].StoreExecuted?
    requires Shape(run[k]) && steps[k].t < |run[k].sq| && run[k].sq[steps[k].t].robIndex < |run[k].rob|
    requires Misfeeds(run[k], steps[k].t)
    ensures Stays(run[k], run[n], run[k].sq[steps[k].t].robIndex)
  {
    hide Inv, IsRun, Steps, Misfeeds, Owes;
    StepAt(run, steps, k);
    MisfeedingStep(run[k], run[k + 1], steps[k]);
    OwesForever(run, steps, run[k].sq[steps[k].t].robIndex, k + 1, n);
  }

  lemma MisfeedingStep(s: Lsq, s1: Lsq, step: Step)
    requires Inv(s) && Steps(s, s1, step) && step.StoreExecuted?
    requires Shape(s) && step.t < |s.sq| && s.sq[step.t].robIndex < |s.rob| && Misfeeds(s, step.t)
    ensures Shape(s1) && Owes(s1, s.sq[step.t].robIndex) && Stays(s, s1, s.sq[step.t].robIndex)
  {
    MisfeederOwes(s, step.t);
  }

  lemma MisfeederOwes(s: Lsq, t: nat)
    requires Inv(s) && CanExecute(s, t) && s.sq[t].robIndex < |s.rob| && CheckHolds(s, t) && Misfeeds(s, t)
    ensures s.sq[t].slot < DESTS && Shape(ExecuteStore(s, t)) && Owes(ExecuteStore(s, t), s.sq[t].robIndex)
    ensures Stays(s, ExecuteStore(s, t), s.sq[t].robIndex)
  {
    hide LoadsOk, DependentsOk, SourcesOk, DebtsOk, CountsOk, StagesOk, PathOk, CheckHolds;
    ExecuteStoreShape(s, t);
    var s1 := ExecuteStore(s, t);
    var d: nat, j :| Hit(s, t, d, j) && s.rob[d].src[j] != s.sq[t].address;
    HitWaitsForStore(s, t, d, j);
    StaysOpen(s, s1, t, s.sq[t].robIndex, s.rob[d].src[j]);
    assert Early(s1, s.sq[t].robIndex, d, j);
  }

  /** The last store of an instruction that owes one cannot pass the assertions. */
  lemma LastStoreFails(s: Lsq, t: nat)
    requires Inv(s) && CanExecute(s, t) && s.sq[t].robIndex < |s.rob| && Owes(s, s.sq[t].robIndex)
    requires OpenStores(s.rob[s.sq[t].robIndex]) == {s.sq[t].slot}
    ensures !CheckHolds(s, t)
  {
    var p := s.sq[t].robIndex;
    if CheckHolds(s, t) {
      OwesAfterStore(s, t, p);
      ExecuteStoreInv(s, t);
      var s1 := ExecuteStore(s, t);
      assert OpenStores(s1.rob[p]) == {};
      NothingOpenNothingOwed(s1, p);
    }
  }

  // ---- Instructions with a single store ----

  ghost predicate IsFreeRun(run: seq<Lsq>, steps: seq<Step>) {
    && |run| == |steps| + 1
    && (exists r: nat, l: nat, q: nat :: r > 0 && run[0] == Initial(r, l, q))
    && forall k :: 0 <= k < |steps| ==> FreeSteps(run[k], run[k + 1], steps[k])
  }

  ghost predicate OnlySingleStores(steps: seq<Step>) {
    forall k :: 0 <= k < |steps| && steps[k].Dispatched? ==> SingleStore(steps[k].e)
  }

  lemma SingleStoreStep(s: Lsq, s1: Lsq, step: Step)
    requires Inv(s) && SingleStores(s) && FreeSteps(s, s1, step) && (step.Dispatched? ==> SingleStore(step.e))
    ensures Steps(s, s1, step) && SingleStores(s1)
  {
    hide InOrder, LoadsOk, DestinationsOk, StoresOk, WaitsOk, DependentsOk, SourcesOk, DebtsOk, PathOk, CountsOk, StagesOk, OperandsOk;
    hide CheckHolds, Reaches;
    match step
    case Dispatched(e) => DispatchPlaces(s, e);
    case LoadAdded(i, j, l) => AddLoadShape(s, i, j, l);
    case StoreExecuted(t) =>
      SingleStoresPass(s, t);
      ExecuteStoreShape(s, t);
    case Retired => RetirePlaces(s);
    case _ =>
  }

  /** Programs whose instructions store at most once never run into the assertions, and feed nobody wrongly. */
  lemma {:induction false} SingleStoresNeverStop(run: seq<Lsq>, steps: seq<Step>, k: nat)
    requires IsFreeRun(run, steps) && OnlySingleStores(steps) && k < |run|
    ensures Inv(run[k]) && SingleStores(run[k]) && forall i, j :: !Misfed(run[k], i, j)
    ensures k < |steps| ==> Steps(run[k], run[k + 1], steps[k])
  {
    if k == 0 {
      var r: nat, l: nat, q: nat :| r > 0 && run[0] == Initial(r, l, q);
      InitialInv(r, l, q);
    } else {
      SingleStoresNeverStop(run, steps, k - 1);
      hide Inv, SingleStores;
      SingleStoreStep(run[k - 1], run[k], steps[k - 1]);
      StepsInv(run[k - 1], run[k], steps[k - 1]);
    }
    hide Inv, SingleStores, FreeSteps, Steps;
    ShapeOf(run[k]);
    forall i, j ensures !Misfed(run[k], i, j) {
      SingleStoresMisfeedNobody(run[k], i, j);
    }
    if k < |steps| {
      SingleStoreStep(run[k], run[k + 1], steps[k]);
    }
  }

  /** For such programs all that is said of runs holds without any assertion to stop them. */
  lemma SingleStoreRunsAreRuns(run: seq<Lsq>, steps: seq<Step>)
    requires IsFreeRun(run, steps) && OnlySingleStores(steps)
    ensures IsRun(run, steps)
  {
    forall k | 0 <= k < |steps| ensures Steps(run[k], run[k + 1], steps[k]) {
      SingleStoresNeverStop(run, steps, k);
    }
  }

  // ---- Progress ----

  /** While the oldest instruction lacks data it has asked for, a load or a store can move. */
  lemma OldestMoves(s: Lsq)
    requires Inv(s) && s.occupancy > 0 && AllAdded(s.rob[s.head]) && s.rob[s.head].memOps != 0
    ensures s.rtl0 != [] || s.translating != {} || s.rtl1 != [] || s.fetching != {} || exists t :: CanExecute(s, t)
  {
    var e := s.rob[s.head];
    assert Live(s, s.head) && CountOk(e);
    if j :| j in OpenLoads(e) {
      assert OperandOk(s, s.head, j);
      var y := Youngest(s, s.head, e.src[j]);
      assert IsYoungest(s, s.head, e.src[j], y);
      assert OnPath(s, e.lqIndex[j]);
    } else {
      var k :| k in OpenStores(e);
      assert DestinationOk(s, s.head, k);
      assert CanExecute(s, e.sqIndex[k].value);
    }
  }
}
