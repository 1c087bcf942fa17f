/** When an instruction with memory operands starts and completes. */
module ForwardingStages {
  import opened Options
  import opened RingOrder
  import opened Forwarding
  import opened ForwardingSafety
  import opened ForwardingSteps
  import opened ForwardingStores
  import opened ForwardingRuns

  /** Every operand has an entry in the load or the store queue, or had one. */
  ghost predicate InQueues(e: Instr) {
    && Formed(e)
    && (forall j :: 0 <= j < SOURCES && e.src[j] != 0 ==> e.srcAdded[j])
    && (forall k :: 0 <= k < DESTS && e.dst[k] != 0 ==> e.sqIndex[k].Some?)
  }

  /** Every source operand has its data, and every destination operand has been stored. */
  ghost predicate AllDone(e: Instr) {
    && Formed(e)
    && (forall j :: 0 <= j < SOURCES && e.src[j] != 0 ==> e.loaded[j] != Pending)
    && (forall k :: 0 <= k < DESTS && e.dst[k] != 0 ==> e.stored[k])
  }

  lemma NothingOpenIff(e: Instr)
    requires Formed(e) && CountOk(e)
    ensures e.memOps == 0 <==> AllDone(e)
  {
    if AllDone(e) {
      assert OpenLoads(e) == {} && OpenStores(e) == {};
    } else if j :| 0 <= j < SOURCES && e.src[j] != 0 && e.loaded[j] == Pending {
      assert j in OpenLoads(e);
    } else {
      var k :| 0 <= k < DESTS && e.dst[k] != 0 && !e.stored[k];
      assert k in OpenStores(e);
    }
  }

  /** An instruction is in flight exactly from the step that issues it, and then all its operands are in the queues. */
  lemma IssuedIff(s: Lsq, s1: Lsq, step: Step, i: nat)
    requires Inv(s) && Steps(s, s1, step) && Stays(s, s1, i) && s.rob[i].executed == NotYet
    ensures s1.rob[i].executed != NotYet <==> step == Issued(i)
    ensures step == Issued(i) ==> s1.rob[i] == s.rob[i].(executed := Inflight) && InQueues(s1.rob[i])
  {
    hide OperandsOk, LoadsOk, DestinationsOk, StoresOk, WaitsOk, DependentsOk, SourcesOk, DebtsOk, PathOk, InOrder, CheckHolds, Reaches, Youngest;
    StepStages(s, s1, step, i);
  }

  /**
    It completes exactly in a step that checks it while it is in flight, every source operand
    has its data and every destination operand has been stored.
   */
  lemma FinishesIff(s: Lsq, s1: Lsq, step: Step, i: nat)
    requires Inv(s) && Steps(s, s1, step) && Stays(s, s1, i) && s.rob[i].executed != Completed
    ensures s1.rob[i].executed == Completed <==> step == Finished(i) && s.rob[i].executed == Inflight && AllDone(s.rob[i])
  {
    hide OperandsOk, LoadsOk, DestinationsOk, StoresOk, WaitsOk, DependentsOk, SourcesOk, DebtsOk, PathOk, InOrder, CheckHolds, Reaches, Youngest, AllDone;
    NothingOpenIff(s.rob[i]);
    StepStages(s, s1, step, i);
  }

  lemma AddedStages(s: Lsq, i: nat, j: nat, l: nat)
    requires Shape(s) && CanAdd(s, i, j, l)
    ensures var s1 := AddLoad(s, i, j, l);
            |s1.rob| == |s.rob| && forall k :: 0 <= k < |s.rob| ==> s1.rob[k].executed == s.rob[k].executed
  {
    AddLoadShape(s, i, j, l);
    hide IsYoungest, Ready, Live;
  }

  lemma StepStages(s: Lsq, s1: Lsq, step: Step, i: nat)
    requires Shape(s) && InOrder(s) && Steps(s, s1, step) && Stays(s, s1, i)
    ensures s1.rob[i].executed == match step
                                  case Issued(k) => if k == i && s.rob[i].executed == NotYet then Inflight else s.rob[i].executed
                                  case Finished(k) => if k == i then Complete(s, i).rob[i].executed else s.rob[i].executed
                                  case _ => s.rob[i].executed
  {
    hide CheckHolds, Reaches, Youngest, AllAdded, IsYoungest, CanExecute, CanRetire;
    match step {
      case LoadAdded(k, j, l) => AddedStages(s, k, j, l);
      case _ =>
    }
  }

  /**
    Loads leave RTL0 and RTL1 at the front, and enter at the end: RTL0 when no store has their
    data, RTL1 when they have been translated.
   */
  lemma LoadsKeepOrder(s: Lsq, s1: Lsq, step: Step)
    requires Inv(s) && Steps(s, s1, step)
    ensures s1.rtl0 == if step.LoadSent? then s.rtl0[1..]
                       else if step.LoadAdded? && Youngest(s, step.i, s.rob[step.i].src[step.j]) == None then s.rtl0 + [step.l] else s.rtl0
    ensures s1.rtl1 == if step.Fetched? then s.rtl1[1..] else if step.Translated? then s.rtl1 + [step.l] else s.rtl1
    ensures s1.translating == if step.LoadSent? then s.translating + {s.rtl0[0]}
                              else if step.Translated? then s.translating - {step.l} else s.translating
    ensures s1.fetching == if step.Fetched? then s.fetching + {s.rtl1[0]}
                           else if step.Answered? then s.fetching - {step.l} else s.fetching
  {
    hide OperandsOk, LoadsOk, DestinationsOk, StoresOk, WaitsOk, DependentsOk, SourcesOk, DebtsOk, PathOk, InOrder, CheckHolds, Reaches, Live;
  }
}
