/**
  What every step of the load and store queues keeps: where each operand's data comes from,
  what each queue entry stands for, and what each counter counts.
 */
module ForwardingSafety {
  import opened Options
  import opened RingOrder
  import opened Counting
  import opened Forwarding

  // ---- The invariant ----

  ghost predicate Formed(e: Instr) {
    && |e.src| == |e.srcAdded| == |e.lqIndex| == |e.loaded| == SOURCES
    && |e.dst| == |e.sqIndex| == |e.stored| == DESTS
  }

  ghost predicate Shape(s: Lsq) {
    && s.head < |s.rob| && s.occupancy <= |s.rob|
    && forall i :: 0 <= i < |s.rob| ==> Formed(s.rob[i])
  }

  /** Program order is the order of ids, and free entries are empty. */
  ghost predicate InOrder(s: Lsq) {
    && (forall p, i :: Live(s, p) && Live(s, i) && Older(s, p, i) ==> s.rob[p].id < s.rob[i].id)
    && (forall i :: 0 <= i < |s.rob| && !Live(s, i) ==> s.rob[i] == EMPTY)
  }

  /** Source slot `j` of entry `i` is in the load queue and has no data yet. */
  ghost predicate Waiting(s: Lsq, i: int, j: int)
    requires Shape(s)
  {
    Live(s, i) && 0 <= j < SOURCES && s.rob[i].srcAdded[j] && s.rob[i].loaded[j] == Pending
  }

  ghost predicate OperandOk(s: Lsq, i: int, j: int)
    requires Shape(s) && Live(s, i) && 0 <= j < SOURCES
  {
    var e := s.rob[i];
    && (!e.srcAdded[j] ==> e.loaded[j] == Pending)
    && (e.src[j] == 0 ==> !e.srcAdded[j])
    && (Waiting(s, i, j) ==>
          e.lqIndex[j] < |s.lq| && s.lq[e.lqIndex[j]] == Load(e.src[j], e.id, i, j, ProducerId(s, i, e.src[j])))
  }

  /** Every open operand has its own load queue entry, naming the youngest older store. */
  ghost predicate OperandsOk(s: Lsq)
    requires Shape(s)
  {
    forall i, j :: Live(s, i) && 0 <= j < SOURCES ==> OperandOk(s, i, j)
  }

  /** Every load queue entry in use stands for an open operand; the others are empty. */
  ghost predicate LoadsOk(s: Lsq)
    requires Shape(s)
  {
    forall l :: 0 <= l < |s.lq| ==>
      if s.lq[l].address == 0 then s.lq[l] == NO_LOAD
      else Waiting(s, s.lq[l].robIndex, s.lq[l].slot) && s.rob[s.lq[l].robIndex].lqIndex[s.lq[l].slot] == l
  }

  ghost predicate DestinationOk(s: Lsq, i: int, k: int)
    requires Shape(s) && Live(s, i) && 0 <= k < DESTS
  {
    var e := s.rob[i];
    && (e.dst[k] == 0 ==> e.sqIndex[k] == None)
    && match e.sqIndex[k]
       case None => !e.stored[k]
       case Some(t) => t < |s.sq| && s.sq[t] == Store(e.dst[k], e.id, i, k, e.stored[k])
  }

  ghost predicate DestinationsOk(s: Lsq)
    requires Shape(s)
  {
    forall i, k :: Live(s, i) && 0 <= k < DESTS ==> DestinationOk(s, i, k)
  }

  ghost predicate StoresOk(s: Lsq)
    requires Shape(s)
  {
    forall t :: 0 <= t < |s.sq| && s.sq[t].address != 0 ==>
      Live(s, s.sq[t].robIndex) && s.sq[t].slot < DESTS && s.rob[s.sq[t].robIndex].sqIndex[s.sq[t].slot] == Some(t)
  }

  /** Some store of `e` to address `a` has (`done`), or has not, executed. */
  ghost predicate HasStore(e: Instr, a: nat, done: bool) {
    exists k :: 0 <= k < |e.dst| && k < |e.stored| && e.dst[k] == a && e.stored[k] == done
  }

  /** Who waits for a store is in its dependents, and the store has not executed. */
  ghost predicate WaitsOk(s: Lsq)
    requires Shape(s)
  {
    forall i, j, p :: Waiting(s, i, j) && Youngest(s, i, s.rob[i].src[j]) == Some(p) ==>
      i in s.rob[p].dependents && HasStore(s.rob[p], s.rob[i].src[j], false)
  }

  /** Source slot `j` of entry `d` was linked to entry `p`. */
  ghost predicate Needs(s: Lsq, p: nat, d: int, j: int)
    requires Shape(s)
  {
    Live(s, d) && 0 <= j < SOURCES && s.rob[d].srcAdded[j] && Youngest(s, d, s.rob[d].src[j]) == Some(p)
  }

  ghost predicate DependentsOk(s: Lsq)
    requires Shape(s)
  {
    forall p: nat, d :: Live(s, p) && d in s.rob[p].dependents ==> exists j :: Needs(s, p, d, j)
  }

  /**
    Data came from an executed store of the youngest older instruction that stores to the
    address, or from memory if there was none.
   */
  ghost predicate SourceOk(s: Lsq, i: int, j: int)
    requires Shape(s) && Live(s, i) && 0 <= j < SOURCES
  {
    var a := s.rob[i].src[j];
    match s.rob[i].loaded[j]
    case Pending => true
    case FromMemory => Youngest(s, i, a) == None
    case FromStore(id, x) =>
      match Youngest(s, i, a)
      case Some(p) => id == s.rob[p].id && HasStore(s.rob[p], x, true)
      case None => forall q :: Live(s, q) ==> id < s.rob[q].id
  }

  ghost predicate SourcesOk(s: Lsq)
    requires Shape(s)
  {
    forall i, j :: Live(s, i) && 0 <= j < SOURCES ==> SourceOk(s, i, j)
  }

  /** The operand got the data of another address. */
  ghost predicate Misfed(s: Lsq, i: int, j: int)
    requires Shape(s)
  {
    Live(s, i) && 0 <= j < SOURCES && s.rob[i].loaded[j].FromStore? && s.rob[i].loaded[j].address != s.rob[i].src[j]
  }

  /** A dependent has data although `p` has yet to store to its address. */
  ghost predicate Early(s: Lsq, p: nat, d: nat, j: int)
    requires Shape(s)
  {
    && Live(s, p) && Live(s, d) && d in s.rob[p].dependents && 0 <= j < SOURCES
    && s.rob[d].srcAdded[j] && s.rob[d].loaded[j] != Pending && HasStore(s.rob[p], s.rob[d].src[j], false)
  }

  ghost predicate Owes(s: Lsq, p: nat)
    requires Shape(s)
  {
    exists d: nat, j :: Early(s, p, d, j)
  }

  /** Who fed an operand the data of another address still has to store to the address of a dependent that has data. */
  ghost predicate DebtsOk(s: Lsq)
    requires Shape(s)
  {
    forall i, j :: Misfed(s, i, j) ==>
      Youngest(s, i, s.rob[i].src[j]).Some? && Owes(s, Youngest(s, i, s.rob[i].src[j]).value)
  }

  ghost predicate OnPath(s: Lsq, l: nat) {
    l in s.rtl0 || l in s.translating || l in s.rtl1 || l in s.fetching
  }

  /** Exactly the loads without a producer go to memory, each at one stage of the way. */
  ghost predicate PathOk(s: Lsq) {
    && Distinct(s.rtl0) && Distinct(s.rtl1)
    && (forall l :: l in s.rtl0 ==> l !in s.translating && l !in s.rtl1 && l !in s.fetching)
    && (forall l :: l in s.translating ==> l !in s.rtl1 && l !in s.fetching)
    && (forall l :: l in s.rtl1 ==> l !in s.fetching)
    && (forall l: nat :: OnPath(s, l) <==> l < |s.lq| && s.lq[l].address != 0 && s.lq[l].producer == None)
  }

  ghost predicate CountOk(e: Instr) { e.memOps == |OpenLoads(e)| + |OpenStores(e)| }

  /** num_mem_ops is the number of operands without data. */
  ghost predicate CountsOk(s: Lsq) { forall i :: Live(s, i) ==> CountOk(s.rob[i]) }

  ghost predicate StageOk(e: Instr) {
    && (e.executed != NotYet ==> AllAdded(e))
    && (e.executed == Completed ==> e.memOps == 0)
  }

  ghost predicate StagesOk(s: Lsq) { forall i :: Live(s, i) ==> StageOk(s.rob[i]) }

  ghost predicate Inv(s: Lsq) {
    && Shape(s) && InOrder(s) && OperandsOk(s) && LoadsOk(s) && DestinationsOk(s) && StoresOk(s)
    && WaitsOk(s) && DependentsOk(s) && SourcesOk(s) && DebtsOk(s) && PathOk(s) && CountsOk(s) && StagesOk(s)
  }

  // ---- The youngest older store while the program changes ----

  /** The same instructions in the same places. */
  ghost predicate SameProgram(s: Lsq, s1: Lsq) {
    && |s.rob| == |s1.rob| && s.head == s1.head && s.occupancy == s1.occupancy
    && forall i :: 0 <= i < |s.rob| ==>
         s.rob[i].id == s1.rob[i].id && s.rob[i].src == s1.rob[i].src && s.rob[i].dst == s1.rob[i].dst
  }

  lemma SameYoungest(s: Lsq, s1: Lsq)
    requires Shape(s) && SameProgram(s, s1)
    ensures forall i, a :: Youngest(s1, i, a) == Youngest(s, i, a)
  {
    forall i, a ensures Youngest(s1, i, a) == Youngest(s, i, a) {
      var r := Youngest(s, i, a);
      assert IsYoungest(s1, i, a, r);
      YoungestIsUnique(s1, i, a, r);
    }
  }

  lemma DispatchYoungest(s: Lsq, e: Instr)
    requires Shape(s) && s.occupancy < |s.rob|
    ensures forall i, a :: Live(s, i) ==> Youngest(Dispatch(s, e), i, a) == Youngest(s, i, a)
  {
    var s1 := Dispatch(s, e);
    forall i, a | Live(s, i) ensures Youngest(s1, i, a) == Youngest(s, i, a) {
      var r := Youngest(s, i, a);
      assert IsYoungest(s1, i, a, r);
      YoungestIsUnique(s1, i, a, r);
    }
  }

  /** The oldest instruction leaves; nobody else's youngest older store changes. */
  lemma RetireYoungest(s: Lsq, i: int, a: nat)
    requires Shape(s) && s.occupancy > 0 && Live(Retire(s), i)
    ensures Youngest(Retire(s), i, a) == if Youngest(s, i, a) == Some(s.head) then None else Youngest(s, i, a)
  {
    var s1 := Retire(s);
    var r := if Youngest(s, i, a) == Some(s.head) then None else Youngest(s, i, a);
    RetirePlaces(s);
    assert IsYoungest(s1, i, a, r);
    YoungestIsUnique(s1, i, a, r);
  }

  lemma RetirePlaces(s: Lsq)
    requires Shape(s) && s.occupancy > 0
    ensures var s1 := Retire(s);
            && |s1.rob| == |s.rob|
            && (forall i :: Live(s1, i) <==> Live(s, i) && i != s.head)
            && (forall i :: Live(s1, i) ==> s1.rob[i] == s.rob[i])
            && (forall p, i :: Live(s1, p) && Live(s1, i) ==> (Older(s1, p, i) <==> Older(s, p, i)))
            && (forall i :: Live(s1, i) ==> Older(s, s.head, i))
  {
  }
}
