/**
  Loads and store-to-load forwarding in the out-of-order core (ooo_cpu.cc) as a value: the
  memory operands of the reorder buffer, the load queue, the store queue and the requests
  the caches have accepted. The caches themselves answer each accepted request once, in any
  order. `Registers` and everything the scoreboard decides are not part of this state.
 */
module Forwarding {
  import opened Options
  import opened RingOrder

  /** NUM_INSTR_SOURCES and NUM_INSTR_DESTINATIONS */
  const SOURCES: nat := 4
  const DESTS: nat := 2

  datatype Stage = NotYet | Inflight | Completed

  /**
    How a load operand got its data: from the store of an instruction to an address, or from
    memory. The simulator keeps only the count of open operands.
   */
  datatype How = Pending | FromStore(id: nat, address: nat) | FromMemory

  /**
    The memory side of a reorder buffer entry; address 0 is no operand. `srcAdded` and
    `lqIndex` are source_added and lq_index, `sqIndex` is sq_index, `dependents` is
    memory_instrs_depend_on_me and `memOps` is num_mem_ops. `loaded` and `stored` are history.
   */
  datatype Instr = Instr(id: nat, src: seq<nat>, dst: seq<nat>, srcAdded: seq<bool>, lqIndex: seq<nat>,
                         loaded: seq<How>, sqIndex: seq<Option<nat>>, stored: seq<bool>,
                         memOps: int, dependents: set<nat>, executed: Stage)

  const EMPTY := Instr(0, [0, 0, 0, 0], [0, 0], [false, false, false, false], [0, 0, 0, 0],
                       [Pending, Pending, Pending, Pending], [None, None], [false, false], 0, {}, NotYet)

  /** Address 0 marks a free entry; no producer means the load goes to memory. */
  datatype Load = Load(address: nat, id: nat, robIndex: nat, slot: nat, producer: Option<nat>)

  const NO_LOAD := Load(0, 0, 0, 0, None)

  datatype Store = Store(address: nat, id: nat, robIndex: nat, slot: nat, done: bool)

  const NO_STORE := Store(0, 0, 0, 0, false)

  /** `rtl0` and `rtl1` hold load queue indices; the two sets are accepted cache requests. */
  datatype Lsq = Lsq(rob: seq<Instr>, head: nat, occupancy: nat, lq: seq<Load>, sq: seq<Store>,
                     rtl0: seq<nat>, translating: set<nat>, rtl1: seq<nat>, fetching: set<nat>)

  ghost predicate Live(s: Lsq, i: int) { 0 <= i < |s.rob| && Pos(i, s.head, |s.rob|) < s.occupancy }

  ghost predicate Older(s: Lsq, p: int, i: int) { Pos(p, s.head, |s.rob|) < Pos(i, s.head, |s.rob|) }

  /** `p` is the youngest instruction older than `i` that stores to address `a`. */
  ghost predicate Feeds(s: Lsq, p: int, i: int, a: nat) {
    && Live(s, p) && Older(s, p, i) && a in s.rob[p].dst
    && forall q :: Live(s, q) && Older(s, p, q) && Older(s, q, i) ==> a !in s.rob[q].dst
  }

  ghost predicate IsYoungest(s: Lsq, i: int, a: nat, r: Option<nat>) {
    match r
    case Some(p) => Feeds(s, p, i, a)
    case None => forall p :: Live(s, p) && Older(s, p, i) ==> a !in s.rob[p].dst
  }

  /** The youngest older store to address `a`, if the reorder buffer holds one. */
  ghost function Youngest(s: Lsq, i: int, a: nat): (r: Option<nat>)
    requires s.head < |s.rob|
    ensures IsYoungest(s, i, a, r)
  {
    YoungestExists(s, i, a);
    var r :| IsYoungest(s, i, a, r);
    r
  }

  lemma YoungestExists(s: Lsq, i: int, a: nat)
    requires s.head < |s.rob|
    ensures exists r :: IsYoungest(s, i, a, r)
  {
    var r := YoungestFrom(s, i, a, 0);
    assert IsYoungest(s, i, a, r);
  }

  /** The youngest store among the places `k` and up, if there is one. */
  lemma {:induction false} YoungestFrom(s: Lsq, i: int, a: nat, k: nat) returns (r: Option<nat>)
    requires s.head < |s.rob| && k <= |s.rob|
    ensures r.Some? ==> Feeds(s, r.value, i, a)
    ensures r.None? ==> forall p :: Live(s, p) && k <= Pos(p, s.head, |s.rob|) && Older(s, p, i) ==> a !in s.rob[p].dst
    decreases |s.rob| - k
  {
    if k == |s.rob| {
      r := None;
    } else {
      r := YoungestFrom(s, i, a, k + 1);
      var p := At(k, s.head, |s.rob|);
      assert forall q :: Live(s, q) && Pos(q, s.head, |s.rob|) == k ==> q == p;
      if r == None && Live(s, p) && Older(s, p, i) && a in s.rob[p].dst {
        r := Some(p);
      }
    }
  }

  lemma YoungestIsUnique(s: Lsq, i: int, a: nat, r: Option<nat>)
    requires s.head < |s.rob| && IsYoungest(s, i, a, r)
    ensures r == Youngest(s, i, a)
  {
    var y := Youngest(s, i, a);
    if r.Some? && y.Some? {
      assert Pos(r.value, s.head, |s.rob|) == Pos(y.value, s.head, |s.rob|);
    }
  }

  ghost function ProducerId(s: Lsq, i: int, a: nat): Option<nat>
    requires s.head < |s.rob|
  {
    match Youngest(s, i, a)
    case Some(p) => Some(s.rob[p].id)
    case None => None
  }

  // ---- The steps ----

  /** A new instruction: nothing added, every operand open. */
  ghost predicate Fresh(e: Instr) {
    && |e.src| == SOURCES && |e.dst| == DESTS
    && e.srcAdded == EMPTY.srcAdded && e.lqIndex == EMPTY.lqIndex && e.loaded == EMPTY.loaded
    && e.sqIndex == EMPTY.sqIndex && e.stored == EMPTY.stored
    && e.memOps == |OpenLoads(e)| + |OpenStores(e)| && e.dependents == {} && e.executed == NotYet
  }

  function OpenLoads(e: Instr): set<nat>
  {
    set j | 0 <= j < |e.src| && j < |e.loaded| && e.src[j] != 0 && e.loaded[j] == Pending
  }

  function OpenStores(e: Instr): set<nat>
  {
    set k | 0 <= k < |e.dst| && k < |e.stored| && e.dst[k] != 0 && !e.stored[k]
  }

  function Dispatch(s: Lsq, e: Instr): Lsq
    requires s.head < |s.rob| && s.occupancy < |s.rob|
  {
    s.(rob := s.rob[At(s.occupancy, s.head, |s.rob|) := e], occupancy := s.occupancy + 1)
  }

  /** The store queue slot that forwards: the first one with the address and the producer's id. */
  ghost predicate Forwards(sq: seq<Store>, t: nat, a: nat, id: nat) {
    && t < |sq| && sq[t].address == a && sq[t].id == id
    && forall u :: 0 <= u < t ==> sq[u].address != a || sq[u].id != id
  }

  /** That store has executed already. */
  ghost predicate Ready(sq: seq<Store>, a: nat, id: nat) {
    exists t: nat :: Forwards(sq, t, a, id) && sq[t].done
  }

  /** One more source operand is in the load queue. */
  function WithLoad(e: Instr, j: nat, l: nat): Instr
    requires j < |e.srcAdded| && j < |e.lqIndex|
  {
    e.(srcAdded := e.srcAdded[j := true], lqIndex := e.lqIndex[j := l])
  }

  /** A source operand has its data. */
  function WithData(e: Instr, j: nat, how: How): Instr
    requires j < |e.loaded|
  {
    e.(loaded := e.loaded[j := how], memOps := e.memOps - 1)
  }

  function WithDependent(e: Instr, i: nat): Instr { e.(dependents := e.dependents + {i}) }

  /**
    add_load_queue: source slot `j` of entry `i` goes to the free load queue slot `l`. It
    waits for the youngest older store to its address, is served at once if that store has
    executed already, and goes to memory if there is none.
   */
  ghost function AddLoad(s: Lsq, i: nat, j: nat, l: nat): Lsq
    requires s.head < |s.rob| && i < |s.rob| && l < |s.lq|
    requires j < |s.rob[i].src| && j < |s.rob[i].srcAdded| && j < |s.rob[i].lqIndex| && j < |s.rob[i].loaded|
  {
    var a := s.rob[i].src[j];
    match Youngest(s, i, a)
    case None =>
      s.(rob := s.rob[i := WithLoad(s.rob[i], j, l)],
         lq := s.lq[l := Load(a, s.rob[i].id, i, j, None)], rtl0 := s.rtl0 + [l])
    case Some(p) =>
      var rob1 := s.rob[p := WithDependent(s.rob[p], i)];
      if Ready(s.sq, a, s.rob[p].id) then
        s.(rob := rob1[i := WithData(WithLoad(s.rob[i], j, l), j, FromStore(s.rob[p].id, a))])
      else
        s.(rob := rob1[i := WithLoad(s.rob[i], j, l)],
           lq := s.lq[l := Load(a, s.rob[i].id, i, j, Some(s.rob[p].id))])
  }

  /** add_store_queue: destination slot `k` of entry `i` goes to the free store queue slot `t`. */
  function AddStore(s: Lsq, i: nat, k: nat, t: nat): Lsq
    requires i < |s.rob| && t < |s.sq| && k < |s.rob[i].dst| && k < |s.rob[i].sqIndex|
  {
    s.(rob := s.rob[i := s.rob[i].(sqIndex := s.rob[i].sqIndex[k := Some(t)])],
       sq := s.sq[t := Store(s.rob[i].dst[k], s.rob[i].id, i, k, false)])
  }

  /** Every operand of the instruction is in a queue. */
  predicate AllAdded(e: Instr) {
    && (forall j :: 0 <= j < |e.src| && j < |e.srcAdded| && e.src[j] != 0 ==> e.srcAdded[j])
    && (forall k :: 0 <= k < |e.dst| && k < |e.sqIndex| && e.dst[k] != 0 ==> e.sqIndex[k].Some?)
  }

  /** do_memory_scheduling, when every operand has been added. */
  function Issue(s: Lsq, i: nat): Lsq
    requires i < |s.rob|
  {
    if s.rob[i].executed == NotYet then s.(rob := s.rob[i := s.rob[i].(executed := Inflight)]) else s
  }

  /** operate_lsq hands the first load to the translation cache. */
  function SendLoad(s: Lsq): Lsq
    requires s.rtl0 != []
  {
    s.(rtl0 := s.rtl0[1..], translating := s.translating + {s.rtl0[0]})
  }

  function LoadTranslated(s: Lsq, l: nat): Lsq {
    s.(translating := s.translating - {l}, rtl1 := s.rtl1 + [l])
  }

  /** execute_load hands the first translated load to the data cache. */
  function FetchLoad(s: Lsq): Lsq
    requires s.rtl1 != []
  {
    s.(rtl1 := s.rtl1[1..], fetching := s.fetching + {s.rtl1[0]})
  }

  /** The data cache answers a load: the operand has its data and leaves the load queue. */
  function LoadReturned(s: Lsq, l: nat): Lsq
    requires l < |s.lq| && s.lq[l].robIndex < |s.rob| && s.lq[l].slot < |s.rob[s.lq[l].robIndex].loaded|
  {
    var i := s.lq[l].robIndex;
    s.(rob := s.rob[i := WithData(s.rob[i], s.lq[l].slot, FromMemory)], lq := s.lq[l := NO_LOAD],
       fetching := s.fetching - {l})
  }

  /** The operands that execute_store visits: those of a dependent that read the stored address. */
  ghost predicate Visits(s: Lsq, t: nat, d: nat, j: int)
    requires t < |s.sq| && s.sq[t].robIndex < |s.rob|
  {
    && d < |s.rob| && d in s.rob[s.sq[t].robIndex].dependents
    && 0 <= j < |s.rob[d].src| && j < |s.rob[d].srcAdded| && j < |s.rob[d].lqIndex|
    && s.rob[d].srcAdded[j] && s.rob[d].src[j] == s.sq[t].address
  }

  /** An operand's lq_index is never taken back, so it may lead to another load by now. */
  ghost predicate Leads(s: Lsq, t: nat, d: nat, j: int, l: nat)
    requires t < |s.sq| && s.sq[t].robIndex < |s.rob|
  {
    Visits(s, t, d, j) && s.rob[d].lqIndex[j] == l
  }

  /** A visit leads to load queue entry `l`. */
  ghost predicate Reaches(s: Lsq, t: nat, l: nat)
    requires t < |s.sq| && s.sq[t].robIndex < |s.rob|
  {
    exists d: nat, j :: Leads(s, t, d, j, l)
  }

  /**
    execute_store passes all its assertions: every visit leads to an entry with the id of the
    store as producer_id. A visit releases its entry, so no two may lead to the same one.
   */
  ghost predicate CheckHolds(s: Lsq, t: nat)
    requires t < |s.sq| && s.sq[t].robIndex < |s.rob|
  {
    && (forall d: nat, j, l: nat :: Leads(s, t, d, j, l) ==> l < |s.lq| && s.lq[l].producer == Some(s.sq[t].id))
    && (forall d: nat, j, e: nat, m, l: nat :: Leads(s, t, d, j, l) && Leads(s, t, e, m, l) ==> d == e && j == m)
  }

  /** The open source slots of `d` whose entry a visit leads to. */
  ghost function Hits(s: Lsq, t: nat, d: nat): set<nat>
    requires t < |s.sq| && s.sq[t].robIndex < |s.rob| && d < |s.rob|
  {
    set j | 0 <= j < |s.rob[d].srcAdded| && j < |s.rob[d].lqIndex| && j < |s.rob[d].loaded|
            && s.rob[d].srcAdded[j] && s.rob[d].loaded[j] == Pending && Reaches(s, t, s.rob[d].lqIndex[j])
  }

  ghost function Served(e: Instr, hits: set<nat>, how: How): Instr {
    e.(loaded := seq(|e.loaded|, j requires 0 <= j < |e.loaded| => if j in hits then how else e.loaded[j]),
       memOps := e.memOps - |hits|)
  }

  /**
    execute_store, where its assertions hold: the store is done, and so is every load whose
    entry a visit leads to, whatever address it is for.
   */
  ghost function ExecuteStore(s: Lsq, t: nat): Lsq
    requires t < |s.sq| && s.sq[t].robIndex < |s.rob| && s.sq[t].slot < |s.rob[s.sq[t].robIndex].stored|
  {
    var x := s.sq[t];
    var p := x.robIndex;
    var e := s.rob[p];
    s.(sq := s.sq[t := x.(done := true)],
       lq := seq(|s.lq|, l requires 0 <= l < |s.lq| => if Reaches(s, t, l) then NO_LOAD else s.lq[l]),
       rob := seq(|s.rob|, d requires 0 <= d < |s.rob| =>
                if d == p then e.(stored := e.stored[x.slot := true], memOps := e.memOps - 1)
                else Served(s.rob[d], Hits(s, t, d), FromStore(x.id, x.address))))
  }

  /** complete_execution */
  function Complete(s: Lsq, i: nat): Lsq
    requires i < |s.rob|
  {
    if s.rob[i].executed == Inflight && s.rob[i].memOps == 0
    then s.(rob := s.rob[i := s.rob[i].(executed := Completed)]) else s
  }

  /** retire_rob frees the store queue slots of the oldest instruction and then its entry. */
  function Retire(s: Lsq): Lsq
    requires s.head < |s.rob| && s.occupancy > 0
  {
    s.(sq := seq(|s.sq|, t requires 0 <= t < |s.sq| => if Some(t) in s.rob[s.head].sqIndex then NO_STORE else s.sq[t]),
       rob := s.rob[s.head := EMPTY], head := At(1, s.head, |s.rob|), occupancy := s.occupancy - 1)
  }

  function Initial(robSize: nat, lqSize: nat, sqSize: nat): Lsq {
    Lsq(seq(robSize, _ => EMPTY), 0, 0, seq(lqSize, _ => NO_LOAD), seq(sqSize, _ => NO_STORE), [], {}, [], {})
  }
}
