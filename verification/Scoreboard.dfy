/**
  The register-dependency scoreboard of the out-of-order core (ooo_cpu.cc) as a value: a
  circular reorder buffer whose entries count the producers they wait for and list the
  consumers that wait for them, and two queues of instructions that are ready to execute.
  Cores of the simulator run these operations in place in class `OutOfOrderCore`.
 */
module Scoreboard {
  import opened Options
  import opened RingOrder
  import opened Counting

  /** NUM_INSTR_SOURCES */
  const SOURCES: nat := 4

  datatype Stage = NotYet | Inflight | Completed

  /**
    A reorder buffer entry. Register 0 is no register and an empty slot has ip 0.
    `pending` is num_reg_dependent, `checked` reg_RAW_checked, `dependents` and
    `slotDependents` are registers_instrs_depend_on_me and registers_index_depend_on_me,
    `memOps` is num_mem_ops.
   */
  datatype Instr = Instr(ip: nat, isMemory: bool, src: seq<nat>, dst: seq<nat>, memOps: int,
                         scheduled: Stage, executed: Stage, eventCycle: nat,
                         regReady: bool, pending: int, checked: seq<bool>, isProducer: bool,
                         dependents: set<nat>, slotDependents: seq<set<nat>>)

  const NO_SETS: seq<set<nat>> := [{}, {}, {}, {}]

  const EMPTY := Instr(0, false, [0, 0, 0, 0], [], 0, NotYet, NotYet, 0, false, 0,
                       [false, false, false, false], false, {}, NO_SETS)

  datatype Core = Core(rob: seq<Instr>, head: nat, occupancy: nat, rte0: seq<nat>, rte1: seq<nat>)

  // ---- Program order in the reorder buffer ----

  ghost predicate Live(c: Core, i: int) {
    0 <= i < |c.rob| && Pos(i, c.head, |c.rob|) < c.occupancy
  }

  ghost predicate Older(c: Core, p: int, i: int) { Pos(p, c.head, |c.rob|) < Pos(i, c.head, |c.rob|) }

  // ---- Who waits for whom ----

  /** Source slot `j` of entry `c` waits for entry `p`. */
  ghost predicate Waits(rob: seq<Instr>, p: int, c: nat, j: int) {
    && 0 <= p < |rob| && 0 <= j < SOURCES && |rob[p].slotDependents| == SOURCES
    && rob[p].executed != Completed
    && c in rob[p].slotDependents[j]
  }

  ghost function Links(rob: seq<Instr>, c: nat): set<(int, int)> {
    set p, j | 0 <= p < |rob| && 0 <= j < SOURCES && Waits(rob, p, c, j) :: (p, j)
  }

  /** Entry `p` writes the register that source slot `j` of entry `c` reads. */
  predicate Writes(rob: seq<Instr>, p: int, c: int, j: int)
    requires 0 <= p < |rob| && 0 <= c < |rob|
  {
    0 <= j < |rob[c].src| && rob[c].src[j] != 0 && rob[c].src[j] in rob[p].dst
  }

  // ---- Scheduling: link each source to its producer ----

  /** The youngest uncompleted writer of the source among places `k` and up, older than `c`. */
  function ProducerFrom(rob: seq<Instr>, head: nat, c: nat, j: nat, k: nat): (r: Option<nat>)
    requires head < |rob| && c < |rob| && k <= Pos(c, head, |rob|)
    ensures r.Some? ==> r.value < |rob| && k <= Pos(r.value, head, |rob|) < Pos(c, head, |rob|)
                        && Writes(rob, r.value, c, j) && rob[r.value].executed != Completed
    ensures forall p :: 0 <= p < |rob| && k <= Pos(p, head, |rob|) < Pos(c, head, |rob|)
                        && Writes(rob, p, c, j) && rob[p].executed != Completed
                        ==> r.Some? && Pos(p, head, |rob|) <= Pos(r.value, head, |rob|)
    decreases Pos(c, head, |rob|) - k
  {
    if k == Pos(c, head, |rob|) then None
    else
      var younger := ProducerFrom(rob, head, c, j, k + 1);
      var p := At(k, head, |rob|);
      if younger == None && Writes(rob, p, c, j) && rob[p].executed != Completed then Some(p) else younger
  }

  /** The producer that source slot `j` of `c` is made to wait for. */
  function Producer(rob: seq<Instr>, head: nat, c: nat, j: nat): (r: Option<nat>)
    requires head < |rob| && c < |rob|
    ensures r.Some? ==> r.value < |rob| && Pos(r.value, head, |rob|) < Pos(c, head, |rob|)
                        && Writes(rob, r.value, c, j) && rob[r.value].executed != Completed
    ensures forall p :: 0 <= p < |rob| && Pos(p, head, |rob|) < Pos(c, head, |rob|)
                        && Writes(rob, p, c, j) && rob[p].executed != Completed
                        ==> r.Some? && Pos(p, head, |rob|) <= Pos(r.value, head, |rob|)
  {
    ProducerFrom(rob, head, c, j, 0)
  }

  /** Which producer each source slot of an instruction waits for. */
  type Choice = seq<Option<nat>>

  function Chosen(prod: Choice): set<nat> { set j | 0 <= j < |prod| && prod[j].Some? }

  /** The producer's side of the links to `c`. */
  function Feeds(e: Instr, p: nat, c: nat, prod: Choice): Instr
    requires |prod| == |e.slotDependents| == SOURCES
  {
    if Some(p) in prod then
      e.(dependents := e.dependents + {c}, isProducer := true,
         slotDependents := seq(SOURCES, j requires 0 <= j < SOURCES =>
           if prod[j] == Some(p) then e.slotDependents[j] + {c} else e.slotDependents[j]))
    else
      e
  }

  /** The consumer's side: one more producer pending for each link. */
  function Awaits(e: Instr, prod: Choice): Instr
    requires |prod| == SOURCES == |e.checked|
  {
    e.(pending := e.pending + |Chosen(prod)|, regReady := e.regReady && Chosen(prod) == {},
       checked := seq(SOURCES, j requires 0 <= j < SOURCES => e.checked[j] || prod[j].Some?))
  }

  ghost predicate Shaped(e: Instr) { |e.src| == |e.checked| == |e.slotDependents| == SOURCES }

  ghost predicate AllShaped(rob: seq<Instr>) { forall i :: 0 <= i < |rob| ==> Shaped(rob[i]) }

  /** All links of `c` at once. */
  ghost function Link(rob: seq<Instr>, c: nat, prod: Choice): (r: seq<Instr>)
    requires c < |rob| && |prod| == SOURCES && AllShaped(rob)
    ensures |r| == |rob|
  {
    seq(|rob|, p requires 0 <= p < |rob| => if p == c then Awaits(rob[c], prod) else Feeds(rob[p], p, c, prod))
  }

  ghost function Producers(rob: seq<Instr>, head: nat, c: nat): (r: Choice)
    requires head < |rob| && c < |rob|
    ensures |r| == SOURCES
  {
    seq(SOURCES, j requires 0 <= j < SOURCES => Producer(rob, head, c, j))
  }

  /** A latency is counted from now, or from the entry's own cycle if that is later. */
  function Later(eventCycle: nat, now: nat, latency: nat): nat {
    (if eventCycle < now then now else eventCycle) + latency
  }

  /** The sources of `i` are linked; it is scheduled, and queued if it is ready to execute. */
  function Settle(c: Core, i: nat, now: nat, latency: nat): Core
    requires i < |c.rob|
  {
    var e := c.rob[i];
    if e.isMemory then
      c.(rob := c.rob[i := e.(scheduled := Inflight)])
    else
      c.(rob := c.rob[i := e.(scheduled := Completed, eventCycle := Later(e.eventCycle, now, latency))],
         rte1 := if e.regReady then c.rte1 + [i] else c.rte1)
  }

  /** do_scheduling */
  ghost function DoScheduling(c: Core, i: nat, now: nat, latency: nat): Core
    requires c.head < |c.rob| && i < |c.rob| && AllShaped(c.rob)
  {
    Settle(c.(rob := Link(c.rob[i := c.rob[i].(regReady := true)], i, Producers(c.rob, c.head, i))), i, now, latency)
  }

  // ---- Completion: release the consumers ----

  /** The source slots of `c` that wait for the entry `e`. */
  function SlotsFed(e: Instr, c: nat): set<nat>
    requires |e.slotDependents| == SOURCES
  {
    set j | 0 <= j < SOURCES && c in e.slotDependents[j]
  }

  /** A consumer once the entry `e` it may wait for has completed. */
  function Freed(x: Instr, c: nat, e: Instr): Instr
    requires |e.slotDependents| == SOURCES
  {
    if c in e.dependents && SlotsFed(e, c) != {} then
      var pending := x.pending - |SlotsFed(e, c)|;
      if pending == 0 then x.(pending := 0, regReady := true, scheduled := if x.isMemory then Inflight else Completed)
      else x.(pending := pending)
    else
      x
  }

  /** The consumers of `e` that wait for nothing else and go to the execution queue. */
  function Woken(rob: seq<Instr>, e: Instr): set<nat>
    requires |e.slotDependents| == SOURCES
  {
    set c | 0 <= c < |rob| && c in e.dependents && SlotsFed(e, c) != {} && !rob[c].isMemory
            && rob[c].pending == |SlotsFed(e, c)|
  }

  /** reg_RAW_release */
  function Release(c: Core, p: nat): Core
    requires p < |c.rob| && |c.rob[p].slotDependents| == SOURCES
  {
    var e := c.rob[p];
    c.(rob := seq(|c.rob|, i requires 0 <= i < |c.rob| => Freed(c.rob[i], i, e)),
       rte0 := c.rte0 + Ascending(Woken(c.rob, e), |c.rob|))
  }

  predicate CanComplete(e: Instr, now: nat) {
    (e.isMemory ==> e.memOps == 0) && e.executed == Inflight && e.eventCycle <= now
  }

  /** complete_execution */
  function CompleteExecution(c: Core, i: nat, now: nat): Core
    requires i < |c.rob| && |c.rob[i].slotDependents| == SOURCES
  {
    if !CanComplete(c.rob[i], now) then c
    else
      var c1 := c.(rob := c.rob[i := c.rob[i].(executed := Completed)]);
      if c.rob[i].isProducer then Release(c1, i) else c1
  }

  // ---- The other steps ----

  /** A new instruction: nothing scheduled, nothing linked. */
  ghost predicate Fresh(e: Instr) {
    && e.ip != 0 && Shaped(e) && e.scheduled == e.executed == NotYet && !e.regReady && e.pending == 0
    && e.checked == EMPTY.checked && !e.isProducer && e.dependents == {} && e.slotDependents == NO_SETS
  }

  /** add_to_rob */
  function Dispatch(c: Core, e: Instr): Core
    requires c.head < |c.rob| && c.occupancy < |c.rob|
  {
    c.(rob := c.rob[At(c.occupancy, c.head, |c.rob|) := e], occupancy := c.occupancy + 1)
  }

  function Executing(e: Instr, now: nat, latency: nat): Instr {
    e.(executed := Inflight, eventCycle := Later(e.eventCycle, now, latency))
  }

  /** execute_instruction takes the first of the released instructions. */
  function Execute0(c: Core, now: nat, latency: nat): Core
    requires c.rte0 != [] && c.rte0[0] < |c.rob|
  {
    c.(rob := c.rob[c.rte0[0] := Executing(c.rob[c.rte0[0]], now, latency)], rte0 := c.rte0[1..])
  }

  /** execute_instruction takes the first of the instructions that were ready when scheduled. */
  function Execute1(c: Core, now: nat, latency: nat): Core
    requires c.rte1 != [] && c.rte1[0] < |c.rob|
  {
    c.(rob := c.rob[c.rte1[0] := Executing(c.rob[c.rte1[0]], now, latency)], rte1 := c.rte1[1..])
  }

  predicate CanIssueMemory(e: Instr) { e.isMemory && e.regReady && e.scheduled == Inflight }

  /** do_memory_scheduling, once the load/store queue has room for every operand. */
  function IssueMemory(c: Core, i: nat): Core
    requires i < |c.rob|
  {
    var e := c.rob[i];
    c.(rob := c.rob[i := e.(scheduled := Completed, executed := if e.executed == NotYet then Inflight else e.executed)])
  }

  /** The memory side finishes some operands of an instruction, at some cycle. */
  function MemoryProgress(c: Core, i: nat, memOps: int, eventCycle: nat): Core
    requires i < |c.rob|
  {
    c.(rob := c.rob[i := c.rob[i].(memOps := memOps, eventCycle := eventCycle)])
  }

  /** retire_rob, one instruction. */
  function Retire(c: Core): Core
    requires c.head < |c.rob| && c.occupancy > 0
  {
    c.(rob := c.rob[c.head := EMPTY], head := At(1, c.head, |c.rob|), occupancy := c.occupancy - 1)
  }

  function Initial(n: nat): Core { Core(seq(n, _ => EMPTY), 0, 0, [], []) }
}
