/** What every step of the scoreboard keeps, over all runs. */
module ScoreboardSafety {
  import opened Options
  import opened RingOrder
  import opened Counting
  import opened Scoreboard

  ghost predicate ShapeInv(c: Core) {
    && c.head < |c.rob| && c.occupancy <= |c.rob| && AllShaped(c.rob)
    && (forall i :: 0 <= i < |c.rob| ==> if Live(c, i) then c.rob[i].ip != 0 else c.rob[i] == EMPTY)
  }

  /** A link goes from an older writer to a younger, already scheduled reader. */
  ghost predicate LinkInv(c: Core) {
    forall p, x: nat, j :: Waits(c.rob, p, x, j) ==>
      Live(c, x) && Older(c, p, x) && Writes(c.rob, p, x, j) && c.rob[x].scheduled != NotYet
  }

  /** The consumer set, the per-slot sets and the producer flag agree. */
  ghost predicate SetInv(rob: seq<Instr>)
    requires AllShaped(rob)
  {
    forall p, x: nat :: 0 <= p < |rob| && rob[p].executed != Completed ==>
      && (x in rob[p].dependents <==> SlotsFed(rob[p], x) != {})
      && (x in rob[p].dependents ==> rob[p].isProducer)
  }

  /** Each entry counts its links. */
  ghost predicate CountInv(rob: seq<Instr>) {
    forall x :: 0 <= x < |rob| ==> rob[x].pending == |Links(rob, x)|
  }

  ghost predicate ReadyOk(e: Instr) {
    && (e.scheduled == NotYet ==> e.pending == 0 && e.executed == NotYet && e.checked == EMPTY.checked)
    && (e.scheduled != NotYet ==> (e.regReady <==> e.pending == 0))
    && (e.executed != NotYet ==> e.scheduled == Completed && e.regReady)
    && (if e.isMemory then e.scheduled == Completed ==> e.executed != NotYet else e.scheduled != Inflight)
  }

  ghost predicate ReadyInv(rob: seq<Instr>) {
    forall x :: 0 <= x < |rob| ==> ReadyOk(rob[x])
  }

  /** An instruction that must be in one of the two execution queues. */
  predicate Runnable(e: Instr) {
    !e.isMemory && e.scheduled == Completed && e.regReady && e.executed == NotYet
  }

  ghost predicate Apart(q0: seq<nat>, q1: seq<nat>) {
    forall a, b :: 0 <= a < |q0| && 0 <= b < |q1| ==> q0[a] != q1[b]
  }

  /** The execution queues hold exactly the runnable instructions, each once. */
  ghost predicate QueueInv(c: Core) {
    && Distinct(c.rte0) && Distinct(c.rte1) && Apart(c.rte0, c.rte1)
    && (forall a :: 0 <= a < |c.rte0| ==> c.rte0[a] < |c.rob| && Runnable(c.rob[c.rte0[a]]))
    && (forall a :: 0 <= a < |c.rte1| ==> c.rte1[a] < |c.rob| && Runnable(c.rob[c.rte1[a]]))
    && (forall i :: 0 <= i < |c.rob| && Runnable(c.rob[i]) ==> i in c.rte0 || i in c.rte1)
  }

  /** `p` is the nearest older writer of the register that slot `j` of `x` reads. */
  ghost predicate NearestWriter(c: Core, p: int, x: int, j: int) {
    && Live(c, p) && Live(c, x) && Older(c, p, x) && Writes(c.rob, p, x, j)
    && forall q :: Live(c, q) && Older(c, p, q) && Older(c, q, x) ==> !Writes(c.rob, q, x, j)
  }

  /** A scheduled instruction waits for the nearest older writer of each source until it completes. */
  ghost predicate NearestInv(c: Core) {
    forall p, x: nat, j :: NearestWriter(c, p, x, j) && c.rob[x].scheduled != NotYet && c.rob[p].executed != Completed
      ==> j < SOURCES && Waits(c.rob, p, x, j)
  }

  ghost predicate Inv(c: Core) {
    && ShapeInv(c) && LinkInv(c) && SetInv(c.rob) && CountInv(c.rob) && ReadyInv(c.rob) && QueueInv(c) && NearestInv(c)
  }

  // ---- What the invariant means ----

  lemma NothingPending(rob: seq<Instr>, x: nat)
    requires Links(rob, x) == {}
    ensures forall p, j :: !Waits(rob, p, x, j)
  {
    forall p, j ensures !Waits(rob, p, x, j) {
      assert Waits(rob, p, x, j) ==> (p, j) in Links(rob, x);
    }
  }

  /** An instruction that has started executing waits for no producer it was linked to. */
  lemma NoStartBeforeProducer(c: Core, x: nat)
    requires Inv(c) && x < |c.rob| && c.rob[x].executed != NotYet
    ensures forall p, j :: !Waits(c.rob, p, x, j)
  {
    assert ReadyOk(c.rob[x]);
    NothingPending(c.rob, x);
  }

  /** An instruction starts executing only after the nearest older writer of each source completed. */
  lemma NoReadBeforeWrite(c: Core, p: nat, x: nat, j: nat)
    requires Inv(c) && NearestWriter(c, p, x, j) && c.rob[x].executed != NotYet
    ensures c.rob[p].executed == Completed
  {
    assert ReadyOk(c.rob[x]);
    NoStartBeforeProducer(c, x);
    assert !Waits(c.rob, p, x, j);
  }

  /** The oldest uncompleted instruction, once scheduled, waits for no register. */
  lemma OldestIsNeverStuck(c: Core, x: nat)
    requires Inv(c) && Live(c, x) && c.rob[x].scheduled != NotYet && c.rob[x].executed != Completed
    requires forall p :: Live(c, p) && Older(c, p, x) ==> c.rob[p].executed == Completed
    ensures c.rob[x].pending == 0 && c.rob[x].regReady
    ensures x in c.rte0 || x in c.rte1 || c.rob[x].executed == Inflight || CanIssueMemory(c.rob[x])
  {
    assert ReadyOk(c.rob[x]);
    forall p, j ensures !Waits(c.rob, p, x, j) {
      assert Waits(c.rob, p, x, j) ==> Live(c, p) && Older(c, p, x);
    }
    assert forall l :: l in Links(c.rob, x) ==> Waits(c.rob, l.0, x, l.1);
    assert Links(c.rob, x) == {};
  }

  /** The execution queues fit their rings, with a free slot for every instruction not queued. */
  lemma QueuesFit(c: Core)
    requires QueueInv(c)
    ensures |c.rte0| + |c.rte1| <= |c.rob|
    ensures forall i :: 0 <= i < |c.rob| && i !in c.rte0 && i !in c.rte1 ==> |c.rte0| + |c.rte1| < |c.rob|
  {
    var q := c.rte0 + c.rte1;
    Pigeonhole(q, |c.rob|);
    assert forall i :: i in q <==> i in c.rte0 || i in c.rte1;
  }
}
