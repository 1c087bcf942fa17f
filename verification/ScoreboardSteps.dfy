/** Every step of the scoreboard keeps its invariant. */
module ScoreboardSteps {
  import opened Options
  import opened RingOrder
  import opened Counting
  import opened Scoreboard
  import opened ScoreboardSafety

  ghost predicate SameWaits(r: seq<Instr>, r1: seq<Instr>) {
    |r1| == |r| && forall p, x: nat, j :: Waits(r1, p, x, j) <==> Waits(r, p, x, j)
  }

  lemma SameLinks(r: seq<Instr>, r1: seq<Instr>, x: nat)
    requires SameWaits(r, r1)
    ensures Links(r1, x) == Links(r, x)
  {
    forall l ensures l in Links(r1, x) <==> l in Links(r, x) {
      assert l in Links(r1, x) <==> Waits(r1, l.0, x, l.1);
      assert l in Links(r, x) <==> Waits(r, l.0, x, l.1);
    }
  }

  // ---- Steps that leave links and program order alone ----

  /** The entry may have moved on in its life, but not completed, and no link has changed. */
  ghost predicate SameLinkFields(a: Instr, b: Instr) {
    && a.ip == b.ip && a.src == b.src && a.dst == b.dst && a.checked == b.checked
    && a.slotDependents == b.slotDependents && a.dependents == b.dependents && a.isProducer == b.isProducer
    && a.pending == b.pending && (a.executed == Completed <==> b.executed == Completed)
    && (a.scheduled == NotYet <==> b.scheduled == NotYet)
  }

  ghost predicate LinksUntouched(c: Core, c1: Core) {
    && c1.head == c.head && c1.occupancy == c.occupancy && |c1.rob| == |c.rob|
    && forall i :: 0 <= i < |c.rob| ==> SameLinkFields(c.rob[i], c1.rob[i])
  }

  lemma UntouchedKeeps(c: Core, c1: Core)
    requires LinksUntouched(c, c1) && ShapeInv(c) && LinkInv(c) && SetInv(c.rob) && CountInv(c.rob)
    requires forall i :: 0 <= i < |c.rob| && !Live(c, i) ==> c1.rob[i] == c.rob[i]
    ensures ShapeInv(c1) && LinkInv(c1) && SetInv(c1.rob) && CountInv(c1.rob)
  {
    assert SameWaits(c.rob, c1.rob);
    forall x | 0 <= x < |c1.rob| ensures c1.rob[x].pending == |Links(c1.rob, x)| {
      SameLinks(c.rob, c1.rob, x);
    }
  }

  lemma UntouchedKeepsNearest(c: Core, c1: Core)
    requires LinksUntouched(c, c1) && NearestInv(c)
    ensures NearestInv(c1)
  {
    assert forall p, x, j :: 0 <= p < |c.rob| && 0 <= x < |c.rob| ==> (Writes(c1.rob, p, x, j) <==> Writes(c.rob, p, x, j));
    assert forall i :: Live(c1, i) <==> Live(c, i);
    forall p, x: nat, j | NearestWriter(c1, p, x, j) && c1.rob[x].scheduled != NotYet && c1.rob[p].executed != Completed
      ensures j < SOURCES && Waits(c1.rob, p, x, j)
    {
      assert NearestWriter(c, p, x, j);
      assert Waits(c.rob, p, x, j);
    }
  }

  lemma Execute0Inv(c: Core, now: nat, latency: nat)
    requires Inv(c) && c.rte0 != []
    ensures Inv(Execute0(c, now, latency))
  {
    var c1 := Execute0(c, now, latency);
    var i := c.rte0[0];
    assert ReadyOk(c.rob[i]);
    assert LinksUntouched(c, c1);
    UntouchedKeeps(c, c1);
    UntouchedKeepsNearest(c, c1);
    PoppedFirst(c, c1, i);
  }

  lemma PoppedFirst(c: Core, c1: Core, i: nat)
    requires QueueInv(c) && c.rte0 != [] && i == c.rte0[0] && c1.rte0 == c.rte0[1..] && c1.rte1 == c.rte1
    requires |c1.rob| == |c.rob| && !Runnable(c1.rob[i])
    requires forall k :: 0 <= k < |c.rob| && k != i ==> c1.rob[k] == c.rob[k]
    ensures QueueInv(c1)
  {
    assert c.rte0 == [i] + c1.rte0;
    assert forall a :: 0 <= a < |c1.rte0| ==> c1.rte0[a] == c.rte0[a + 1];
  }

  lemma Execute1Inv(c: Core, now: nat, latency: nat)
    requires Inv(c) && c.rte1 != []
    ensures Inv(Execute1(c, now, latency))
  {
    var c1 := Execute1(c, now, latency);
    var i := c.rte1[0];
    assert ReadyOk(c.rob[i]);
    assert LinksUntouched(c, c1);
    UntouchedKeeps(c, c1);
    UntouchedKeepsNearest(c, c1);
    PoppedSecond(c, c1, i);
  }

  lemma PoppedSecond(c: Core, c1: Core, i: nat)
    requires QueueInv(c) && c.rte1 != [] && i == c.rte1[0] && c1.rte1 == c.rte1[1..] && c1.rte0 == c.rte0
    requires |c1.rob| == |c.rob| && !Runnable(c1.rob[i])
    requires forall k :: 0 <= k < |c.rob| && k != i ==> c1.rob[k] == c.rob[k]
    ensures QueueInv(c1)
  {
    assert c.rte1 == [i] + c1.rte1;
    assert forall a :: 0 <= a < |c1.rte1| ==> c1.rte1[a] == c.rte1[a + 1];
  }

  lemma IssueMemoryInv(c: Core, i: nat)
    requires Inv(c) && i < |c.rob| && CanIssueMemory(c.rob[i])
    ensures Inv(IssueMemory(c, i))
  {
    var c1 := IssueMemory(c, i);
    assert ReadyOk(c.rob[i]);
    assert LinksUntouched(c, c1);
    UntouchedKeeps(c, c1);
    UntouchedKeepsNearest(c, c1);
  }

  lemma MemoryProgressInv(c: Core, i: nat, memOps: int, eventCycle: nat)
    requires Inv(c) && Live(c, i)
    ensures Inv(MemoryProgress(c, i, memOps, eventCycle))
  {
    var c1 := MemoryProgress(c, i, memOps, eventCycle);
    assert ReadyOk(c.rob[i]);
    assert LinksUntouched(c, c1);
    UntouchedKeeps(c, c1);
    UntouchedKeepsNearest(c, c1);
  }

  // ---- Arrival and retirement ----

  /** Slot `t` was free and holds a fresh instruction. */
  ghost predicate IsDispatched(c: Core, c1: Core, t: nat) {
    && c.head < |c.rob| && c.occupancy < |c.rob| && t == At(c.occupancy, c.head, |c.rob|)
    && c1.head == c.head && c1.occupancy == c.occupancy + 1
    && |c1.rob| == |c.rob| && c1.rob == c.rob[t := c1.rob[t]] && c.rob[t] == EMPTY && Fresh(c1.rob[t])
    && c1.rte0 == c.rte0 && c1.rte1 == c.rte1
    && !Live(c, t) && (forall i :: Live(c1, i) <==> Live(c, i) || i == t)
  }

  lemma DispatchedShape(c: Core, c1: Core, t: nat)
    requires ShapeInv(c) && IsDispatched(c, c1, t)
    ensures ShapeInv(c1) && SameWaits(c.rob, c1.rob)
  {}

  lemma DispatchedLinks(c: Core, c1: Core, t: nat)
    requires LinkInv(c) && IsDispatched(c, c1, t) && SameWaits(c.rob, c1.rob)
    ensures LinkInv(c1)
  {
    forall p, x: nat, j | Waits(c1.rob, p, x, j)
      ensures Live(c1, x) && Older(c1, p, x) && Writes(c1.rob, p, x, j) && c1.rob[x].scheduled != NotYet
    {
      assert Waits(c.rob, p, x, j);
    }
  }

  lemma DispatchedCount(c: Core, c1: Core, t: nat)
    requires LinkInv(c) && CountInv(c.rob) && IsDispatched(c, c1, t) && SameWaits(c.rob, c1.rob)
    ensures CountInv(c1.rob)
  {
    forall x | 0 <= x < |c1.rob| ensures c1.rob[x].pending == |Links(c1.rob, x)| {
      SameLinks(c.rob, c1.rob, x);
      if x == t { NoLinksTo(c, t); }
    }
  }

  lemma DispatchedSets(c: Core, c1: Core, t: nat)
    requires AllShaped(c.rob) && AllShaped(c1.rob) && SetInv(c.rob) && IsDispatched(c, c1, t)
    ensures SetInv(c1.rob)
  {
    assert forall x: nat :: SlotsFed(c1.rob[t], x) == {};
  }

  lemma DispatchedQueue(c: Core, c1: Core, t: nat)
    requires ReadyInv(c.rob) && QueueInv(c) && IsDispatched(c, c1, t)
    ensures ReadyInv(c1.rob) && QueueInv(c1)
  {}

  lemma DispatchInv(c: Core, e: Instr)
    requires Inv(c) && c.occupancy < |c.rob| && Fresh(e)
    ensures Inv(Dispatch(c, e))
  {
    var c1 := Dispatch(c, e);
    var t := At(c.occupancy, c.head, |c.rob|);
    assert IsDispatched(c, c1, t);
    DispatchedShape(c, c1, t);
    DispatchedLinks(c, c1, t);
    DispatchedCount(c, c1, t);
    DispatchedSets(c, c1, t);
    DispatchedQueue(c, c1, t);
    DispatchNearest(c, c1, t);
  }

  lemma NoLinksTo(c: Core, t: nat)
    requires LinkInv(c) && !Live(c, t)
    ensures Links(c.rob, t) == {}
  {
    assert forall l :: l in Links(c.rob, t) ==> Waits(c.rob, l.0, t, l.1);
  }

  lemma DispatchNearest(c: Core, c1: Core, t: nat)
    requires NearestInv(c) && IsDispatched(c, c1, t) && SameWaits(c.rob, c1.rob)
    ensures NearestInv(c1)
  {
    forall p, x: nat, j | NearestWriter(c1, p, x, j) && c1.rob[x].scheduled != NotYet && c1.rob[p].executed != Completed
      ensures j < SOURCES && Waits(c1.rob, p, x, j)
    {
      assert forall q :: Live(c, q) && Older(c, p, q) && Older(c, q, x) ==> Live(c1, q) && Older(c1, p, q) && Older(c1, q, x) && q != t;
      assert NearestWriter(c, p, x, j);
      assert Waits(c.rob, p, x, j);
    }
  }

  /** The completed head has left; everyone else is one place nearer to the head. */
  ghost predicate IsRetired(c: Core, c1: Core) {
    && c.head < |c.rob| && c.occupancy > 0 && c.rob[c.head].executed == Completed
    && c1.head < |c.rob| && c1.occupancy == c.occupancy - 1 && c1.rob == c.rob[c.head := EMPTY]
    && c1.rte0 == c.rte0 && c1.rte1 == c.rte1
    && (forall i :: 0 <= i < |c.rob| && i != c.head ==> Pos(i, c1.head, |c.rob|) == Pos(i, c.head, |c.rob|) - 1)
    && (forall i :: Live(c1, i) <==> Live(c, i) && i != c.head)
  }

  lemma RetiredShape(c: Core, c1: Core)
    requires ShapeInv(c) && LinkInv(c) && IsRetired(c, c1)
    ensures ShapeInv(c1) && SameWaits(c.rob, c1.rob)
  {
    forall p, x: nat, j ensures Waits(c1.rob, p, x, j) <==> Waits(c.rob, p, x, j) {
      assert Waits(c.rob, p, x, j) ==> p != c.head;
    }
  }

  lemma RetiredLinks(c: Core, c1: Core)
    requires LinkInv(c) && IsRetired(c, c1) && SameWaits(c.rob, c1.rob)
    ensures LinkInv(c1)
  {
    forall p, x: nat, j | Waits(c1.rob, p, x, j)
      ensures Live(c1, x) && Older(c1, p, x) && Writes(c1.rob, p, x, j) && c1.rob[x].scheduled != NotYet
    {
      assert Waits(c.rob, p, x, j);
    }
  }

  lemma RetiredCount(c: Core, c1: Core)
    requires LinkInv(c1) && CountInv(c.rob) && IsRetired(c, c1) && SameWaits(c.rob, c1.rob)
    ensures CountInv(c1.rob)
  {
    forall x | 0 <= x < |c1.rob| ensures c1.rob[x].pending == |Links(c1.rob, x)| {
      SameLinks(c.rob, c1.rob, x);
      if x == c.head { NoLinksTo(c1, x); }
    }
  }

  lemma RetiredSets(c: Core, c1: Core)
    requires AllShaped(c.rob) && AllShaped(c1.rob) && SetInv(c.rob) && IsRetired(c, c1)
    ensures SetInv(c1.rob)
  {
    assert forall x: nat :: SlotsFed(EMPTY, x) == {};
  }

  lemma RetiredQueue(c: Core, c1: Core)
    requires ReadyInv(c.rob) && QueueInv(c) && IsRetired(c, c1)
    ensures ReadyInv(c1.rob) && QueueInv(c1)
  {}

  lemma RetiredNearest(c: Core, c1: Core)
    requires NearestInv(c) && IsRetired(c, c1) && SameWaits(c.rob, c1.rob)
    ensures NearestInv(c1)
  {
    forall p, x: nat, j | NearestWriter(c1, p, x, j) && c1.rob[x].scheduled != NotYet && c1.rob[p].executed != Completed
      ensures j < SOURCES && Waits(c1.rob, p, x, j)
    {
      assert forall q :: Live(c, q) && Older(c, p, q) && Older(c, q, x) ==> Live(c1, q) && Older(c1, p, q) && Older(c1, q, x);
      assert NearestWriter(c, p, x, j);
      assert Waits(c.rob, p, x, j);
    }
  }

  lemma RetireInv(c: Core)
    requires Inv(c) && c.occupancy > 0 && c.rob[c.head].executed == Completed
    ensures Inv(Retire(c))
  {
    var c1 := Retire(c);
    assert IsRetired(c, c1);
    RetiredShape(c, c1);
    RetiredLinks(c, c1);
    RetiredCount(c, c1);
    RetiredSets(c, c1);
    RetiredQueue(c, c1);
    RetiredNearest(c, c1);
  }
}
