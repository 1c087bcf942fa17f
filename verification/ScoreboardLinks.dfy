/** Scheduling an instruction and completing one: the two steps that change links. */
module ScoreboardLinks {
  import opened Options
  import opened RingOrder
  import opened Counting
  import opened Scoreboard
  import opened ScoreboardSafety
  import opened ScoreboardSteps

  // ---- Scheduling ----

  /** `r1` has the links of `r` and those that `prod` gives to entry `i`. */
  ghost predicate Linked(r: seq<Instr>, r1: seq<Instr>, i: nat, prod: Choice) {
    && |r1| == |r| && |prod| == SOURCES
    && forall p, x: nat, j ::
         Waits(r1, p, x, j) <==> Waits(r, p, x, j) || (x == i && 0 <= p && 0 <= j < SOURCES && prod[j] == Some(p))
  }

  /** Each chosen producer is another, uncompleted entry. */
  ghost predicate Sound(r: seq<Instr>, i: nat, prod: Choice) {
    |prod| == SOURCES && forall j :: 0 <= j < SOURCES && prod[j].Some? ==>
      prod[j].value < |r| && prod[j].value != i && r[prod[j].value].executed != Completed
  }

  /** What scheduling does to each entry, apart from the life of entry `i` itself. */
  ghost predicate LinkedEntries(r: seq<Instr>, r1: seq<Instr>, i: nat, prod: Choice)
    requires |prod| == SOURCES && AllShaped(r) && i < |r|
  {
    && |r1| == |r|
    && (forall p :: 0 <= p < |r| && p != i ==> r1[p] == Feeds(r[p], p, i, prod))
    && r1[i].slotDependents == r[i].slotDependents && r1[i].dependents == r[i].dependents
    && r1[i].isProducer == r[i].isProducer && r1[i].executed == r[i].executed
    && r1[i].src == r[i].src && r1[i].dst == r[i].dst && r1[i].ip == r[i].ip
  }

  lemma LinkedWaits(r: seq<Instr>, r1: seq<Instr>, i: nat, prod: Choice)
    requires AllShaped(r) && i < |r| && Sound(r, i, prod) && LinkedEntries(r, r1, i, prod)
    ensures Linked(r, r1, i, prod)
  {
    forall p, x: nat, j
      ensures Waits(r1, p, x, j) <==> Waits(r, p, x, j) || (x == i && 0 <= p && 0 <= j < SOURCES && prod[j] == Some(p))
    {
      if 0 <= p < |r| && p != i && 0 <= j < SOURCES {
        assert r1[p] == Feeds(r[p], p, i, prod);
        assert prod[j] == Some(p) ==> Some(p) in prod;
      }
    }
  }

  lemma LinkedSets(r: seq<Instr>, r1: seq<Instr>, i: nat, prod: Choice)
    requires AllShaped(r) && AllShaped(r1) && i < |r| && Sound(r, i, prod) && LinkedEntries(r, r1, i, prod) && SetInv(r)
    ensures SetInv(r1)
  {
    forall p, x: nat | 0 <= p < |r1| && r1[p].executed != Completed
      ensures x in r1[p].dependents <==> SlotsFed(r1[p], x) != {}
      ensures x in r1[p].dependents ==> r1[p].isProducer
    {
      if p != i {
        FedSlots(r[p], p, i, prod, x);
      } else {
        assert SlotsFed(r1[p], x) == SlotsFed(r[p], x);
      }
    }
  }

  lemma FedSlots(e: Instr, p: nat, i: nat, prod: Choice, x: nat)
    requires |prod| == |e.slotDependents| == SOURCES
    ensures Some(p) !in prod || x != i ==> SlotsFed(Feeds(e, p, i, prod), x) == SlotsFed(e, x)
    ensures Some(p) in prod ==> SlotsFed(Feeds(e, p, i, prod), i) != {}
  {
    if Some(p) in prod {
      var j :| 0 <= j < |prod| && prod[j] == Some(p);
      assert j in SlotsFed(Feeds(e, p, i, prod), i);
    }
  }

  ghost function Pairs(prod: Choice, slots: set<nat>): set<(int, int)>
    requires forall j <- slots :: j < |prod| && prod[j].Some?
  {
    set j <- slots :: (prod[j].value, j)
  }

  /** The pairs of the chosen producers and their slots are as many as the slots. */
  lemma {:induction false} PairsCount(prod: Choice, slots: set<nat>)
    requires forall j <- slots :: j < |prod| && prod[j].Some?
    ensures |Pairs(prod, slots)| == |slots|
  {
    if slots != {} {
      var k :| k in slots;
      PairsCount(prod, slots - {k});
      assert Pairs(prod, slots) == Pairs(prod, slots - {k}) + {(prod[k].value, k)};
    }
  }

  lemma LinkedCount(r: seq<Instr>, r1: seq<Instr>, i: nat, prod: Choice, x: nat)
    requires Linked(r, r1, i, prod) && Sound(r, i, prod) && Links(r, i) == {}
    ensures |Links(r1, x)| == if x == i then |Chosen(prod)| else |Links(r, x)|
  {
    if x == i {
      PairsCount(prod, Chosen(prod));
      forall l: (int, int) ensures l in Links(r1, i) <==> l in Pairs(prod, Chosen(prod)) {
        assert l in Links(r1, i) <==> Waits(r1, l.0, i, l.1);
        assert Waits(r, l.0, i, l.1) ==> l in Links(r, i);
        assert 0 <= l.1 < SOURCES && prod[l.1] == Some(l.0) ==> l.1 in Chosen(prod);
      }
      assert Links(r1, i) == Pairs(prod, Chosen(prod));
    } else {
      forall l: (int, int) ensures l in Links(r1, x) <==> l in Links(r, x) {
        assert l in Links(r1, x) <==> Waits(r1, l.0, x, l.1);
        assert l in Links(r, x) <==> Waits(r, l.0, x, l.1);
      }
      assert Links(r1, x) == Links(r, x);
    }
  }

  /** `prod` names the youngest older uncompleted writer of each source of `i`. */
  ghost predicate Youngest(c: Core, i: nat, prod: Choice) {
    && c.head < |c.rob| && i < |c.rob| && |prod| == SOURCES
    && (forall j :: 0 <= j < SOURCES && prod[j].Some? ==>
          prod[j].value < |c.rob| && Older(c, prod[j].value, i)
          && Writes(c.rob, prod[j].value, i, j) && c.rob[prod[j].value].executed != Completed)
    && (forall p, j :: 0 <= p < |c.rob| && Older(c, p, i) && Writes(c.rob, p, i, j) && j < SOURCES
          && c.rob[p].executed != Completed
          ==> prod[j].Some? && Pos(p, c.head, |c.rob|) <= Pos(prod[j].value, c.head, |c.rob|))
  }

  /** What do_scheduling did, entry by entry. */
  ghost predicate IsScheduled(c: Core, c1: Core, i: nat, prod: Choice)
    requires ShapeInv(c) && i < |c.rob| && |prod| == SOURCES
  {
    && c1.head == c.head && c1.occupancy == c.occupancy
    && LinkedEntries(c.rob, c1.rob, i, prod) && AllShaped(c1.rob)
    && c1.rob[i].pending == c.rob[i].pending + |Chosen(prod)|
    && c1.rob[i].regReady == (Chosen(prod) == {})
    && c1.rob[i].isMemory == c.rob[i].isMemory
    && c1.rob[i].scheduled == (if c.rob[i].isMemory then Inflight else Completed)
    && c1.rte0 == c.rte0
    && c1.rte1 == if !c.rob[i].isMemory && c1.rob[i].regReady then c.rte1 + [i] else c.rte1
  }

  lemma ProducersAreYoungest(c: Core, i: nat)
    requires c.head < |c.rob| && i < |c.rob|
    ensures Youngest(c, i, Producers(c.rob, c.head, i))
  {}

  lemma ScheduledEntries(c: Core, i: nat, now: nat, latency: nat)
    requires ShapeInv(c) && i < |c.rob|
    ensures IsScheduled(c, DoScheduling(c, i, now, latency), i, Producers(c.rob, c.head, i))
  {}

  lemma ScheduledShape(c: Core, c1: Core, i: nat, prod: Choice)
    requires ShapeInv(c) && Live(c, i) && Youngest(c, i, prod) && IsScheduled(c, c1, i, prod)
    ensures ShapeInv(c1)
  {
    forall p | 0 <= p < |c.rob| && p != i && !Live(c, p) ensures c1.rob[p] == EMPTY {
      assert Some(p) !in prod;
    }
  }

  lemma ScheduledLinks(c: Core, c1: Core, i: nat, prod: Choice)
    requires ShapeInv(c) && LinkInv(c) && Live(c, i) && Youngest(c, i, prod) && IsScheduled(c, c1, i, prod)
    requires Linked(c.rob, c1.rob, i, prod)
    ensures LinkInv(c1)
  {
    forall p, x: nat, j | Waits(c1.rob, p, x, j)
      ensures Live(c1, x) && Older(c1, p, x) && Writes(c1.rob, p, x, j) && c1.rob[x].scheduled != NotYet
    {
      if !Waits(c.rob, p, x, j) {
        assert x == i && prod[j] == Some(p);
        assert Writes(c.rob, p, i, j);
      }
    }
  }

  lemma ScheduledCount(c: Core, c1: Core, i: nat, prod: Choice)
    requires ShapeInv(c) && CountInv(c.rob) && Youngest(c, i, prod) && IsScheduled(c, c1, i, prod)
    requires Linked(c.rob, c1.rob, i, prod) && Sound(c.rob, i, prod) && c.rob[i].pending == 0
    ensures CountInv(c1.rob)
  {
    forall x | 0 <= x < |c1.rob| ensures c1.rob[x].pending == |Links(c1.rob, x)| {
      LinkedCount(c.rob, c1.rob, i, prod, x);
    }
  }

  lemma ScheduledReady(c: Core, c1: Core, i: nat, prod: Choice)
    requires ShapeInv(c) && i < |c.rob| && |prod| == SOURCES && IsScheduled(c, c1, i, prod)
    requires ReadyInv(c.rob) && c.rob[i].scheduled == NotYet
    ensures ReadyInv(c1.rob)
  {
    assert ReadyOk(c.rob[i]);
    forall x | 0 <= x < |c1.rob| ensures ReadyOk(c1.rob[x]) {
      assert ReadyOk(c.rob[x]);
    }
  }

  lemma ScheduledRunnable(c: Core, c1: Core, i: nat, prod: Choice, x: nat)
    requires ShapeInv(c) && i < |c.rob| && |prod| == SOURCES && IsScheduled(c, c1, i, prod)
    requires c.rob[i].scheduled == c.rob[i].executed == NotYet && x < |c.rob|
    ensures Runnable(c1.rob[x]) <==> Runnable(c.rob[x]) || (x == i && !c.rob[i].isMemory && c1.rob[i].regReady)
  {}

  /** One more runnable instruction joins the end of the second queue. */
  lemma JoinedSecond(c: Core, c1: Core, i: nat, joins: bool)
    requires QueueInv(c) && |c1.rob| == |c.rob| && i < |c.rob| && !Runnable(c.rob[i])
    requires c1.rte0 == c.rte0 && c1.rte1 == if joins then c.rte1 + [i] else c.rte1
    requires forall x :: 0 <= x < |c.rob| ==> (Runnable(c1.rob[x]) <==> Runnable(c.rob[x]) || (x == i && joins))
    ensures QueueInv(c1)
  {}

  lemma ScheduledQueue(c: Core, c1: Core, i: nat, prod: Choice)
    requires ShapeInv(c) && i < |c.rob| && |prod| == SOURCES && IsScheduled(c, c1, i, prod)
    requires QueueInv(c) && c.rob[i].scheduled == c.rob[i].executed == NotYet
    ensures QueueInv(c1)
  {
    var joins := !c.rob[i].isMemory && c1.rob[i].regReady;
    forall x | 0 <= x < |c.rob| ensures Runnable(c1.rob[x]) <==> Runnable(c.rob[x]) || (x == i && joins) {
      ScheduledRunnable(c, c1, i, prod, x);
    }
    JoinedSecond(c, c1, i, joins);
  }

  lemma ScheduledNearest(c: Core, c1: Core, i: nat, prod: Choice)
    requires ShapeInv(c) && NearestInv(c) && Live(c, i) && Youngest(c, i, prod) && IsScheduled(c, c1, i, prod)
    requires Linked(c.rob, c1.rob, i, prod)
    ensures NearestInv(c1)
  {
    assert forall q :: Live(c1, q) <==> Live(c, q);
    assert forall p, x, j :: 0 <= p < |c.rob| && 0 <= x < |c.rob| ==> (Writes(c1.rob, p, x, j) <==> Writes(c.rob, p, x, j));
    forall p, x: nat, j | NearestWriter(c1, p, x, j) && c1.rob[x].scheduled != NotYet && c1.rob[p].executed != Completed
      ensures j < SOURCES && Waits(c1.rob, p, x, j)
    {
      assert NearestWriter(c, p, x, j);
      if x == i {
        assert Writes(c.rob, p, i, j);
        assert Live(c, prod[j].value);
      } else {
        assert Waits(c.rob, p, x, j);
      }
    }
  }

  lemma DoSchedulingInv(c: Core, i: nat, now: nat, latency: nat)
    requires Inv(c) && Live(c, i) && c.rob[i].scheduled == NotYet
    ensures Inv(DoScheduling(c, i, now, latency))
  {
    var prod := Producers(c.rob, c.head, i);
    assert ReadyOk(c.rob[i]);
    ProducersAreYoungest(c, i);
    ScheduledEntries(c, i, now, latency);
    IsScheduledInv(c, DoScheduling(c, i, now, latency), i, prod);
  }

  lemma IsScheduledInv(c: Core, c1: Core, i: nat, prod: Choice)
    requires Inv(c) && Live(c, i) && c.rob[i].scheduled == c.rob[i].executed == NotYet && c.rob[i].pending == 0
    requires Youngest(c, i, prod) && IsScheduled(c, c1, i, prod)
    ensures Inv(c1)
  {
    assert Sound(c.rob, i, prod);
    LinkedWaits(c.rob, c1.rob, i, prod);
    LinkedSets(c.rob, c1.rob, i, prod);
    ScheduledShape(c, c1, i, prod);
    ScheduledLinks(c, c1, i, prod);
    ScheduledCount(c, c1, i, prod);
    ScheduledReady(c, c1, i, prod);
    ScheduledQueue(c, c1, i, prod);
    ScheduledNearest(c, c1, i, prod);
  }

  // ---- Completion ----

  /** Entry `p` has completed and every consumer has been told. */
  ghost function Completing(c: Core, p: nat): Core
    requires p < |c.rob| && |c.rob[p].slotDependents| == SOURCES
  {
    Release(c.(rob := c.rob[p := c.rob[p].(executed := Completed)]), p)
  }

  lemma NothingAscending(n: nat)
    ensures Ascending({}, n) == []
  {
    var q := Ascending({}, n);
    assert forall a :: 0 <= a < |q| ==> q[a] in q;
  }

  lemma NobodyToTell(c: Core, p: nat)
    requires ShapeInv(c) && SetInv(c.rob) && p < |c.rob| && c.rob[p].executed != Completed && !c.rob[p].isProducer
    ensures Completing(c, p) == c.(rob := c.rob[p := c.rob[p].(executed := Completed)])
  {
    var rob1 := c.rob[p := c.rob[p].(executed := Completed)];
    assert Woken(rob1, rob1[p]) == {};
    NothingAscending(|c.rob|);
    assert Completing(c, p).rob == rob1;
  }

  ghost function FedPairs(p: nat, slots: set<nat>): set<(int, int)> { set j <- slots :: (p, j) }

  lemma {:induction false} FedPairsCount(p: nat, slots: set<nat>)
    ensures |FedPairs(p, slots)| == |slots|
  {
    if slots != {} {
      var k :| k in slots;
      FedPairsCount(p, slots - {k});
      assert FedPairs(p, slots) == FedPairs(p, slots - {k}) + {(p, k)};
    }
  }

  /** The other entries' links are kept. */
  ghost predicate Unlinked(r: seq<Instr>, r1: seq<Instr>, p: nat) {
    |r1| == |r| && forall q, x: nat, j :: Waits(r1, q, x, j) <==> Waits(r, q, x, j) && q != p
  }

  lemma UnlinkedCount(r: seq<Instr>, r1: seq<Instr>, p: nat, x: nat)
    requires Unlinked(r, r1, p) && p < |r| && |r[p].slotDependents| == SOURCES && r[p].executed != Completed
    ensures |Links(r1, x)| == |Links(r, x)| - |SlotsFed(r[p], x)|
    ensures SlotsFed(r[p], x) != {} ==> |Links(r, x)| > 0
  {
    FedPairsCount(p, SlotsFed(r[p], x));
    forall l: (int, int) ensures l in Links(r1, x) <==> l in Links(r, x) && l !in FedPairs(p, SlotsFed(r[p], x))
                         ensures l in FedPairs(p, SlotsFed(r[p], x)) ==> l in Links(r, x)
    {
      assert l in Links(r1, x) <==> Waits(r1, l.0, x, l.1);
      assert l in Links(r, x) <==> Waits(r, l.0, x, l.1);
    }
    assert Links(r1, x) == Links(r, x) - FedPairs(p, SlotsFed(r[p], x));
    assert FedPairs(p, SlotsFed(r[p], x)) <= Links(r, x);
  }

  /** A consumer loses the links it had to the completed entry, and nothing else but its readiness changes. */
  lemma FreedEntry(c: Core, p: nat, x: nat)
    requires ShapeInv(c) && LinkInv(c) && SetInv(c.rob) && ReadyInv(c.rob) && CountInv(c.rob)
    requires p < |c.rob| && c.rob[p].executed == Inflight && x < |c.rob|
    ensures var e := c.rob[x]; var e1 := Completing(c, p).rob[x]; var fed := |SlotsFed(c.rob[p], x)|;
            && e1.pending == e.pending - fed
            && e1.ip == e.ip && e1.isMemory == e.isMemory && e1.src == e.src && e1.dst == e.dst && e1.checked == e.checked
            && e1.slotDependents == e.slotDependents && e1.dependents == e.dependents && e1.isProducer == e.isProducer
            && e1.scheduled == e.scheduled
            && e1.executed == (if x == p then Completed else e.executed)
            && e1.regReady == (e.regReady || (fed > 0 && e.pending == fed))
    ensures SlotsFed(c.rob[p], x) != {} ==>
              x != p && Live(c, x) && c.rob[x].pending >= |SlotsFed(c.rob[p], x)|
              && c.rob[x].scheduled != NotYet && !c.rob[x].regReady
    ensures !Live(c, x) ==> Completing(c, p).rob[x] == EMPTY
  {
    assert ReadyOk(c.rob[x]);
    if SlotsFed(c.rob[p], x) != {} {
      var j :| j in SlotsFed(c.rob[p], x);
      assert Waits(c.rob, p, x, j);
      FedAreLinks(c.rob, p, x);
    }
  }

  lemma FedAreLinks(r: seq<Instr>, p: nat, x: nat)
    requires p < |r| && |r[p].slotDependents| == SOURCES && r[p].executed != Completed
    ensures |SlotsFed(r[p], x)| <= |Links(r, x)|
  {
    FedPairsCount(p, SlotsFed(r[p], x));
    assert forall l: (int, int) :: l in FedPairs(p, SlotsFed(r[p], x)) ==> Waits(r, l.0, x, l.1);
    CardinalOfSubset(FedPairs(p, SlotsFed(r[p], x)), Links(r, x));
  }

  /** What the completion of entry `p` did, entry by entry. */
  ghost predicate IsCompleted(c: Core, c1: Core, p: nat)
    requires ShapeInv(c) && p < |c.rob|
  {
    && c1.head == c.head && c1.occupancy == c.occupancy && |c1.rob| == |c.rob|
    && (forall x :: 0 <= x < |c.rob| ==>
          && c1.rob[x] == c.rob[x].(pending := c1.rob[x].pending, regReady := c1.rob[x].regReady,
                                    executed := if x == p then Completed else c.rob[x].executed)
          && c1.rob[x].pending == c.rob[x].pending - |SlotsFed(c.rob[p], x)|
          && c1.rob[x].regReady == (c.rob[x].regReady || x in Freshly(c, p)))
    && c1.rte0 == c.rte0 + Ascending(set x | x in Freshly(c, p) && !c.rob[x].isMemory, |c.rob|)
    && c1.rte1 == c.rte1
  }

  /** The consumers for which `p` was the last pending producer. */
  ghost function Freshly(c: Core, p: nat): (r: set<nat>)
    requires p < |c.rob| && |c.rob[p].slotDependents| == SOURCES
    ensures forall x <- r :: x < |c.rob|
  {
    set x | 0 <= x < |c.rob| && SlotsFed(c.rob[p], x) != {} && c.rob[x].pending == |SlotsFed(c.rob[p], x)|
  }

  lemma CompletedEntries(c: Core, p: nat)
    requires ShapeInv(c) && LinkInv(c) && SetInv(c.rob) && ReadyInv(c.rob) && CountInv(c.rob)
    requires p < |c.rob| && c.rob[p].executed == Inflight
    ensures IsCompleted(c, Completing(c, p), p)
  {
    var c1 := Completing(c, p);
    forall x | 0 <= x < |c.rob|
      ensures c1.rob[x] == c.rob[x].(pending := c1.rob[x].pending, regReady := c1.rob[x].regReady,
                                     executed := if x == p then Completed else c.rob[x].executed)
      ensures c1.rob[x].pending == c.rob[x].pending - |SlotsFed(c.rob[p], x)|
      ensures c1.rob[x].regReady == (c.rob[x].regReady || x in Freshly(c, p))
    {
      FreedEntry(c, p, x);
    }
    var rob1 := c.rob[p := c.rob[p].(executed := Completed)];
    forall x | 0 <= x < |c.rob| ensures SlotsFed(rob1[p], x) == SlotsFed(c.rob[p], x) {}
    assert Woken(rob1, rob1[p]) == set x | x in Freshly(c, p) && !c.rob[x].isMemory;
  }

  lemma CompletedLinks(c: Core, c1: Core, p: nat)
    requires ShapeInv(c) && LinkInv(c) && SetInv(c.rob) && CountInv(c.rob)
    requires p < |c.rob| && c.rob[p].executed == Inflight && IsCompleted(c, c1, p)
    ensures Unlinked(c.rob, c1.rob, p) && ShapeInv(c1) && LinkInv(c1) && SetInv(c1.rob) && CountInv(c1.rob)
  {
    assert Unlinked(c.rob, c1.rob, p);
    forall x | 0 <= x < |c1.rob| ensures c1.rob[x].pending == |Links(c1.rob, x)| {
      UnlinkedCount(c.rob, c1.rob, p, x);
    }
    forall q, x: nat | 0 <= q < |c1.rob| && c1.rob[q].executed != Completed
      ensures SlotsFed(c1.rob[q], x) == SlotsFed(c.rob[q], x)
    {}
  }

  lemma CompletedReady(c: Core, c1: Core, p: nat)
    requires ShapeInv(c) && LinkInv(c) && SetInv(c.rob) && ReadyInv(c.rob) && CountInv(c.rob)
    requires p < |c.rob| && c.rob[p].executed == Inflight && IsCompleted(c, c1, p)
    ensures ReadyInv(c1.rob)
  {
    forall x | 0 <= x < |c1.rob| ensures ReadyOk(c1.rob[x]) {
      assert ReadyOk(c.rob[x]);
      FreedEntry(c, p, x);
    }
  }

  lemma CompletedRunnable(c: Core, c1: Core, p: nat, x: nat)
    requires ShapeInv(c) && LinkInv(c) && SetInv(c.rob) && ReadyInv(c.rob) && CountInv(c.rob)
    requires p < |c.rob| && c.rob[p].executed == Inflight && IsCompleted(c, c1, p) && x < |c.rob|
    ensures Runnable(c1.rob[x]) <==> Runnable(c.rob[x]) || (x in Freshly(c, p) && !c.rob[x].isMemory)
    ensures x in Freshly(c, p) ==> !Runnable(c.rob[x])
  {
    assert ReadyOk(c.rob[x]);
    FreedEntry(c, p, x);
  }

  /** New runnable instructions join the end of the first queue. */
  lemma JoinedQueue(c: Core, c1: Core, q: seq<nat>)
    requires QueueInv(c) && |c1.rob| == |c.rob| && c1.rte0 == c.rte0 + q && c1.rte1 == c.rte1 && Distinct(q)
    requires forall a :: 0 <= a < |q| ==> q[a] < |c.rob| && !Runnable(c.rob[q[a]])
    requires forall x :: 0 <= x < |c.rob| ==> (Runnable(c1.rob[x]) <==> Runnable(c.rob[x]) || x in q)
    ensures QueueInv(c1)
  {
    assert forall a :: 0 <= a < |q| ==> q[a] in q;
    assert forall a :: 0 <= a < |c1.rte0| ==> c1.rte0[a] == if a < |c.rte0| then c.rte0[a] else q[a - |c.rte0|];
  }

  lemma CompletedQueue(c: Core, c1: Core, p: nat)
    requires ShapeInv(c) && LinkInv(c) && SetInv(c.rob) && ReadyInv(c.rob) && CountInv(c.rob) && QueueInv(c)
    requires p < |c.rob| && c.rob[p].executed == Inflight && IsCompleted(c, c1, p)
    ensures QueueInv(c1)
  {
    var q := Ascending(set x | x in Freshly(c, p) && !c.rob[x].isMemory, |c.rob|);
    forall x | 0 <= x < |c.rob|
      ensures Runnable(c1.rob[x]) <==> Runnable(c.rob[x]) || x in q
      ensures x in q ==> !Runnable(c.rob[x])
    {
      CompletedRunnable(c, c1, p, x);
    }
    assert forall a :: 0 <= a < |q| ==> q[a] in q;
    JoinedQueue(c, c1, q);
  }

  lemma CompletedNearest(c: Core, c1: Core, p: nat)
    requires ShapeInv(c) && NearestInv(c) && p < |c.rob| && IsCompleted(c, c1, p) && Unlinked(c.rob, c1.rob, p)
    ensures NearestInv(c1)
  {
    assert forall q :: Live(c1, q) <==> Live(c, q);
    assert forall q, x, j :: 0 <= q < |c.rob| && 0 <= x < |c.rob| ==> (Writes(c1.rob, q, x, j) <==> Writes(c.rob, q, x, j));
    forall q, x: nat, j | NearestWriter(c1, q, x, j) && c1.rob[x].scheduled != NotYet && c1.rob[q].executed != Completed
      ensures j < SOURCES && Waits(c1.rob, q, x, j)
    {
      assert NearestWriter(c, q, x, j);
      assert Waits(c.rob, q, x, j);
    }
  }

  lemma CompleteExecutionInv(c: Core, p: nat, now: nat)
    requires Inv(c) && p < |c.rob|
    ensures Inv(CompleteExecution(c, p, now))
  {
    if CanComplete(c.rob[p], now) {
      if !c.rob[p].isProducer { NobodyToTell(c, p); }
      assert CompleteExecution(c, p, now) == Completing(c, p);
      CompletedEntries(c, p);
      CompletedLinks(c, Completing(c, p), p);
      CompletedReady(c, Completing(c, p), p);
      CompletedQueue(c, Completing(c, p), p);
      CompletedNearest(c, Completing(c, p), p);
    }
  }
}
