/** The scoreboard as the simulator runs it: loops over the reorder buffer, in place. */
module OutOfOrderCores {
  import opened Options
  import opened RingOrder
  import opened Counting
  import opened IndexRings
  import opened Scoreboard
  import opened ScoreboardSafety
  import opened ScoreboardSteps
  import opened ScoreboardLinks
  import Runs = ScoreboardRuns

  // ---- Half-finished scheduling ----

  /** The entries after linking source slot `j` of `c` to producer `p`. */
  ghost function AddLink(rob: seq<Instr>, p: nat, c: nat, j: nat): (r: seq<Instr>)
    requires p < |rob| && c < |rob| && p != c && j < SOURCES && Shaped(rob[p]) && Shaped(rob[c])
    ensures |r| == |rob|
  {
    var e, x := rob[p], rob[c];
    rob[p := e.(dependents := e.dependents + {c}, isProducer := true,
                slotDependents := e.slotDependents[j := e.slotDependents[j] + {c}])]
       [c := x.(regReady := false, pending := x.pending + 1, checked := x.checked[j := true])]
  }

  /** One more link is one more chosen producer. */
  lemma LinkMore(rob: seq<Instr>, c: nat, prod: Choice, p: nat, j: nat)
    requires AllShaped(rob) && c < |rob| && p < |rob| && p != c
    requires |prod| == SOURCES && j < SOURCES && prod[j] == None && Some(c) !in prod
    ensures AllShaped(Link(rob, c, prod))
    ensures Link(rob, c, prod[j := Some(p)]) == AddLink(Link(rob, c, prod), p, c, j)
  {
    var prod1 := prod[j := Some(p)];
    assert Chosen(prod1) == Chosen(prod) + {j};
    assert prod1[j] == Some(p);
    forall k | 0 <= k < |rob| ensures Link(rob, c, prod1)[k] == AddLink(Link(rob, c, prod), p, c, j)[k] {
      if k == c {
        assert Awaits(rob[c], prod1).checked == Awaits(rob[c], prod).checked[j := true];
      } else if k == p {
        FeedsMore(rob[p], p, c, prod, j);
      } else {
        FeedsOther(rob[k], k, c, prod, p, j);
      }
    }
  }

  lemma FeedsMore(e: Instr, p: nat, c: nat, prod: Choice, j: nat)
    requires |prod| == |e.slotDependents| == SOURCES && j < SOURCES && prod[j] == None
    ensures var f := Feeds(e, p, c, prod);
            Feeds(e, p, c, prod[j := Some(p)])
            == f.(dependents := f.dependents + {c}, isProducer := true,
                  slotDependents := f.slotDependents[j := f.slotDependents[j] + {c}])
  {
    var prod1 := prod[j := Some(p)];
    assert prod1[j] == Some(p);
    var f := Feeds(e, p, c, prod);
    assert Some(p) !in prod ==> forall i :: 0 <= i < SOURCES ==> prod[i] != Some(p);
    assert Feeds(e, p, c, prod1).slotDependents == f.slotDependents[j := f.slotDependents[j] + {c}];
  }

  lemma FeedsOther(e: Instr, k: nat, c: nat, prod: Choice, p: nat, j: nat)
    requires |prod| == |e.slotDependents| == SOURCES && j < SOURCES && prod[j] == None && k != p
    ensures Feeds(e, k, c, prod[j := Some(p)]) == Feeds(e, k, c, prod)
  {
    var prod1 := prod[j := Some(p)];
    assert forall i :: 0 <= i < SOURCES ==> (prod1[i] == Some(k) <==> prod[i] == Some(k));
    if Some(k) in prod {
      var i :| 0 <= i < SOURCES && prod[i] == Some(k);
      assert prod1[i] == Some(k);
    }
  }

  /** The producers chosen among the places `k` and up; slots below `j` have also seen place `k - 1`. */
  ghost function ChosenFrom(rob: seq<Instr>, head: nat, c: nat, k: nat, j: nat): (r: Choice)
    requires head < |rob| && c < |rob| && k <= Pos(c, head, |rob|)
    ensures |r| == SOURCES
    ensures Some(c) !in r
  {
    var r := seq(SOURCES, i requires 0 <= i < SOURCES =>
               if i < j && k > 0 then ProducerFrom(rob, head, c, i, k - 1) else ProducerFrom(rob, head, c, i, k));
    assert forall i :: 0 <= i < SOURCES ==> r[i] != Some(c);
    r
  }

  /** Linking leaves the registers of an entry alone. */
  lemma LinkedShape(rob: seq<Instr>, c: nat, prod: Choice, p: nat, j: nat)
    requires AllShaped(rob) && c < |rob| && p < |rob| && |prod| == SOURCES && rob[c].checked == EMPTY.checked && j < SOURCES
    ensures AllShaped(Link(rob, c, prod))
    ensures Link(rob, c, prod)[c].src == rob[c].src
    ensures Link(rob, c, prod)[c].checked[j] == prod[j].Some?
    ensures Writes(Link(rob, c, prod), p, c, j) <==> Writes(rob, p, c, j)
  {}

  /** Slot `j` sees place `k`. */
  lemma LinkSlot(rob: seq<Instr>, head: nat, prior: nat, c: nat, k: nat, j: nat)
    requires head < |rob| && prior < |rob| && c < |rob| && j < SOURCES
    requires AllShaped(rob) && rob[c].checked == EMPTY.checked && rob[prior].executed != Completed
    requires k == Pos(prior, head, |rob|) < Pos(c, head, |rob|)
    ensures var prod := ChosenFrom(rob, head, c, k + 1, j); var next := ChosenFrom(rob, head, c, k + 1, j + 1);
            if Writes(rob, prior, c, j) && prod[j] == None then next == prod[j := Some(prior)] else next == prod
  {
    assert prior == At(k, head, |rob|);
    var prod := ChosenFrom(rob, head, c, k + 1, j);
    assert prod[j] == ProducerFrom(rob, head, c, j, k + 1);
  }

  /**
    The entries `rob` once the sources of `c` have been linked to producers at the places `k`
    and up; slots below `j` have also seen place `k - 1`.
   */
  ghost predicate LinkedFrom(rob0: seq<Instr>, head: nat, c: nat, k: int, j: nat, rob: seq<Instr>) {
    && AllShaped(rob0) && head < |rob0| && c < |rob0| && 0 <= k <= Pos(c, head, |rob0|)
    && rob == Link(rob0, c, ChosenFrom(rob0, head, c, k, j))
  }

  /** One more source slot of `c` sees the place of `prior`. */
  lemma LinkStep(rob0: seq<Instr>, head: nat, prior: nat, c: nat, k: nat, j: nat, rob: seq<Instr>)
    requires LinkedFrom(rob0, head, c, k + 1, j, rob) && rob0[c].checked == EMPTY.checked && j < SOURCES
    requires prior < |rob0| && k == Pos(prior, head, |rob0|) && rob0[prior].executed != Completed
    ensures AllShaped(rob) && |rob| == |rob0| && prior != c
    ensures rob[prior].executed != Completed
    ensures LinkedFrom(rob0, head, c, k + 1, j + 1,
                   if rob[c].src[j] != 0 && !rob[c].checked[j] && Writes(rob, prior, c, j) then AddLink(rob, prior, c, j) else rob)
  {
    var prod := ChosenFrom(rob0, head, c, k + 1, j);
    LinkSlot(rob0, head, prior, c, k, j);
    LinkedShape(rob0, c, prod, prior, j);
    if Writes(rob0, prior, c, j) && prod[j] == None {
      LinkMore(rob0, c, prod, prior, j);
    }
  }

  /** All source slots have seen the place, or it has completed and feeds none. */
  lemma LinkPlace(rob0: seq<Instr>, head: nat, prior: nat, c: nat, k: nat, rob: seq<Instr>)
    requires prior < |rob0| && k == Pos(prior, head, |rob0|)
    requires if rob0[prior].executed != Completed then LinkedFrom(rob0, head, c, k + 1, SOURCES, rob) else LinkedFrom(rob0, head, c, k + 1, 0, rob)
    ensures LinkedFrom(rob0, head, c, k, 0, rob)
  {
    assert prior == At(k, head, |rob0|);
    if rob0[prior].executed != Completed {
      assert ChosenFrom(rob0, head, c, k + 1, SOURCES) == ChosenFrom(rob0, head, c, k, 0);
    } else {
      assert ChosenFrom(rob0, head, c, k + 1, 0) == ChosenFrom(rob0, head, c, k, 0);
    }
  }

  /** Linking does not touch what has completed. */
  lemma LinkedStage(rob0: seq<Instr>, head: nat, c: nat, k: int, j: nat, rob: seq<Instr>, p: nat)
    requires LinkedFrom(rob0, head, c, k, j, rob) && p < |rob0|
    ensures |rob| == |rob0| && rob[p].executed == rob0[p].executed
  {
  }

  lemma AllChosen(rob0: seq<Instr>, head: nat, c: nat, rob: seq<Instr>)
    requires LinkedFrom(rob0, head, c, 0, 0, rob)
    ensures rob == Link(rob0, c, Producers(rob0, head, c))
  {
    assert ChosenFrom(rob0, head, c, 0, 0) == Producers(rob0, head, c);
  }

  lemma NothingChosen(rob: seq<Instr>, head: nat, c: nat)
    requires AllShaped(rob) && head < |rob| && c < |rob|
    ensures LinkedFrom(rob, head, c, Pos(c, head, |rob|), 0, rob)
  {
    var prod := ChosenFrom(rob, head, c, Pos(c, head, |rob|), 0);
    assert forall j :: 0 <= j < SOURCES ==> prod[j] == None;
    assert Chosen(prod) == {};
    assert Awaits(rob[c], prod).checked == rob[c].checked;
  }

  /** Producers depend on registers and completion only. */
  lemma {:induction false} SameProducerFrom(r: seq<Instr>, r1: seq<Instr>, head: nat, c: nat, j: nat, k: nat)
    requires |r| == |r1| && head < |r| && c < |r| && k <= Pos(c, head, |r|)
    requires forall i :: 0 <= i < |r| ==> r1[i].src == r[i].src && r1[i].dst == r[i].dst && r1[i].executed == r[i].executed
    ensures ProducerFrom(r1, head, c, j, k) == ProducerFrom(r, head, c, j, k)
    decreases Pos(c, head, |r|) - k
  {
    if k < Pos(c, head, |r|) {
      SameProducerFrom(r, r1, head, c, j, k + 1);
    }
  }

  lemma SameProducers(r: seq<Instr>, r1: seq<Instr>, head: nat, c: nat)
    requires |r| == |r1| && head < |r| && c < |r|
    requires forall i :: 0 <= i < |r| ==> r1[i].src == r[i].src && r1[i].dst == r[i].dst && r1[i].executed == r[i].executed
    ensures Producers(r1, head, c) == Producers(r, head, c)
  {
    forall j | 0 <= j < SOURCES ensures Producer(r1, head, c, j) == Producer(r, head, c, j) {
      SameProducerFrom(r, r1, head, c, j, 0);
    }
  }

  // ---- Half-finished release ----

  /** Members below `m` come first, and nothing is listed for a stretch without members. */
  lemma {:induction false} AscendingPrefix(s: set<nat>, m: nat, n: nat)
    requires m <= n
    ensures Ascending(s, m) <= Ascending(s, n)
    ensures (forall i :: m <= i < n ==> i !in s) ==> Ascending(s, n) == Ascending(s, m)
  {
    if m < n {
      AscendingPrefix(s, m, n - 1);
    }
  }

  ghost function FedBelow(e: Instr, x: nat, j: nat): set<nat>
    requires |e.slotDependents| == SOURCES
  {
    set i | i in SlotsFed(e, x) && i < j
  }

  lemma FedNext(e: Instr, x: nat, j: nat)
    requires |e.slotDependents| == SOURCES && j < SOURCES
    ensures |FedBelow(e, x, j + 1)| == |FedBelow(e, x, j)| + if x in e.slotDependents[j] then 1 else 0
    ensures |FedBelow(e, x, j)| + (if x in e.slotDependents[j] then 1 else 0) <= |SlotsFed(e, x)|
    ensures FedBelow(e, x, SOURCES) == SlotsFed(e, x) && FedBelow(e, x, 0) == {}
  {
    var next := FedBelow(e, x, j + 1);
    assert next == if x in e.slotDependents[j] then FedBelow(e, x, j) + {j} else FedBelow(e, x, j);
    CardinalOfSubset(next, SlotsFed(e, x));
  }

  /** A consumer once its first `gone` links to a completed producer are undone. */
  ghost function PartlyFreed(x: Instr, gone: nat): Instr {
    if gone > 0 && x.pending == gone then
      x.(pending := 0, regReady := true, scheduled := if x.isMemory then Inflight else Completed)
    else
      x.(pending := x.pending - gone)
  }

  /** Every consumer waits for at least the links it has to `p`, and the queue has room for the woken. */
  ghost predicate CanRelease(c: Core, p: nat) {
    && p < |c.rob| && |c.rob[p].slotDependents| == SOURCES
    && (forall x :: 0 <= x < |c.rob| && x in c.rob[p].dependents ==>
          x != p && SlotsFed(c.rob[p], x) != {} && |SlotsFed(c.rob[p], x)| <= c.rob[x].pending)
    && |c.rte0| + |Ascending(Woken(c.rob, c.rob[p]), |c.rob|)| <= |c.rob|
  }

  /** The first `a` consumers have been told. */
  ghost predicate ToldUpTo(rob: seq<Instr>, rob1: seq<Instr>, e: Instr, told: seq<nat>)
    requires |e.slotDependents| == SOURCES
  {
    |rob1| == |rob| && forall x :: 0 <= x < |rob| ==>
      rob1[x] == if x in told then Freed(rob[x], x, e) else rob[x]
  }

  /** Where the next consumer is. */
  function Next(list: seq<nat>, a: nat, n: nat): nat { if a < |list| then list[a] else n }

  lemma NextWoken(woken: set<nat>, list: seq<nat>, a: nat, n: nat)
    requires a < |list| && (forall i :: 0 <= i < |list| ==> list[i] < n) && (forall i, j :: 0 <= i < j < |list| ==> list[i] < list[j])
    requires forall i :: i in woken && i < n ==> i in list
    ensures Ascending(woken, Next(list, a + 1, n))
            == Ascending(woken, list[a]) + if list[a] in woken then [list[a]] else []
    ensures |Ascending(woken, list[a])| + (if list[a] in woken then 1 else 0) <= |Ascending(woken, n)|
  {
    var next := Next(list, a + 1, n);
    forall i | list[a] < i < next ensures i !in woken {
      NoMemberBetween(list, a, n, i);
    }
    AscendingPrefix(woken, list[a] + 1, next);
    AscendingPrefix(woken, list[a] + 1, n);
  }

  lemma NoMemberBetween(list: seq<nat>, a: nat, n: nat, i: nat)
    requires a < |list| && forall i, j :: 0 <= i < j < |list| ==> list[i] < list[j]
    requires list[a] < i < Next(list, a + 1, n)
    ensures i !in list
  {
    forall k | 0 <= k < |list| ensures list[k] != i {
      assert k <= a || k == a + 1 || a + 1 < k;
    }
  }

  lemma FirstWoken(woken: set<nat>, list: seq<nat>, n: nat)
    requires (forall i :: 0 <= i < |list| ==> list[i] < n) && (forall i, j :: 0 <= i < j < |list| ==> list[i] < list[j])
    requires forall i :: i in woken && i < n ==> i in list
    ensures Ascending(woken, Next(list, 0, n)) == []
  {
    AscendingPrefix(woken, 0, Next(list, 0, n));
  }

  /** The next consumer has not been told yet, and waits for all its links to `p`. */
  lemma NextConsumer(c: Core, p: nat, rob1: seq<Instr>, list: seq<nat>, a: nat)
    requires CanRelease(c, p) && list == Ascending(c.rob[p].dependents, |c.rob|) && a < |list|
    requires ToldUpTo(c.rob, rob1, c.rob[p], list[..a])
    ensures list[a] != p && rob1[p] == c.rob[p] && list[a] in c.rob[p].dependents && rob1[list[a]] == c.rob[list[a]]
    ensures SlotsFed(c.rob[p], list[a]) != {} && |SlotsFed(c.rob[p], list[a])| <= c.rob[list[a]].pending
    ensures ToldUpTo(c.rob, rob1[list[a] := Freed(rob1[list[a]], list[a], c.rob[p])], c.rob[p], list[..a + 1])
  {
    var x := list[a];
    assert x in list;
    assert x !in list[..a] && p !in list[..a];
    assert list[..a + 1] == list[..a] + [x];
  }

  /** The release loop has told the first `a` consumers of `list`. */
  ghost predicate ReleaseLoop(c: Core, p: nat, rob1: seq<Instr>, rte0: seq<nat>, list: seq<nat>, a: nat) {
    && CanRelease(c, p) && list == Ascending(c.rob[p].dependents, |c.rob|) && a <= |list|
    && ToldUpTo(c.rob, rob1, c.rob[p], list[..a])
    && rte0 == c.rte0 + Ascending(Woken(c.rob, c.rob[p]), Next(list, a, |c.rob|))
  }

  lemma ReleaseStarts(c: Core, p: nat, list: seq<nat>)
    requires CanRelease(c, p) && list == Ascending(c.rob[p].dependents, |c.rob|)
    ensures ReleaseLoop(c, p, c.rob, c.rte0, list, 0)
  {
    FirstWoken(Woken(c.rob, c.rob[p]), list, |c.rob|);
  }

  /** The next consumer can be told: it is not `p`, and the queue has room if it wakes up. */
  lemma ReleaseCanTell(c: Core, p: nat, rob1: seq<Instr>, rte0: seq<nat>, list: seq<nat>, a: nat)
    requires ReleaseLoop(c, p, rob1, rte0, list, a) && a < |list|
    ensures list[a] != p && |rob1| == |c.rob| && list[a] < |c.rob| && rob1[p] == c.rob[p] && list[a] in c.rob[p].dependents
    ensures SlotsFed(c.rob[p], list[a]) != {} && |SlotsFed(c.rob[p], list[a])| <= rob1[list[a]].pending
    ensures !rob1[list[a]].isMemory && rob1[list[a]].pending == |SlotsFed(c.rob[p], list[a])| ==> |rte0| < |c.rob|
  {
    var woken := Woken(c.rob, c.rob[p]);
    NextConsumer(c, p, rob1, list, a);
    NextWoken(woken, list, a, |c.rob|);
  }

  lemma ReleaseTold(c: Core, p: nat, rob1: seq<Instr>, rte0: seq<nat>, list: seq<nat>, a: nat)
    requires ReleaseLoop(c, p, rob1, rte0, list, a) && a < |list| && |rob1| == |c.rob| && list[a] < |c.rob|
    ensures ReleaseLoop(c, p, rob1[list[a] := Freed(rob1[list[a]], list[a], c.rob[p])],
                        rte0 + (if !rob1[list[a]].isMemory && rob1[list[a]].pending == |SlotsFed(c.rob[p], list[a])|
                                then [list[a]] else []),
                        list, a + 1)
  {
    NextConsumer(c, p, rob1, list, a);
    NextWoken(Woken(c.rob, c.rob[p]), list, a, |c.rob|);
  }

  lemma ReleaseEnds(c: Core, p: nat, rob1: seq<Instr>, rte0: seq<nat>, list: seq<nat>)
    requires ReleaseLoop(c, p, rob1, rte0, list, |list|)
    ensures c.(rob := rob1, rte0 := rte0) == Release(c, p)
  {
    assert list[..|list|] == list;
    assert rob1 == Release(c, p).rob;
  }

  /** A completing producer can release its consumers. */
  lemma CompletedCanRelease(c: Core, p: nat)
    requires Inv(c) && p < |c.rob| && c.rob[p].executed == Inflight
    ensures CanRelease(c.(rob := c.rob[p := c.rob[p].(executed := Completed)]), p)
  {
    var c1 := c.(rob := c.rob[p := c.rob[p].(executed := Completed)]);
    CompletedEntries(c, p);
    CompletedQueue(c, Completing(c, p), p);
    QueuesFit(Completing(c, p));
    forall x | 0 <= x < |c1.rob| && x in c1.rob[p].dependents
      ensures x != p && SlotsFed(c1.rob[p], x) != {} && |SlotsFed(c1.rob[p], x)| <= c1.rob[x].pending
    {
      FreedEntry(c, p, x);
      assert SlotsFed(c1.rob[p], x) == SlotsFed(c.rob[p], x);
    }
  }

  // ---- Loops over the reorder buffer ----

  lemma OccupiedIsLive(c: Core, i: nat)
    requires Inv(c) && i < |c.rob|
    ensures c.rob[i].ip != 0 <==> Live(c, i)
  {}

  /** update_rob checks every entry in program order; here the first `k` places. */
  ghost function CompleteUpTo(c: Core, k: nat, now: nat): (r: Core)
    requires Inv(c) && k <= |c.rob|
    ensures Inv(r) && |r.rob| == |c.rob| && r.head == c.head && r.occupancy == c.occupancy
  {
    if k == 0 then c
    else
      var before := CompleteUpTo(c, k - 1, now);
      CompleteExecutionInv(before, At(k - 1, c.head, |c.rob|), now);
      CompleteExecution(before, At(k - 1, c.head, |c.rob|), now)
  }

  /** schedule_instruction stops at the first entry that is empty, too young, or past the window. */
  ghost function ScheduleFrom(c: Core, i: nat, budget: nat, now: nat, latency: nat): (r: Core)
    requires Inv(c) && i <= |c.rob|
    ensures Inv(r)
    decreases |c.rob| - i
  {
    if i == |c.rob| || c.rob[i].ip == 0 || c.rob[i].eventCycle > now || budget == 0 then c
    else if c.rob[i].scheduled == NotYet then
      DoSchedulingInv(c, i, now, latency);
      ScheduleFrom(DoScheduling(c, i, now, latency), i + 1, budget - 1, now, latency)
    else ScheduleFrom(c, i + 1, budget - 1, now, latency)
  }

  /** Start up to `budget` instructions of the first queue, while its head is due. */
  ghost function StartFirst(c: Core, budget: nat, now: nat, latency: nat): (r: (Core, nat))
    requires Inv(c)
    ensures Inv(r.0) && r.1 <= budget
    decreases budget
  {
    if budget == 0 || c.rte0 == [] || c.rob[c.rte0[0]].eventCycle > now then (c, budget)
    else
      Execute0Inv(c, now, latency);
      StartFirst(Execute0(c, now, latency), budget - 1, now, latency)
  }

  ghost function StartSecond(c: Core, budget: nat, now: nat, latency: nat): (r: Core)
    requires Inv(c)
    ensures Inv(r)
    decreases budget
  {
    if budget == 0 || c.rte1 == [] || c.rob[c.rte1[0]].eventCycle > now then c
    else
      Execute1Inv(c, now, latency);
      StartSecond(Execute1(c, now, latency), budget - 1, now, latency)
  }

  /** Retire up to `budget` completed instructions from the head. */
  ghost function RetireSome(c: Core, budget: nat): (r: Core)
    requires Inv(c)
    ensures Inv(r)
    decreases budget
  {
    if budget == 0 || c.occupancy == 0 || c.rob[c.head].executed != Completed then c
    else
      RetireInv(c);
      RetireSome(Retire(c), budget - 1)
  }

  /** An instruction that has not been scheduled has no links yet and is in no queue, which has room for it. */
  lemma ReadyToSchedule(c: Core, i: nat)
    requires Inv(c) && Live(c, i) && c.rob[i].scheduled == NotYet
    ensures c.head < |c.rob| && AllShaped(c.rob) && c.rob[i].checked == EMPTY.checked && |c.rte1| < |c.rob|
  {
    assert ReadyOk(c.rob[i]);
    QueuesFit(c);
    assert i !in c.rte0 && i !in c.rte1;
  }

  /** How many places there are from the head to the tail; all of them if the two meet. */
  function Span(head: nat, tail: nat, n: nat): (r: nat)
    requires head < n && tail <= n
    ensures r <= n || tail > head
  {
    if head < tail then tail - head else n - head + tail
  }

  /** State `r` is `c` once the `k` oldest places have been checked for completion. */
  ghost predicate UpTo(c: Core, k: nat, now: nat, r: Core) { Inv(c) && k <= |c.rob| && r == CompleteUpTo(c, k, now) && Inv(r) }

  lemma UpToNothing(c: Core, now: nat)
    requires Inv(c)
    ensures UpTo(c, 0, now, c)
  {
  }

  lemma CompleteNext(c: Core, k: nat, now: nat, r: Core)
    requires UpTo(c, k, now, r) && k < |c.rob|
    ensures Inv(r) && |r.rob| == |c.rob| && r.head == c.head < |c.rob| && AllShaped(r.rob)
    ensures UpTo(c, k + 1, now, CompleteExecution(r, At(k, c.head, |c.rob|), now))
  {
  }

  class OutOfOrderCore {
    const rob: array<Instr>
    const rte0: IndexRing
    const rte1: IndexRing
    const schedulingLatency: nat
    const execLatency: nat
    var head: nat
    var tail: nat
    var occupancy: nat

    ghost predicate Valid()
      reads this, rte0, rte0.slots, rte1, rte1.slots
    {
      && rob.Length > 0 && head < rob.Length && occupancy <= rob.Length && tail == At(occupancy, head, rob.Length)
      && rte0 != rte1 && rte0.slots != rte1.slots && rte0.Valid() && rte1.Valid()
      && rte0.slots.Length == rte1.slots.Length == rte0.empty == rte1.empty == rob.Length
      && rob as object != rte0.slots && rob as object != rte1.slots
    }

    ghost function Value(): Core
      reads this, rob, rte0, rte1
    {
      Core(rob[..], head, occupancy, rte0.contents, rte1.contents)
    }

    constructor (size: nat, schedulingLatency: nat, execLatency: nat)
      requires size > 0
      ensures Valid() && Value() == Initial(size) && Inv(Value())
      ensures fresh(rob) && fresh(rte0) && fresh(rte0.slots) && fresh(rte1) && fresh(rte1.slots)
    {
      var q0 := new IndexRing(size, size);
      var q1 := new IndexRing(size, size);
      rob := new Instr[size](_ => EMPTY);
      rte0 := q0;
      rte1 := q1;
      this.schedulingLatency := schedulingLatency;
      this.execLatency := execLatency;
      head := 0;
      tail := 0;
      occupancy := 0;
      Runs.InitialInv(size);
    }

    /** A dispatched instruction takes the tail slot, which is empty. */
    method AddToRob(e: Instr)
      requires Valid() && Inv(Value()) && occupancy < rob.Length && Fresh(e)
      modifies this, rob
      ensures Valid() && Value() == Dispatch(old(Value()), e) && Inv(Value())
    {
      DispatchInv(Value(), e);
      // The sanity check of the source: the slot is empty.
      assert rob[tail] == EMPTY;
      rob[tail] := e;
      occupancy := occupancy + 1;
      tail := tail + 1;
      if tail >= rob.Length {
        tail := 0;
      }
    }

    /** Link source slot `j` of `current` to `prior`, if `prior` writes that register. */
    method RegRawDependency(prior: nat, current: nat, j: nat)
      requires prior < rob.Length && current < rob.Length && prior != current && j < SOURCES
      requires Shaped(rob[prior]) && Shaped(rob[current]) && rob[current].src[j] != 0
      modifies rob
      ensures rob[..] == if Writes(old(rob[..]), prior, current, j)
                         then AddLink(old(rob[..]), prior, current, j) else old(rob[..])
    {
      for i := 0 to |rob[prior].dst|
        invariant rob[..] == old(rob[..])
        invariant forall k :: 0 <= k < i ==> rob[prior].dst[k] != rob[current].src[j]
      {
        if rob[prior].dst[i] == 0 {
          continue;
        }
        if rob[prior].dst[i] == rob[current].src[j] {
          var p, x := rob[prior], rob[current];
          rob[prior] := p.(dependents := p.dependents + {current}, isProducer := true,
                           slotDependents := p.slotDependents[j := p.slotDependents[j] + {current}]);
          rob[current] := x.(regReady := false, pending := x.pending + 1, checked := x.checked[j := true]);
          return;
        }
      }
    }

    /** One source of `current` sees `prior`, if it is not linked yet. */
    method LinkSource(prior: nat, current: nat, j: nat, ghost rob0: seq<Instr>, ghost k: nat)
      requires head < rob.Length && prior < rob.Length && current < rob.Length && |rob0| == rob.Length && j < SOURCES
      requires AllShaped(rob0) && rob0[current].checked == EMPTY.checked && rob0[prior].executed != Completed
      requires k == Pos(prior, head, rob.Length) && LinkedFrom(rob0, head, current, k + 1, j, rob[..])
      modifies rob
      ensures LinkedFrom(rob0, head, current, k + 1, j + 1, rob[..])
    {
      LinkStep(rob0, head, prior, current, k, j, rob[..]);
      hide LinkedFrom, AddLink, Writes;
      assert Shaped(rob[prior]) && Shaped(rob[current]);
      if rob[current].src[j] != 0 && !rob[current].checked[j] {
        RegRawDependency(prior, current, j);
      }
    }

    /** Let the entry at place `k`, older than `current`, feed the sources not yet linked. */
    method LinkTo(prior: nat, current: nat, ghost rob0: seq<Instr>, ghost k: nat)
      requires rob.Length > 0 && head < rob.Length && prior < rob.Length && current < rob.Length
      requires |rob0| == rob.Length && AllShaped(rob0) && rob0[current].checked == EMPTY.checked
      requires k == Pos(prior, head, rob.Length) < Pos(current, head, rob.Length)
      requires LinkedFrom(rob0, head, current, k + 1, 0, rob[..])
      modifies rob
      ensures LinkedFrom(rob0, head, current, k, 0, rob[..])
    {
      LinkedStage(rob0, head, current, k + 1, 0, rob[..], prior);
      hide LinkedFrom, AddLink, Writes;
      if rob[prior].executed != Completed {
        for j := 0 to SOURCES
          invariant LinkedFrom(rob0, head, current, k + 1, j, rob[..])
        {
          LinkSource(prior, current, j, rob0, k);
        }
      }
      LinkPlace(rob0, head, prior, current, k, rob[..]);
    }

    /** Link every source of `i` to its youngest older uncompleted writer. */
    method RegDependency(i: nat)
      requires rob.Length > 0 && head < rob.Length && i < rob.Length
      requires AllShaped(rob[..]) && rob[i].checked == EMPTY.checked
      modifies rob
      ensures rob[..] == Link(old(rob[..]), i, Producers(old(rob[..]), head, i))
    {
      ghost var rob0 := rob[..];
      ghost var n := rob.Length;
      NothingChosen(rob0, head, i);
      hide LinkedFrom;
      var prior := if i == 0 then rob.Length - 1 else i - 1;
      if i != head {
        if head <= prior {
          for p := prior + 1 downto head
            invariant LinkedFrom(rob0, head, i, Pos(p, head, n), 0, rob[..])
          {
            LinkTo(p, i, rob0, Pos(p, head, n));
          }
        } else {
          for p := prior + 1 downto 0
            invariant LinkedFrom(rob0, head, i, p + n - head, 0, rob[..])
          {
            LinkTo(p, i, rob0, Pos(p, head, n));
          }
          for p := rob.Length downto head
            invariant LinkedFrom(rob0, head, i, p - head, 0, rob[..])
          {
            LinkTo(p, i, rob0, Pos(p, head, n));
          }
        }
      }
      AllChosen(rob0, head, i, rob[..]);
    }

    /** Schedule the entry at `i`; a ready non-memory instruction goes to RTE1. */
    method DoScheduling(i: nat, now: nat)
      requires Valid() && Inv(Value()) && Live(Value(), i) && rob[i].scheduled == NotYet
      modifies rob, rte1, rte1.slots
      ensures Valid() && Value() == Scoreboard.DoScheduling(old(Value()), i, now, schedulingLatency) && Inv(Value())
    {
      ghost var c := Value();
      hide Inv, Link, Producers, Settle;
      ReadyToSchedule(c, i);
      DoSchedulingInv(c, i, now, schedulingLatency);
      MarkReady(i);
      SameProducers(c.rob, rob[..], head, i);
      RegDependency(i);
      SettleEntry(i, now);
    }

    method MarkReady(i: nat)
      requires i < rob.Length
      modifies rob
      ensures rob[..] == old(rob[..])[i := old(rob[i]).(regReady := true)]
    {
      rob[i] := rob[i].(regReady := true);
    }

    method SettleEntry(i: nat, now: nat)
      requires Valid() && i < rob.Length && |rte1.contents| < rob.Length
      modifies rob, rte1, rte1.slots
      ensures Valid() && Value() == Settle(old(Value()), i, now, schedulingLatency)
    {
      var e := rob[i];
      if e.isMemory {
        rob[i] := e.(scheduled := Inflight);
      } else {
        rob[i] := e.(scheduled := Completed,
                     eventCycle := if e.eventCycle < now then now + schedulingLatency else e.eventCycle + schedulingLatency);
        if e.regReady {
          rte1.Push(i);
        }
      }
    }

    /** Undo the links of one consumer to the completed producer at `p`. */
    method ReleaseConsumer(p: nat, x: nat)
      requires Valid() && p < rob.Length && x < rob.Length && p != x && |rob[p].slotDependents| == SOURCES
      requires x in rob[p].dependents && SlotsFed(rob[p], x) != {} && |SlotsFed(rob[p], x)| <= rob[x].pending
      requires !rob[x].isMemory && rob[x].pending == |SlotsFed(rob[p], x)| ==> |rte0.contents| < rob.Length
      modifies rob, rte0, rte0.slots
      ensures Valid() && rob[..] == old(rob[..])[x := Freed(old(rob[x]), x, old(rob[p]))]
      ensures rte0.contents == old(rte0.contents)
                + if !old(rob[x].isMemory) && old(rob[x].pending) == |SlotsFed(old(rob[p]), x)| then [x] else []
    {
      ghost var x0, e := rob[x], rob[p];
      ghost var gone: nat := 0;
      for j := 0 to SOURCES
        invariant Valid() && gone == |FedBelow(e, x, j)|
        invariant rob[..] == old(rob[..])[x := PartlyFreed(x0, gone)]
        invariant rte0.contents == old(rte0.contents) + if !x0.isMemory && gone > 0 && x0.pending == gone then [x] else []
      {
        FedNext(e, x, j);
        assert rob[p] == e && rob[x] == PartlyFreed(x0, gone);
        if x in rob[p].slotDependents[j] {
          gone := gone + 1;
          var pending := rob[x].pending - 1;
          rob[x] := rob[x].(pending := pending);
          if pending == 0 {
            rob[x] := rob[x].(regReady := true);
            if rob[x].isMemory {
              rob[x] := rob[x].(scheduled := Inflight);
            } else {
              rob[x] := rob[x].(scheduled := Completed);
              rte0.Push(x);
            }
          }
        }
      }
      FedNext(e, x, 0);
    }

    /** Tell every consumer of the completed entry at `p`, in ascending order. */
    method RegRawRelease(p: nat)
      requires Valid() && p < rob.Length && |rob[p].slotDependents| == SOURCES && CanRelease(Value(), p)
      modifies rob, rte0, rte0.slots
      ensures Valid() && Value() == Release(old(Value()), p)
    {
      hide ReleaseLoop, Ascending, Freed, Release;
      ghost var c := Value();
      var list := Ascending(rob[p].dependents, rob.Length);
      ReleaseStarts(c, p, list);
      for a := 0 to |list|
        invariant Valid() && ReleaseLoop(c, p, rob[..], rte0.contents, list, a)
      {
        ReleaseCanTell(c, p, rob[..], rte0.contents, list, a);
        ReleaseTold(c, p, rob[..], rte0.contents, list, a);
        ReleaseConsumer(p, list[a]);
      }
      ReleaseEnds(c, p, rob[..], rte0.contents, list);
    }

    method CompleteExecution(i: nat, now: nat)
      requires Valid() && Inv(Value()) && i < rob.Length
      modifies rob, rte0, rte0.slots
      ensures Valid() && Value() == Scoreboard.CompleteExecution(old(Value()), i, now) && Inv(Value())
    {
      CompleteExecutionInv(Value(), i, now);
      if !rob[i].isMemory {
        if rob[i].executed == Inflight && rob[i].eventCycle <= now {
          Finish(i);
        }
      } else if rob[i].memOps == 0 {
        if rob[i].executed == Inflight && rob[i].eventCycle <= now {
          Finish(i);
        }
      }
    }

    method Finish(i: nat)
      requires Valid() && Inv(Value()) && i < rob.Length && rob[i].executed == Inflight
      modifies rob, rte0, rte0.slots
      ensures Valid()
      ensures var c := old(Value()); var c1 := c.(rob := c.rob[i := c.rob[i].(executed := Completed)]);
              Value() == if c.rob[i].isProducer then Release(c1, i) else c1
    {
      ghost var c := Value();
      CompletedCanRelease(c, i);
      rob[i] := rob[i].(executed := Completed);
      assert Value() == c.(rob := c.rob[i := c.rob[i].(executed := Completed)]);
      if rob[i].isProducer {
        RegRawRelease(i);
      }
    }

    /** Check every entry for completion, oldest first. */
    method UpdateRob(now: nat)
      requires Valid() && Inv(Value())
      modifies rob, rte0, rte0.slots
      ensures Valid() && UpTo(old(Value()), Span(head, tail, rob.Length), now, Value())
    {
      ghost var c := Value();
      ghost var places := Span(head, tail, rob.Length);
      UpToNothing(c, now);
      hide Inv, UpTo;
      UpdateFrom(now, c, places);
    }

    /** The one or two stretches of the array between head and tail, which are `places` in all. */
    method UpdateFrom(now: nat, ghost c: Core, ghost places: nat)
      requires Valid() && |c.rob| == rob.Length && c.head == head && UpTo(c, 0, now, Value())
      requires head < rob.Length && tail < rob.Length && places == Span(head, tail, rob.Length)
      modifies rob, rte0, rte0.slots
      ensures Valid() && UpTo(c, places, now, Value())
    {
      if head < tail {
        hide Inv, UpTo;
        CompleteRange(head, tail, now, c, 0, places);
      } else {
        ghost var k: nat := rob.Length - head;
        hide Inv, UpTo;
        CompleteRange(head, rob.Length, now, c, 0, k);
        CompleteRange(0, tail, now, c, k, places);
      }
    }

    /** Check the slots from `from` to `to`, which are the places from `k` to `k1`. */
    method CompleteRange(from: nat, to: nat, now: nat, ghost c: Core, ghost k: nat, ghost k1: nat)
      requires Valid() && from <= to <= rob.Length && k1 == k + (to - from) <= rob.Length
      requires |c.rob| == rob.Length && c.head == head && UpTo(c, k, now, Value())
      requires from < to ==> (from >= head && k == from - head) || (to <= head && k == rob.Length - head + from)
      modifies rob, rte0, rte0.slots
      ensures Valid() && UpTo(c, k1, now, Value())
    {
      hide Inv, UpTo, Scoreboard.CompleteExecution;
      for i := from to to
        invariant Valid() && UpTo(c, k + i - from, now, Value())
      {
        CompleteNext(c, k + i - from, now, Value());
        CompleteExecution(i, now);
      }
    }

    /** Schedule in program order from the head to the end of the buffer array. */
    method ScheduleInstruction(window: nat, now: nat)
      requires Valid() && Inv(Value())
      modifies rob, rte1, rte1.slots
      ensures Valid() && Inv(Value())
      ensures Value() == ScheduleFrom(old(Value()), old(head), window, now, schedulingLatency)
    {
      hide ShapeInv, LinkInv, SetInv, CountInv, ReadyInv, QueueInv, NearestInv;
      ghost var c := Value();
      var searched := 0;
      for i := head to rob.Length
        invariant Valid() && Inv(Value()) && searched <= window
        invariant ScheduleFrom(c, head, window, now, schedulingLatency)
                  == ScheduleFrom(Value(), i, window - searched, now, schedulingLatency)
      {
        if rob[i].ip == 0 || rob[i].eventCycle > now || searched >= window {
          return;
        }
        if rob[i].scheduled == NotYet {
          OccupiedIsLive(Value(), i);
          DoScheduling(i, now);
        }
        searched := searched + 1;
      }
    }

    /** Start up to `width` instructions, those released by producers first. */
    method ExecuteInstruction(width: nat, now: nat)
      requires Valid() && Inv(Value()) && width < rob.Length - 1
      modifies rob, rte0, rte0.slots, rte1, rte1.slots
      ensures Valid() && Inv(Value())
      ensures var (c1, left) := StartFirst(old(Value()), width, now, execLatency);
              Value() == StartSecond(c1, left, now, execLatency)
    {
      hide ShapeInv, LinkInv, SetInv, CountInv, ReadyInv, QueueInv, NearestInv;
      var issued := ExecuteFirst(width, now);
      ExecuteSecond(width, issued, now);
    }

    /** The loop over RTE0: its iteration limit never stops it before the width or an undue head does. */
    method ExecuteFirst(width: nat, now: nat) returns (issued: nat)
      requires Valid() && Inv(Value()) && width < rob.Length - 1
      modifies rob, rte0, rte0.slots
      ensures Valid() && Inv(Value()) && issued <= width
      ensures (Value(), width - issued) == StartFirst(old(Value()), width, now, execLatency)
    {
      hide ShapeInv, LinkInv, SetInv, CountInv, ReadyInv, QueueInv, NearestInv;
      ghost var c := Value();
      issued := 0;
      var iterations := 0;
      ghost var waiting := false;
      while issued < width
        invariant Valid() && Inv(Value()) && iterations < rob.Length - 1 && issued <= width
        invariant if waiting then rte0.contents != [] && rob[rte0.contents[0]].eventCycle > now else issued == iterations
        invariant StartFirst(c, width, now, execLatency) == StartFirst(Value(), width - issued, now, execLatency)
        decreases rob.Length - 1 - iterations
      {
        var occupied, x := rte0.Peek();
        if !occupied {
          break;
        }
        if rob[x].eventCycle <= now {
          StartOneFirst(x, now);
          issued := issued + 1;
        } else {
          waiting := true;
        }
        iterations := iterations + 1;
        if iterations == rob.Length - 1 {
          break;
        }
      }
    }

    method StartOneFirst(x: nat, now: nat)
      requires Valid() && Inv(Value()) && rte0.contents != [] && x == rte0.contents[0]
      modifies rob, rte0, rte0.slots
      ensures Valid() && Value() == Execute0(old(Value()), now, execLatency) && Inv(Value())
    {
      Execute0Inv(Value(), now, execLatency);
      DoExecution(x, now);
      rte0.Pop();
    }

    /** The loop over RTE1, with what the first loop left of the width. */
    method ExecuteSecond(width: nat, already: nat, now: nat)
      requires Valid() && Inv(Value()) && already <= width < rob.Length - 1
      modifies rob, rte1, rte1.slots
      ensures Valid() && Inv(Value())
      ensures Value() == StartSecond(old(Value()), width - already, now, execLatency)
    {
      hide ShapeInv, LinkInv, SetInv, CountInv, ReadyInv, QueueInv, NearestInv;
      ghost var c := Value();
      var issued := already;
      var iterations := 0;
      ghost var waiting := false;
      while issued < width
        invariant Valid() && Inv(Value()) && iterations < rob.Length - 1 && already <= issued <= width
        invariant if waiting then rte1.contents != [] && rob[rte1.contents[0]].eventCycle > now
                  else issued == already + iterations
        invariant StartSecond(c, width - already, now, execLatency) == StartSecond(Value(), width - issued, now, execLatency)
        decreases rob.Length - 1 - iterations
      {
        var occupied, x := rte1.Peek();
        if !occupied {
          break;
        }
        if rob[x].eventCycle <= now {
          StartOneSecond(x, now);
          issued := issued + 1;
        } else {
          waiting := true;
        }
        iterations := iterations + 1;
        if iterations == rob.Length - 1 {
          break;
        }
      }
    }

    method StartOneSecond(x: nat, now: nat)
      requires Valid() && Inv(Value()) && rte1.contents != [] && x == rte1.contents[0]
      modifies rob, rte1, rte1.slots
      ensures Valid() && Value() == Execute1(old(Value()), now, execLatency) && Inv(Value())
    {
      Execute1Inv(Value(), now, execLatency);
      DoExecution(x, now);
      rte1.Pop();
    }

    method DoExecution(x: nat, now: nat)
      requires x < rob.Length
      modifies rob
      ensures rob[..] == old(rob[..])[x := Executing(old(rob[x]), now, execLatency)]
    {
      rob[x] := rob[x].(executed := Inflight,
                        eventCycle := if rob[x].eventCycle < now then now + execLatency else rob[x].eventCycle + execLatency);
    }

    /** The load/store queue has taken every operand of the instruction at `i`. */
    method MemoryScheduled(i: nat)
      requires Valid() && Inv(Value()) && i < rob.Length && CanIssueMemory(rob[i])
      modifies rob
      ensures Valid() && Value() == IssueMemory(old(Value()), i) && Inv(Value())
    {
      IssueMemoryInv(Value(), i);
      rob[i] := rob[i].(scheduled := Completed);
      if rob[i].executed == NotYet {
        rob[i] := rob[i].(executed := Inflight);
      }
    }

    /** Retire completed instructions from the head, at most `width` of them. */
    method RetireRob(width: nat)
      requires Valid() && Inv(Value())
      modifies this, rob
      ensures Valid() && Value() == RetireSome(old(Value()), width) && Inv(Value())
    {
      hide ShapeInv, LinkInv, SetInv, CountInv, ReadyInv, QueueInv, NearestInv;
      ghost var c := Value();
      for n := 0 to width
        invariant Valid() && Inv(Value()) && RetireSome(c, width) == RetireSome(Value(), width - n)
      {
        OccupiedIsLive(Value(), head);
        if rob[head].ip == 0 {
          return;
        }
        if rob[head].executed != Completed {
          return;
        }
        RetireHead();
      }
    }

    method RetireHead()
      requires Valid() && Inv(Value()) && occupancy > 0 && rob[head].executed == Completed
      modifies this, rob
      ensures Valid() && Value() == Retire(old(Value())) && Inv(Value())
    {
      RetireInv(Value());
      rob[head] := EMPTY;
      head := head + 1;
      if head == rob.Length {
        head := 0;
      }
      occupancy := occupancy - 1;
    }
  }
}
