/** The load and store queues as the simulator runs them: searches and updates in place. */
module LoadStoreQueues {
  import opened Options
  import opened RingOrder
  import opened Counting
  import opened Forwarding
  import opened ForwardingSafety
  import opened ForwardingSteps
  import opened ForwardingStores
  import opened ForwardingRuns

  /** The load queue entries in use. */
  ghost function Used(lq: seq<Load>): set<nat> { set l: nat | l < |lq| && lq[l].address != 0 }

  ghost predicate FreeAreEmpty(lq: seq<Load>) { forall l :: 0 <= l < |lq| && lq[l].address == 0 ==> lq[l] == NO_LOAD }

  lemma UsedGrows(lq: seq<Load>, l: nat, x: Load)
    requires l < |lq| && lq[l].address == 0 && x.address != 0
    ensures |Used(lq[l := x])| == |Used(lq)| + 1
  {
    assert Used(lq[l := x]) == Used(lq) + {l};
  }

  lemma UsedShrinks(lq: seq<Load>, l: nat)
    requires l < |lq| && lq[l].address != 0
    ensures |Used(lq[l := NO_LOAD])| == |Used(lq)| - 1
  {
    assert Used(lq[l := NO_LOAD]) == Used(lq) - {l};
  }

  /** A queue with fewer entries in use than it has slots has a free slot. */
  lemma {:induction false} FullyUsed(lq: seq<Load>)
    requires forall l :: 0 <= l < |lq| ==> lq[l].address != 0
    ensures |Used(lq)| == |lq|
  {
    if lq == [] {
      assert Used(lq) == {};
    } else {
      var n := |lq| - 1;
      FullyUsed(lq[..n]);
      assert Used(lq) == Used(lq[..n]) + {n};
    }
  }

  // ---- A half-executed store ----

  /** Source slot `m` of `x` comes before slot `j` of `d`: it is in a finished entry, or lower in `d`. */
  ghost predicate Before(x: nat, m: int, finished: seq<nat>, d: nat, j: int) { x in finished || (x == d && m < j) }

  /** A visit made so far leads to entry `l`. */
  ghost predicate Reached(s: Lsq, t: nat, l: nat, finished: seq<nat>, d: nat, j: nat)
    requires t < |s.sq| && s.sq[t].robIndex < |s.rob|
  {
    exists x: nat, m :: Leads(s, t, x, m, l) && Before(x, m, finished, d, j)
  }

  /** The operands of `x` served so far. */
  ghost function Part(s: Lsq, t: nat, x: nat, finished: seq<nat>, d: nat, j: nat): set<nat>
    requires t < |s.sq| && s.sq[t].robIndex < |s.rob| && x < |s.rob|
  {
    set m | m in Hits(s, t, x) && m < |s.rob[x].lqIndex| && Reached(s, t, s.rob[x].lqIndex[m], finished, d, j)
  }

  ghost function Data(s: Lsq, t: nat): How
    requires t < |s.sq|
  {
    FromStore(s.sq[t].id, s.sq[t].address)
  }

  /** The entries while execute_store runs through the dependents of its store. */
  ghost predicate Serving(s: Lsq, t: nat, rob: seq<Instr>, lq: seq<Load>, finished: seq<nat>, d: nat, j: nat)
    requires Shape(s) && CanExecute(s, t) && s.sq[t].robIndex < |s.rob| && s.sq[t].slot < DESTS
  {
    var p := s.sq[t].robIndex;
    && |rob| == |s.rob| && |lq| == |s.lq|
    && (forall x :: 0 <= x < |s.rob| ==>
          rob[x] == if x == p then ExecuteStore(s, t).rob[p] else Served(s.rob[x], Part(s, t, x, finished, d, j), Data(s, t)))
    && (forall l :: 0 <= l < |s.lq| ==> lq[l] == if Reached(s, t, l, finished, d, j) then NO_LOAD else s.lq[l])
  }

  /** The visits made so far have passed the assertions. */
  ghost predicate Passed(s: Lsq, t: nat, finished: seq<nat>, d: nat, j: nat)
    requires t < |s.sq| && s.sq[t].robIndex < |s.rob|
  {
    && (forall x: nat, m, l: nat :: Leads(s, t, x, m, l) && Before(x, m, finished, d, j) ==>
          l < |s.lq| && s.lq[l].producer == Some(s.sq[t].id))
    && (forall x: nat, m, y: nat, n, l: nat ::
          Leads(s, t, x, m, l) && Leads(s, t, y, n, l) && Before(x, m, finished, d, j) && Before(y, n, finished, d, j) ==>
            x == y && m == n)
  }

  /** Store `t` is about to execute. */
  ghost predicate Running(s: Lsq, t: nat) {
    Inv(s) && Shape(s) && CanExecute(s, t) && s.sq[t].robIndex < |s.rob| && s.sq[t].slot < DESTS
  }

  ghost predicate Resolving(s: Lsq, t: nat, rob: seq<Instr>, lq: seq<Load>, finished: seq<nat>, d: nat, j: nat) {
    Running(s, t) && Serving(s, t, rob, lq, finished, d, j) && Passed(s, t, finished, d, j)
  }

  ghost predicate IsDependent(s: Lsq, t: nat, d: nat) {
    && t < |s.sq| && s.sq[t].robIndex < |s.rob| && d < |s.rob|
    && d in s.rob[s.sq[t].robIndex].dependents && d != s.sq[t].robIndex
  }

  lemma DependentIsOther(s: Lsq, t: nat, d: nat)
    requires Running(s, t) && d in s.rob[s.sq[t].robIndex].dependents
    ensures IsDependent(s, t, d)
  {
    StoreIsOpen(s, t);
    DependentIsLive(s, s.sq[t].robIndex, d);
  }

  lemma ServedNothing(e: Instr, how: How)
    ensures Served(e, {}, how) == e
  {
    assert Served(e, {}, how).loaded == e.loaded;
  }

  lemma ServingStarts(s: Lsq, t: nat, d: nat)
    requires Running(s, t)
    ensures Resolving(s, t, s.rob[s.sq[t].robIndex := ExecuteStore(s, t).rob[s.sq[t].robIndex]], s.lq, [], d, 0)
  {
    forall x: nat | x < |s.rob| ensures Served(s.rob[x], Part(s, t, x, [], d, 0), Data(s, t)) == s.rob[x] {
      assert Part(s, t, x, [], d, 0) == {};
      ServedNothing(s.rob[x], Data(s, t));
    }
  }

  /** Serving depends only on what comes before. */
  lemma ServingSame(s: Lsq, t: nat, rob: seq<Instr>, lq: seq<Load>, f0: seq<nat>, d0: nat, j0: nat, f1: seq<nat>, d1: nat, j1: nat)
    requires Resolving(s, t, rob, lq, f0, d0, j0)
    requires forall x: nat, m :: Visits(s, t, x, m) ==> (Before(x, m, f0, d0, j0) <==> Before(x, m, f1, d1, j1))
    ensures Resolving(s, t, rob, lq, f1, d1, j1)
  {
    hide Inv, Visits, Before;
    forall x: nat, m, l: nat | Leads(s, t, x, m, l)
      ensures Before(x, m, f0, d0, j0) <==> Before(x, m, f1, d1, j1)
    {
      assert Visits(s, t, x, m);
    }
    hide Leads;
    forall l: nat ensures Reached(s, t, l, f0, d0, j0) <==> Reached(s, t, l, f1, d1, j1) {
    }
    hide Reached;
    forall x: nat | x < |s.rob| ensures Part(s, t, x, f1, d1, j1) == Part(s, t, x, f0, d0, j0) {
    }
  }

  /** Moving on to the next dependent. */
  lemma ServingTurns(s: Lsq, t: nat, rob: seq<Instr>, lq: seq<Load>, finished: seq<nat>, d: nat, next: nat)
    requires Resolving(s, t, rob, lq, finished, d, SOURCES)
    ensures Resolving(s, t, rob, lq, finished + [d], next, 0)
  {
    ServingSame(s, t, rob, lq, finished, d, SOURCES, finished + [d], next, 0);
  }

  /** All visits have been made. */
  lemma ServingEnds(s: Lsq, t: nat, rob: seq<Instr>, lq: seq<Load>, finished: seq<nat>, d: nat)
    requires Resolving(s, t, rob, lq, finished, d, 0)
    requires forall x :: x in s.rob[s.sq[t].robIndex].dependents && x < |s.rob| ==> x in finished
    ensures CheckHolds(s, t) && rob == ExecuteStore(s, t).rob && lq == ExecuteStore(s, t).lq
  {
    hide Inv;
    assert forall x: nat, m, l: nat :: Leads(s, t, x, m, l) ==> Before(x, m, finished, d, 0);
    hide Leads, Before;
    forall l: nat ensures Reached(s, t, l, finished, d, 0) <==> Reaches(s, t, l) {
    }
    hide Reached, Reaches;
    forall x: nat | x < |s.rob| ensures Part(s, t, x, finished, d, 0) == Hits(s, t, x) {
    }
  }

  /** One operand that is not visited. */
  lemma ServingPasses(s: Lsq, t: nat, rob: seq<Instr>, lq: seq<Load>, finished: seq<nat>, d: nat, j: nat)
    requires Resolving(s, t, rob, lq, finished, d, j) && !Visits(s, t, d, j)
    ensures Resolving(s, t, rob, lq, finished, d, j + 1)
  {
    ServingSame(s, t, rob, lq, finished, d, j, finished, d, j + 1);
  }

  /** A visit fails if its entry does not name the store, or a visit before it has released it. */
  lemma VisitFails(s: Lsq, t: nat, rob: seq<Instr>, lq: seq<Load>, finished: seq<nat>, d: nat, j: nat, l: nat)
    requires Resolving(s, t, rob, lq, finished, d, j) && Leads(s, t, d, j, l) && d !in finished
    requires l < |lq| ==> lq[l].producer != Some(s.sq[t].id)
    ensures !CheckHolds(s, t)
  {
    hide Inv;
    if l < |lq| && Reached(s, t, l, finished, d, j) {
      var x: nat, m :| Leads(s, t, x, m, l) && Before(x, m, finished, d, j);
      assert x != d || m != j;
    }
  }

  /** An entry with the id of the store belongs to one load that waits, in another instruction. */
  lemma EntryInUse(s: Lsq, t: nat, l: nat) returns (e: nat, m: nat)
    requires Running(s, t) && Reaches(s, t, l) && l < |s.lq| && s.lq[l].producer == Some(s.sq[t].id)
    ensures s.lq[l].address != 0 && e == s.lq[l].robIndex && m == s.lq[l].slot && e < |s.rob| && m < SOURCES && e != s.sq[t].robIndex
    ensures Formed(s.rob[e]) && m in Hits(s, t, e) && s.rob[e].lqIndex[m] == l
    ensures forall x: nat, n: nat :: x < |s.rob| && n in Hits(s, t, x) && n < |s.rob[x].lqIndex| && s.rob[x].lqIndex[n] == l ==>
              x == e && n == m
  {
    StoreIsOpen(s, t);
    e, m := s.lq[l].robIndex, s.lq[l].slot;
    hide DestinationsOk, StoresOk, WaitsOk, SourcesOk, DebtsOk, CountsOk, StagesOk, PathOk, DependentsOk, Reaches;
    assert Waiting(s, e, m) && OperandOk(s, e, m);
    var y := Youngest(s, e, s.rob[e].src[m]);
    assert IsYoungest(s, e, s.rob[e].src[m], y);
    SameId(s, y.value, s.sq[t].robIndex);
    hide LoadsOk, Youngest;
    assert forall x :: 0 <= x < |s.rob| && !Live(s, x) ==> s.rob[x].srcAdded == EMPTY.srcAdded;
    forall x: nat, n: nat | x < |s.rob| && n in Hits(s, t, x) && n < |s.rob[x].lqIndex| && s.rob[x].lqIndex[n] == l
      ensures x == e && n == m
    {
      assert OperandOk(s, x, n);
    }
  }

  /** The visit of slot `j` leads to one more entry. */
  lemma ReachedMore(s: Lsq, t: nat, finished: seq<nat>, d: nat, j: nat, l: nat)
    requires t < |s.sq| && s.sq[t].robIndex < |s.rob| && Leads(s, t, d, j, l)
    ensures forall k: nat :: Reached(s, t, k, finished, d, j + 1) <==> Reached(s, t, k, finished, d, j) || k == l
  {
    forall k: nat ensures Reached(s, t, k, finished, d, j + 1) <==> Reached(s, t, k, finished, d, j) || k == l {
      if k == l {
        assert Before(d, j, finished, d, j + 1);
      }
    }
  }

  /** So one more operand is served. */
  lemma PartMore(s: Lsq, t: nat, finished: seq<nat>, d: nat, j: nat, l: nat, e: nat, m: nat)
    requires t < |s.sq| && s.sq[t].robIndex < |s.rob| && e < |s.rob| && m in Hits(s, t, e) && m < |s.rob[e].lqIndex|
    requires s.rob[e].lqIndex[m] == l && !Reached(s, t, l, finished, d, j)
    requires forall k: nat :: Reached(s, t, k, finished, d, j + 1) <==> Reached(s, t, k, finished, d, j) || k == l
    requires forall x: nat, n: nat :: x < |s.rob| && n in Hits(s, t, x) && n < |s.rob[x].lqIndex| && s.rob[x].lqIndex[n] == l ==>
               x == e && n == m
    ensures forall x: nat :: x < |s.rob| && x != e ==> Part(s, t, x, finished, d, j + 1) == Part(s, t, x, finished, d, j)
    ensures Part(s, t, e, finished, d, j + 1) == Part(s, t, e, finished, d, j) + {m} && m !in Part(s, t, e, finished, d, j)
  {
    hide Hits, Reached;
    forall x: nat | x < |s.rob| && x != e ensures Part(s, t, x, finished, d, j + 1) == Part(s, t, x, finished, d, j) {
    }
  }

  /** One visit that passes: the load in its entry is served, whichever it is. */
  lemma ServingServes(s: Lsq, t: nat, rob: seq<Instr>, lq: seq<Load>, finished: seq<nat>, d: nat, j: nat, l: nat)
    requires Resolving(s, t, rob, lq, finished, d, j) && Leads(s, t, d, j, l) && d !in finished
    requires l < |lq| && lq[l].producer == Some(s.sq[t].id)
    ensures lq[l].address != 0 && lq[l].robIndex < |rob| && lq[l].slot < |rob[lq[l].robIndex].loaded|
    ensures var e := lq[l].robIndex;
            Resolving(s, t, rob[e := WithData(rob[e], lq[l].slot, Data(s, t))], lq[l := NO_LOAD], finished, d, j + 1)
  {
    assert Reaches(s, t, l);
    hide Inv, Hits, ExecuteStore, Reaches, Reached, Part, Passed;
    var e, m := EntryInUse(s, t, l);
    PassedMore(s, t, finished, d, j, l);
    ReachedMore(s, t, finished, d, j, l);
    PartMore(s, t, finished, d, j, l, e, m);
    ServedMore(s.rob[e], Part(s, t, e, finished, d, j), m, Data(s, t));
    ServingUpdate(s, t, rob, lq, finished, d, j, l, e, WithData(rob[e], m, Data(s, t)));
  }

  lemma ServingUpdate(s: Lsq, t: nat, rob: seq<Instr>, lq: seq<Load>, finished: seq<nat>, d: nat, j: nat, l: nat, e: nat, e1: Instr)
    requires Shape(s) && CanExecute(s, t) && s.sq[t].robIndex < |s.rob| && s.sq[t].slot < DESTS
    requires Serving(s, t, rob, lq, finished, d, j) && l < |s.lq| && e < |s.rob| && e != s.sq[t].robIndex
    requires forall k: nat :: Reached(s, t, k, finished, d, j + 1) <==> Reached(s, t, k, finished, d, j) || k == l
    requires forall x: nat :: x < |s.rob| && x != e ==> Part(s, t, x, finished, d, j + 1) == Part(s, t, x, finished, d, j)
    requires e1 == Served(s.rob[e], Part(s, t, e, finished, d, j + 1), Data(s, t))
    ensures Serving(s, t, rob[e := e1], lq[l := NO_LOAD], finished, d, j + 1)
  {
    hide Reached, Part, Served, ExecuteStore;
  }

  lemma PassedMore(s: Lsq, t: nat, finished: seq<nat>, d: nat, j: nat, l: nat)
    requires t < |s.sq| && s.sq[t].robIndex < |s.rob| && Passed(s, t, finished, d, j) && Leads(s, t, d, j, l)
    requires !Reached(s, t, l, finished, d, j) && l < |s.lq| && s.lq[l].producer == Some(s.sq[t].id)
    ensures Passed(s, t, finished, d, j + 1)
  {
    assert forall x: nat, n, k: nat :: Leads(s, t, x, n, k) && Before(x, n, finished, d, j + 1) ==>
        Before(x, n, finished, d, j) || (x == d && n == j && k == l);
  }

  lemma ServedMore(e: Instr, hits: set<nat>, j: nat, how: How)
    requires j < |e.loaded| && j !in hits
    ensures Served(e, hits + {j}, how) == WithData(Served(e, hits, how), j, how)
  {
    assert Served(e, hits + {j}, how).loaded == WithData(Served(e, hits, how), j, how).loaded;
  }

  // ---- The queues ----

  class LoadStoreQueue {
    const rob: array<Instr>
    const lq: array<Load>
    const sq: array<Store>
    var head: nat
    var occupancy: nat
    var lqOccupancy: nat
    var rtl0: seq<nat>
    var rtl1: seq<nat>
    ghost var translating: set<nat>
    ghost var fetching: set<nat>

    ghost predicate Valid()
      reads this, rob, lq, sq
    {
      lqOccupancy == |Used(lq[..])| && Inv(Value())
    }

    ghost function Value(): Lsq
      reads this, rob, lq, sq
    {
      Lsq(rob[..], head, occupancy, lq[..], sq[..], rtl0, translating, rtl1, fetching)
    }

    constructor (robSize: nat, lqSize: nat, sqSize: nat)
      requires robSize > 0
      ensures Valid() && Value() == Initial(robSize, lqSize, sqSize)
    {
      rob := new Instr[robSize](_ => EMPTY);
      lq := new Load[lqSize](_ => NO_LOAD);
      sq := new Store[sqSize](_ => NO_STORE);
      head, occupancy, lqOccupancy := 0, 0, 0;
      rtl0, rtl1, translating, fetching := [], [], {}, {};
      new;
      assert Value() == Initial(robSize, lqSize, sqSize);
      InitialInv(robSize, lqSize, sqSize);
      assert Used(lq[..]) == {};
    }

    /** release_load_queue */
    method ReleaseLoadQueue(l: nat)
      requires l < lq.Length && lq[l].address != 0 && lqOccupancy == |Used(lq[..])|
      modifies this`lqOccupancy, lq
      ensures lq[..] == old(lq[..])[l := NO_LOAD] && lqOccupancy == |Used(lq[..])|
    {
      UsedShrinks(lq[..], l);
      assert l in Used(lq[..]);
      lq[l] := NO_LOAD;
      lqOccupancy := lqOccupancy - 1;
      assert lq[..] == old(lq[..])[l := NO_LOAD];
    }

    /** complete_data_fetch: the data cache answers the load in entry `l`. */
    method FinishLoad(l: nat)
      requires Valid() && l in fetching
      modifies this`lqOccupancy, this`fetching, rob, lq
      ensures Valid() && l < lq.Length && old(lq[l]).robIndex < rob.Length && old(lq[l]).slot < SOURCES
      ensures Value() == LoadReturned(old(Value()), l)
    {
      AnswerIsAwaited(Value(), l);
      LoadReturnedInv(Value(), l);
      hide Inv;
      var r := lq[l].robIndex;
      rob[r] := WithData(rob[r], lq[l].slot, FromMemory);
      ReleaseLoadQueue(l);
      fetching := fetching - {l};
    }

    /** The first free entry of the load queue; there is one while the occupancy is below the size. */
    method FindFree() returns (l: nat)
      requires lqOccupancy == |Used(lq[..])| && lqOccupancy < lq.Length
      ensures l < lq.Length && lq[l].address == 0 && forall m :: 0 <= m < l ==> lq[m].address != 0
    {
      l := 0;
      while l < lq.Length && lq[l].address != 0
        invariant l <= lq.Length && forall m :: 0 <= m < l ==> lq[m].address != 0
      {
        l := l + 1;
      }
      if l == lq.Length {
        FullyUsed(lq[..]);
        assert false;
      }
    }

    /** The body of execute_store for one source slot of one dependent; false where an assertion fails. */
    method ResolveOperand(t: nat, d: nat, j: nat, ghost s: Lsq, ghost finished: seq<nat>) returns (ok: bool)
      requires Resolving(s, t, rob[..], lq[..], finished, d, j)
      requires lqOccupancy == |Used(lq[..])|
      requires IsDependent(s, t, d) && d !in finished && j < SOURCES && sq[..] == s.sq[t := s.sq[t].(done := true)]
      modifies this`lqOccupancy, rob, lq
      ensures ok ==> Resolving(s, t, rob[..], lq[..], finished, d, j + 1) && lqOccupancy == |Used(lq[..])|
      ensures !ok ==> !CheckHolds(s, t)
    {
      assert rob[d].src == s.rob[d].src && rob[d].srcAdded == s.rob[d].srcAdded && rob[d].lqIndex == s.rob[d].lqIndex;
      ok := true;
      if rob[d].src[j] != 0 && rob[d].srcAdded[j] && rob[d].src[j] == sq[t].address {
        var l := rob[d].lqIndex[j];
        assert Leads(s, t, d, j, l);
        if l >= lq.Length || lq[l].producer != Some(sq[t].id) {
          VisitFails(s, t, rob[..], lq[..], finished, d, j, l);
          ok := false;
          return;
        }
        ServingServes(s, t, rob[..], lq[..], finished, d, j, l);
        hide Resolving;
        ghost var rob0, lq0 := rob[..], lq[..];
        var r := lq[l].robIndex;
        rob[r] := WithData(rob[r], lq[l].slot, FromStore(sq[t].id, sq[t].address));
        ReleaseLoadQueue(l);
        assert rob[..] == rob0[r := WithData(rob0[r], lq0[l].slot, Data(s, t))] && lq[..] == lq0[l := NO_LOAD];
      } else {
        ServingPasses(s, t, rob[..], lq[..], finished, d, j);
      }
    }

    /** All source slots of one dependent. */
    method ResolveDependent(t: nat, d: nat, ghost s: Lsq, ghost finished: seq<nat>) returns (ok: bool)
      requires Resolving(s, t, rob[..], lq[..], finished, d, 0)
      requires lqOccupancy == |Used(lq[..])|
      requires IsDependent(s, t, d) && d !in finished && sq[..] == s.sq[t := s.sq[t].(done := true)]
      modifies this`lqOccupancy, rob, lq
      ensures ok ==> Resolving(s, t, rob[..], lq[..], finished, d, SOURCES) && lqOccupancy == |Used(lq[..])|
      ensures !ok ==> !CheckHolds(s, t)
    {
      hide Resolving, CheckHolds, IsDependent, Used;
      for j := 0 to SOURCES
        invariant lqOccupancy == |Used(lq[..])| && Resolving(s, t, rob[..], lq[..], finished, d, j)
      {
        ok := ResolveOperand(t, d, j, s, finished);
        if !ok {
          return;
        }
      }
      ok := true;
    }

    /** All dependents of the store. */
    method ResolveDependents(t: nat, p: nat, ghost s: Lsq) returns (ok: bool)
      requires Running(s, t)
      requires p == s.sq[t].robIndex && p < rob.Length == |s.rob|
      requires rob[..] == s.rob[p := Forwarding.ExecuteStore(s, t).rob[p]] && lq[..] == s.lq && lqOccupancy == |Used(lq[..])|
      requires sq.Length == |s.sq| && sq[..] == s.sq[t := s.sq[t].(done := true)]
      modifies this`lqOccupancy, rob, lq
      ensures ok <==> CheckHolds(s, t)
      ensures ok ==> lqOccupancy == |Used(lq[..])|
                     && rob[..] == Forwarding.ExecuteStore(s, t).rob && lq[..] == Forwarding.ExecuteStore(s, t).lq
    {
      hide Inv, Resolving, CheckHolds, Serving, Passed;
      var list := Ascending(rob[p].dependents, rob.Length);
      assert rob[p].dependents == s.rob[p].dependents;
      ServingStarts(s, t, if list == [] then 0 else list[0]);
      for a := 0 to |list|
        invariant lqOccupancy == |Used(lq[..])|
        invariant Resolving(s, t, rob[..], lq[..], list[..a], if a < |list| then list[a] else 0, 0)
      {
        DependentIsOther(s, t, list[a]);
        ok := ResolveDependent(t, list[a], s, list[..a]);
        if !ok {
          return;
        }
        ServingTurns(s, t, rob[..], lq[..], list[..a], list[a], if a + 1 < |list| then list[a + 1] else 0);
        assert list[..a + 1] == list[..a] + [list[a]];
      }
      assert list[..|list|] == list;
      ServingEnds(s, t, rob[..], lq[..], list, 0);
      ok := true;
    }

    /**
      execute_store: the store is done, and serves the loads whose entries it finds. The
      simulator stops where it would return false: an assertion fails.
     */
    method ExecuteStore(t: nat) returns (ok: bool)
      requires Valid() && CanExecute(Value(), t)
      modifies this`lqOccupancy, rob, lq, sq
      ensures old(sq[t].robIndex) < rob.Length && old(sq[t].slot) < DESTS
      ensures ok <==> CheckHolds(old(Value()), t)
      ensures ok ==> Valid() && Value() == Forwarding.ExecuteStore(old(Value()), t)
    {
      ghost var s := Value();
      StoreIsOpen(s, t);
      assert Running(s, t);
      if CheckHolds(s, t) {
        ExecuteStoreInv(s, t);
      }
      hide Inv, CheckHolds;
      var p := sq[t].robIndex;
      sq[t] := sq[t].(done := true);
      rob[p] := rob[p].(stored := rob[p].stored[sq[t].slot := true], memOps := rob[p].memOps - 1);
      assert rob[..] == s.rob[p := Forwarding.ExecuteStore(s, t).rob[p]];
      ok := ResolveDependents(t, p, s);
    }

    /**
      mem_RAW_dependency: if `prior` stores to the address of the load in `l`, the load waits
      for it.
     */
    method MemRawDependency(prior: nat, current: nat, j: nat, l: nat)
      requires prior < rob.Length && current < rob.Length && l < lq.Length && j < |rob[current].src| && rob[current].src[j] != 0
      modifies rob, lq
      ensures var e := old(rob[prior]);
              if old(rob[current].src[j]) in e.dst then
                rob[..] == old(rob[..])[prior := WithDependent(e, current)]
                && lq[..] == old(lq[..])[l := old(lq[l]).(producer := Some(e.id))]
              else rob[..] == old(rob[..]) && lq[..] == old(lq[..])
    {
      for k := 0 to |rob[prior].dst|
        invariant rob[..] == old(rob[..]) && lq[..] == old(lq[..])
        invariant rob[current].src[j] !in rob[prior].dst[..k]
      {
        if rob[prior].dst[k] != 0 {
          if rob[prior].dst[k] == rob[current].src[j] {
            rob[prior] := WithDependent(rob[prior], current);
            lq[l] := lq[l].(producer := Some(rob[prior].id));
            return;
          }
        }
      }
    }

    /** Look for the producer of a load from slot `from` down to slot `to`, the nearest first. */
    method ScanDown(from: int, to: nat, i: nat, j: nat, l: nat) returns (ghost found: Option<nat>)
      requires to - 1 <= from < rob.Length && (i < to || from < i) && i < rob.Length && l < lq.Length
      requires j < |rob[i].src| && rob[i].src[j] != 0
      modifies rob, lq
      ensures old(lq[l]).producer.Some? || found == None ==> rob[..] == old(rob[..]) && lq[..] == old(lq[..])
      ensures found.Some? ==> old(lq[l]).producer == None && to <= found.value <= from
      ensures found.Some? ==> var p := found.value;
                old(rob[i].src[j]) in old(rob[p].dst) && (forall q :: p < q <= from ==> old(rob[i].src[j]) !in old(rob[q]).dst)
                && rob[..] == old(rob[..])[p := WithDependent(old(rob[p]), i)]
                && lq[..] == old(lq[..])[l := old(lq[l]).(producer := Some(old(rob[p]).id))]
      ensures old(lq[l]).producer == None && found == None ==>
                forall q :: to <= q <= from ==> old(rob[i].src[j]) !in old(rob[q]).dst
    {
      found := None;
      var q := from;
      while q >= to && lq[l].producer == None
        invariant to - 1 <= q <= from
        invariant old(lq[l]).producer.Some? || found == None ==> rob[..] == old(rob[..]) && lq[..] == old(lq[..])
        invariant old(lq[l]).producer.Some? ==> found == None
        invariant found.Some? ==> to <= found.value <= from && found.value == q + 1
        invariant found.Some? ==> var p := found.value;
                    old(rob[i].src[j]) in old(rob[p].dst) && (forall m :: p < m <= from ==> old(rob[i].src[j]) !in old(rob[m]).dst)
                    && rob[..] == old(rob[..])[p := WithDependent(old(rob[p]), i)]
                    && lq[..] == old(lq[..])[l := old(lq[l]).(producer := Some(old(rob[p]).id))]
        invariant old(lq[l]).producer == None && found == None ==>
                    forall m :: q < m <= from ==> old(rob[i].src[j]) !in old(rob[m]).dst
      {
        assert rob[..] == old(rob[..]) && lq[..] == old(lq[..]);
        if rob[i].src[j] in rob[q].dst {
          found := Some(q);
        }
        MemRawDependency(q, i, j, l);
        q := q - 1;
      }
    }

    /** The youngest older store to the address of a load becomes its producer. */
    method FindProducer(i: nat, j: nat, l: nat) returns (ghost found: Option<nat>)
      requires head < rob.Length && i < rob.Length && l < lq.Length && occupancy <= rob.Length && Live(Value(), i)
      requires j < |rob[i].src| && rob[i].src[j] != 0 && lq[l].producer == None
      modifies rob, lq
      ensures old(Value()).head < |old(Value()).rob| && found == Youngest(old(Value()), i, old(rob[i].src[j]))
      ensures found == None ==> rob[..] == old(rob[..]) && lq[..] == old(lq[..])
      ensures found.Some? ==> var p := found.value;
                && p < rob.Length && p != i
                && rob[..] == old(rob[..])[p := WithDependent(old(rob[p]), i)]
                && lq[..] == old(lq[..])[l := old(lq[l]).(producer := Some(old(rob[p]).id))]
    {
      ghost var s := Value();
      ghost var a := rob[i].src[j];
      var prior: int := i - 1;
      if prior < 0 {
        prior := rob.Length - 1;
      }
      found := None;
      if i != head {
        if head <= prior {
          found := ScanDown(prior, head, i, j, l);
        } else {
          found := ScanDown(prior, 0, i, j, l);
          ghost var wrapped := ScanDown(rob.Length - 1, head, i, j, l);
          if found == None {
            found := wrapped;
          }
        }
      }
      assert IsYoungest(s, i, a, found);
      YoungestIsUnique(s, i, a, found);
    }

    /** The first store queue entry with the address of the load and the id of its producer. */
    method FindForwarder(i: nat, l: nat) returns (t: nat)
      requires l < lq.Length && lq[l].address != 0 && (lq[l].producer.Some? ==> i != head)
      ensures t <= sq.Length
      ensures lq[l].producer.Some? && t < sq.Length ==> Forwards(sq[..], t, lq[l].address, lq[l].producer.value)
      ensures t == sq.Length ==> forall u :: 0 <= u < sq.Length ==> sq[u].address != lq[l].address || Some(sq[u].id) != lq[l].producer
      ensures lq[l].producer == None ==> t == sq.Length
    {
      t := 0;
      while t < sq.Length
        invariant t <= sq.Length
        invariant forall u :: 0 <= u < t ==> sq[u].address != lq[l].address || Some(sq[u].id) != lq[l].producer
      {
        if sq[t].address != 0 {
          if sq[t].address == lq[l].address {
            if i != head && lq[l].producer == Some(sq[t].id) {
              return;
            }
          }
        }
        t := t + 1;
      }
    }

    /** A load whose forwarder has executed has its data at once. */
    method ForwardNow(i: nat, j: nat, l: nat, t: nat)
      requires l < lq.Length && lq[l].address != 0 && lqOccupancy == |Used(lq[..])| && t <= sq.Length
      requires i < rob.Length && j < |rob[i].loaded| && lq[l].robIndex == i
      modifies this`lqOccupancy, rob, lq
      ensures lqOccupancy == |Used(lq[..])|
      ensures if t < sq.Length && sq[t].done
              then rob[..] == old(rob[..])[i := WithData(old(rob[i]), j, FromStore(sq[t].id, sq[t].address))] && lq[..] == old(lq[..])[l := NO_LOAD]
              else rob[..] == old(rob[..]) && lq[..] == old(lq[..])
    {
      if t != sq.Length {
        if sq[t].done {
          var r := lq[l].robIndex;
          rob[r] := WithData(rob[r], j, FromStore(sq[t].id, sq[t].address));
          ReleaseLoadQueue(l);
        }
      }
    }

    /** Take a free load queue entry for source slot `j` of entry `i`. */
    method Allocate(i: nat, j: nat) returns (l: nat)
      requires lqOccupancy == |Used(lq[..])| && lqOccupancy < lq.Length && FreeAreEmpty(lq[..])
      requires i < rob.Length && Formed(rob[i]) && j < SOURCES && rob[i].src[j] != 0
      modifies this`lqOccupancy, rob, lq
      ensures lqOccupancy == |Used(lq[..])| && FreeAreEmpty(lq[..])
      ensures l < lq.Length && old(lq[l]).address == 0
      ensures lq[..] == old(lq[..])[l := Load(old(rob[i]).src[j], old(rob[i]).id, i, j, None)]
      ensures rob[..] == old(rob[..])[i := old(rob[i]).(lqIndex := old(rob[i]).lqIndex[j := l])]
    {
      l := FindFree();
      UsedGrows(lq[..], l, Load(rob[i].src[j], rob[i].id, i, j, None));
      rob[i] := rob[i].(lqIndex := rob[i].lqIndex[j := l]);
      lq[l] := lq[l].(address := rob[i].src[j], id := rob[i].id, robIndex := i, slot := j);
      lqOccupancy := lqOccupancy + 1;
      assert lq[..] == old(lq[..])[l := Load(rob[i].src[j], rob[i].id, i, j, None)];
    }

    /** Look for a store that has the data already. */
    method Forward(i: nat, j: nat, l: nat)
      requires l < lq.Length && lq[l].address != 0 && lqOccupancy == |Used(lq[..])| && FreeAreEmpty(lq[..])
      requires i < rob.Length && j < |rob[i].loaded| && lq[l].robIndex == i && (lq[l].producer.Some? ==> i != head)
      modifies this`lqOccupancy, rob, lq
      ensures lqOccupancy == |Used(lq[..])| && FreeAreEmpty(lq[..])
      ensures var x := old(lq[l]);
              if x.producer.Some? && Ready(sq[..], x.address, x.producer.value)
              then rob[..] == old(rob[..])[i := WithData(old(rob[i]), j, FromStore(x.producer.value, x.address))]
                   && lq[..] == old(lq[..])[l := NO_LOAD]
              else rob[..] == old(rob[..]) && lq[..] == old(lq[..])
    {
      var t := FindForwarder(i, l);
      ReadyIff(sq[..], lq[l], t);
      ForwardNow(i, j, l, t);
    }

    /** The search for a producer, and then for its data. */
    method Resolve(i: nat, j: nat, l: nat) returns (ghost y: Option<nat>)
      requires lqOccupancy == |Used(lq[..])| && FreeAreEmpty(lq[..]) && Shape(Value()) && Live(Value(), i)
      requires l < lq.Length && lq[l].address != 0 && lq[l].producer == None && lq[l].robIndex == i
      requires j < SOURCES && rob[i].src[j] == lq[l].address
      modifies this`lqOccupancy, rob, lq
      ensures lqOccupancy == |Used(lq[..])| && FreeAreEmpty(lq[..])
      ensures Shape(old(Value())) && y == Youngest(old(Value()), i, old(rob[i]).src[j]) && (y.Some? ==> y.value < rob.Length)
      ensures Resolved(old(Value()), i, j, l, y, rob[..], lq[..])
    {
      ghost var s := Value();
      hide Youngest, Used;
      y := FindProducer(i, j, l);
      ProducerNotFirst(s, i, s.rob[i].src[j]);
      UsedSame(s.lq, lq[..]);
      Forward(i, j, l);
    }

    /** add_load_queue: source slot `j` of entry `i` enters the load queue. */
    method AddLoadQueue(i: nat, j: nat) returns (l: nat)
      requires Valid() && Live(Value(), i) && j < SOURCES && rob[i].src[j] != 0 && !rob[i].srcAdded[j]
      requires lqOccupancy < lq.Length
      modifies this`lqOccupancy, this`rtl0, rob, lq
      ensures Valid() && CanAdd(old(Value()), i, j, l) && Value() == AddLoad(old(Value()), i, j, l)
    {
      ghost var s := Value();
      assert Shape(s) && FreeAreEmpty(lq[..]);
      hide Inv, Youngest, AddLoad, Used, Resolved;
      l := Allocate(i, j);
      ghost var s1 := Value();
      SameYoungest(s, s1);
      ghost var y := Resolve(i, j, l);
      ghost var rob3, lq3 := rob[..], lq[..];
      ResolvedLater(s, s1, i, j, l, y, rob3, lq3);
      rob[i] := rob[i].(srcAdded := rob[i].srcAdded[j := true]);
      if lq[l].address != 0 && lq[l].producer == None {
        rtl0 := rtl0 + [l];
      }
      AddLoadInv(s, i, j, l);
      AddLoadParts(s, i, j, l, s1, y, rob3, lq3, rob[..], rtl0);
    }
  }

  /** The entries once the producer `y` of a load is known and asked for its data. */
  ghost predicate Resolved(s: Lsq, i: nat, j: nat, l: nat, y: Option<nat>, rob: seq<Instr>, lq: seq<Load>)
    requires Shape(s) && i < |s.rob| && j < SOURCES && l < |s.lq| && (y.Some? ==> y.value < |s.rob|)
  {
    match y
    case None => rob == s.rob && lq == s.lq
    case Some(p) =>
      var id := s.rob[p].id;
      var rob1 := s.rob[p := WithDependent(s.rob[p], i)];
      if Ready(s.sq, s.lq[l].address, id)
      then rob == rob1[i := WithData(rob1[i], j, FromStore(id, s.lq[l].address))] && lq == s.lq[l := NO_LOAD]
      else rob == rob1 && lq == s.lq[l := s.lq[l].(producer := Some(id))]
  }

  /** The state with a load queue entry set up, and nothing known about the producer. */
  ghost predicate Allocated(s: Lsq, s1: Lsq, i: nat, j: nat, l: nat)
    requires Shape(s) && CanAdd(s, i, j, l)
  {
    s1 == s.(rob := s.rob[i := s.rob[i].(lqIndex := s.rob[i].lqIndex[j := l])],
             lq := s.lq[l := Load(s.rob[i].src[j], s.rob[i].id, i, j, None)])
  }

  lemma ResolvedLater(s: Lsq, s1: Lsq, i: nat, j: nat, l: nat, y: Option<nat>, rob: seq<Instr>, lq: seq<Load>)
    requires Shape(s) && CanAdd(s, i, j, l) && Allocated(s, s1, i, j, l) && Shape(s1)
    requires y == Youngest(s1, i, s.rob[i].src[j]) && (y.Some? ==> y.value < |s.rob|) && Resolved(s1, i, j, l, y, rob, lq)
    ensures |rob| == |s.rob| && |rob[i].srcAdded| == SOURCES && |lq| == |s.lq|
    ensures lq[l].address != 0 && lq[l].producer == None <==> y == None
  {
  }

  lemma UsedSame(lq: seq<Load>, lq1: seq<Load>)
    requires |lq| == |lq1| && forall l :: 0 <= l < |lq| ==> lq[l].address == lq1[l].address
    ensures Used(lq) == Used(lq1)
  {
  }

  /** The stages of add_load_queue make up the step. */
  lemma AddLoadParts(s: Lsq, i: nat, j: nat, l: nat, s1: Lsq, y: Option<nat>, rob3: seq<Instr>, lq: seq<Load>,
                     rob: seq<Instr>, rtl0: seq<nat>)
    requires Shape(s) && CanAdd(s, i, j, l) && FreeAreEmpty(s.lq) && Allocated(s, s1, i, j, l) && Shape(s1)
    requires y == Youngest(s, i, s.rob[i].src[j]) && (y.Some? ==> y.value < |s.rob|) && Resolved(s1, i, j, l, y, rob3, lq)
    requires |rob3| == |s.rob| && |rob3[i].srcAdded| == SOURCES
    requires rob == rob3[i := rob3[i].(srcAdded := rob3[i].srcAdded[j := true])]
    requires rtl0 == if y == None then s.rtl0 + [l] else s.rtl0
    ensures s.(rob := rob, lq := lq, rtl0 := rtl0) == AddLoad(s, i, j, l)
  {
    AddLoadShape(s, i, j, l);
    assert lq == AddLoad(s, i, j, l).lq;
    assert rob == AddLoad(s, i, j, l).rob;
  }

  /** An instruction with a producer is not the oldest. */
  lemma ProducerNotFirst(s: Lsq, i: nat, a: nat)
    requires Shape(s) && Live(s, i)
    ensures Youngest(s, i, a).Some? ==> i != s.head
  {
    assert IsYoungest(s, i, a, Youngest(s, i, a));
  }

  /** The forwarder that a search found, or missed, decides whether the data is ready. */
  lemma ReadyIff(sq: seq<Store>, x: Load, t: nat)
    requires t <= |sq|
    requires x.producer.Some? && t < |sq| ==> Forwards(sq, t, x.address, x.producer.value)
    requires t == |sq| ==> forall u :: 0 <= u < |sq| ==> sq[u].address != x.address || Some(sq[u].id) != x.producer
    ensures x.producer.Some? ==> (Ready(sq, x.address, x.producer.value) <==> t < |sq| && sq[t].done)
  {
  }
}
