/** Each step of the load and store queues keeps the invariant, clause by clause. */
module ForwardingSteps {
  import opened Options
  import opened RingOrder
  import opened Forwarding
  import opened ForwardingSafety

  // ---- Clauses a step does not touch ----

  ghost predicate SameLoads(s: Lsq, s1: Lsq)
    requires |s.rob| == |s1.rob|
  {
    && s1.lq == s.lq
    && forall i :: 0 <= i < |s.rob| ==> s1.rob[i].srcAdded == s.rob[i].srcAdded
                                        && s1.rob[i].lqIndex == s.rob[i].lqIndex && s1.rob[i].loaded == s.rob[i].loaded
  }

  ghost predicate SameStores(s: Lsq, s1: Lsq)
    requires |s.rob| == |s1.rob|
  {
    && s1.sq == s.sq
    && forall i :: 0 <= i < |s.rob| ==> s1.rob[i].sqIndex == s.rob[i].sqIndex && s1.rob[i].stored == s.rob[i].stored
  }

  lemma KeepsOrder(s: Lsq, s1: Lsq)
    requires Shape(s) && Shape(s1) && SameProgram(s, s1) && InOrder(s)
    requires forall i :: 0 <= i < |s.rob| && !Live(s, i) ==> s1.rob[i] == s.rob[i]
    ensures InOrder(s1)
  {
  }

  lemma KeepsLoads(s: Lsq, s1: Lsq)
    requires Shape(s) && Shape(s1) && SameProgram(s, s1) && SameLoads(s, s1)
    requires OperandsOk(s) && LoadsOk(s)
    ensures OperandsOk(s1) && LoadsOk(s1)
  {
    SameYoungest(s, s1);
    forall i, j | Live(s1, i) && 0 <= j < SOURCES ensures OperandOk(s1, i, j) {
      assert OperandOk(s, i, j);
    }
  }

  lemma KeepsStores(s: Lsq, s1: Lsq)
    requires Shape(s) && Shape(s1) && SameProgram(s, s1) && SameStores(s, s1)
    requires DestinationsOk(s) && StoresOk(s)
    ensures DestinationsOk(s1) && StoresOk(s1)
  {
    forall i, k | Live(s1, i) && 0 <= k < DESTS ensures DestinationOk(s1, i, k) {
      assert DestinationOk(s, i, k);
    }
  }

  lemma KeepsWaits(s: Lsq, s1: Lsq)
    requires Shape(s) && Shape(s1) && SameProgram(s, s1) && WaitsOk(s)
    requires forall i, j :: Waiting(s1, i, j) ==> Waiting(s, i, j)
    requires forall i :: 0 <= i < |s.rob| ==> s1.rob[i].stored == s.rob[i].stored && s.rob[i].dependents <= s1.rob[i].dependents
    ensures WaitsOk(s1)
  {
    SameYoungest(s, s1);
    forall i, j, p | Waiting(s1, i, j) && Youngest(s1, i, s1.rob[i].src[j]) == Some(p)
      ensures i in s1.rob[p].dependents && HasStore(s1.rob[p], s1.rob[i].src[j], false)
    {
      assert Waiting(s, i, j) && Feeds(s, p, i, s.rob[i].src[j]);
    }
  }

  lemma KeepsDependents(s: Lsq, s1: Lsq)
    requires Shape(s) && Shape(s1) && SameProgram(s, s1) && DependentsOk(s)
    requires forall i :: 0 <= i < |s.rob| ==> s1.rob[i].dependents == s.rob[i].dependents
    requires forall i, j :: 0 <= i < |s.rob| && 0 <= j < SOURCES && s.rob[i].srcAdded[j] ==> s1.rob[i].srcAdded[j]
    ensures DependentsOk(s1)
  {
    SameYoungest(s, s1);
    forall p: nat, d | Live(s1, p) && d in s1.rob[p].dependents ensures exists j :: Needs(s1, p, d, j) {
      var j :| Needs(s, p, d, j);
      assert Needs(s1, p, d, j);
    }
  }

  lemma KeepsSources(s: Lsq, s1: Lsq)
    requires Shape(s) && Shape(s1) && SameProgram(s, s1) && SourcesOk(s)
    requires forall i :: 0 <= i < |s.rob| ==> s1.rob[i].loaded == s.rob[i].loaded && s1.rob[i].stored == s.rob[i].stored
    ensures SourcesOk(s1)
  {
    SameYoungest(s, s1);
    forall i, j | Live(s1, i) && 0 <= j < SOURCES ensures SourceOk(s1, i, j) {
      assert SourceOk(s, i, j);
      var r := Youngest(s, i, s.rob[i].src[j]);
      assert IsYoungest(s, i, s.rob[i].src[j], r);
    }
  }

  /** What has data keeps it, and what is to be stored is still to be stored. */
  ghost predicate KeepsClaims(s: Lsq, s1: Lsq)
    requires Shape(s) && Shape(s1) && |s.rob| == |s1.rob|
  {
    && (forall i :: 0 <= i < |s.rob| ==> s1.rob[i].stored == s.rob[i].stored && s.rob[i].dependents <= s1.rob[i].dependents)
    && (forall i, j :: 0 <= i < |s.rob| && 0 <= j < SOURCES ==>
          (s.rob[i].srcAdded[j] ==> s1.rob[i].srcAdded[j]) && (s.rob[i].loaded[j] != Pending ==> s1.rob[i].loaded[j] != Pending))
  }

  lemma KeepsOwing(s: Lsq, s1: Lsq, p: nat)
    requires Shape(s) && Shape(s1) && SameProgram(s, s1) && KeepsClaims(s, s1) && Owes(s, p)
    ensures Owes(s1, p)
  {
    var d: nat, m :| Early(s, p, d, m);
    assert Early(s1, p, d, m);
  }

  lemma KeepsDebts(s: Lsq, s1: Lsq)
    requires Shape(s) && Shape(s1) && SameProgram(s, s1) && KeepsClaims(s, s1) && DebtsOk(s)
    requires forall i, j :: Misfed(s1, i, j) ==> Misfed(s, i, j)
    ensures DebtsOk(s1)
  {
    SameYoungest(s, s1);
    hide KeepsClaims, Owes;
    forall i, j | Misfed(s1, i, j)
      ensures Youngest(s1, i, s1.rob[i].src[j]).Some? && Owes(s1, Youngest(s1, i, s1.rob[i].src[j]).value)
    {
      assert Misfed(s, i, j);
      KeepsOwing(s, s1, Youngest(s, i, s.rob[i].src[j]).value);
    }
  }

  lemma KeepsCounts(s: Lsq, s1: Lsq)
    requires Shape(s) && Shape(s1) && SameProgram(s, s1) && CountsOk(s)
    requires forall i :: 0 <= i < |s.rob| ==> s1.rob[i].loaded == s.rob[i].loaded && s1.rob[i].stored == s.rob[i].stored
                                              && s1.rob[i].memOps == s.rob[i].memOps
    ensures CountsOk(s1)
  {
    forall i | Live(s1, i) ensures CountOk(s1.rob[i]) {
      assert CountOk(s.rob[i]);
      assert OpenLoads(s1.rob[i]) == OpenLoads(s.rob[i]);
      assert OpenStores(s1.rob[i]) == OpenStores(s.rob[i]);
    }
  }

  // ---- The way to memory ----

  lemma MoveInv(s: Lsq, s1: Lsq)
    requires Inv(s) && s1.rob == s.rob && s1.head == s.head && s1.occupancy == s.occupancy
    requires s1.lq == s.lq && s1.sq == s.sq && PathOk(s1)
    ensures Inv(s1)
  {
    hide OperandsOk, LoadsOk, DestinationsOk, StoresOk, WaitsOk, DependentsOk, SourcesOk, DebtsOk, CountOk, InOrder, PathOk;
    KeepsOrder(s, s1);
    KeepsLoads(s, s1);
    KeepsStores(s, s1);
    KeepsWaits(s, s1);
    KeepsDependents(s, s1);
    KeepsSources(s, s1);
    KeepsDebts(s, s1);
    KeepsCounts(s, s1);
  }

  lemma SendLoadInv(s: Lsq)
    requires Inv(s) && s.rtl0 != []
    ensures Inv(SendLoad(s))
  {
    var s1 := SendLoad(s);
    assert PathOk(s1) by {
      assert s.rtl0[0] in s.rtl0 && s.rtl0 == [s.rtl0[0]] + s1.rtl0;
      assert forall l: nat :: OnPath(s1, l) <==> OnPath(s, l);
    }
    MoveInv(s, s1);
  }

  lemma LoadTranslatedInv(s: Lsq, l: nat)
    requires Inv(s) && l in s.translating
    ensures Inv(LoadTranslated(s, l))
  {
    var s1 := LoadTranslated(s, l);
    assert forall m: nat :: OnPath(s1, m) <==> OnPath(s, m);
    MoveInv(s, s1);
  }

  lemma FetchLoadInv(s: Lsq)
    requires Inv(s) && s.rtl1 != []
    ensures Inv(FetchLoad(s))
  {
    var s1 := FetchLoad(s);
    assert PathOk(s1) by {
      assert s.rtl1[0] in s.rtl1 && s.rtl1 == [s.rtl1[0]] + s1.rtl1;
      assert forall l: nat :: OnPath(s1, l) <==> OnPath(s, l);
    }
    MoveInv(s, s1);
  }

  // ---- Issue and completion ----

  lemma StageInv(s: Lsq, s1: Lsq, i: nat, stage: Stage)
    requires Inv(s) && Live(s, i) && s1 == s.(rob := s.rob[i := s.rob[i].(executed := stage)])
    requires stage != NotYet ==> AllAdded(s.rob[i])
    requires stage == Completed ==> s.rob[i].memOps == 0
    ensures Inv(s1)
  {
    hide OperandsOk, LoadsOk, DestinationsOk, StoresOk, WaitsOk, DependentsOk, SourcesOk, DebtsOk, CountOk, InOrder;
    KeepsOrder(s, s1);
    KeepsLoads(s, s1);
    KeepsStores(s, s1);
    KeepsWaits(s, s1);
    KeepsDependents(s, s1);
    KeepsSources(s, s1);
    KeepsDebts(s, s1);
    KeepsCounts(s, s1);
    assert StagesOk(s1) by {
      forall d | Live(s1, d) ensures StageOk(s1.rob[d]) {
        assert StageOk(s.rob[d]);
      }
    }
    assert forall l: nat :: OnPath(s1, l) <==> OnPath(s, l);
  }

  // ---- A store enters the store queue ----

  lemma AddStoreInv(s: Lsq, i: nat, k: nat, t: nat)
    requires Inv(s) && Live(s, i) && k < DESTS && s.rob[i].dst[k] != 0 && s.rob[i].sqIndex[k] == None
    requires t < |s.sq| && s.sq[t].address == 0
    ensures Inv(AddStore(s, i, k, t))
  {
    hide OperandsOk, LoadsOk, DestinationsOk, StoresOk, WaitsOk, DependentsOk, SourcesOk, DebtsOk, CountOk, InOrder, StagesOk;
    var s1 := AddStore(s, i, k, t);
    KeepsOrder(s, s1);
    KeepsLoads(s, s1);
    KeepsWaits(s, s1);
    KeepsDependents(s, s1);
    KeepsSources(s, s1);
    KeepsDebts(s, s1);
    KeepsCounts(s, s1);
    AddStoreStages(s, i, k, t);
    AddStoreStores(s, i, k, t);
    assert forall l: nat :: OnPath(s1, l) <==> OnPath(s, l);
  }

  lemma AddStoreStages(s: Lsq, i: nat, k: nat, t: nat)
    requires Shape(s) && StagesOk(s) && Live(s, i) && k < DESTS && s.rob[i].dst[k] != 0 && s.rob[i].sqIndex[k] == None
    requires t < |s.sq|
    ensures StagesOk(AddStore(s, i, k, t))
  {
    var s1 := AddStore(s, i, k, t);
    forall d | Live(s1, d) ensures StageOk(s1.rob[d]) {
      assert StageOk(s.rob[d]);
    }
  }

  lemma AddStoreStores(s: Lsq, i: nat, k: nat, t: nat)
    requires Shape(s) && DestinationsOk(s) && StoresOk(s)
    requires Live(s, i) && k < DESTS && s.rob[i].dst[k] != 0 && s.rob[i].sqIndex[k] == None
    requires t < |s.sq| && s.sq[t].address == 0
    ensures Shape(AddStore(s, i, k, t)) && DestinationsOk(AddStore(s, i, k, t)) && StoresOk(AddStore(s, i, k, t))
  {
    var s1 := AddStore(s, i, k, t);
    assert DestinationOk(s, i, k);
    forall d, m | Live(s1, d) && 0 <= m < DESTS ensures DestinationOk(s1, d, m) {
      assert DestinationOk(s, d, m);
    }
  }

  // ---- A load enters the load queue ----

  ghost predicate CanAdd(s: Lsq, i: nat, j: nat, l: nat)
    requires Shape(s)
  {
    && Live(s, i) && j < SOURCES && s.rob[i].src[j] != 0 && !s.rob[i].srcAdded[j]
    && l < |s.lq| && s.lq[l].address == 0
  }

  lemma AddLoadShape(s: Lsq, i: nat, j: nat, l: nat)
    requires Shape(s) && CanAdd(s, i, j, l)
    ensures Shape(AddLoad(s, i, j, l)) && SameProgram(s, AddLoad(s, i, j, l))
    ensures Youngest(s, i, s.rob[i].src[j]).Some? ==>
              Live(s, Youngest(s, i, s.rob[i].src[j]).value) && Youngest(s, i, s.rob[i].src[j]).value != i
  {
  }

  lemma AddLoadOperands(s: Lsq, i: nat, j: nat, l: nat)
    requires Shape(s) && CanAdd(s, i, j, l) && OperandsOk(s)
    ensures Shape(AddLoad(s, i, j, l)) && OperandsOk(AddLoad(s, i, j, l))
  {
    var s1 := AddLoad(s, i, j, l);
    AddLoadShape(s, i, j, l);
    SameYoungest(s, s1);
    forall d, m | Live(s1, d) && 0 <= m < SOURCES ensures OperandOk(s1, d, m) {
      assert OperandOk(s, d, m);
    }
  }

  lemma AddLoadLoads(s: Lsq, i: nat, j: nat, l: nat)
    requires Shape(s) && CanAdd(s, i, j, l) && OperandsOk(s) && LoadsOk(s)
    ensures Shape(AddLoad(s, i, j, l)) && LoadsOk(AddLoad(s, i, j, l))
  {
    AddLoadShape(s, i, j, l);
    assert OperandOk(s, i, j);
    hide OperandsOk, Youngest;
  }

  /** A store queue entry with the id of `p` belongs to `p`. */
  lemma StoreOwner(s: Lsq, t: nat, p: nat)
    requires Shape(s) && InOrder(s) && DestinationsOk(s) && StoresOk(s) && Live(s, p)
    requires t < |s.sq| && s.sq[t].address != 0 && s.sq[t].id == s.rob[p].id
    ensures s.sq[t].robIndex == p && s.sq[t].slot < DESTS && s.rob[p].sqIndex[s.sq[t].slot] == Some(t)
    ensures DestinationOk(s, p, s.sq[t].slot)
  {
    var r := s.sq[t].robIndex;
    assert DestinationOk(s, r, s.sq[t].slot);
    assert Pos(r, s.head, |s.rob|) == Pos(p, s.head, |s.rob|) || Older(s, r, p) || Older(s, p, r);
  }

  lemma {:induction false} FirstStore(sq: seq<Store>, t: nat, a: nat, id: nat) returns (first: nat)
    requires t < |sq| && sq[t].address == a && sq[t].id == id
    ensures Forwards(sq, first, a, id)
  {
    if u: nat :| u < t && sq[u].address == a && sq[u].id == id {
      first := FirstStore(sq, u, a, id);
    } else {
      first := t;
    }
  }

  /** The store that forwards has executed; if none can, some store of `p` to `a` has yet to execute. */
  lemma ReadyOrNot(s: Lsq, p: nat, a: nat)
    requires Shape(s) && InOrder(s) && DestinationsOk(s) && StoresOk(s) && Live(s, p) && a != 0 && a in s.rob[p].dst
    ensures HasStore(s.rob[p], a, Ready(s.sq, a, s.rob[p].id))
  {
    var e := s.rob[p];
    if Ready(s.sq, a, e.id) {
      var t: nat :| Forwards(s.sq, t, a, e.id) && s.sq[t].done;
      StoreOwner(s, t, p);
    } else {
      var k :| 0 <= k < |e.dst| && e.dst[k] == a;
      assert DestinationOk(s, p, k);
      if e.sqIndex[k].Some? {
        var t := FirstStore(s.sq, e.sqIndex[k].value, a, e.id);
        StoreOwner(s, t, p);
      }
    }
  }

  lemma AddLoadWaits(s: Lsq, i: nat, j: nat, l: nat)
    requires Inv(s) && CanAdd(s, i, j, l)
    ensures Shape(AddLoad(s, i, j, l)) && WaitsOk(AddLoad(s, i, j, l))
  {
    hide OperandsOk, LoadsOk, DestinationsOk, StoresOk, DependentsOk, SourcesOk, DebtsOk, CountOk, InOrder, StagesOk, PathOk;
    var s1 := AddLoad(s, i, j, l);
    AddLoadShape(s, i, j, l);
    SameYoungest(s, s1);
    forall d, m, p | Waiting(s1, d, m) && Youngest(s1, d, s1.rob[d].src[m]) == Some(p)
      ensures d in s1.rob[p].dependents && HasStore(s1.rob[p], s1.rob[d].src[m], false)
    {
      assert Feeds(s, p, d, s.rob[d].src[m]);
      if d == i && m == j {
        ReadyOrNot(s, p, s.rob[i].src[j]);
      } else {
        assert Waiting(s, d, m);
      }
    }
  }

  lemma AddLoadDependents(s: Lsq, i: nat, j: nat, l: nat)
    requires Shape(s) && CanAdd(s, i, j, l) && DependentsOk(s)
    ensures Shape(AddLoad(s, i, j, l)) && DependentsOk(AddLoad(s, i, j, l))
  {
    var s1 := AddLoad(s, i, j, l);
    AddLoadShape(s, i, j, l);
    SameYoungest(s, s1);
    forall p: nat, d | Live(s1, p) && d in s1.rob[p].dependents ensures exists m :: Needs(s1, p, d, m) {
      if d in s.rob[p].dependents {
        var m :| Needs(s, p, d, m);
        assert Needs(s1, p, d, m);
      } else {
        assert Needs(s1, p, d, j);
      }
    }
  }

  lemma AddLoadSources(s: Lsq, i: nat, j: nat, l: nat)
    requires Inv(s) && CanAdd(s, i, j, l)
    ensures Shape(AddLoad(s, i, j, l)) && SourcesOk(AddLoad(s, i, j, l))
  {
    hide OperandsOk, LoadsOk, DestinationsOk, StoresOk, DependentsOk, WaitsOk, CountOk, InOrder, StagesOk, PathOk;
    var s1 := AddLoad(s, i, j, l);
    AddLoadShape(s, i, j, l);
    SameYoungest(s, s1);
    forall d, m | Live(s1, d) && 0 <= m < SOURCES ensures SourceOk(s1, d, m) {
      assert SourceOk(s, d, m);
      var r := Youngest(s, d, s.rob[d].src[m]);
      assert IsYoungest(s, d, s.rob[d].src[m], r);
      if r.Some? && d == i && m == j {
        ReadyOrNot(s, r.value, s.rob[i].src[j]);
      }
    }
  }

  lemma AddLoadDebts(s: Lsq, i: nat, j: nat, l: nat)
    requires Shape(s) && CanAdd(s, i, j, l) && OperandsOk(s) && DebtsOk(s)
    ensures Shape(AddLoad(s, i, j, l)) && DebtsOk(AddLoad(s, i, j, l))
  {
    AddLoadShape(s, i, j, l);
    assert OperandOk(s, i, j);
    hide OperandsOk, DebtsOk, Youngest;
    KeepsDebts(s, AddLoad(s, i, j, l));
  }

  /** Data for an open operand takes it off the count. */
  lemma WithDataCount(e: Instr, j: nat, how: How)
    requires j < |e.loaded| && j < |e.src| && e.src[j] != 0 && e.loaded[j] == Pending && how != Pending && CountOk(e)
    ensures CountOk(WithData(e, j, how))
    ensures e.memOps > 0
  {
    assert OpenLoads(WithData(e, j, how)) == OpenLoads(e) - {j};
    assert OpenStores(WithData(e, j, how)) == OpenStores(e);
    assert j in OpenLoads(e);
  }

  lemma AddLoadCounts(s: Lsq, i: nat, j: nat, l: nat)
    requires Shape(s) && CanAdd(s, i, j, l) && OperandsOk(s) && CountsOk(s)
    ensures CountsOk(AddLoad(s, i, j, l))
  {
    var s1 := AddLoad(s, i, j, l);
    AddLoadShape(s, i, j, l);
    assert OperandOk(s, i, j);
    forall d | Live(s1, d) ensures CountOk(s1.rob[d]) {
      assert CountOk(s.rob[d]);
      if s1.rob[d].loaded == s.rob[d].loaded {
        assert OpenLoads(s1.rob[d]) == OpenLoads(s.rob[d]);
        assert OpenStores(s1.rob[d]) == OpenStores(s.rob[d]);
      } else {
        WithDataCount(WithLoad(s.rob[i], j, l), j, s1.rob[i].loaded[j]);
        assert OpenLoads(WithLoad(s.rob[i], j, l)) == OpenLoads(s.rob[i]);
        assert OpenStores(WithLoad(s.rob[i], j, l)) == OpenStores(s.rob[i]);
      }
    }
  }

  lemma AddLoadStages(s: Lsq, i: nat, j: nat, l: nat)
    requires Shape(s) && CanAdd(s, i, j, l) && StagesOk(s)
    ensures StagesOk(AddLoad(s, i, j, l))
  {
    var s1 := AddLoad(s, i, j, l);
    AddLoadShape(s, i, j, l);
    forall d | Live(s1, d) ensures StageOk(s1.rob[d]) {
      assert StageOk(s.rob[d]);
    }
  }

  lemma AddLoadPath(s: Lsq, i: nat, j: nat, l: nat)
    requires Shape(s) && CanAdd(s, i, j, l) && PathOk(s)
    ensures PathOk(AddLoad(s, i, j, l))
  {
    var s1 := AddLoad(s, i, j, l);
    assert !OnPath(s, l);
    if Youngest(s, i, s.rob[i].src[j]) == None {
      assert forall m: nat :: OnPath(s1, m) <==> OnPath(s, m) || m == l;
    } else {
      assert forall m: nat :: OnPath(s1, m) <==> OnPath(s, m);
    }
  }

  lemma AddLoadInv(s: Lsq, i: nat, j: nat, l: nat)
    requires Inv(s) && CanAdd(s, i, j, l)
    ensures Inv(AddLoad(s, i, j, l))
  {
    hide OperandsOk, LoadsOk, DestinationsOk, StoresOk, WaitsOk, DependentsOk, SourcesOk, DebtsOk, CountsOk, InOrder, StagesOk, PathOk;
    var s1 := AddLoad(s, i, j, l);
    AddLoadShape(s, i, j, l);
    KeepsOrder(s, s1);
    KeepsStores(s, s1);
    AddLoadOperands(s, i, j, l);
    AddLoadLoads(s, i, j, l);
    AddLoadWaits(s, i, j, l);
    AddLoadDependents(s, i, j, l);
    AddLoadSources(s, i, j, l);
    AddLoadDebts(s, i, j, l);
    AddLoadCounts(s, i, j, l);
    AddLoadStages(s, i, j, l);
    AddLoadPath(s, i, j, l);
  }

  // ---- Memory answers a load ----

  /** An answer finds its load still waiting, and no store to wait for. */
  lemma AnswerIsAwaited(s: Lsq, l: nat)
    requires Shape(s) && OperandsOk(s) && LoadsOk(s) && PathOk(s) && l in s.fetching
    ensures l < |s.lq| && s.lq[l].address != 0
    ensures var x := s.lq[l];
            && Waiting(s, x.robIndex, x.slot) && OperandOk(s, x.robIndex, x.slot) && s.rob[x.robIndex].lqIndex[x.slot] == l
            && x.id == s.rob[x.robIndex].id && x.address == s.rob[x.robIndex].src[x.slot]
            && Youngest(s, x.robIndex, x.address) == None
  {
    assert OnPath(s, l);
    var x := s.lq[l];
    assert OperandOk(s, x.robIndex, x.slot);
  }

  lemma LoadReturnedLoads(s: Lsq, l: nat)
    requires Shape(s) && OperandsOk(s) && LoadsOk(s) && PathOk(s) && l in s.fetching
    ensures l < |s.lq| && s.lq[l].robIndex < |s.rob| && s.lq[l].slot < SOURCES
    ensures Shape(LoadReturned(s, l)) && OperandsOk(LoadReturned(s, l)) && LoadsOk(LoadReturned(s, l))
  {
    AnswerIsAwaited(s, l);
    var s1 := LoadReturned(s, l);
    SameYoungest(s, s1);
    forall d, m | Live(s1, d) && 0 <= m < SOURCES ensures OperandOk(s1, d, m) {
      assert OperandOk(s, d, m);
    }
  }

  lemma LoadReturnedSources(s: Lsq, l: nat)
    requires Shape(s) && OperandsOk(s) && LoadsOk(s) && PathOk(s) && SourcesOk(s) && l in s.fetching
    ensures l < |s.lq| && s.lq[l].robIndex < |s.rob| && s.lq[l].slot < SOURCES
    ensures Shape(LoadReturned(s, l)) && SourcesOk(LoadReturned(s, l))
  {
    AnswerIsAwaited(s, l);
    var s1 := LoadReturned(s, l);
    SameYoungest(s, s1);
    hide OperandsOk, LoadsOk, PathOk;
    forall d, m | Live(s1, d) && 0 <= m < SOURCES ensures SourceOk(s1, d, m) {
      assert SourceOk(s, d, m);
      var r := Youngest(s, d, s.rob[d].src[m]);
      assert IsYoungest(s, d, s.rob[d].src[m], r);
    }
  }

  lemma LoadReturnedCounts(s: Lsq, l: nat)
    requires Shape(s) && OperandsOk(s) && LoadsOk(s) && PathOk(s) && CountsOk(s) && StagesOk(s) && l in s.fetching
    ensures l < |s.lq| && s.lq[l].robIndex < |s.rob| && s.lq[l].slot < SOURCES
    ensures CountsOk(LoadReturned(s, l)) && StagesOk(LoadReturned(s, l))
  {
    AnswerIsAwaited(s, l);
    var x := s.lq[l];
    WithDataCount(s.rob[x.robIndex], x.slot, FromMemory);
    var s1 := LoadReturned(s, l);
    hide OperandsOk, LoadsOk, PathOk, CountOk;
    forall d | Live(s1, d) ensures CountOk(s1.rob[d]) && StageOk(s1.rob[d]) {
      assert CountOk(s.rob[d]) && StageOk(s.rob[d]);
    }
  }

  lemma LoadReturnedPath(s: Lsq, l: nat)
    requires Shape(s) && OperandsOk(s) && LoadsOk(s) && PathOk(s) && l in s.fetching
    ensures l < |s.lq| && s.lq[l].robIndex < |s.rob| && s.lq[l].slot < SOURCES
    ensures PathOk(LoadReturned(s, l))
  {
    AnswerIsAwaited(s, l);
    var s1 := LoadReturned(s, l);
    assert forall m: nat :: OnPath(s1, m) <==> OnPath(s, m) && m != l;
  }

  lemma LoadReturnedDebts(s: Lsq, l: nat)
    requires Shape(s) && OperandsOk(s) && LoadsOk(s) && PathOk(s) && DebtsOk(s) && l in s.fetching
    ensures l < |s.lq| && s.lq[l].robIndex < |s.rob| && s.lq[l].slot < SOURCES
    ensures Shape(LoadReturned(s, l)) && DebtsOk(LoadReturned(s, l))
  {
    AnswerIsAwaited(s, l);
    hide OperandsOk, LoadsOk, PathOk, DebtsOk;
    KeepsDebts(s, LoadReturned(s, l));
  }

  lemma LoadReturnedInv(s: Lsq, l: nat)
    requires Inv(s) && l in s.fetching
    ensures l < |s.lq| && s.lq[l].robIndex < |s.rob| && s.lq[l].slot < SOURCES
    ensures Inv(LoadReturned(s, l))
  {
    hide OperandsOk, LoadsOk, DestinationsOk, StoresOk, WaitsOk, DependentsOk, SourcesOk, DebtsOk, CountsOk, InOrder, StagesOk, PathOk;
    AnswerIsAwaited(s, l);
    var s1 := LoadReturned(s, l);
    LoadReturnedLoads(s, l);
    LoadReturnedSources(s, l);
    LoadReturnedCounts(s, l);
    LoadReturnedPath(s, l);
    KeepsOrder(s, s1);
    KeepsStores(s, s1);
    KeepsWaits(s, s1);
    KeepsDependents(s, s1);
    LoadReturnedDebts(s, l);
  }
}
