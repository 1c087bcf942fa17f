/** Executing a store, and the two ends of the reorder buffer, keep the invariant. */
module ForwardingStores {
  import opened Options
  import opened RingOrder
  import opened Forwarding
  import opened ForwardingSafety
  import opened ForwardingSteps

  // ---- A store executes ----

  ghost predicate CanExecute(s: Lsq, t: nat) { t < |s.sq| && s.sq[t].address != 0 && !s.sq[t].done }

  /** An executable store belongs to a live instruction, which counts it as open. */
  lemma StoreIsOpen(s: Lsq, t: nat)
    requires Shape(s) && DestinationsOk(s) && StoresOk(s) && CanExecute(s, t)
    ensures var x := s.sq[t]; var p := x.robIndex;
            && Live(s, p) && x.slot < DESTS && s.rob[p].sqIndex[x.slot] == Some(t) && s.rob[p].dst[x.slot] == x.address
            && s.rob[p].id == x.id && !s.rob[p].stored[x.slot] && x.slot in OpenStores(s.rob[p])
  {
    assert DestinationOk(s, s.sq[t].robIndex, s.sq[t].slot);
  }

  /** The new state is the executed store's, and the loads that were hit have their data. */
  ghost predicate Executes(s: Lsq, s1: Lsq, t: nat)
    requires Shape(s) && Shape(s1) && CanExecute(s, t)
  {
    var x := s.sq[t]; var p := x.robIndex;
    && Live(s, p) && x.slot < DESTS && s.rob[p].dst[x.slot] == x.address && s.rob[p].id == x.id
    && SameProgram(s, s1)
    && (forall d :: 0 <= d < |s.rob| ==>
          && s1.rob[d].srcAdded == s.rob[d].srcAdded && s1.rob[d].lqIndex == s.rob[d].lqIndex
          && s1.rob[d].sqIndex == s.rob[d].sqIndex && s1.rob[d].dependents == s.rob[d].dependents
          && s1.rob[d].executed == s.rob[d].executed)
    && (forall d, j :: 0 <= d < |s.rob| && 0 <= j < SOURCES ==>
          s1.rob[d].loaded[j] == if Hit(s, t, d, j) then FromStore(x.id, x.address) else s.rob[d].loaded[j])
    && (forall d, k :: 0 <= d < |s.rob| && 0 <= k < DESTS ==>
          s1.rob[d].stored[k] == (s.rob[d].stored[k] || (d == p && k == x.slot)))
  }

  /** A visit leads to the entry of this waiting operand. */
  ghost predicate Hit(s: Lsq, t: nat, d: int, j: int)
    requires Shape(s) && t < |s.sq| && s.sq[t].robIndex < |s.rob|
  {
    Waiting(s, d, j) && Reaches(s, t, s.rob[d].lqIndex[j])
  }

  /** Only loads that wait for the instruction of the store are hit. */
  lemma HitWaitsForStore(s: Lsq, t: nat, d: nat, j: nat)
    requires Shape(s) && InOrder(s) && OperandsOk(s) && DestinationsOk(s) && StoresOk(s)
    requires CanExecute(s, t) && s.sq[t].robIndex < |s.rob| && CheckHolds(s, t) && Hit(s, t, d, j)
    ensures Youngest(s, d, s.rob[d].src[j]) == Some(s.sq[t].robIndex) && d != s.sq[t].robIndex
  {
    StoreIsOpen(s, t);
    assert OperandOk(s, d, j);
    var e: nat, m :| Leads(s, t, e, m, s.rob[d].lqIndex[j]);
    var y := Youngest(s, d, s.rob[d].src[j]);
    assert IsYoungest(s, d, s.rob[d].src[j], y);
    SameId(s, y.value, s.sq[t].robIndex);
  }

  /** Every load that waits for the store is visited, and so hit. */
  lemma WaiterIsHit(s: Lsq, t: nat, d: nat, j: nat)
    requires Shape(s) && WaitsOk(s) && CanExecute(s, t) && s.sq[t].robIndex < |s.rob| && Waiting(s, d, j)
    requires Youngest(s, d, s.rob[d].src[j]) == Some(s.sq[t].robIndex) && s.rob[d].src[j] == s.sq[t].address
    ensures Leads(s, t, d, j, s.rob[d].lqIndex[j]) && Hit(s, t, d, j)
  {
    assert d in s.rob[s.sq[t].robIndex].dependents;
    assert Leads(s, t, d, j, s.rob[d].lqIndex[j]);
  }

  lemma ExecuteStoreShape(s: Lsq, t: nat)
    requires Shape(s) && InOrder(s) && OperandsOk(s) && DestinationsOk(s) && StoresOk(s)
    requires CanExecute(s, t) && s.sq[t].robIndex < |s.rob| && CheckHolds(s, t)
    ensures s.sq[t].slot < DESTS
    ensures Shape(ExecuteStore(s, t)) && Executes(s, ExecuteStore(s, t), t) && InOrder(ExecuteStore(s, t))
  {
    StoreIsOpen(s, t);
    var s1 := ExecuteStore(s, t);
    forall d: nat, j: nat | Hit(s, t, d, j) ensures d != s.sq[t].robIndex {
      HitWaitsForStore(s, t, d, j);
    }
    hide OperandsOk, DestinationsOk, StoresOk, CheckHolds, Reaches;
    forall d | 0 <= d < |s.rob|
      ensures Formed(s1.rob[d])
      ensures forall j :: 0 <= j < SOURCES && Live(s, d) ==> (j in Hits(s, t, d) <==> Hit(s, t, d, j))
      ensures !Live(s, d) ==> s1.rob[d] == s.rob[d]
    {
      assert Formed(s.rob[d]);
      if !Live(s, d) {
        assert s.rob[d] == EMPTY;
        assert Hits(s, t, d) == {};
        assert s1.rob[d].loaded == s.rob[d].loaded;
      }
    }
    KeepsOrder(s, s1);
  }

  lemma ExecutedLoads(s: Lsq, s1: Lsq, t: nat)
    requires Shape(s) && Shape(s1) && CanExecute(s, t) && Executes(s, s1, t) && s1.lq == ExecuteStore(s, t).lq
    requires OperandsOk(s) && LoadsOk(s)
    ensures OperandsOk(s1) && LoadsOk(s1)
  {
    SameYoungest(s, s1);
    hide Reaches;
    forall d, m | Live(s1, d) && 0 <= m < SOURCES ensures OperandOk(s1, d, m) {
      assert OperandOk(s, d, m);
    }
  }

  lemma SameId(s: Lsq, p: nat, q: nat)
    requires Shape(s) && InOrder(s) && Live(s, p) && Live(s, q)
    ensures s.rob[p].id == s.rob[q].id <==> p == q
  {
    assert Pos(p, s.head, |s.rob|) == Pos(q, s.head, |s.rob|) || Older(s, q, p) || Older(s, p, q);
  }

  lemma ExecutedStores(s: Lsq, s1: Lsq, t: nat)
    requires Shape(s) && Shape(s1) && CanExecute(s, t) && Executes(s, s1, t)
    requires DestinationsOk(s) && StoresOk(s) && s1.sq == s.sq[t := s.sq[t].(done := true)]
    ensures DestinationsOk(s1) && StoresOk(s1)
  {
    StoreIsOpen(s, t);
    forall i, k | Live(s1, i) && 0 <= k < DESTS ensures DestinationOk(s1, i, k) {
      assert DestinationOk(s, i, k);
    }
  }

  lemma ExecutedWaits(s: Lsq, s1: Lsq, t: nat)
    requires Shape(s) && Shape(s1) && CanExecute(s, t) && Executes(s, s1, t) && WaitsOk(s)
    ensures WaitsOk(s1)
  {
    var x := s.sq[t];
    SameYoungest(s, s1);
    forall i, j, p | Waiting(s1, i, j) && Youngest(s1, i, s1.rob[i].src[j]) == Some(p)
      ensures i in s1.rob[p].dependents && HasStore(s1.rob[p], s1.rob[i].src[j], false)
    {
      assert Waiting(s, i, j) && Feeds(s, p, i, s.rob[i].src[j]) && !Hit(s, t, i, j);
      if p == x.robIndex && s.rob[i].src[j] == x.address {
        WaiterIsHit(s, t, i, j);
      }
      StaysOpen(s, s1, t, p, s.rob[i].src[j]);
    }
  }

  /** A store leaves the stores to other addresses, and those of others, to be executed. */
  lemma StaysOpen(s: Lsq, s1: Lsq, t: nat, p: nat, a: nat)
    requires Shape(s) && Shape(s1) && CanExecute(s, t) && Executes(s, s1, t) && Live(s, p)
    requires HasStore(s.rob[p], a, false) && !(p == s.sq[t].robIndex && a == s.sq[t].address)
    ensures HasStore(s1.rob[p], a, false)
  {
    var k :| 0 <= k < DESTS && s.rob[p].dst[k] == a && !s.rob[p].stored[k];
    assert s1.rob[p].dst[k] == a && !s1.rob[p].stored[k];
  }

  lemma ExecutedSources(s: Lsq, s1: Lsq, t: nat)
    requires Shape(s) && Shape(s1) && CanExecute(s, t) && Executes(s, s1, t) && CheckHolds(s, t)
    requires InOrder(s) && OperandsOk(s) && DestinationsOk(s) && StoresOk(s) && SourcesOk(s)
    ensures SourcesOk(s1)
  {
    var x := s.sq[t];
    SameYoungest(s, s1);
    forall d, m | Live(s1, d) && 0 <= m < SOURCES ensures SourceOk(s1, d, m) {
      assert SourceOk(s, d, m);
      var r := Youngest(s, d, s.rob[d].src[m]);
      assert IsYoungest(s, d, s.rob[d].src[m], r);
      if Hit(s, t, d, m) {
        HitWaitsForStore(s, t, d, m);
        StoredGrows(s, s1, t, x.robIndex, x.address);
      } else if r.Some? && s.rob[d].loaded[m].FromStore? {
        StoredGrows(s, s1, t, r.value, s.rob[d].loaded[m].address);
      }
    }
  }

  lemma StoredGrows(s: Lsq, s1: Lsq, t: nat, p: nat, a: nat)
    requires Shape(s) && Shape(s1) && CanExecute(s, t) && Executes(s, s1, t) && Live(s, p)
    requires HasStore(s.rob[p], a, true) || (p == s.sq[t].robIndex && a == s.sq[t].address)
    ensures HasStore(s1.rob[p], a, true)
  {
    if k :| 0 <= k < DESTS && s.rob[p].dst[k] == a && s.rob[p].stored[k] {
      assert s1.rob[p].dst[k] == a && s1.rob[p].stored[k];
    } else {
      var k := s.sq[t].slot;
      assert s1.rob[p].dst[k] == a && s1.rob[p].stored[k];
    }
  }

  /** The entry that a visit leads to belongs to a load that waits for the instruction of the store. */
  lemma VisitedEntry(s: Lsq, t: nat, d: nat, j: int, l: nat) returns (e: nat, m: nat)
    requires Shape(s) && InOrder(s) && OperandsOk(s) && LoadsOk(s) && DestinationsOk(s) && StoresOk(s) && WaitsOk(s)
    requires CanExecute(s, t) && s.sq[t].robIndex < |s.rob| && CheckHolds(s, t) && Leads(s, t, d, j, l)
    ensures l < |s.lq| && e == s.lq[l].robIndex && m == s.lq[l].slot
    ensures Hit(s, t, e, m) && s.rob[e].lqIndex[m] == l && s.lq[l].address == s.rob[e].src[m]
    ensures Youngest(s, e, s.rob[e].src[m]) == Some(s.sq[t].robIndex)
    ensures s.rob[e].src[m] == s.sq[t].address ==> e == d && m == j
  {
    e, m := s.lq[l].robIndex, s.lq[l].slot;
    assert Waiting(s, e, m) && OperandOk(s, e, m);
    assert Reaches(s, t, l);
    HitWaitsForStore(s, t, e, m);
    if s.rob[e].src[m] == s.sq[t].address {
      WaiterIsHit(s, t, e, m);
    }
  }

  /** Who owes a store still does after one of its stores: a load that it hits too early takes the place of another. */
  lemma StillOwes(s: Lsq, s1: Lsq, t: nat, p: nat)
    requires Shape(s) && Shape(s1) && CanExecute(s, t) && Executes(s, s1, t) && CheckHolds(s, t)
    requires InOrder(s) && OperandsOk(s) && LoadsOk(s) && DestinationsOk(s) && StoresOk(s) && WaitsOk(s) && Owes(s, p)
    ensures Owes(s1, p)
  {
    var d: nat, j :| Early(s, p, d, j);
    if p == s.sq[t].robIndex && s.rob[d].src[j] == s.sq[t].address {
      assert Leads(s, t, d, j, s.rob[d].lqIndex[j]);
      var e, m := VisitedEntry(s, t, d, j, s.rob[d].lqIndex[j]);
      StaysOpen(s, s1, t, p, s.rob[e].src[m]);
      assert Early(s1, p, e, m);
    } else {
      StaysOpen(s, s1, t, p, s.rob[d].src[j]);
      assert Early(s1, p, d, j);
    }
  }

  lemma ExecutedDebts(s: Lsq, s1: Lsq, t: nat)
    requires Shape(s) && Shape(s1) && CanExecute(s, t) && Executes(s, s1, t) && CheckHolds(s, t)
    requires InOrder(s) && OperandsOk(s) && LoadsOk(s) && DestinationsOk(s) && StoresOk(s) && WaitsOk(s) && DebtsOk(s)
    ensures DebtsOk(s1)
  {
    var x := s.sq[t];
    SameYoungest(s, s1);
    hide OperandsOk, LoadsOk, DestinationsOk, StoresOk, InOrder;
    forall i, j | Misfed(s1, i, j)
      ensures Youngest(s1, i, s1.rob[i].src[j]).Some? && Owes(s1, Youngest(s1, i, s1.rob[i].src[j]).value)
    {
      if Hit(s, t, i, j) {
        HitWaitsForStore(s, t, i, j);
        StaysOpen(s, s1, t, x.robIndex, s.rob[i].src[j]);
        assert Early(s1, x.robIndex, i, j);
      } else {
        assert Misfed(s, i, j);
        StillOwes(s, s1, t, Youngest(s, i, s.rob[i].src[j]).value);
      }
    }
  }

  lemma ExecutedCounts(s: Lsq, t: nat)
    requires Shape(s) && InOrder(s) && OperandsOk(s) && DestinationsOk(s) && StoresOk(s) && CountsOk(s) && StagesOk(s)
    requires CanExecute(s, t) && s.sq[t].robIndex < |s.rob| && CheckHolds(s, t)
    ensures s.sq[t].slot < DESTS
    ensures CountsOk(ExecuteStore(s, t)) && StagesOk(ExecuteStore(s, t))
  {
    StoreIsOpen(s, t);
    ExecuteStoreShape(s, t);
    var x := s.sq[t];
    var p := x.robIndex;
    var s1 := ExecuteStore(s, t);
    hide InOrder, DestinationsOk, StoresOk, Youngest, Executes, CheckHolds, Reaches;
    forall d | Live(s1, d) ensures CountOk(s1.rob[d]) && StageOk(s1.rob[d]) {
      assert CountOk(s.rob[d]) && StageOk(s.rob[d]);
      if d == p {
        StoredCount(s.rob[p], x.slot);
      } else {
        forall j | j in Hits(s, t, d) ensures j in OpenLoads(s.rob[d]) {
          assert OperandOk(s, d, j);
        }
        ServedCount(s.rob[d], Hits(s, t, d), FromStore(x.id, x.address));
      }
    }
  }

  lemma StoredCount(e: Instr, k: nat)
    requires k < |e.stored| && k in OpenStores(e) && CountOk(e) && StageOk(e)
    ensures CountOk(e.(stored := e.stored[k := true], memOps := e.memOps - 1))
    ensures StageOk(e.(stored := e.stored[k := true], memOps := e.memOps - 1))
  {
    var e1 := e.(stored := e.stored[k := true], memOps := e.memOps - 1);
    assert OpenStores(e1) == OpenStores(e) - {k};
    assert OpenLoads(e1) == OpenLoads(e);
  }

  lemma ServedCount(e: Instr, hits: set<nat>, how: How)
    requires CountOk(e) && StageOk(e) && hits <= OpenLoads(e) && how != Pending
    ensures CountOk(Served(e, hits, how)) && StageOk(Served(e, hits, how))
  {
    var e1 := Served(e, hits, how);
    assert OpenLoads(e1) == OpenLoads(e) - hits;
    assert OpenStores(e1) == OpenStores(e);
    if hits == {} {
      assert e1.memOps == e.memOps;
    } else {
      var j :| j in hits;
      assert j in OpenLoads(e);
      assert |OpenLoads(e)| > 0;
    }
  }

  lemma ExecutedPath(s: Lsq, t: nat)
    requires Shape(s) && PathOk(s) && t < |s.sq| && s.sq[t].robIndex < |s.rob| && s.sq[t].slot < DESTS && CheckHolds(s, t)
    ensures PathOk(ExecuteStore(s, t))
  {
    var s1 := ExecuteStore(s, t);
    assert forall l: nat :: Reaches(s, t, l) ==> l < |s.lq| && s.lq[l].producer == Some(s.sq[t].id);
    hide Reaches, CheckHolds;
    assert forall l: nat :: OnPath(s1, l) <==> OnPath(s, l);
  }

  lemma ExecuteStoreInv(s: Lsq, t: nat)
    requires Inv(s) && CanExecute(s, t) && s.sq[t].robIndex < |s.rob| && CheckHolds(s, t)
    ensures s.sq[t].slot < DESTS
    ensures Inv(ExecuteStore(s, t))
  {
    hide OperandsOk, LoadsOk, DestinationsOk, StoresOk, WaitsOk, DependentsOk, SourcesOk, DebtsOk, CountsOk, InOrder, StagesOk, PathOk, CheckHolds, Reaches;
    ExecuteStoreShape(s, t);
    var s1 := ExecuteStore(s, t);
    ExecutedLoads(s, s1, t);
    ExecutedStores(s, s1, t);
    ExecutedWaits(s, s1, t);
    ExecutedSources(s, s1, t);
    ExecutedDebts(s, s1, t);
    ExecutedCounts(s, t);
    ExecutedPath(s, t);
    KeepsDependents(s, s1);
  }

  // ---- A new instruction ----

  ghost predicate CanDispatch(s: Lsq, e: Instr)
    requires Shape(s)
  {
    s.occupancy < |s.rob| && Fresh(e) && forall i :: Live(s, i) ==> s.rob[i].id < e.id
  }

  lemma DispatchPlaces(s: Lsq, e: Instr)
    requires Shape(s) && CanDispatch(s, e)
    ensures var s1 := Dispatch(s, e); var n := At(s.occupancy, s.head, |s.rob|);
            && Shape(s1) && s1.rob[n] == e && !Live(s, n)
            && (forall i :: Live(s1, i) <==> Live(s, i) || i == n)
            && (forall i :: Live(s, i) ==> s1.rob[i] == s.rob[i])
            && (forall i, j :: Waiting(s1, i, j) <==> Waiting(s, i, j))
  {
  }

  lemma DispatchOrder(s: Lsq, e: Instr)
    requires Shape(s) && CanDispatch(s, e) && InOrder(s)
    ensures InOrder(Dispatch(s, e))
  {
  }

  lemma DispatchLoads(s: Lsq, e: Instr)
    requires Shape(s) && CanDispatch(s, e) && OperandsOk(s) && LoadsOk(s)
    ensures Shape(Dispatch(s, e)) && OperandsOk(Dispatch(s, e)) && LoadsOk(Dispatch(s, e))
  {
    var s1 := Dispatch(s, e);
    DispatchPlaces(s, e);
    DispatchYoungest(s, e);
    forall i, j | Live(s1, i) && 0 <= j < SOURCES ensures OperandOk(s1, i, j) {
      assert Live(s, i) ==> OperandOk(s, i, j);
    }
  }

  lemma DispatchStores(s: Lsq, e: Instr)
    requires Shape(s) && CanDispatch(s, e) && DestinationsOk(s) && StoresOk(s)
    ensures Shape(Dispatch(s, e)) && DestinationsOk(Dispatch(s, e)) && StoresOk(Dispatch(s, e))
  {
    var s1 := Dispatch(s, e);
    DispatchPlaces(s, e);
    forall i, k | Live(s1, i) && 0 <= k < DESTS ensures DestinationOk(s1, i, k) {
      assert Live(s, i) ==> DestinationOk(s, i, k);
    }
  }

  lemma DispatchLinks(s: Lsq, e: Instr)
    requires Shape(s) && CanDispatch(s, e) && WaitsOk(s) && DependentsOk(s)
    ensures Shape(Dispatch(s, e)) && WaitsOk(Dispatch(s, e)) && DependentsOk(Dispatch(s, e))
  {
    var s1 := Dispatch(s, e);
    DispatchPlaces(s, e);
    DispatchYoungest(s, e);
    forall i, j, p | Waiting(s1, i, j) && Youngest(s1, i, s1.rob[i].src[j]) == Some(p)
      ensures i in s1.rob[p].dependents && HasStore(s1.rob[p], s1.rob[i].src[j], false)
    {
      assert Waiting(s, i, j) && Feeds(s, p, i, s.rob[i].src[j]);
    }
    forall p: nat, d | Live(s1, p) && d in s1.rob[p].dependents ensures exists j :: Needs(s1, p, d, j) {
      var j :| Needs(s, p, d, j);
      assert Needs(s1, p, d, j);
    }
  }

  lemma DispatchSources(s: Lsq, e: Instr)
    requires Shape(s) && CanDispatch(s, e) && SourcesOk(s)
    ensures Shape(Dispatch(s, e)) && SourcesOk(Dispatch(s, e))
  {
    var s1 := Dispatch(s, e);
    var n := At(s.occupancy, s.head, |s.rob|);
    DispatchPlaces(s, e);
    DispatchYoungest(s, e);
    forall i, j | Live(s1, i) && 0 <= j < SOURCES ensures SourceOk(s1, i, j) {
      if i != n {
        assert SourceOk(s, i, j);
        var r := Youngest(s, i, s.rob[i].src[j]);
        assert IsYoungest(s, i, s.rob[i].src[j], r);
        LoadedBefore(s, i, j, e);
      }
    }
  }

  lemma DispatchOwing(s: Lsq, e: Instr, p: nat)
    requires Shape(s) && CanDispatch(s, e) && Owes(s, p)
    ensures Shape(Dispatch(s, e)) && Owes(Dispatch(s, e), p)
  {
    DispatchPlaces(s, e);
    var d: nat, m :| Early(s, p, d, m);
    assert Early(Dispatch(s, e), p, d, m);
  }

  lemma DispatchDebts(s: Lsq, e: Instr)
    requires Shape(s) && CanDispatch(s, e) && DebtsOk(s)
    ensures Shape(Dispatch(s, e)) && DebtsOk(Dispatch(s, e))
  {
    var s1 := Dispatch(s, e);
    DispatchPlaces(s, e);
    DispatchYoungest(s, e);
    forall i, j | Misfed(s1, i, j)
      ensures Youngest(s1, i, s1.rob[i].src[j]).Some? && Owes(s1, Youngest(s1, i, s1.rob[i].src[j]).value)
    {
      assert Misfed(s, i, j);
      DispatchOwing(s, e, Youngest(s, i, s.rob[i].src[j]).value);
    }
  }

  /** Forwarded data came from an instruction older than a new one. */
  lemma LoadedBefore(s: Lsq, i: int, j: int, e: Instr)
    requires Shape(s) && CanDispatch(s, e) && Live(s, i) && 0 <= j < SOURCES && SourceOk(s, i, j)
    ensures s.rob[i].loaded[j].FromStore? ==> s.rob[i].loaded[j].id < e.id
  {
    var r := Youngest(s, i, s.rob[i].src[j]);
    assert IsYoungest(s, i, s.rob[i].src[j], r);
  }

  lemma DispatchInv(s: Lsq, e: Instr)
    requires Inv(s) && CanDispatch(s, e)
    ensures Inv(Dispatch(s, e))
  {
    hide OperandsOk, LoadsOk, DestinationsOk, StoresOk, WaitsOk, DependentsOk, SourcesOk, DebtsOk, InOrder;
    var s1 := Dispatch(s, e);
    DispatchPlaces(s, e);
    DispatchOrder(s, e);
    DispatchLoads(s, e);
    DispatchStores(s, e);
    DispatchLinks(s, e);
    DispatchSources(s, e);
    DispatchDebts(s, e);
    assert forall l: nat :: OnPath(s1, l) <==> OnPath(s, l);
  }

  // ---- The oldest instruction leaves ----

  ghost predicate CanRetire(s: Lsq)
    requires Shape(s)
  {
    s.occupancy > 0 && s.rob[s.head].executed == Completed
  }

  /** Only an instruction with all its data, whose stores have all executed, retires. */
  lemma RetiresDone(s: Lsq)
    requires Shape(s) && CanRetire(s) && CountsOk(s) && StagesOk(s)
    ensures Live(s, s.head) && OpenLoads(s.rob[s.head]) == {} && OpenStores(s.rob[s.head]) == {} && AllAdded(s.rob[s.head])
  {
    assert Live(s, s.head);
    assert CountOk(s.rob[s.head]) && StageOk(s.rob[s.head]);
  }

  /** Nobody waits for the instruction that retires. */
  lemma NobodyWaits(s: Lsq, i: int, j: int)
    requires Shape(s) && CanRetire(s) && CountsOk(s) && StagesOk(s) && WaitsOk(s) && OperandsOk(s) && Waiting(s, i, j)
    ensures i != s.head && Youngest(s, i, s.rob[i].src[j]) != Some(s.head)
  {
    RetiresDone(s);
    assert OperandOk(s, i, j);
    assert j in OpenLoads(s.rob[i]);
    if HasStore(s.rob[s.head], s.rob[i].src[j], false) {
      StillOpen(s.rob[s.head], s.rob[i].src[j]);
    }
  }

  lemma StillOpen(e: Instr, a: nat)
    requires a != 0 && HasStore(e, a, false)
    ensures OpenStores(e) != {}
  {
    var k :| 0 <= k < |e.dst| && k < |e.stored| && e.dst[k] == a && !e.stored[k];
    assert k in OpenStores(e);
  }

  lemma RetireShape(s: Lsq)
    requires Shape(s) && CanRetire(s) && InOrder(s)
    ensures Shape(Retire(s)) && InOrder(Retire(s))
    ensures forall i, j :: Waiting(Retire(s), i, j) ==> Waiting(s, i, j)
  {
    var s1 := Retire(s);
    RetirePlaces(s);
    assert forall i :: 0 <= i < |s.rob| && !Live(s1, i) ==> s1.rob[i] == EMPTY;
  }

  lemma RetireLoads(s: Lsq)
    requires Shape(s) && CanRetire(s) && InOrder(s) && OperandsOk(s) && LoadsOk(s)
    requires CountsOk(s) && StagesOk(s) && WaitsOk(s)
    ensures Shape(Retire(s)) && OperandsOk(Retire(s)) && LoadsOk(Retire(s))
  {
    var s1 := Retire(s);
    RetireShape(s);
    RetirePlaces(s);
    hide InOrder;
    forall i, j | Waiting(s, i, j) ensures i != s.head && Youngest(s, i, s.rob[i].src[j]) != Some(s.head) {
      NobodyWaits(s, i, j);
    }
    hide CountsOk, StagesOk, WaitsOk;
    forall i, j | Live(s1, i) && 0 <= j < SOURCES ensures OperandOk(s1, i, j) {
      assert OperandOk(s, i, j);
      RetireYoungest(s, i, s.rob[i].src[j]);
    }
  }

  lemma RetireStores(s: Lsq)
    requires Shape(s) && CanRetire(s) && InOrder(s) && DestinationsOk(s) && StoresOk(s)
    ensures Shape(Retire(s)) && DestinationsOk(Retire(s)) && StoresOk(Retire(s))
  {
    var s1 := Retire(s);
    RetireShape(s);
    RetirePlaces(s);
    hide InOrder;
    forall m | Some(m) in s.rob[s.head].sqIndex ensures m < |s.sq| && s.sq[m].robIndex == s.head {
      var k :| 0 <= k < DESTS && s.rob[s.head].sqIndex[k] == Some(m);
      assert DestinationOk(s, s.head, k);
    }
    forall i, k | Live(s1, i) && 0 <= k < DESTS ensures DestinationOk(s1, i, k) {
      assert DestinationOk(s, i, k);
    }
  }

  lemma RetireLinks(s: Lsq)
    requires Shape(s) && CanRetire(s) && InOrder(s) && WaitsOk(s) && DependentsOk(s)
    ensures Shape(Retire(s)) && WaitsOk(Retire(s)) && DependentsOk(Retire(s))
  {
    var s1 := Retire(s);
    RetireShape(s);
    RetirePlaces(s);
    hide InOrder;
    forall i, j, p | Waiting(s1, i, j) && Youngest(s1, i, s1.rob[i].src[j]) == Some(p)
      ensures i in s1.rob[p].dependents && HasStore(s1.rob[p], s1.rob[i].src[j], false)
    {
      RetireYoungest(s, i, s.rob[i].src[j]);
      assert Waiting(s, i, j) && Feeds(s1, p, i, s.rob[i].src[j]);
    }
    forall p: nat, d | Live(s1, p) && d in s1.rob[p].dependents ensures exists j :: Needs(s1, p, d, j) {
      var j :| Needs(s, p, d, j);
      var r := Youngest(s, d, s.rob[d].src[j]);
      assert IsYoungest(s, d, s.rob[d].src[j], r);
      RetireYoungest(s, d, s.rob[d].src[j]);
      assert Needs(s1, p, d, j);
    }
  }

  lemma RetireSources(s: Lsq)
    requires Shape(s) && CanRetire(s) && InOrder(s) && SourcesOk(s)
    ensures Shape(Retire(s)) && SourcesOk(Retire(s))
  {
    var s1 := Retire(s);
    RetireShape(s);
    RetirePlaces(s);
    assert Live(s, s.head);
    forall i, j | Live(s1, i) && 0 <= j < SOURCES ensures SourceOk(s1, i, j) {
      assert SourceOk(s, i, j);
      var r := Youngest(s1, i, s.rob[i].src[j]);
      assert IsYoungest(s1, i, s.rob[i].src[j], r);
      RetireYoungest(s, i, s.rob[i].src[j]);
    }
  }

  lemma RetireOwing(s: Lsq, p: nat)
    requires Shape(s) && CanRetire(s) && OperandsOk(s) && DependentsOk(s) && CountsOk(s) && StagesOk(s) && Owes(s, p)
    ensures Shape(Retire(s)) && Owes(Retire(s), p) && p != s.head
  {
    RetirePlaces(s);
    RetiresDone(s);
    NothingOpenNothingOwed(s, s.head);
    hide OperandsOk, CountsOk, StagesOk;
    var d: nat, m :| Early(s, p, d, m);
    DependentIsLive(s, p, d);
    assert Early(Retire(s), p, d, m);
  }

  lemma RetireDebts(s: Lsq)
    requires Shape(s) && CanRetire(s) && OperandsOk(s) && DependentsOk(s) && DebtsOk(s) && CountsOk(s) && StagesOk(s)
    ensures Shape(Retire(s)) && DebtsOk(Retire(s))
  {
    var s1 := Retire(s);
    RetirePlaces(s);
    hide OperandsOk, CountsOk, StagesOk, DependentsOk, Owes;
    forall i, j | Misfed(s1, i, j)
      ensures Youngest(s1, i, s1.rob[i].src[j]).Some? && Owes(s1, Youngest(s1, i, s1.rob[i].src[j]).value)
    {
      assert Misfed(s, i, j);
      RetireYoungest(s, i, s.rob[i].src[j]);
      RetireOwing(s, Youngest(s, i, s.rob[i].src[j]).value);
    }
  }

  /** An instruction that owes a store has not executed all its stores. */
  lemma NothingOpenNothingOwed(s: Lsq, p: nat)
    requires Shape(s) && OperandsOk(s) && Live(s, p) && OpenStores(s.rob[p]) == {}
    ensures !Owes(s, p)
  {
    forall d: nat, j ensures !Early(s, p, d, j) {
      if Early(s, p, d, j) {
        assert OperandOk(s, d, j);
        StillOpen(s.rob[p], s.rob[d].src[j]);
      }
    }
  }

  lemma DependentIsLive(s: Lsq, p: nat, d: nat)
    requires Shape(s) && DependentsOk(s) && Live(s, p) && d in s.rob[p].dependents
    ensures Live(s, d) && Older(s, p, d)
  {
    var j :| Needs(s, p, d, j);
    assert Feeds(s, p, d, s.rob[d].src[j]);
  }

  lemma RetireInv(s: Lsq)
    requires Inv(s) && CanRetire(s)
    ensures Inv(Retire(s))
  {
    hide OperandsOk, LoadsOk, DestinationsOk, StoresOk, WaitsOk, DependentsOk, SourcesOk, DebtsOk, InOrder, StageOk, CountOk;
    var s1 := Retire(s);
    RetirePlaces(s);
    RetireShape(s);
    RetireLoads(s);
    RetireStores(s);
    RetireLinks(s);
    RetireSources(s);
    RetireDebts(s);
    assert forall l: nat :: OnPath(s1, l) <==> OnPath(s, l);
  }
}
