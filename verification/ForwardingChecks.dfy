/**
  The assertions of execute_store, exactly as the source makes them: when they hold, and when
  a store that passes them serves a load of another address.
 */
module ForwardingChecks {
  import opened Options
  import opened RingOrder
  import opened Forwarding
  import opened ForwardingSafety
  import opened ForwardingStores

  /** A visited operand that the store is not for: it waits for another one, or has its data. */
  ghost predicate Foreign(s: Lsq, t: nat, d: nat, j: int)
    requires Shape(s) && t < |s.sq| && d < |s.rob| && 0 <= j < SOURCES
  {
    Youngest(s, d, s.rob[d].src[j]) != Some(s.sq[t].robIndex) || s.rob[d].loaded[j] != Pending
  }

  /** The entry that the operand once had is that of a load waiting for another store of the instruction. */
  ghost predicate Reused(s: Lsq, t: nat, l: nat)
    requires t < |s.sq|
  {
    l < |s.lq| && s.lq[l].address != s.sq[t].address && s.lq[l].producer == Some(s.sq[t].id)
  }

  /** A visited operand that is not foreign has its own entry. */
  lemma OwnEntry(s: Lsq, t: nat, d: nat, j: int, l: nat)
    requires Shape(s) && InOrder(s) && OperandsOk(s) && DestinationsOk(s) && StoresOk(s) && DependentsOk(s) && CanExecute(s, t)
    requires s.sq[t].robIndex < |s.rob| && Leads(s, t, d, j, l) && !Foreign(s, t, d, j)
    ensures l < |s.lq| && s.lq[l] == Load(s.sq[t].address, s.rob[d].id, d, j, Some(s.sq[t].id))
  {
    StoreIsOpen(s, t);
    DependentIsLive(s, s.sq[t].robIndex, d);
    assert OperandOk(s, d, j) && Waiting(s, d, j);
  }

  /** A foreign visit that passes was led to the entry of another load. */
  lemma ForeignEntry(s: Lsq, t: nat, d: nat, j: int, l: nat)
    requires Inv(s) && CanExecute(s, t) && s.sq[t].robIndex < |s.rob| && CheckHolds(s, t)
    requires Leads(s, t, d, j, l) && Foreign(s, t, d, j)
    ensures Reused(s, t, l)
    ensures s.lq[l].robIndex < |s.rob| && s.lq[l].slot < SOURCES && Hit(s, t, s.lq[l].robIndex, s.lq[l].slot)
    ensures s.rob[s.lq[l].robIndex].src[s.lq[l].slot] != s.sq[t].address
  {
    hide OperandsOk, LoadsOk, DestinationsOk, StoresOk, WaitsOk, DependentsOk, SourcesOk, DebtsOk, CountsOk, StagesOk, PathOk, InOrder;
    var e, m := VisitedEntry(s, t, d, j, l);
  }

  /**
    The assertions of execute_store hold exactly when every foreign visit is led to a load
    that waits for another store of the instruction, and no two foreign visits to the same.
   */
  lemma AssertionsHoldIff(s: Lsq, t: nat)
    requires Inv(s) && CanExecute(s, t)
    ensures s.sq[t].robIndex < |s.rob|
    ensures CheckHolds(s, t)
            <==> (forall d: nat, j, l: nat :: Leads(s, t, d, j, l) && Foreign(s, t, d, j) ==> Reused(s, t, l))
                 && (forall d: nat, j, e: nat, m, l: nat ::
                       Leads(s, t, d, j, l) && Leads(s, t, e, m, l) && Foreign(s, t, d, j) && Foreign(s, t, e, m) ==> d == e && j == m)
  {
    StoreIsOpen(s, t);
    hide LoadsOk, WaitsOk, SourcesOk, DebtsOk, CountsOk, StagesOk, PathOk;
    forall d: nat, j, l: nat | Leads(s, t, d, j, l)
      ensures if Foreign(s, t, d, j) then CheckHolds(s, t) ==> Reused(s, t, l)
              else l < |s.lq| && s.lq[l] == Load(s.sq[t].address, s.rob[d].id, d, j, Some(s.sq[t].id))
    {
      if Foreign(s, t, d, j) {
        if CheckHolds(s, t) {
          ForeignEntry(s, t, d, j, l);
        }
      } else {
        OwnEntry(s, t, d, j, l);
      }
    }
    hide OperandsOk, DestinationsOk, StoresOk, DependentsOk, InOrder, Foreign;
  }

  // ---- Serving the wrong load ----

  /** The store gives its data to a load of another address. */
  ghost predicate Misfeeds(s: Lsq, t: nat)
    requires Shape(s) && t < |s.sq| && s.sq[t].robIndex < |s.rob|
  {
    exists d: nat, j :: Hit(s, t, d, j) && s.rob[d].src[j] != s.sq[t].address
  }

  /** A store that passes the assertions serves a load of another address exactly when it visits a foreign one. */
  lemma MisfeedsIff(s: Lsq, t: nat)
    requires Inv(s) && CanExecute(s, t) && s.sq[t].robIndex < |s.rob| && CheckHolds(s, t)
    ensures Misfeeds(s, t) <==> exists d: nat, j :: Visits(s, t, d, j) && Foreign(s, t, d, j)
  {
    hide LoadsOk, WaitsOk, SourcesOk, DebtsOk, CountsOk, StagesOk, PathOk, CheckHolds;
    if d: nat, j :| Visits(s, t, d, j) && Foreign(s, t, d, j) {
      assert Leads(s, t, d, j, s.rob[d].lqIndex[j]);
      ForeignEntry(s, t, d, j, s.rob[d].lqIndex[j]);
    }
    forall d: nat, j | Hit(s, t, d, j) && s.rob[d].src[j] != s.sq[t].address
      ensures exists e: nat, m :: Visits(s, t, e, m) && Foreign(s, t, e, m)
    {
      var l := s.rob[d].lqIndex[j];
      var e: nat, m :| Leads(s, t, e, m, l);
      assert Visits(s, t, e, m);
      if !Foreign(s, t, e, m) {
        OwnEntry(s, t, e, m, l);
        assert OperandOk(s, d, j);
      }
    }
  }

  // ---- Where foreign visits come from ----

  /** No instruction stores twice to one address. */
  ghost predicate StoresOnce(e: Instr) {
    forall k, m :: 0 <= k < m < |e.dst| && e.dst[k] != 0 ==> e.dst[k] != e.dst[m]
  }

  /** A store between the executing one and its dependent `d` writes the same address. */
  ghost predicate Shadowed(s: Lsq, t: nat, d: nat)
    requires Shape(s) && CanExecute(s, t)
  {
    exists q :: Live(s, q) && Older(s, s.sq[t].robIndex, q) && Older(s, q, d) && s.sq[t].address in s.rob[q].dst
  }

  /**
    For instructions that store at most once to an address, a visit is foreign exactly if a
    younger store shadows this one, or the operand was given the data of another address.
   */
  lemma ForeignIffShadowed(s: Lsq, t: nat, d: nat, j: int)
    requires Inv(s) && CanExecute(s, t) && s.sq[t].robIndex < |s.rob| && Visits(s, t, d, j)
    requires forall i :: Live(s, i) ==> StoresOnce(s.rob[i])
    ensures Foreign(s, t, d, j) <==> Shadowed(s, t, d) || Misfed(s, d, j)
  {
    StoreIsOpen(s, t);
    hide LoadsOk, DestinationsOk, StoresOk, WaitsOk, CountsOk, StagesOk, PathOk, OperandsOk, InOrder;
    var p := s.sq[t].robIndex;
    var a := s.sq[t].address;
    DependentIsLive(s, p, d);
    var y := Youngest(s, d, a);
    assert IsYoungest(s, d, a, y);
    assert SourceOk(s, d, j);
    if y == Some(p) {
      assert !Shadowed(s, t, d);
      assert !HasStore(s.rob[p], a, true);
    } else {
      assert y.Some?;
      assert Older(s, p, y.value);
    }
  }

  // ---- Instructions with a single store ----

  ghost predicate SingleStore(e: Instr) { |e.dst| == DESTS && (e.dst[0] == 0 || e.dst[1] == 0) }

  ghost predicate SingleStores(s: Lsq) { forall i :: Live(s, i) ==> SingleStore(s.rob[i]) }

  /** Who waits for the only store of an instruction has no other store to its address in between. */
  lemma SingleStoreIsNearest(s: Lsq, p: nat, k: nat, d: nat, q: nat)
    requires Shape(s) && OperandsOk(s) && DependentsOk(s) && Live(s, p) && d in s.rob[p].dependents
    requires k < DESTS && forall m :: 0 <= m < DESTS && s.rob[p].dst[m] != 0 ==> m == k
    requires Live(s, q) && Older(s, p, q) && Older(s, q, d)
    ensures s.rob[p].dst[k] !in s.rob[q].dst
  {
    var j :| Needs(s, p, d, j);
    assert Feeds(s, p, d, s.rob[d].src[j]);
    assert OperandOk(s, d, j);
  }

  /** An instruction with a single store owes nothing once it has executed it. */
  lemma SingleStoreOwesNothing(s: Lsq, p: nat, x: nat)
    requires Shape(s) && OperandsOk(s) && DestinationsOk(s) && Live(s, p) && SingleStore(s.rob[p]) && HasStore(s.rob[p], x, true)
    ensures !Owes(s, p)
  {
    assert DestinationOk(s, p, 0) && DestinationOk(s, p, 1);
    forall d: nat, m ensures !Early(s, p, d, m) {
      if Live(s, d) && 0 <= m < SOURCES {
        assert OperandOk(s, d, m);
      }
    }
  }

  /** It has executed its store before it feeds anyone, so it never serves a wrong load. */
  lemma SingleStoresMisfeedNobody(s: Lsq, i: int, j: int)
    requires Inv(s) && SingleStores(s)
    ensures !Misfed(s, i, j)
  {
    hide InOrder, LoadsOk, StoresOk, WaitsOk, CountsOk, StagesOk, PathOk, DependentsOk, OperandsOk, DestinationsOk, Owes;
    if Live(s, i) && 0 <= j < SOURCES {
      assert SourceOk(s, i, j);
      var y := Youngest(s, i, s.rob[i].src[j]);
      assert IsYoungest(s, i, s.rob[i].src[j], y);
      if y.Some? && s.rob[i].loaded[j].FromStore? {
        SingleStoreOwesNothing(s, y.value, s.rob[i].loaded[j].address);
      }
    }
  }

  /** Instructions with a single store never run into the assertions, and serve no wrong load. */
  lemma SingleStoresPass(s: Lsq, t: nat)
    requires Inv(s) && CanExecute(s, t) && SingleStores(s)
    ensures s.sq[t].robIndex < |s.rob| && CheckHolds(s, t) && !Misfeeds(s, t)
  {
    AssertionsHoldIff(s, t);
    StoreIsOpen(s, t);
    hide InOrder, LoadsOk, DestinationsOk, StoresOk, WaitsOk, SourcesOk, DebtsOk, CountsOk, StagesOk, PathOk, CheckHolds;
    forall d: nat, j: int | Visits(s, t, d, j) ensures !Foreign(s, t, d, j) {
      SingleVisitIsOwn(s, t, d, j);
    }
    MisfeedsIff(s, t);
  }

  lemma SingleVisitIsOwn(s: Lsq, t: nat, d: nat, j: int)
    requires Inv(s) && CanExecute(s, t) && s.sq[t].robIndex < |s.rob| && SingleStores(s) && Visits(s, t, d, j)
    ensures !Foreign(s, t, d, j)
  {
    StoreIsOpen(s, t);
    ForeignIffShadowed(s, t, d, j);
    SingleStoresMisfeedNobody(s, d, j);
    hide InOrder, LoadsOk, DestinationsOk, StoresOk, WaitsOk, SourcesOk, DebtsOk, CountsOk, StagesOk, PathOk, Foreign, OperandsOk, DependentsOk, Misfed;
    forall q | Live(s, q) && Older(s, s.sq[t].robIndex, q) && Older(s, q, d) ensures s.sq[t].address !in s.rob[q].dst {
      SingleStoreIsNearest(s, s.sq[t].robIndex, s.sq[t].slot, d, q);
    }
  }
}
