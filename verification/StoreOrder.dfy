/**
  How stores get into the store queue of the out-of-order core (ooo_cpu.cc). The ring STA
  lists the stores of the trace in program order, and a store may enter the queue only when
  it is at the head of that list.
 */
module StoreOrder {
  import opened Options
  import opened RingOrder

  /** An instruction: its stored addresses, 0 for none, and where each store sits in the queue. */
  datatype Op = Op(id: nat, dst: seq<nat>, sqIndex: seq<Option<nat>>)

  datatype Entry = Free | Used(id: nat, slot: nat, done: bool)

  /**
    `prog` is the trace from the oldest instruction in the reorder buffer to the newest that
    was read; the first `dispatched` of them are in the reorder buffer. `rts0`, `rts1` hold
    store queue slots and `translating` the slots whose translation is under way.
   */
  datatype Unit = Unit(prog: seq<Op>, dispatched: nat, sta: seq<nat>, sq: seq<Entry>, head: nat, occupancy: int,
                       rts0: seq<nat>, translating: set<nat>, rts1: seq<nat>)

  // ---- The stores of a program ----

  datatype StoreId = StoreId(id: nat, slot: nat)

  /** The stores of an instruction among its slots below `n`, in order. */
  function StoresBelow(id: nat, dst: seq<nat>, n: nat): (r: seq<StoreId>)
    requires n <= |dst|
    ensures |r| <= n
  {
    if n == 0 then []
    else if dst[n - 1] == 0 then StoresBelow(id, dst, n - 1)
    else StoresBelow(id, dst, n - 1) + [StoreId(id, n - 1)]
  }

  /** Exactly the non-zero slots, in ascending order. */
  lemma {:induction false} StoresBelowAre(id: nat, dst: seq<nat>, n: nat)
    requires n <= |dst|
    ensures forall x :: x in StoresBelow(id, dst, n) <==> x.id == id && x.slot < n && dst[x.slot] != 0
    ensures forall x, y :: 0 <= x < y < |StoresBelow(id, dst, n)| ==> StoresBelow(id, dst, n)[x].slot < StoresBelow(id, dst, n)[y].slot
  {
    if n > 0 {
      StoresBelowAre(id, dst, n - 1);
      var r := StoresBelow(id, dst, n - 1);
      assert forall x :: 0 <= x < |r| ==> r[x] in r;
    }
  }

  function StoresOf(e: Op): seq<StoreId> { StoresBelow(e.id, e.dst, |e.dst|) }

  /** All stores of a program, in program order. */
  function All(prog: seq<Op>): seq<StoreId> {
    if prog == [] then [] else StoresOf(prog[0]) + All(prog[1..])
  }

  lemma {:induction false} AllAppend(prog: seq<Op>, e: Op)
    ensures All(prog + [e]) == All(prog) + StoresOf(e)
  {
    hide StoresOf;
    if prog == [] {
      assert prog + [e] == [e] && [e][1..] == [];
    } else {
      var rest := prog[1..];
      AllAppend(rest, e);
      assert (prog + [e])[0] == prog[0] && (prog + [e])[1..] == rest + [e];
      assert StoresOf(prog[0]) + (All(rest) + StoresOf(e)) == (StoresOf(prog[0]) + All(rest)) + StoresOf(e);
    }
  }

  /** The stores do not depend on where they sit. */
  lemma {:induction false} AllSame(prog: seq<Op>, prog1: seq<Op>)
    requires |prog| == |prog1| && forall i :: 0 <= i < |prog| ==> prog[i].id == prog1[i].id && prog[i].dst == prog1[i].dst
    ensures All(prog) == All(prog1)
  {
    if prog != [] {
      AllSame(prog[1..], prog1[1..]);
    }
  }

  ghost predicate IdsGrow(prog: seq<Op>) { forall i, j :: 0 <= i < j < |prog| ==> prog[i].id < prog[j].id }

  predicate Before(x: StoreId, y: StoreId) { x.id < y.id || (x.id == y.id && x.slot < y.slot) }

  ghost predicate HasStore(e: Op, x: StoreId) { x.id == e.id && x.slot < |e.dst| && e.dst[x.slot] != 0 }

  lemma {:induction false} AllMembers(prog: seq<Op>, x: StoreId)
    ensures x in All(prog) <==> exists i :: 0 <= i < |prog| && HasStore(prog[i], x)
  {
    if prog != [] {
      StoresBelowAre(prog[0].id, prog[0].dst, |prog[0].dst|);
      AllMembers(prog[1..], x);
      if i :| 0 <= i < |prog| && HasStore(prog[i], x) {
        assert i > 0 ==> prog[1..][i - 1] == prog[i];
      }
      if i :| 0 <= i < |prog[1..]| && HasStore(prog[1..][i], x) {
        assert HasStore(prog[i + 1], x);
      }
    }
  }

  lemma {:induction false} AllInOrder(prog: seq<Op>, m: nat, n: nat)
    requires IdsGrow(prog) && m < n < |All(prog)|
    ensures Before(All(prog)[m], All(prog)[n])
  {
    var first := |StoresOf(prog[0])|;
    StoresBelowAre(prog[0].id, prog[0].dst, |prog[0].dst|);
    if m >= first {
      AllInOrder(prog[1..], m - first, n - first);
    } else if n >= first {
      var x := All(prog[1..])[n - first];
      assert x == All(prog)[n] && x in All(prog[1..]);
      AllMembers(prog[1..], x);
      var i :| 0 <= i < |prog[1..]| && HasStore(prog[1..][i], x);
      assert prog[1..][i] == prog[i + 1];
      assert All(prog)[m] in StoresOf(prog[0]);
    }
  }

  /** At most `d` stores an instruction. */
  lemma {:induction false} AllBounded(prog: seq<Op>, d: nat)
    requires forall i :: 0 <= i < |prog| ==> |prog[i].dst| <= d
    ensures |All(prog)| <= d * |prog|
  {
    if prog != [] {
      AllBounded(prog[1..], d);
      var n := |prog[1..]|;
      assert |prog| == n + 1 && d * (n + 1) == d * n + d;
    }
  }

  // ---- The steps ----

  /** read_from_trace lists the stores of an instruction. */
  function Read(s: Unit, id: nat, dst: seq<nat>): Unit {
    s.(prog := s.prog + [Op(id, dst, seq(|dst|, _ => None))],
       sta := s.sta + seq(|StoresBelow(id, dst, |dst|)|, _ => id))
  }

  function Dispatch(s: Unit): Unit { s.(dispatched := s.dispatched + 1) }

  predicate Room(s: Unit, i: nat)
    requires i < |s.prog|
  {
    s.occupancy < |s.sq| && s.sta != [] && s.sta[0] == s.prog[i].id
  }

  /** add_store_queue */
  function AddStore(s: Unit, i: nat, k: nat): Unit
    requires i < |s.prog| && k < |s.prog[i].sqIndex| && s.head < |s.sq| && 0 <= s.occupancy < |s.sq| && s.sta != []
  {
    var t := At(s.occupancy, s.head, |s.sq|);
    s.(prog := s.prog[i := s.prog[i].(sqIndex := s.prog[i].sqIndex[k := Some(t)])],
       sq := s.sq[t := Used(s.prog[i].id, k, false)], occupancy := s.occupancy + 1, sta := s.sta[1..],
       rts0 := s.rts0 + [t])
  }

  /** check_and_add_lsq: the stores of entry `i` from slot `k` on, as far as they may enter. */
  function AddStores(s: Unit, i: nat, k: nat): Unit
    requires i < |s.prog| && |s.prog[i].sqIndex| == |s.prog[i].dst| && k <= |s.prog[i].dst| && s.head < |s.sq| && s.occupancy >= 0
    decreases |s.prog[i].dst| - k
  {
    if k == |s.prog[i].dst| then s
    else if s.prog[i].dst[k] != 0 && s.prog[i].sqIndex[k] == None && Room(s, i) then AddStores(AddStore(s, i, k), i, k + 1)
    else AddStores(s, i, k + 1)
  }

  /** operate_lsq sends the first store for translation. */
  function SendStore(s: Unit): Unit
    requires s.rts0 != []
  {
    s.(rts0 := s.rts0[1..], translating := s.translating + {s.rts0[0]})
  }

  function StoreTranslated(s: Unit, t: nat): Unit {
    s.(translating := s.translating - {t}, rts1 := s.rts1 + [t])
  }

  /** operate_lsq executes the first translated store. */
  function ExecuteStore(s: Unit): Unit
    requires s.rts1 != [] && s.rts1[0] < |s.sq| && s.sq[s.rts1[0]].Used?
  {
    s.(rts1 := s.rts1[1..], sq := s.sq[s.rts1[0] := s.sq[s.rts1[0]].(done := true)])
  }

  predicate Inside(e: Op, n: nat) { forall k :: 0 <= k < |e.sqIndex| && e.sqIndex[k].Some? ==> e.sqIndex[k].value < n }

  /** retire_rob frees the store queue slots of the oldest instruction and moves SQ.head on for each. */
  function Release(s: Unit, k: nat): Unit
    requires s.prog != [] && k <= |s.prog[0].sqIndex| && Inside(s.prog[0], |s.sq|) && s.head < |s.sq|
    decreases |s.prog[0].sqIndex| - k
  {
    if k == |s.prog[0].sqIndex| then s
    else match s.prog[0].sqIndex[k]
      case None => Release(s, k + 1)
      case Some(t) =>
        Release(s.(sq := s.sq[t := Free], head := At(1, s.head, |s.sq|), occupancy := s.occupancy - 1), k + 1)
  }

  function Retire(s: Unit): Unit
    requires s.prog != [] && s.dispatched > 0 && Inside(s.prog[0], |s.sq|) && s.head < |s.sq|
  {
    var r := Release(s, 0);
    r.(prog := s.prog[1..], dispatched := s.dispatched - 1)
  }

  function Initial(sqSize: nat): Unit { Unit([], 0, [], seq(sqSize, _ => Free), 0, 0, [], {}, []) }
}
