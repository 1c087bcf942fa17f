/** In which order the store queue has its stores translated. */
module StoreTranslations {
  import opened Options
  import opened RingOrder
  import opened StoreOrder
  import opened StoreOrderSafety
  import opened StoreOrderRuns

  /** RTS0 lists the slots of the youngest stores of the queue, from the oldest of them to the tail. */
  ghost predicate ListsTheTail(s: Unit) {
    && s.head < |s.sq| && |s.rts0| <= s.occupancy <= |s.sq|
    && forall a :: 0 <= a < |s.rts0| ==> s.rts0[a] == At(s.occupancy - |s.rts0| + a, s.head, |s.sq|)
  }

  lemma {:induction false} AddStoresTail(s: Unit, i: nat, k: nat)
    requires ListsTheTail(s) && i < |s.prog| && |s.prog[i].sqIndex| == |s.prog[i].dst| && k <= |s.prog[i].dst|
    ensures ListsTheTail(AddStores(s, i, k))
    decreases |s.prog[i].dst| - k
  {
    if k < |s.prog[i].dst| {
      if s.prog[i].dst[k] != 0 && s.prog[i].sqIndex[k] == None && Room(s, i) {
        AddStoresTail(AddStore(s, i, k), i, k + 1);
      } else {
        AddStoresTail(s, i, k + 1);
      }
    }
  }

  lemma SendTail(s: Unit)
    requires ListsTheTail(s) && s.rts0 != []
    ensures ListsTheTail(SendStore(s))
  {
    assert forall a :: 0 <= a < |s.rts0| - 1 ==> s.rts0[1..][a] == s.rts0[a + 1];
  }

  /** What retires has been translated, so that it is not in RTS0. */
  lemma RetireTail(s: Unit)
    requires Inv(s) && CanRetire(s) && ListsTheTail(s)
    ensures Inside(s.prog[0], |s.sq|) && ListsTheTail(Retire(s))
  {
    RetireInv(s);
    var n := |StoresOf(s.prog[0])|;
    if s.rts0 != [] {
      var t := s.rts0[0];
      assert OnWay(s, t);
      FrontHasExecuted(s, t);
      assert Pos(t, s.head, |s.sq|) == s.occupancy - |s.rts0|;
    }
    hide Inv, Release, StoresOf;
    assert Retire(s).rts0 == s.rts0 && Retire(s).occupancy == s.occupancy - n && Retire(s).head == At(n, s.head, |s.sq|);
  }

  lemma StepTail(s: Unit, s1: Unit, step: Step)
    requires Inv(s) && Steps(s, s1, step) && ListsTheTail(s)
    ensures ListsTheTail(s1)
  {
    hide Inv, AddStores, Release, CanRetire, Inside, ListsTheTail;
    match step
    case WasRead(id, dst) => SameTail(s, s1);
    case Dispatched => SameTail(s, s1);
    case Checked(i) => AddStoresTail(s, i, 0);
    case Sent => SendTail(s);
    case Translated(t) => SameTail(s, s1);
    case Executed => SameTail(s, s1);
    case Retired => RetireTail(s);
  }

  lemma SameTail(s: Unit, s1: Unit)
    requires ListsTheTail(s) && s1.rts0 == s.rts0 && s1.occupancy == s.occupancy && s1.head == s.head && |s1.sq| == |s.sq|
    ensures ListsTheTail(s1)
  {
  }

  /**
    In every run, stores are sent for translation in program order: RTS0 lists the youngest
    stores of the queue in order, so that the next one sent is older than all that wait there
    and younger than all that were sent before.
   */
  lemma {:induction false} TranslatedInOrder(run: seq<Unit>, steps: seq<Step>, k: nat)
    requires IsRun(run, steps) && k < |run|
    ensures ListsTheTail(run[k])
  {
    hide Inv, Steps;
    if k > 0 {
      TranslatedInOrder(run, steps, k - 1);
      ReachableInv(run, steps, k - 1);
      assert Steps(run[k - 1], run[k - 1 + 1], steps[k - 1]);
      StepTail(run[k - 1], run[k], steps[k - 1]);
    }
  }

  /** So every store that was sent is older than every store that was not. */
  lemma SentAreOlder(run: seq<Unit>, steps: seq<Step>, k: nat, t: nat, u: nat)
    requires IsRun(run, steps) && k < |run| && t < |run[k].sq| && run[k].sq[t].Used? && t !in run[k].rts0 && u in run[k].rts0
    ensures run[k].head < |run[k].sq| && Pos(t, run[k].head, |run[k].sq|) < Pos(u, run[k].head, |run[k].sq|)
  {
    var s := run[k];
    TranslatedInOrder(run, steps, k);
    ReachableInv(run, steps, k);
    UsedArePlaced(s, t);
    assert OnWay(s, u);
    UsedArePlaced(s, u);
    hide Inv, IsRun;
    TailMember(s, t);
    TailMember(s, u);
  }

  lemma UsedArePlaced(s: Unit, t: nat)
    requires Inv(s) && t < |s.sq| && s.sq[t].Used?
    ensures s.head < |s.sq| && Pos(t, s.head, |s.sq|) < s.occupancy
  {
  }

  lemma TailMember(s: Unit, t: nat)
    requires ListsTheTail(s) && t < |s.sq| && Pos(t, s.head, |s.sq|) < s.occupancy
    ensures t in s.rts0 <==> Pos(t, s.head, |s.sq|) >= s.occupancy - |s.rts0|
  {
    var first := s.occupancy - |s.rts0|;
    var m := Pos(t, s.head, |s.sq|);
    assert At(m, s.head, |s.sq|) == t;
    if m >= first {
      assert s.rts0[m - first] == t;
    }
  }

  /** Translated stores are executed in the order of their answers: they enter RTS1 at its end and leave it at the front. */
  lemma TranslatedKeepOrder(s: Unit, s1: Unit, step: Step)
    requires Inv(s) && Steps(s, s1, step)
    ensures s1.rts1 == if step.Executed? then s.rts1[1..] else if step.Translated? then s.rts1 + [step.t] else s.rts1
    ensures s1.translating == if step.Sent? then s.translating + {s.rts0[0]}
                              else if step.Translated? then s.translating - {step.t} else s.translating
  {
    hide Inv, CanRetire, Inside;
    match step {
      case Checked(i) => AddStoresKeep(s, i, 0);
      case Retired => ReleaseKeeps(s, 0);
      case _ =>
    }
  }

  lemma {:induction false} AddStoresKeep(s: Unit, i: nat, k: nat)
    requires i < |s.prog| && |s.prog[i].sqIndex| == |s.prog[i].dst| && k <= |s.prog[i].dst| && s.head < |s.sq| && s.occupancy >= 0
    ensures AddStores(s, i, k).rts1 == s.rts1 && AddStores(s, i, k).translating == s.translating
    decreases |s.prog[i].dst| - k
  {
    if k < |s.prog[i].dst| {
      if s.prog[i].dst[k] != 0 && s.prog[i].sqIndex[k] == None && Room(s, i) {
        AddStoresKeep(AddStore(s, i, k), i, k + 1);
      } else {
        AddStoresKeep(s, i, k + 1);
      }
    }
  }

  lemma {:induction false} ReleaseKeeps(s: Unit, k: nat)
    requires s.prog != [] && k <= |s.prog[0].sqIndex| && Inside(s.prog[0], |s.sq|) && s.head < |s.sq|
    ensures Release(s, k).rts1 == s.rts1 && Release(s, k).translating == s.translating
    decreases |s.prog[0].sqIndex| - k
  {
    if k < |s.prog[0].sqIndex| {
      match s.prog[0].sqIndex[k] {
        case None => ReleaseKeeps(s, k + 1);
        case Some(t) => ReleaseKeeps(s.(sq := s.sq[t := Free], head := At(1, s.head, |s.sq|), occupancy := s.occupancy - 1), k + 1);
      }
    }
  }
}
