/** The caches of mispredicted branches (branch/mcache_candidates): arrays of entries with ages. */
module MissCaches {
  import opened Options
  import opened Counting
  import opened RecencyLists

  /** `pc` 0 is what an invalid entry holds. */
  datatype Entry = Entry(age: nat, pc: nat, valid: bool)

  /** Slot `order[a]` has age `a`: the ages of the slots are 0 to n - 1, each once. */
  ghost predicate Aged(entries: seq<Entry>, order: seq<nat>) {
    && |order| == |entries|
    && (forall a :: 0 <= a < |order| ==> order[a] < |entries| && entries[order[a]].age == a)
    && (forall i :: 0 <= i < |entries| ==> entries[i].age < |entries| && order[entries[i].age] == i)
  }

  /** The youngest slots hold the list, the others are invalid. */
  ghost predicate Holds(entries: seq<Entry>, order: seq<nat>, list: seq<nat>)
    requires Aged(entries, order)
  {
    && |list| <= |order| && Distinct(list)
    && (forall a :: 0 <= a < |list| ==> entries[order[a]].valid && entries[order[a]].pc == list[a] && list[a] != 0)
    && (forall a :: |list| <= a < |order| ==> !entries[order[a]].valid && entries[order[a]].pc == 0)
  }

  /** Slot `w` has become the youngest: younger slots than it was have aged. */
  ghost predicate Rejuvenated(before: seq<Entry>, after: seq<Entry>, w: nat)
    requires |before| == |after| && w < |before|
  {
    forall i :: 0 <= i < |before| ==>
      after[i].age == if i == w then 0 else if before[i].age < before[w].age then before[i].age + 1 else before[i].age
  }

  lemma RejuvenatedOrder(before: seq<Entry>, after: seq<Entry>, order: seq<nat>, w: nat)
    requires |before| == |after| && w < |before| && Aged(before, order) && Rejuvenated(before, after, w)
    ensures order[before[w].age] == w && Aged(after, Front(order, before[w].age))
  {
    var p := before[w].age;
    var order1 := Front(order, p);
    FrontAt(order, p);
    hide Front;
    forall i | 0 <= i < |after| ensures after[i].age < |after| && order1[after[i].age] == i {
      assert order[before[i].age] == i;
    }
    forall a | 0 <= a < |order1| ensures order1[a] < |after| && after[order1[a]].age == a {
    }
  }

  /** The loop over the slots has aged those below `k` that were younger than `limit`. */
  ghost predicate Ageing(before: seq<Entry>, after: seq<Entry>, limit: nat, k: nat) {
    |after| == |before| && forall i :: 0 <= i < |before| ==>
      after[i] == if i < k && before[i].age < limit then before[i].(age := before[i].age + 1) else before[i]
  }

  /** The slot below `k` that has become the oldest is noted, if there is one. */
  ghost predicate LruNoted(before: seq<Entry>, lru0: nat, lru1: nat, limit: nat, k: nat)
    requires k <= |before|
  {
    if forall i :: 0 <= i < k && before[i].age < limit ==> before[i].age + 1 != |before| - 1 then lru1 == lru0
    else lru1 < k && before[lru1].age < limit && before[lru1].age + 1 == |before| - 1
  }

  /** The slot noted is the oldest afterwards. */
  lemma RejuvenatedLru(before: seq<Entry>, order: seq<nat>, w: nat, lru0: nat, lru1: nat)
    requires Aged(before, order) && w < |before| && lru0 == order[|before| - 1]
    requires LruNoted(before, lru0, lru1, before[w].age, |before|)
    ensures lru1 == Front(order, before[w].age)[|before| - 1]
  {
    var n := |before|;
    var p := before[w].age;
    assert order[p] == w;
    if p == n - 1 && n > 1 {
      var v := order[n - 2];
      assert before[v].age == n - 2;
      assert order[before[lru1].age] == lru1;
    }
  }

  /** The entries with the new youngest slot `w`, which holds `pc`. */
  ghost predicate NewYoungest(before: seq<Entry>, after: seq<Entry>, w: nat, pc: nat)
    requires |before| == |after| && w < |before|
  {
    && Rejuvenated(before, after, w) && after[w].valid && after[w].pc == pc
    && forall i :: 0 <= i < |before| && i != w ==> after[i].valid == before[i].valid && after[i].pc == before[i].pc
  }

  /** A listed slot becomes the youngest: its pc moves to the front. */
  lemma BumpedList(before: seq<Entry>, after: seq<Entry>, order: seq<nat>, list: seq<nat>, w: nat)
    requires |before| == |after| && w < |before| && Aged(before, order) && Holds(before, order, list)
    requires before[w].age < |list| && NewYoungest(before, after, w, before[w].pc)
    ensures Aged(after, Front(order, before[w].age))
    ensures Holds(after, Front(order, before[w].age), Front(list, before[w].age))
  {
    var p := before[w].age;
    RejuvenatedOrder(before, after, order, w);
    UseIsFront(list, p, |list|);
    FrontAt(order, p);
    FrontAt(list, p);
    assert order[p] == w && forall a :: 0 <= a < |order| && a != p ==> order[a] != w;
    hide Front, Aged, Rejuvenated;
  }

  /** The oldest slot takes a new pc: it comes first, and the last of a full list is gone. */
  lemma AddedList(before: seq<Entry>, after: seq<Entry>, order: seq<nat>, list: seq<nat>, w: nat, pc: nat)
    requires |before| == |after| && w < |before| && Aged(before, order) && Holds(before, order, list)
    requires before[w].age == |before| - 1 && pc != 0 && pc !in list && NewYoungest(before, after, w, pc)
    ensures Aged(after, Front(order, |before| - 1))
    ensures Holds(after, Front(order, |before| - 1), Use(list, pc, |before|))
  {
    var n := |before|;
    RejuvenatedOrder(before, after, order, w);
    UseNewAt(list, pc, n);
    FrontAt(order, n - 1);
    assert order[n - 1] == w && forall a :: 0 <= a < n - 1 ==> order[a] != w;
    hide Front, Aged, Rejuvenated, Use;
  }

  /** The loop, and then the new youngest slot. */
  lemma AgedNewYoungest(before: seq<Entry>, aged: seq<Entry>, w: nat, pc: nat)
    requires w < |before| && Ageing(before, aged, before[w].age, |before|)
    ensures NewYoungest(before, aged[w := Entry(0, pc, true)], w, pc)
  {
  }

  /** Slot `w` has become the oldest, and is free: older slots have got younger. */
  ghost predicate Freed(before: seq<Entry>, after: seq<Entry>, w: nat)
    requires |before| == |after| && w < |before|
  {
    && after[w] == Entry(|before| - 1, 0, false)
    && forall i :: 0 <= i < |before| && i != w ==>
         after[i] == if before[i].age > before[w].age then before[i].(age := before[i].age - 1) else before[i]
  }

  lemma RemovedOrder(before: seq<Entry>, after: seq<Entry>, order: seq<nat>, w: nat)
    requires |before| == |after| && w < |before| && Aged(before, order) && Freed(before, after, w)
    ensures order[before[w].age] == w && Aged(after, Drop(order, before[w].age) + [w])
  {
    var p := before[w].age;
    DropAt(order, p);
    var order1 := Drop(order, p) + [w];
    hide Drop;
    forall a | 0 <= a < |order1| ensures order1[a] < |after| && after[order1[a]].age == a {
      assert a < p ==> order1[a] == order[a];
      assert p <= a < |order| - 1 ==> order1[a] == order[a + 1];
    }
    forall i | 0 <= i < |after| ensures after[i].age < |after| && order1[after[i].age] == i {
      assert order[before[i].age] == i;
    }
  }

  lemma RemovedList(before: seq<Entry>, after: seq<Entry>, order: seq<nat>, list: seq<nat>, w: nat)
    requires |before| == |after| && w < |before| && Aged(before, order) && Holds(before, order, list)
    requires before[w].age < |list| && Freed(before, after, w)
    ensures Aged(after, Drop(order, before[w].age) + [w])
    ensures Holds(after, Drop(order, before[w].age) + [w], Drop(list, before[w].age))
  {
    var p := before[w].age;
    RemovedOrder(before, after, order, w);
    WithoutIsDrop(list, p);
    WithoutKeeps(list, list[p]);
    var order1, list1 := Drop(order, p) + [w], Drop(list, p);
    DropAt(order, p);
    DropAt(list, p);
    assert forall a :: 0 <= a < |order| && a != p ==> order[a] != w;
    hide Drop, Aged;
    forall a | 0 <= a < |list1| ensures after[order1[a]].valid && after[order1[a]].pc == list1[a] && list1[a] != 0 {
      assert order1[a] == if a < p then order[a] else order[a + 1];
    }
    forall a | |list1| <= a < |order1| ensures !after[order1[a]].valid && after[order1[a]].pc == 0 {
      assert a < |order| - 1 ==> order1[a] == order[a + 1];
    }
  }

  /** A miss cache of the segmented kind has two of these. */
  class Segment {
    const entries: array<Entry>
    var lru: nat
    ghost var order: seq<nat>
    ghost var list: seq<nat>

    ghost predicate Valid()
      reads this, entries
    {
      && entries.Length > 0 && Aged(entries[..], order) && Holds(entries[..], order, list)
      && lru == order[entries.Length - 1]
    }

    constructor (n: nat)
      requires n > 0
      ensures Valid() && list == [] && entries.Length == n && fresh(entries)
    {
      entries := new Entry[n](i => Entry(i, 0, false));
      lru := n - 1;
      order := seq(n, i requires 0 <= i < n => i);
      list := [];
    }

    /** The slot of a pc, if it is here. */
    method Find(pc: nat) returns (r: Option<nat>)
      requires Valid()
      ensures r.Some? ==> r.value < entries.Length && entries[r.value].valid && entries[r.value].pc == pc
                          && entries[r.value].age < |list| && list[entries[r.value].age] == pc
      ensures r.None? ==> pc !in list
    {
      for i := 0 to entries.Length
        invariant forall k :: 0 <= k < i ==> !(entries[k].valid && entries[k].pc == pc)
      {
        if entries[i].valid && entries[i].pc == pc {
          assert order[entries[i].age] == i;
          return Some(i);
        }
      }
      return None;
    }

    /** The loop of bump. */
    method AgeYounger(w: nat)
      requires w < entries.Length
      modifies this`lru, entries
      ensures Ageing(old(entries[..]), entries[..], old(entries[w]).age, entries.Length)
      ensures LruNoted(old(entries[..]), old(lru), lru, old(entries[w]).age, entries.Length)
    {
      ghost var before := entries[..];
      var age := entries[w].age;
      for i := 0 to entries.Length
        invariant Ageing(before, entries[..], age, i) && LruNoted(before, old(lru), lru, age, i)
      {
        if entries[i].age < age {
          entries[i] := entries[i].(age := entries[i].age + 1);
          if entries[i].age == entries.Length - 1 {
            lru := i;
          }
        }
      }
    }

    /** The loop of add, where all other slots are younger. */
    method AgeOthers(w: nat)
      requires w < entries.Length && forall i :: 0 <= i < entries.Length && i != w ==> entries[i].age < entries[w].age
      modifies this`lru, entries
      ensures Ageing(old(entries[..]), entries[..], old(entries[w]).age, entries.Length)
      ensures LruNoted(old(entries[..]), old(lru), lru, old(entries[w]).age, entries.Length)
    {
      ghost var before := entries[..];
      for i := 0 to entries.Length
        invariant Ageing(before, entries[..], before[w].age, i) && LruNoted(before, old(lru), lru, before[w].age, i)
      {
        if i != w {
          entries[i] := entries[i].(age := entries[i].age + 1);
          if entries[i].age == entries.Length - 1 {
            lru := i;
          }
        }
      }
    }

    /** The loop of remove. */
    method AgeLess(w: nat)
      requires w < entries.Length
      modifies entries
      ensures forall k :: 0 <= k < entries.Length ==>
                entries[k] == if old(entries[k]).age > old(entries[w]).age && old(entries[k]).age > 0
                              then old(entries[k]).(age := old(entries[k]).age - 1) else old(entries[k])
    {
      ghost var before := entries[..];
      for i := 0 to entries.Length
        invariant forall k :: 0 <= k < entries.Length ==>
                    entries[k] == if k < i && before[k].age > before[w].age then before[k].(age := before[k].age - 1) else before[k]
      {
        if entries[i].age > entries[w].age {
          entries[i] := entries[i].(age := entries[i].age - 1);
        }
      }
    }

    /** bump: a pc that is here becomes the most recent. */
    method Bump(pc: nat)
      requires Valid()
      modifies this, entries
      ensures Valid()
      ensures list == if pc in old(list) then Use(old(list), pc, entries.Length) else old(list)
    {
      var found := Find(pc);
      if found.Some? {
        UseIsFront(list, entries[found.value].age, entries.Length);
        if entries[found.value].age != 0 {
          BumpSlot(found.value);
        } else {
          assert Front(list, 0) == list;
        }
      }
    }

    /** A slot in use becomes the youngest. */
    method BumpSlot(w: nat)
      requires Valid() && w < entries.Length && entries[w].age < |list|
      modifies this, entries
      ensures Valid() && list == Front(old(list), old(entries[w]).age)
    {
      ghost var before := entries[..];
      ghost var age := entries[w].age;
      assert order[age] == w && before[w].valid;
      AgeYounger(w);
      AgedNewYoungest(before, entries[..], w, before[w].pc);
      hide Ageing, NewYoungest, Front;
      entries[w] := entries[w].(age := 0);
      RejuvenatedLru(before, order, w, old(lru), lru);
      BumpedList(before, entries[..], order, list, w);
      order := Front(order, age);
      list := Front(list, age);
    }

    /** add: a pc that is not here becomes the most recent, in the slot of the oldest. */
    method Add(pc: nat) returns (evicted: nat)
      requires Valid() && pc != 0 && pc !in list
      modifies this, entries
      ensures Valid() && list == Use(old(list), pc, entries.Length)
      ensures evicted == if |old(list)| == entries.Length then old(list)[entries.Length - 1] else 0
    {
      ghost var before := entries[..];
      var w := lru;
      var evict := entries[w];
      assert before[w].age == entries.Length - 1;
      assert forall i :: 0 <= i < entries.Length ==> order[before[i].age] == i;
      AgeOthers(w);
      AgedNewYoungest(before, entries[..], w, pc);
      hide Ageing, NewYoungest, Front, Use;
      entries[w] := Entry(0, pc, true);
      RejuvenatedLru(before, order, w, old(lru), lru);
      AddedList(before, entries[..], order, list, w, pc);
      order := Front(order, entries.Length - 1);
      list := Use(list, pc, entries.Length);
      return if evict.valid then evict.pc else 0;
    }

    /** remove: the slot of a pc becomes the oldest, and free. */
    method Remove(pc: nat)
      requires Valid()
      modifies this, entries
      ensures Valid() && list == Without(old(list), pc)
    {
      var found := Find(pc);
      var w := if found.Some? then found.value else lru;
      ghost var before := entries[..];
      ghost var p := before[w].age;
      AgeLess(w);
      if found.None? {
        assert entries[..] == before;
        WithoutAbsent(list, pc);
      }
      if entries[w].pc == pc {
        entries[w] := Entry(entries.Length - 1, 0, false);
        lru := w;
        if found.Some? {
          RemovedList(before, entries[..], order, list, w);
          WithoutIsDrop(list, p);
          order := Drop(order, p) + [w];
          list := Drop(list, p);
        } else {
          assert entries[..] == before;
        }
      }
    }
  }

  // ---- Snapshots ----

  /** The first place of a pc among the saved ones. */
  ghost predicate IsIndex(saved: seq<nat>, pc: nat, r: Option<nat>) {
    match r
    case Some(i) => i < |saved| && saved[i] == pc && forall k :: 0 <= k < i ==> saved[k] != pc
    case None => pc !in saved
  }

  method GetIndex(saved: array<nat>, pc: nat) returns (r: Option<nat>)
    ensures IsIndex(saved[..], pc, r)
  {
    for i := 0 to saved.Length
      invariant forall k :: 0 <= k < i ==> saved[k] != pc
    {
      if saved[i] == pc {
        return Some(i);
      }
    }
    return None;
  }

  // ---- The segmented cache ----

  class SegmentedMissCache {
    const guarded: Segment
    const probation: Segment
    const saved: array<nat>

    ghost predicate Valid()
      reads this, guarded, guarded.entries, probation, probation.entries
    {
      && guarded != probation && guarded.entries != probation.entries
      && guarded.Valid() && probation.Valid()
      && guarded.entries.Length == probation.entries.Length == saved.Length
      && SegmentsOk(Value(), saved.Length)
    }

    ghost function Value(): Segments
      reads this, guarded, probation
    {
      Segments(guarded.list, probation.list)
    }

    constructor (n: nat)
      requires n > 0
      ensures Valid() && Value() == Segments([], []) && saved[..] == seq(n, _ => 0)
    {
      var a := new Segment(n);
      var b := new Segment(n);
      guarded, probation := a, b;
      saved := new nat[n](_ => 0);
    }

    /** get_idx */
    method GetIdx(pc: nat) returns (r: Option<nat>)
      ensures IsIndex(saved[..], pc, r)
    {
      r := GetIndex(saved, pc);
    }

    /** access: a hit rearranges the segments, a miss puts the pc on probation; the snapshot stays. */
    method Access(pc: nat) returns (r: Option<nat>)
      requires Valid() && pc != 0
      modifies guarded, guarded.entries, probation, probation.entries
      ensures Valid() && Value() == RecencyLists.Access(old(Value()), pc, saved.Length)
      ensures IsIndex(saved[..], pc, r)
    {
      if Cached(Value(), pc) {
        HitKeepsAll(Value(), pc, saved.Length);
      } else {
        MissEvictsOne(Value(), pc, saved.Length);
      }
      var here := guarded.Find(pc);
      if here.Some? {
        guarded.Bump(pc);
      } else {
        here := probation.Find(pc);
        if here.Some? {
          Promote(pc);
        } else {
          var evicted := probation.Add(pc);
        }
      }
      r := GetIdx(pc);
    }

    /** A pc on probation is protected; the oldest protected pc goes back on probation, where there is room. */
    method Promote(pc: nat)
      requires Valid() && pc != 0 && pc in probation.list
      modifies guarded, guarded.entries, probation, probation.entries
      ensures guarded.Valid() && probation.Valid() && Value() == RecencyLists.Access(old(Value()), pc, saved.Length)
    {
      WithoutKeeps(probation.list, pc);
      ghost var last := guarded.list;
      probation.Remove(pc);
      var evicted := guarded.Add(pc);
      if evicted != 0 {
        assert evicted in last;
        var nothing := probation.Add(evicted);
        // There was room.
        assert nothing == 0;
      }
    }

    /** snapshot: the protected pcs, slot by slot; a free slot is saved as 0. */
    method Snapshot()
      requires Valid()
      modifies saved
      ensures Valid() && Value() == old(Value())
      ensures forall i :: 0 <= i < saved.Length ==>
                saved[i] == if guarded.entries[i].valid then guarded.entries[i].pc else 0
    {
      for i := 0 to saved.Length
        invariant forall k :: 0 <= k < i ==> saved[k] == if guarded.entries[k].valid then guarded.entries[k].pc else 0
      {
        saved[i] := if guarded.entries[i].valid then guarded.entries[i].pc else 0;
      }
    }
  }
}
