/**
  The plain miss cache (branch/mcache_candidates/lru.cc). While it fills, the ages of its
  entries are not a permutation: entries without a pc age too.
 */
module LruMissCaches {
  import opened Options
  import opened Counting
  import opened RecencyLists
  import opened MissCaches

  /**
    The first slots hold the list: their ages are the places in it. A free slot is at least
    as old as its number. In a full cache the oldest slot is known.
   */
  ghost predicate Filling(entries: seq<Entry>, lru: nat, order: seq<nat>, list: seq<nat>) {
    var n := |entries|;
    var k := |list|;
    && k <= n && lru < n && Aged(entries[..k], order) && Holds(entries[..k], order, list)
    && (forall j :: k <= j < n ==> !entries[j].valid && j <= entries[j].age < n)
    && (k == n ==> lru == order[n - 1])
  }

  /** A loop over all slots is a loop over the first of them. */
  lemma AgeingPrefix(before: seq<Entry>, aged: seq<Entry>, limit: nat, k: nat)
    requires Ageing(before, aged, limit, |before|) && k <= |before|
    ensures Ageing(before[..k], aged[..k], limit, k)
  {
  }

  /** A pc that is here moves to the front. */
  lemma HitFills(before: seq<Entry>, aged: seq<Entry>, lru0: nat, lru1: nat, order: seq<nat>, list: seq<nat>, w: nat)
    requires Filling(before, lru0, order, list) && w < |list| && Ageing(before, aged, before[w].age, |before|)
    requires LruNoted(before, lru0, lru1, before[w].age, |before|)
    ensures before[w].age < |list| == |order| && before[w].pc == list[before[w].age]
    ensures Filling(aged[w := Entry(0, before[w].pc, true)], lru1, Front(order, before[w].age), Front(list, before[w].age))
  {
    var k := |list|;
    var pc := before[w].pc;
    var after := aged[w := Entry(0, pc, true)];
    assert before[..k][w] == before[w];
    AgeingPrefix(before, aged, before[w].age, k);
    AgedNewYoungest(before[..k], aged[..k], w, pc);
    assert after[..k] == aged[..k][w := Entry(0, pc, true)];
    BumpedList(before[..k], after[..k], order, list, w);
    if k == |before| {
      assert before[..k] == before;
      RejuvenatedLru(before, order, w, lru0, lru1);
    }
  }

  /** A new pc takes the first free slot. */
  lemma MissFills(before: seq<Entry>, aged: seq<Entry>, lru0: nat, lru1: nat, order: seq<nat>, list: seq<nat>, pc: nat)
    requires Filling(before, lru0, order, list) && |list| < |before| && pc != 0 && pc !in list
    requires Ageing(before, aged, |before| - 1, |before|) && LruNoted(before, lru0, lru1, |before| - 1, |before|)
    ensures Filling(aged[|list| := Entry(0, pc, true)], lru1, [|list|] + order, [pc] + list)
  {
    var k := |list|;
    var n := |before|;
    var after := aged[k := Entry(0, pc, true)];
    FreshSlot(before, aged, order, list, pc);
    if k + 1 == n {
      if n > 1 {
        var v := order[n - 2];
        assert before[..k][v] == before[v] && before[v].age == n - 2;
        assert lru1 < k;
        assert before[..k][lru1] == before[lru1];
        assert order[before[lru1].age] == lru1;
      }
    }
  }

  lemma FreshSlot(before: seq<Entry>, aged: seq<Entry>, order: seq<nat>, list: seq<nat>, pc: nat)
    requires |list| < |before| && Aged(before[..|list|], order) && Holds(before[..|list|], order, list)
    requires pc != 0 && pc !in list && Ageing(before, aged, |before| - 1, |before|)
    ensures var k := |list|; var after := aged[k := Entry(0, pc, true)];
            |aged| == |before| && Aged(after[..k + 1], [k] + order) && Holds(after[..k + 1], [k] + order, [pc] + list)
  {
    var k := |list|;
    var after := aged[k := Entry(0, pc, true)];
    var order1, list1 := [k] + order, [pc] + list;
    assert |order| == k;
    forall i | 0 <= i < k ensures after[i] == before[..k][i].(age := before[i].age + 1) {
      assert before[..k][i] == before[i];
    }
    forall a | 0 <= a < k + 1 ensures order1[a] < k + 1 && after[order1[a]].age == a
      && after[order1[a]].valid && after[order1[a]].pc == list1[a] && list1[a] != 0
    {
      assert a > 0 ==> order1[a] == order[a - 1] && list1[a] == list[a - 1];
    }
    forall i | 0 <= i < k + 1 ensures after[i].age < k + 1 && order1[after[i].age] == i {
      assert i < k ==> order[before[..k][i].age] == i;
    }
  }

  /** A new pc takes the slot of the oldest. */
  lemma MissReplaces(before: seq<Entry>, aged: seq<Entry>, lru0: nat, lru1: nat, order: seq<nat>, list: seq<nat>, pc: nat)
    requires Filling(before, lru0, order, list) && |list| == |before| && pc != 0 && pc !in list
    requires Ageing(before, aged, |before| - 1, |before|) && LruNoted(before, lru0, lru1, |before| - 1, |before|)
    ensures Filling(aged[lru0 := Entry(0, pc, true)], lru1, Front(order, |before| - 1), Use(list, pc, |before|))
  {
    assert before[..|list|] == before;
    var after := aged[lru0 := Entry(0, pc, true)];
    AgedNewYoungest(before, aged, lru0, pc);
    RejuvenatedLru(before, order, lru0, lru0, lru1);
    AddedList(before, after, order, list, lru0, pc);
    UseNewAt(list, pc, |before|);
    assert after[..|before|] == after;
  }

  class LruMissCache {
    const entries: array<Entry>
    const saved: array<nat>
    var lru: nat
    ghost var order: seq<nat>
    ghost var list: seq<nat>

    ghost predicate Valid()
      reads this, entries
    {
      entries.Length == saved.Length && Filling(entries[..], lru, order, list)
    }

    constructor (n: nat)
      requires n > 0
      ensures Valid() && list == [] && entries.Length == n
    {
      entries := new Entry[n](i => Entry(i, 0, false));
      saved := new nat[n](_ => 0);
      lru := n - 1;
      order, list := [], [];
    }

    /** The slot for a pc: its own, else the first free one, else the oldest. */
    method Choose(pc: nat) returns (w: nat, age: nat, ghost here: bool)
      requires Valid()
      ensures w < entries.Length && (here <==> pc in list)
      ensures here ==> w < |list| && entries[w].pc == pc && age == entries[w].age
      ensures !here ==> age == entries.Length - 1 && w == if |list| < entries.Length then |list| else lru
    {
      w, age := lru, entries.Length - 1;
      ghost var before := entries[..][..|list|];
      assert forall i :: 0 <= i < |list| ==> before[i] == entries[i] && order[before[i].age] == i;
      var i := 0;
      while i < entries.Length && entries[i].valid
        invariant i <= |list|
      {
        i := i + 1;
      }
      if i < entries.Length {
        w := i;
      }
      for k := 0 to entries.Length
        invariant forall m :: 0 <= m < k ==> !(entries[m].pc == pc && entries[m].valid)
      {
        if entries[k].pc == pc && entries[k].valid {
          assert list[before[k].age] == pc;
          return k, entries[k].age, true;
        }
      }
      here := false;
      assert forall a :: 0 <= a < |list| ==> before[order[a]].pc == list[a];
    }

    /** The slots younger than `limit` age. */
    method AgeBelow(limit: nat)
      requires limit <= entries.Length - 1
      modifies this`lru, entries
      ensures Ageing(old(entries[..]), entries[..], limit, entries.Length)
      ensures LruNoted(old(entries[..]), old(lru), lru, limit, entries.Length)
    {
      ghost var before := entries[..];
      for i := 0 to entries.Length
        invariant Ageing(before, entries[..], limit, i) && LruNoted(before, old(lru), lru, limit, i)
      {
        if entries[i].age < limit {
          entries[i] := entries[i].(age := entries[i].age + 1);
          if entries[i].age == entries.Length - 1 {
            lru := i;
          }
        }
      }
    }

    /** access: the cache holds the most recently used pcs, whatever slots they are in. */
    method Access(pc: nat) returns (r: Option<nat>)
      requires Valid() && pc != 0
      modifies this, entries
      ensures Valid() && list == Use(old(list), pc, entries.Length) && IsIndex(saved[..], pc, r)
    {
      ghost var before := entries[..];
      ghost var list0, order0, lru0 := list, order, lru;
      ghost var here;
      var w, age;
      w, age, here := Choose(pc);
      assert here ==> age < |list0| by {
        if here {
          assert before[..|list0|][w] == before[w];
        }
      }
      AgeBelow(age);
      if here {
        HitFills(before, entries[..], lru0, lru, order0, list0, w);
        UseIsFront(list0, age, entries.Length);
        order, list := Front(order0, age), Front(list0, age);
      } else if |list0| < entries.Length {
        MissFills(before, entries[..], lru0, lru, order0, list0, pc);
        UseNewAt(list0, pc, entries.Length);
        order, list := [|list0|] + order0, [pc] + list0;
        assert list == Use(list0, pc, entries.Length);
      } else {
        MissReplaces(before, entries[..], lru0, lru, order0, list0, pc);
        order, list := Front(order0, entries.Length - 1), Use(list0, pc, entries.Length);
      }
      hide Filling, Use, Front, Ageing, LruNoted;
      ghost var aged := entries[..];
      entries[w] := Entry(0, pc, true);
      assert entries[..] == aged[w := Entry(0, pc, true)];
      r := GetIndex(saved, pc);
    }

    /** snapshot */
    method Snapshot()
      requires Valid()
      modifies saved
      ensures Valid() && saved[..] == seq(entries.Length, i requires 0 <= i < entries.Length reads entries => entries[i].pc)
    {
      for i := 0 to saved.Length
        invariant forall k :: 0 <= k < i ==> saved[k] == entries[k].pc
      {
        saved[i] := entries[i].pc;
      }
    }
  }

  /** From empty, over any accesses, the list is the most recently used pcs, so a larger cache holds more. */
  lemma AccessesHold(lists: seq<seq<nat>>, pcs: seq<nat>, n: nat, k: nat)
    requires n > 0 && |lists| == |pcs| + 1 && lists[0] == [] && k <= |pcs|
    requires forall m :: 0 <= m < |pcs| ==> lists[m + 1] == Use(lists[m], pcs[m], n)
    ensures lists[k] == Limit(Recent(pcs[..k]), n)
  {
    AccessesAreHeld(lists, pcs, n, k);
    HoldsTheRecent(pcs[..k], n);
  }

  lemma {:induction false} AccessesAreHeld(lists: seq<seq<nat>>, pcs: seq<nat>, n: nat, k: nat)
    requires n > 0 && |lists| == |pcs| + 1 && lists[0] == [] && k <= |pcs|
    requires forall m :: 0 <= m < |pcs| ==> lists[m + 1] == Use(lists[m], pcs[m], n)
    ensures lists[k] == Held(pcs[..k], n)
  {
    if k > 0 {
      AccessesAreHeld(lists, pcs, n, k - 1);
      assert pcs[..k][..k - 1] == pcs[..k - 1];
      assert lists[k - 1 + 1] == Use(lists[k - 1], pcs[k - 1], n);
    }
  }
}
