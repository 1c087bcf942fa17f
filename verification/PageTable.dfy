/** The page allocator as the simulator runs it: maps and counters, updated in place. */
module PageTables {
  import opened Options
  import opened Powers
  import opened Pages

  lemma {:induction false} MinExists(s: set<nat>, x: nat)
    requires x in s
    ensures exists m :: m in s && forall y :: y in s ==> m <= y
    decreases x
  {
    if y: nat :| y in s && y < x {
      MinExists(s, y);
    } else {
      assert x in s && forall y :: y in s ==> x <= y;
    }
  }

  class PageTable {
    var table: map<nat, nat>
    var inverse: map<nat, nat>
    var queue: seq<nat>
    var recent: set<nat>
    var previous: nat
    var adjacent: int
    var count: nat
    const capacity: nat
    const cpus: nat

    ghost function Value(): Pages
      reads this
    {
      Pages(table, inverse, queue, recent, previous, adjacent, count, capacity)
    }

    constructor (capacity: nat, cpus: nat)
      requires capacity > 0 && 0 < cpus
      ensures Value() == Initial(capacity) && Inv(Value()) && this.cpus == cpus
    {
      this.cpus := cpus;
      table, inverse, queue, recent := map[], map[], [], {};
      previous, adjacent, count := 0, 0, 0;
      this.capacity := capacity;
    }

    /** The first page in the order of the table that is not recent, if there is one. */
    method FindVictim() returns (v: Option<nat>)
      ensures v.Some? ==> IsVictim(Value(), v.value)
      ensures v.None? ==> table.Keys <= recent
    {
      var rest := table.Keys;
      while rest != {}
        invariant rest <= table.Keys
        invariant forall w :: w in table && w !in rest ==> w in recent
        decreases |rest|
      {
        ghost var x :| x in rest;
        MinExists(rest, x);
        var m :| m in rest && forall y :: y in rest ==> m <= y;
        if m !in recent {
          return Some(m);
        }
        rest := rest - {m};
      }
      return None;
    }

    /** A page is swapped out, and its physical page is reused. */
    method SwapIn(vpage: nat)
      requires Inv(Value()) && vpage !in table && count >= capacity
      modifies this
      ensures Inv(Value()) && Inv(old(Value())) && Value() == Swap(old(Value()), vpage, VictimOf(old(Value())))
    {
      ghost var s := Value();
      var found := FindVictim();
      // found_NRU: nothing is recent, so there is a victim.
      assert VictimOf(s) in table;
      assert found.Some?;
      var victim := found.value;
      OneVictim(s, victim);
      SwapInv(s, vpage, victim);
      var page := table[victim];
      table := table - {victim};
      table := table[vpage := page];
      assert page in inverse;
      inverse := inverse[page := vpage];
      if queue != [] {
        queue := queue[1..];
      }
      queue := queue + [vpage];
    }

    /**
      A free page is taken. `drawn` is the free page on which the random draws settle, and
      `run` the length drawn for the next row of pages.
     */
    method AllocatePage(vpage: nat, drawn: nat, run: nat)
      requires Inv(Value()) && vpage !in table && count < capacity && CanDraw(Value(), drawn, run)
      modifies this
      ensures Inv(Value()) && Value() == Allocate(old(Value()), vpage, drawn, run)
    {
      AllocateInv(Value(), vpage, drawn, run);
      var fragmented := false;
      var page := drawn;
      if adjacent > 0 {
        previous := previous + 1;
        page := previous;
      } else {
        fragmented := true;
      }
      if page in inverse {
        if adjacent > 0 {
          fragmented := true;
        }
        page := drawn;
      }
      table := table[vpage := page];
      inverse := inverse[page := vpage];
      queue := queue + [vpage];
      previous := page;
      // Below zero for a moment, but only if it is set anew.
      adjacent := adjacent - 1;
      count := count + 1;
      if fragmented {
        adjacent := run;
      }
    }

    /** va_to_pa for an address of a cpu and its page: the bits of the cpu go into both. */
    method VaToPa(cpu: nat, va: nat, page: nat, drawn: nat, run: nat) returns (pa: nat)
      requires Inv(Value()) && CanDraw(Value(), drawn, run) && cpus > 0 && Lg2(cpus) < 64
      modifies this
      ensures Inv(Value()) && Inv(old(Value())) && Value() == Touch(old(Value()), VPage(cpu, cpus, page, 64), drawn, run)
      ensures VPage(cpu, cpus, page, 64) in table && pa / 4096 == table[VPage(cpu, cpus, page, 64)]
      ensures inverse[pa / 4096] == VPage(cpu, cpus, page, 64)
      ensures pa % 4096 == Offset(cpu, cpus, va, 64)
      ensures pa % 4096 == va % 4096 <==> Covers(va, CpuBits(cpu, cpus, 64), 12)
    {
      var shift := Lg2Loop(cpus);
      var mask := Rotr(cpu, shift, 64);
      var vpage := Or(page, mask);
      var offset := Or(va, mask) % 4096;
      TouchInv(Value(), vpage, drawn, run);
      if vpage !in table {
        if count >= capacity {
          SwapIn(vpage);
        } else {
          AllocatePage(vpage, drawn, run);
        }
      }
      TranslationKeepsTheOffset(Value(), vpage, offset);
      OffsetIsKeptIff(cpu, cpus, va, 64);
      pa := Or(table[vpage] * 4096, offset);
    }
  }

  lemma OneVictim(s: Pages, v: nat)
    requires Inv(s) && s.count >= s.capacity && IsVictim(s, v)
    ensures v == VictimOf(s)
  {
  }
}
