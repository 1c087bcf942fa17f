/**
  Virtual to physical translation (main.cc): a page table and its inverse, filled with free
  pages, as far as possible next to each other, and a swap when memory is full.
 */
module Pages {
  import opened Options
  import opened Powers

  /**
    `previous`, `adjacent` and `count` are previous_ppage, num_adjacent_page and
    allocated_pages. `capacity` is DRAM_PAGES. `recent` is recent_page, which nothing ever fills.
   */
  datatype Pages = Pages(table: map<nat, nat>, inverse: map<nat, nat>, queue: seq<nat>, recent: set<nat>,
                         previous: nat, adjacent: int, count: nat, capacity: nat)

  // ---- Whose page it is ----

  /** rotr64, on numbers of `w` bits. */
  function Rotr(n: nat, c: nat, w: nat): nat
    requires c < w
  {
    var size := Pow2(w);
    if c == 0 then n % size else Or(n / Pow2(c), n * Pow2(w - c) % size)
  }

  /** The bits that tell the pages of a cpu from those of the others. */
  function CpuBits(cpu: nat, cpus: nat, w: nat): nat
    requires cpus > 0 && Lg2(cpus) < w
  {
    Rotr(cpu, Lg2(cpus), w)
  }

  /** The page number that a cpu uses for a page, on a machine of `w` bits. */
  function VPage(cpu: nat, cpus: nat, page: nat, w: nat): nat
    requires cpus > 0 && Lg2(cpus) < w
  {
    Or(page, CpuBits(cpu, cpus, w))
  }

  /** Numbers without common bits: or is addition. */
  lemma {:induction false} OrAdds(a: nat, c: nat, m: nat)
    requires a < Pow2(m)
    ensures Or(a, c * Pow2(m)) == a + c * Pow2(m)
    decreases m
  {
    if m == 0 {
      OrZero(c);
    } else {
      var b := c * Pow2(m);
      assert b == 2 * (c * Pow2(m - 1));
      OrAdds(a / 2, c, m - 1);
      if a == 0 && b == 0 {
      } else {
        assert b / 2 == c * Pow2(m - 1) && b % 2 == 0;
      }
    }
  }

  lemma {:induction false} OrZero(a: nat)
    ensures Or(0, a) == a && Or(a, 0) == a
  {
    if a > 0 {
      OrZero(a / 2);
    }
  }

  lemma RotatedCpu(cpu: nat, k: nat, w: nat)
    requires k < w && cpu < Pow2(k)
    ensures Rotr(cpu, k, w) == cpu * Pow2(w - k) < Pow2(w)
  {
    Pow2Adds(k, w - k);
    var cpus, size := Pow2(k), Pow2(w - k);
    assert k == 0 ==> cpus == 1;
    hide Pow2, Or;
    Fits(cpu, cpus, size, 0);
    Small(cpu * size, Pow2(w));
    Small(cpu, Pow2(w));
    Quotient(cpu, cpus);
    OrZero(cpu * size);
  }

  /** On a power-of-two number of cpus the number of the cpu comes first in the page number. */
  lemma CpuComesFirst(cpu: nat, k: nat, page: nat, w: nat)
    requires k < w && cpu < Pow2(k) && page < Pow2(w - k)
    ensures Lg2(Pow2(k)) == k
    ensures VPage(cpu, Pow2(k), page, w) == page + cpu * Pow2(w - k) < Pow2(w)
  {
    hide Pow2, Or, Lg2;
    Lg2Exact(k);
    Pow2Adds(k, w - k);
    RotatedCpu(cpu, k, w);
    hide Rotr;
    Fits(cpu, Pow2(k), Pow2(w - k), page);
    OrAdds(page, cpu, w - k);
  }

  lemma Quotient(x: nat, n: nat)
    requires x < n
    ensures x / n == 0
  {
  }

  lemma Small(x: nat, n: nat)
    requires x < n
    ensures x % n == x
  {
  }

  lemma Fits(cpu: nat, cpus: nat, size: nat, page: nat)
    requires cpu < cpus && page < size
    ensures page + cpu * size < cpus * size
  {
    assert (cpu + 1) * size <= cpus * size by {
      assert cpus * size == (cpu + 1) * size + (cpus - cpu - 1) * size;
      assert (cpus - cpu - 1) * size >= 0;
    }
  }

  lemma Digits(a: nat, b: nat, c: nat, d: nat, size: nat)
    requires a < size && c < size && a + b * size == c + d * size
    ensures a == c && b == d
  {
    if b < d {
      Fits(b, d, size, a);
    } else if d < b {
      Fits(d, b, size, c);
    }
  }

  /** Two cpus use one virtual page number, though page numbers leave room for the cpu. */
  ghost predicate Meet(cpus: nat, c: nat, d: nat, p: nat, q: nat, w: nat)
    requires cpus > 0 && Lg2(cpus) < w
  {
    && c < cpus && d < cpus && c != d && p < Pow2(w - Lg2(cpus)) && q < Pow2(w - Lg2(cpus))
    && VPage(c, cpus, p, w) == VPage(d, cpus, q, w)
  }

  lemma NeverMeet(k: nat, c: nat, d: nat, p: nat, q: nat, w: nat)
    requires k < w
    ensures Lg2(Pow2(k)) == k && !Meet(Pow2(k), c, d, p, q, w)
  {
    hide Pow2, Or, Lg2, VPage;
    Lg2Exact(k);
    if c < Pow2(k) && d < Pow2(k) && p < Pow2(w - k) && q < Pow2(w - k) {
      CpuComesFirst(c, k, p, w);
      CpuComesFirst(d, k, q, w);
      if VPage(c, Pow2(k), p, w) == VPage(d, Pow2(k), q, w) {
        Digits(p, c, q, d, Pow2(w - k));
      }
    }
  }

  /** The bits of the cpu keep the pages of the cpus apart exactly on power-of-two numbers of cpus. */
  lemma CpusApartIff(cpus: nat, w: nat)
    requires cpus > 0 && Lg2(cpus) < w - 1
    ensures (exists c, d, p, q :: Meet(cpus, c, d, p, q, w)) <==> cpus != Pow2(Lg2(cpus))
  {
    var k := Lg2(cpus);
    if cpus == Pow2(k) {
      forall c: nat, d: nat, p: nat, q: nat ensures !Meet(cpus, c, d, p, q, w) {
        NeverMeet(k, c, d, p, q, w);
      }
    } else {
      CpusMeet(cpus, w);
    }
  }

  /** When the number of cpus is no power of two, the bits of cpu 2^lg2 come round to the lowest. */
  lemma OddCpuBits(cpus: nat, w: nat)
    requires cpus > 0 && Lg2(cpus) < w && cpus != Pow2(Lg2(cpus))
    ensures CpuBits(Pow2(Lg2(cpus)), cpus, w) == 1
  {
    var k := Lg2(cpus);
    var c := Pow2(k);
    assert k > 0;
    Pow2Adds(k, w - k);
    assert c / c == 1 && c * Pow2(w - k) == Pow2(w) && Pow2(w) % Pow2(w) == 0;
    OrZero(1);
  }

  /** Otherwise cpu 2^lg2 has the pages of cpu 0. */
  lemma CpusMeet(cpus: nat, w: nat)
    requires cpus > 0 && Lg2(cpus) < w - 1 && cpus != Pow2(Lg2(cpus))
    ensures Meet(cpus, Pow2(Lg2(cpus)), 0, 0, 1, w)
  {
    var k := Lg2(cpus);
    var c := Pow2(k);
    assert k > 0;
    Pow2Adds(k, w - k);
    assert c / c == 1 && c * Pow2(w - k) == Pow2(w) && Pow2(w) % Pow2(w) == 0;
    assert Pow2(w - k) == 2 * Pow2(w - k - 1);
    OddCpuBits(cpus, w);
    OrZero(1);
    OrZero(0);
    Quotient(0, c);
    Small(0, Pow2(w));
    assert 0 * Pow2(w - k) == 0;
    assert CpuBits(0, cpus, w) == 0;
  }

  // ---- The place in the page ----

  /** voffset: the low twelve bits of the address, once the bits of the cpu are in it. */
  function Offset(cpu: nat, cpus: nat, va: nat, w: nat): (r: nat)
    requires cpus > 0 && Lg2(cpus) < w
    ensures r < 4096
  {
    Or(va, CpuBits(cpu, cpus, w)) % 4096
  }

  /** The offset is that of the address exactly when the address has the low bits of the cpu already. */
  lemma OffsetIsKeptIff(cpu: nat, cpus: nat, va: nat, w: nat)
    requires cpus > 0 && Lg2(cpus) < w
    ensures Offset(cpu, cpus, va, w) == va % 4096
            <==> Covers(va, CpuBits(cpu, cpus, w), 12)
  {
    assert Pow2(12) == 4096;
    LowBitsStayIff(va, CpuBits(cpu, cpus, w), 12);
  }

  /** The bits of the cpus stay out of the offset of every address exactly on power-of-two numbers of cpus. */
  lemma OffsetsAreKeptIff(cpus: nat, w: nat)
    requires cpus > 0 && Lg2(cpus) + 12 <= w
    ensures (forall cpu: nat, va: nat :: cpu < cpus ==> Offset(cpu, cpus, va, w) == va % 4096) <==> cpus == Pow2(Lg2(cpus))
  {
    var k := Lg2(cpus);
    if cpus == Pow2(k) {
      forall cpu: nat, va: nat | cpu < cpus ensures Offset(cpu, cpus, va, w) == va % 4096 {
        RotatedCpu(cpu, k, w);
        OffsetIsKeptIff(cpu, cpus, va, w);
        forall i: nat | i < 12 ensures !Bit(CpuBits(cpu, cpus, w), i) {
          ShiftedBit(cpu, w - k, i);
        }
      }
    } else {
      OffsetIsLost(cpus, 0, w);
    }
  }

  /** Otherwise cpu 2^lg2 reads the first address of every page as the second. */
  lemma OffsetIsLost(cpus: nat, page: nat, w: nat)
    requires cpus > 0 && Lg2(cpus) < w && cpus != Pow2(Lg2(cpus))
    ensures Pow2(Lg2(cpus)) < cpus && Offset(Pow2(Lg2(cpus)), cpus, page * 4096, w) == 1
  {
    OddCpuBits(cpus, w);
    assert Pow2(12) == 4096;
    hide Pow2, Or, CpuBits, Lg2;
    OrCommutes(page * 4096, 1);
    OrAdds(1, page, 12);
    Remainder(4096, page, 1);
  }

  /** Such as cpu 2 of 3. */
  lemma ThirdCpuIsOdd(page: nat, w: nat)
    requires w > 1
    ensures Lg2(3) == 1 && Offset(2, 3, page * 4096, w) == 1
  {
    assert Lg2(3) == 1 && Pow2(1) == 2;
    hide Offset;
    OffsetIsLost(3, page, w);
  }

  // ---- The tables ----

  /** Each table is the other, read backwards. */
  ghost predicate Inverse(table: map<nat, nat>, inverse: map<nat, nat>) {
    && (forall v :: v in table ==> table[v] in inverse && inverse[table[v]] == v)
    && (forall p :: p in inverse ==> inverse[p] in table && table[inverse[p]] == p)
  }

  ghost predicate Inv(s: Pages) {
    && Inverse(s.table, s.inverse) && s.recent == {}
    && s.count == |s.table| == |s.inverse| == |s.queue| <= s.capacity
    && 0 <= s.adjacent <= 512 && s.capacity > 0
  }

  /** The page that an allocation gets: the next one if that is asked for and free, else the one drawn. */
  function Target(s: Pages, drawn: nat): nat {
    if s.adjacent > 0 && s.previous + 1 !in s.inverse then s.previous + 1 else drawn
  }

  /** A free page is taken; `run` is how many pages are to follow it if the row of pages breaks. */
  function Allocate(s: Pages, vpage: nat, drawn: nat, run: nat): Pages {
    var page := Target(s, drawn);
    var fragmented := s.adjacent == 0 || s.previous + 1 in s.inverse;
    s.(table := s.table[vpage := page], inverse := s.inverse[page := vpage], queue := s.queue + [vpage],
       previous := page, count := s.count + 1, adjacent := if fragmented then run else s.adjacent - 1)
  }

  /** The page that is swapped out: the first that is not recent. */
  ghost predicate IsVictim(s: Pages, v: nat) {
    v in s.table && v !in s.recent && forall w :: w in s.table && w < v ==> w in s.recent
  }

  function Swap(s: Pages, vpage: nat, victim: nat): Pages
    requires victim in s.table
  {
    var page := s.table[victim];
    s.(table := (s.table - {victim})[vpage := page], inverse := s.inverse[page := vpage],
       queue := if s.queue == [] then [vpage] else s.queue[1..] + [vpage])
  }

  /** What the random number generator may answer: a free page, and a power of two up to 512. */
  ghost predicate CanDraw(s: Pages, drawn: nat, run: nat) {
    && (s.count < s.capacity ==> Target(s, drawn) !in s.inverse)
    && 1 <= run <= 512
  }

  /** va_to_pa, as far as the tables go. */
  ghost function Touch(s: Pages, vpage: nat, drawn: nat, run: nat): Pages
    requires Inv(s)
  {
    if vpage in s.table then s
    else if s.count >= s.capacity then
      var victim := VictimOf(s);
      Swap(s, vpage, victim)
    else Allocate(s, vpage, drawn, run)
  }

  /** There is always a page to swap out. */
  ghost function VictimOf(s: Pages): (v: nat)
    requires Inv(s) && s.count >= s.capacity
    ensures IsVictim(s, v)
  {
    assert s.table.Keys != {};
    var v :| v in s.table;
    LeastKey(s, v);
    var w :| IsVictim(s, w);
    w
  }

  lemma {:induction false} LeastKey(s: Pages, v: nat)
    requires v in s.table && s.recent == {}
    ensures exists w :: IsVictim(s, w)
  {
    if w: nat :| w in s.table && w < v {
      LeastKey(s, w);
    } else {
      assert IsVictim(s, v);
    }
  }

  lemma AllocateInv(s: Pages, vpage: nat, drawn: nat, run: nat)
    requires Inv(s) && vpage !in s.table && s.count < s.capacity && CanDraw(s, drawn, run)
    ensures Inv(Allocate(s, vpage, drawn, run))
  {
    var s1 := Allocate(s, vpage, drawn, run);
    assert s1.table.Keys == s.table.Keys + {vpage};
    assert s1.inverse.Keys == s.inverse.Keys + {Target(s, drawn)};
  }

  lemma SwapInv(s: Pages, vpage: nat, victim: nat)
    requires Inv(s) && vpage !in s.table && s.count >= s.capacity && IsVictim(s, victim)
    ensures Inv(Swap(s, vpage, victim))
  {
    var s1 := Swap(s, vpage, victim);
    var page := s.table[victim];
    assert s1.table.Keys == s.table.Keys - {victim} + {vpage};
    assert s1.inverse.Keys == s.inverse.Keys;
    assert s.queue != [];
    forall v | v in s1.table ensures s1.table[v] in s1.inverse && s1.inverse[s1.table[v]] == v {
      if v != vpage {
        assert s.table[v] != page;
      }
    }
  }

  /** Every translation keeps the tables inverse to each other, and num_adjacent_page from 0 to 512. */
  lemma TouchInv(s: Pages, vpage: nat, drawn: nat, run: nat)
    requires Inv(s) && CanDraw(s, drawn, run)
    ensures Inv(Touch(s, vpage, drawn, run)) && vpage in Touch(s, vpage, drawn, run).table
  {
    if vpage !in s.table {
      if s.count >= s.capacity {
        SwapInv(s, vpage, VictimOf(s));
      } else {
        AllocateInv(s, vpage, drawn, run);
      }
    }
  }

  /** A mapping stays as it is, unless memory is full and it is the one that is swapped out. */
  lemma MappingsStay(s: Pages, vpage: nat, drawn: nat, run: nat, v: nat)
    requires Inv(s) && CanDraw(s, drawn, run) && v in s.table
    ensures var s1 := Touch(s, vpage, drawn, run);
            (v in s1.table && s1.table[v] == s.table[v]) || (s.count >= s.capacity && vpage !in s.table && v == VictimOf(s))
  {
  }

  // ---- Addresses ----

  function Translate(s: Pages, vpage: nat, offset: nat): nat
    requires vpage in s.table
  {
    Or(s.table[vpage] * 4096, offset)
  }

  /** The physical address has the offset of the virtual one, in the page of the table. */
  lemma TranslationKeepsTheOffset(s: Pages, vpage: nat, offset: nat)
    requires Inv(s) && vpage in s.table && offset < 4096
    ensures Translate(s, vpage, offset) == s.table[vpage] * 4096 + offset
    ensures Translate(s, vpage, offset) / 4096 == s.table[vpage] && Translate(s, vpage, offset) % 4096 == offset
    ensures s.inverse[Translate(s, vpage, offset) / 4096] == vpage
  {
    assert Pow2(12) == 4096;
    OrAdds(offset, s.table[vpage], 12);
    OrCommutes(s.table[vpage] * 4096, offset);
  }

  lemma {:induction false} OrCommutes(a: nat, b: nat)
    ensures Or(a, b) == Or(b, a)
    decreases a + b
  {
    if a + b > 0 {
      OrCommutes(a / 2, b / 2);
    }
  }

  /** On a power-of-two number of cpus, different cpus never share a physical page. */
  lemma CpusShareNothing(s: Pages, k: nat, c: nat, d: nat, p: nat, q: nat, offset: nat, other: nat, w: nat)
    requires Inv(s) && k < w && c < Pow2(k) && d < Pow2(k) && c != d
    requires p < Pow2(w - k) && q < Pow2(w - k) && offset < 4096 && other < 4096
    ensures Lg2(Pow2(k)) == k
    ensures var u, v := VPage(c, Pow2(k), p, w), VPage(d, Pow2(k), q, w);
            u in s.table && v in s.table ==> Translate(s, u, offset) / 4096 != Translate(s, v, other) / 4096
  {
    NeverMeet(k, c, d, p, q, w);
    var u, v := VPage(c, Pow2(k), p, w), VPage(d, Pow2(k), q, w);
    if u in s.table && v in s.table {
      TranslationKeepsTheOffset(s, u, offset);
      TranslationKeepsTheOffset(s, v, other);
    }
  }

  // ---- Runs ----

  datatype Use = Use(vpage: nat, drawn: nat, run: nat)

  function Initial(capacity: nat): Pages { Pages(map[], map[], [], {}, 0, 0, 0, capacity) }

  ghost predicate IsRun(states: seq<Pages>, uses: seq<Use>) {
    && |states| == |uses| + 1 && (exists n: nat :: n > 0 && states[0] == Initial(n))
    && forall k :: 0 <= k < |uses| && Inv(states[k]) ==>
         CanDraw(states[k], uses[k].drawn, uses[k].run)
         && states[k + 1] == Touch(states[k], uses[k].vpage, uses[k].drawn, uses[k].run)
  }

  lemma {:induction false} ReachableInv(states: seq<Pages>, uses: seq<Use>, k: nat)
    requires IsRun(states, uses) && k < |states|
    ensures Inv(states[k])
  {
    if k > 0 {
      ReachableInv(states, uses, k - 1);
      TouchInv(states[k - 1], uses[k - 1].vpage, uses[k - 1].drawn, uses[k - 1].run);
      assert states[k - 1 + 1] == Touch(states[k - 1], uses[k - 1].vpage, uses[k - 1].drawn, uses[k - 1].run);
    }
  }

  // ---- Rows of adjacent pages ----

  /**
    A new page gets the physical page after the last one, while the row goes on and that one is
    free; otherwise the one drawn, which starts a row of the drawn length.
   */
  lemma AllocationInFields(s: Pages, vpage: nat, drawn: nat, run: nat)
    requires Inv(s) && vpage !in s.table && s.count < s.capacity
    ensures var r := Touch(s, vpage, drawn, run); var goesOn := s.adjacent > 0 && s.previous + 1 !in s.inverse;
            var page := if goesOn then s.previous + 1 else drawn;
            r == Pages(s.table[vpage := page], s.inverse[page := vpage], s.queue + [vpage], s.recent,
                       page, if goesOn then s.adjacent - 1 else run, s.count + 1, s.capacity)
  {
  }

  /** When memory is full, the first page of the table gives its physical page to the new one, and nothing else changes. */
  lemma SwapInFields(s: Pages, vpage: nat, drawn: nat, run: nat) returns (victim: nat)
    requires Inv(s) && vpage !in s.table && s.count >= s.capacity
    ensures victim in s.table && forall v :: v in s.table ==> victim <= v
    ensures var r := Touch(s, vpage, drawn, run); var page := s.table[victim];
            && (forall v :: v in r.table <==> v == vpage || (v in s.table && v != victim))
            && r.table[vpage] == page && (forall v :: v in s.table && v != victim ==> r.table[v] == s.table[v])
            && (forall p :: p in r.inverse <==> p in s.inverse)
            && (forall p :: p in s.inverse ==> r.inverse[p] == if p == page then vpage else s.inverse[p])
            && s.queue != [] && r.queue == s.queue[1..] + [vpage]
            && r.previous == s.previous && r.adjacent == s.adjacent && r.count == s.count && r.recent == s.recent
  {
    victim := VictimOf(s);
  }

  /** The pages used from step `k` to `k + n` are all new, memory has room, and the row is long enough and free. */
  ghost predicate RowAhead(states: seq<Pages>, uses: seq<Use>, k: nat, n: nat) {
    && k + n <= |uses| < |states|
    && (forall j :: k <= j < k + n ==> uses[j].vpage !in states[j].table && states[j].count < states[j].capacity)
    && n <= states[k].adjacent
    && forall p: nat :: states[k].previous < p <= states[k].previous + n ==> p !in states[k].inverse
  }

  /** In every run such pages are placed one after the other. */
  lemma {:induction false} RowsAreAdjacent(states: seq<Pages>, uses: seq<Use>, k: nat, n: nat, j: nat)
    requires IsRun(states, uses) && RowAhead(states, uses, k, n) && j <= n
    ensures states[k + j].previous == states[k].previous + j && states[k + j].adjacent == states[k].adjacent - j
    ensures forall p: nat :: p in states[k + j].inverse <==> p in states[k].inverse || states[k].previous < p <= states[k].previous + j
    ensures j > 0 ==> uses[k + j - 1].vpage in states[k + j].table && states[k + j].table[uses[k + j - 1].vpage] == states[k].previous + j
  {
    hide IsRun;
    if j > 0 {
      var i := k + (j - 1);
      RowsAreAdjacent(states, uses, k, n, j - 1);
      var next := states[k].previous + j;
      assert next !in states[k].inverse && next !in states[i].inverse;
      RowStep(states, uses, i);
      assert states[k + j].inverse == states[i].inverse[next := uses[i].vpage];
      forall p: nat
        ensures p in states[k + j].inverse <==> p in states[k].inverse || states[k].previous < p <= states[k].previous + j
      {
        assert p in states[k + j].inverse <==> p in states[i].inverse || p == next;
        assert p in states[i].inverse <==> p in states[k].inverse || states[k].previous < p <= states[k].previous + (j - 1);
      }
    }
  }

  lemma RowStep(states: seq<Pages>, uses: seq<Use>, i: nat)
    requires IsRun(states, uses) && i < |uses| && uses[i].vpage !in states[i].table && states[i].count < states[i].capacity
    requires states[i].adjacent > 0 && states[i].previous + 1 !in states[i].inverse
    ensures var s := states[i]; var page := s.previous + 1;
            states[i + 1] == Pages(s.table[uses[i].vpage := page], s.inverse[page := uses[i].vpage], s.queue + [uses[i].vpage], s.recent,
                                   page, s.adjacent - 1, s.count + 1, s.capacity)
  {
    ReachableInv(states, uses, i);
    AllocationInFields(states[i], uses[i].vpage, uses[i].drawn, uses[i].run);
  }
}
