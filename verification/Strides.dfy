/**
  Pages that are walked with a steady stride: their signature settles, their pattern set counts
  the stride, and the stride is offered for prefetching.
 */
module Strides {
  import opened Options
  import opened Powers
  import opened Recency
  import opened PatternTables
  import opened PatternCounts
  import opened SignaturePath
  import opened SignatureTables

  // ---- A steady delta leads to a steady signature ----

  lemma Doubled(q: nat, r: nat, m: nat)
    requires m > 0 && r < 2
    ensures (2 * q + r) % (2 * m) == 2 * (q % m) + r
  {
    var k := q / m;
    assert q == m * k + q % m;
    assert 2 * q + r == (2 * m) * k + (2 * (q % m) + r);
    Remainder(2 * q + r, 2 * m, k, 2 * (q % m) + r);
  }

  lemma Remainder(x: nat, m: nat, k: nat, r: nat)
    requires m > 0 && r < m && x == m * k + r
    ensures x % m == r
  {
    var q := x / m;
    assert x == m * q + x % m;
    if q < k {
      Monotone(q + 1, k, m);
    } else if q > k {
      Monotone(k + 1, q, m);
    }
  }

  lemma HalvesAgree(a: nat, b: nat, m: nat)
    requires m > 0 && a % (2 * m) == b % (2 * m)
    ensures a % 2 == b % 2 && a / 2 % m == b / 2 % m
  {
    Doubled(a / 2, a % 2, m);
    Doubled(b / 2, b % 2, m);
    SameParts(a / 2 % m, a % 2, b / 2 % m, b % 2);
  }

  lemma SameParts(p: nat, r: nat, q: nat, t: nat)
    requires r < 2 && t < 2 && 2 * p + r == 2 * q + t
    ensures p == q && r == t
  {
  }

  /** The low bits of an exclusive or depend only on the low bits. */
  lemma {:induction false} XorLow(a: nat, b: nat, c: nat, k: nat)
    requires a % Pow2(k) == b % Pow2(k)
    ensures Xor(a, c) % Pow2(k) == Xor(b, c) % Pow2(k)
    decreases k
  {
    if k > 0 {
      var m := Pow2(k - 1);
      HalvesAgree(a, b, m);
      XorLow(a / 2, b / 2, c / 2, k - 1);
      XorDoubled(a, c, m);
      XorDoubled(b, c, m);
    }
  }

  lemma XorDoubled(a: nat, c: nat, m: nat)
    requires m > 0
    ensures Xor(a, c) % (2 * m) == 2 * (Xor(a / 2, c / 2) % m) + if a % 2 == c % 2 then 0 else 1
  {
    Doubled(Xor(a / 2, c / 2), if a % 2 == c % 2 then 0 else 1, m);
  }

  /** Two signatures agree in their last `3 * k` bits. */
  predicate Agree(x: nat, y: nat, k: nat) { x % Pow2(3 * k) == y % Pow2(3 * k) }

  /** Shifting by three bits moves the low bits up. */
  lemma ShiftLow(x: nat, k: nat)
    requires k < 4
    ensures (x * 8 % 4096) % Pow2(3 * (k + 1)) == 8 * (x % Pow2(3 * k))
  {
    Thirds();
    if k == 0 {
      ShiftLowBy(x, 1, 512);
    } else if k == 1 {
      ShiftLowBy(x, 8, 64);
    } else if k == 2 {
      ShiftLowBy(x, 64, 8);
    } else {
      ShiftLowBy(x, 512, 1);
    }
  }

  lemma ShiftLowBy(x: nat, m: nat, c: nat)
    requires m > 0 && m * c == 512
    ensures (x * 8 % 4096) % (8 * m) == 8 * (x % m)
  {
    Scaled(x, 512);
    Scaled(x % 512, m);
    Nested(x, m, c, 512);
  }

  lemma Scaled(r: nat, m: nat)
    requires m > 0
    ensures 8 * r % (8 * m) == 8 * (r % m)
  {
    var k := r / m;
    assert r == m * k + r % m;
    assert (8 * m) * k == 8 * (m * k);
    Remainder(8 * r, 8 * m, k, 8 * (r % m));
  }

  lemma Nested(x: nat, m: nat, c: nat, n: nat)
    requires m > 0 && m * c == n > 0
    ensures x % m == x % n % m
  {
    var r, h := x % n, x / n;
    var k, a := r / m, c * h;
    assert r == m * k + r % m && x == n * h + r;
    Regroup(m, c, h, n);
    Distribute(m, a, k);
    Remainder(x, m, a + k, r % m);
  }

  lemma Regroup(m: nat, c: nat, h: nat, n: nat)
    requires m * c == n
    ensures m * (c * h) == n * h
  {
  }

  lemma Distribute(m: nat, a: nat, k: nat)
    ensures m * (a + k) == m * a + m * k
  {
  }

  /** A step moves the agreement up by three bits. */
  lemma StepAgrees(x: nat, y: nat, delta: int, k: nat)
    requires x < SIG_SIZE && y < SIG_SIZE && -63 <= delta <= 63 && k < 4 && Agree(x, y, k)
    ensures Agree(Shifted(x, delta), Shifted(y, delta), k + 1)
  {
    ShiftLow(x, k);
    ShiftLow(y, k);
    XorLow(x * 8 % 4096, y * 8 % 4096, SigDelta(delta), 3 * (k + 1));
  }

  lemma Thirds()
    ensures Pow2(0) == 1 && Pow2(3) == 8 && Pow2(6) == 64 && Pow2(9) == 512 && Pow2(12) == 4096
  {
    assert Pow2(1) == 2 && Pow2(2) == 4 && Pow2(4) == 16 && Pow2(5) == 32 && Pow2(7) == 128 && Pow2(8) == 256;
    assert Pow2(10) == 1024 && Pow2(11) == 2048;
  }

  lemma AgreeAll(x: nat, y: nat)
    requires x < SIG_SIZE && y < SIG_SIZE && Agree(x, y, 4)
    ensures x == y
  {
    Thirds();
  }

  /** The signature of a page that is walked with one delta for ever. */
  function Steady(delta: int): (r: nat)
    requires -63 <= delta <= 63
    ensures r < SIG_SIZE
  {
    Shifted(Shifted(Shifted(Shifted(0, delta), delta), delta), delta)
  }

  lemma SteadyStays(delta: int)
    requires -63 <= delta <= 63 && delta != 0
    ensures Shifted(Steady(delta), delta) == Steady(delta) && Steady(delta) != 0
    ensures NewSignature(Steady(delta), delta) == Steady(delta)
  {
    var x1 := Shifted(0, delta);
    var x2 := Shifted(x1, delta);
    var x3 := Shifted(x2, delta);
    var x4 := Shifted(x3, delta);
    assert Agree(0, x1, 0) by { Thirds(); }
    StepAgrees(0, x1, delta, 0);
    StepAgrees(x1, x2, delta, 1);
    StepAgrees(x2, x3, delta, 2);
    StepAgrees(x3, x4, delta, 3);
    AgreeAll(x4, Shifted(x4, delta));
    FromNothing(delta);
  }

  lemma FromNothing(delta: int)
    requires -63 <= delta <= 63 && delta != 0
    ensures Shifted(0, delta) == SigDelta(delta) == NewSignature(0, delta) && SigDelta(delta) != 0
  {
    XorZero(SigDelta(delta));
  }

  /** Each step brings a signature three bits closer to the steady one. */
  lemma Settles(x: nat, delta: int, k: nat)
    requires x < SIG_SIZE && -63 <= delta <= 63 && delta != 0 && k < 4 && Agree(x, Steady(delta), k)
    ensures Agree(NewSignature(x, delta), Steady(delta), k + 1)
  {
    SteadyStays(delta);
    StepAgrees(x, Steady(delta), delta, k);
    if Shifted(x, delta) == 0 {
      FromNothing(delta);
      if k < 3 {
        StepAgrees(0, Steady(delta), delta, k + 1);
        LessAgrees(Shifted(0, delta), Steady(delta), k + 1);
      } else {
        AgreeAll(0, Steady(delta));
      }
    }
  }

  lemma LessAgrees(x: nat, y: nat, k: nat)
    requires k < 4 && Agree(x, y, k + 1)
    ensures Agree(x, y, k)
  {
    assert Pow2(3 * (k + 1)) == Pow2(3 * k) * 8 by { Thirds(); }
    Nested(x, Pow2(3 * k), 8, Pow2(3 * (k + 1)));
    Nested(y, Pow2(3 * k), 8, Pow2(3 * (k + 1)));
  }

  function StepsOn(sig: nat, delta: int, n: nat): (r: nat)
    requires sig < SIG_SIZE && -63 <= delta <= 63
    ensures r < SIG_SIZE
  {
    if n == 0 then sig else NewSignature(StepsOn(sig, delta, n - 1), delta)
  }

  /** Four steps with one delta lead from any signature to the same one, which further steps keep. */
  lemma {:induction false} SteadyAfterFour(sig: nat, delta: int, n: nat)
    requires sig < SIG_SIZE && -63 <= delta <= 63 && delta != 0
    ensures Agree(StepsOn(sig, delta, n), Steady(delta), if n < 4 then n else 4)
    ensures n >= 4 ==> StepsOn(sig, delta, n) == Steady(delta)
  {
    if n == 0 {
      Thirds();
    } else if n <= 4 {
      SteadyAfterFour(sig, delta, n - 1);
      Settles(StepsOn(sig, delta, n - 1), delta, n - 1);
      if n == 4 {
        AgreeAll(StepsOn(sig, delta, n), Steady(delta));
      }
    } else {
      SteadyAfterFour(sig, delta, n - 1);
      SteadyStays(delta);
    }
  }

  // ---- What an access does ----

  ghost predicate WatchedAt(s: Spp, page: nat, i: nat) { i < |s.st| && s.st[i].valid && s.st[i].tag == page % 65536 }

  /** A page but for its rank. */
  predicate SamePageEntry(e: Page, e1: Page) { e1 == e.(lru := e1.lru) }

  /**
    An access to a watched page moves its last block. Its distance is the first signature of
    the page or extends the one it has, and is counted for that one, unless it is 0.
   */
  lemma AccessInFields(s: Spp, page: nat, block: nat, i: nat)
    requires Inv(s) && block < 64 && WatchedAt(s, page, i)
    ensures var e := s.st[i]; var delta := block - e.last; var r := StUpdate(s, page, block);
            && |r.st| == |s.st| && (forall k :: 0 <= k < |s.st| && k != i ==> SamePageEntry(s.st[k], r.st[k]))
            && r.st[i] == Page(true, e.tag, block,
                               if e.signature == 0 then if delta < 0 then 64 - delta else delta
                               else if delta == 0 then e.signature else NewSignature(e.signature, delta),
                               e.signature == 0, 0, e.prefetched, e.used)
            && r.pt == (if e.signature == 0 || delta == 0 then s.pt
                        else s.pt[e.signature % 509 := Learn(s.pt[e.signature % 509], delta)])
            && r.issued == s.issued && r.useful == s.useful
  {
    OwnEntry(s, page, i);
    EntryExists(s.st, Tag(page));
    hide PatternsOk, Permutation, Learn, NewSignature;
  }

  lemma OwnEntry(s: Spp, page: nat, i: nat)
    requires Inv(s) && WatchedAt(s, page, i)
    ensures FindPage(s.st, Tag(page), |s.st|) == Some(i)
  {
    hide PatternsOk, Permutation;
  }

  /** A page that was not watched takes a free entry, or else the least recent, without a signature. */
  lemma FirstAccessInFields(s: Spp, page: nat, block: nat) returns (i: nat)
    requires Inv(s) && block < 64 && forall k: nat :: !WatchedAt(s, page, k)
    ensures i < |s.st|
    ensures var e := s.st[i]; var r := StUpdate(s, page, block);
            && (if exists k :: 0 <= k < |s.st| && !s.st[k].valid then !e.valid && forall k :: 0 <= k < i ==> s.st[k].valid
                else e.lru == |s.st| - 1)
            && |r.st| == |s.st| && (forall k :: 0 <= k < |s.st| && k != i ==> SamePageEntry(s.st[k], r.st[k]))
            && r.st[i] == Page(true, page % 65536, block, 0, false, 0, if e.valid then {} else e.prefetched, if e.valid then {} else e.used)
            && r.pt == s.pt && r.issued == s.issued && r.useful == s.useful
  {
    EntryExists(s.st, Tag(page));
    forall k | 0 <= k < |s.st|
      ensures !(s.st[k].valid && s.st[k].tag == Tag(page))
    {
      assert !WatchedAt(s, page, k);
    }
    hide PatternsOk, Permutation;
    i := EntryFor(s.st, Tag(page)).value;
  }

  /** The share of prefetches that were useful, in hundredths and never more than 99; 99 before the first. */
  lemma MaxConfInNumbers(issued: nat, useful: nat)
    ensures MaxConf(issued, useful) == (if issued == 0 || 100 * useful / issued > 99 then 99 else 100 * useful / issued)
  {
  }

  /** A demand counts as useful if and only if its block was prefetched and not used before. */
  lemma DemandInNumbers(s: Spp, i: nat, block: int)
    requires i < |s.st|
    ensures var e := s.st[i]; var r := Demand(s, i, block);
            && r.useful == s.useful + (if block in e.prefetched && block !in e.used then 1 else 0)
            && r.issued == s.issued && r.pt == s.pt && r.st == s.st[i := e.(used := e.used + {block})]
  {
  }

  /**
    A candidate is requested if and only if its block is neither prefetched nor used, it is
    likely enough and the queue accepts it; the 1024th request halves both counters.
   */
  lemma RequestInNumbers(s: Spp, i: nat, block: int, c: Candidate, accepted: bool)
    requires i < |s.st| && s.issued <= 1023
    ensures var e := s.st[i]; var target := block + c.delta; var r := Request(s, i, block, c, accepted);
            && r.pt == s.pt
            && if target !in e.prefetched && target !in e.used && c.conf >= 75 && accepted then
                 && r.st == s.st[i := e.(prefetched := e.prefetched + {target})]
                 && (r.issued, r.useful) == (if s.issued == 1023 then (512, s.useful / 2) else (s.issued + 1, s.useful))
               else r == s
  {
  }

  // ---- A page that is walked ----

  /** What an access finds to prefetch. */
  ghost function Offers(s: Spp, addr: nat): seq<Candidate>
    requires Inv(s)
  {
    var (s1, i) := Prepared(s, addr);
    Buffer(s1, i, addr / 64 % 64)
  }

  /** The page is watched, with this last block and signature. */
  ghost predicate At(s: Spp, page: nat, block: nat, sig: nat) {
    exists i: nat :: WatchedAt(s, page, i) && s.st[i].last == block && s.st[i].signature == sig
  }

  /** What an access leaves, the requests being only marks in the block maps. */
  lemma OperateKeeps(s: Spp, addr: nat, accepted: seq<bool>)
    requires Inv(s) && |accepted| >= BUFFER
    ensures var s0 := StUpdate(s, addr / 4096, addr / 64 % 64); var r := Operate(s, addr, accepted);
            Inv(r) && r.pt == s0.pt && forall page: nat, block: nat, sig: nat :: At(s0, page, block, sig) ==> At(r, page, block, sig)
  {
    var block := addr / 64 % 64;
    var s0 := StUpdate(s, addr / 4096, block);
    StUpdateInv(s, addr / 4096, block);
    var (s1, i) := Prepared(s, addr);
    BufferOk(s1, i, block);
    RequestsSame(s1, i, block, Buffer(s1, i, block), accepted, |Buffer(s1, i, block)|);
    OperateInv(s, addr, accepted);
    var r := Operate(s, addr, accepted);
    assert SameTable(s0, s1) && SameTable(s1, r);
    KeepsAt(s0, s1);
    KeepsAt(s1, r);
  }

  lemma KeepsAt(s: Spp, s1: Spp)
    requires SameTable(s, s1)
    ensures s1.pt == s.pt && forall page: nat, block: nat, sig: nat :: At(s, page, block, sig) ==> At(s1, page, block, sig)
  {
    forall page: nat, block: nat, sig: nat | At(s, page, block, sig)
      ensures At(s1, page, block, sig)
    {
      var i: nat :| WatchedAt(s, page, i) && s.st[i].last == block && s.st[i].signature == sig;
      assert s1.st[i].(prefetched := {}, used := {}) == s.st[i].(prefetched := {}, used := {});
      assert WatchedAt(s1, page, i);
    }
  }

  /** After any access its page is watched. */
  lemma AccessWatches(s: Spp, addr: nat, accepted: seq<bool>) returns (sig: nat)
    requires Inv(s) && |accepted| >= BUFFER
    ensures sig < SIG_SIZE && At(Operate(s, addr, accepted), addr / 4096, addr / 64 % 64, sig)
    ensures Inv(Operate(s, addr, accepted))
  {
    hide Inv, PatternsOk, Operate, StUpdate, NewSignature;
    OperateKeeps(s, addr, accepted);
    var s0 := StUpdate(s, addr / 4096, addr / 64 % 64);
    if i: nat :| WatchedAt(s, addr / 4096, i) {
      AccessInFields(s, addr / 4096, addr / 64 % 64, i);
      SignatureFits(s, i);
      sig := s0.st[i].signature;
      assert WatchedAt(s0, addr / 4096, i);
    } else {
      var i := FirstAccessInFields(s, addr / 4096, addr / 64 % 64);
      sig := 0;
      assert WatchedAt(s0, addr / 4096, i);
    }
  }

  lemma SignatureFits(s: Spp, i: nat)
    requires Inv(s) && i < |s.st|
    ensures s.st[i].signature < SIG_SIZE && s.st[i].last < 64
  {
    assert PageOk(s.st[i]);
  }

  /** The next access of a walk extends the signature, counts the distance and looks the new signature up. */
  lemma AccessMoves(s: Spp, addr: nat, accepted: seq<bool>, last: nat, sig: nat) returns (maxConf: nat)
    requires Inv(s) && |accepted| >= BUFFER && At(s, addr / 4096, last, sig) && addr / 64 % 64 != last
    ensures var delta := addr / 64 % 64 - last; var r := Operate(s, addr, accepted);
            && -63 <= delta <= 63 && sig < SIG_SIZE && PatternsOk(s.pt) && Inv(r) && PatternsOk(r.pt)
            && At(r, addr / 4096, addr / 64 % 64, NewSignature(sig, delta))
            && r.pt == (if sig == 0 then s.pt else s.pt[sig % 509 := Learn(s.pt[sig % 509], delta)])
            && maxConf <= CAP
            && (sig != 0 ==> Offers(s, addr) == PfCheck(r.pt, NewSignature(sig, delta), addr / 64 % 64, maxConf))
  {
    hide TableOk, Operate, StUpdate, NewSignature, PatternsOk, PfCheck, Learn;
    var block := addr / 64 % 64;
    var s0 := StUpdate(s, addr / 4096, block);
    var i: nat :| WatchedAt(s, addr / 4096, i) && s.st[i].last == last && s.st[i].signature == sig;
    SignatureFits(s, i);
    AccessInFields(s, addr / 4096, block, i);
    FirstSignature(sig, block - last);
    OperateKeeps(s, addr, accepted);
    assert At(s0, addr / 4096, block, NewSignature(sig, block - last)) by { assert WatchedAt(s0, addr / 4096, i); }
    StUpdateInv(s, addr / 4096, block);
    OwnEntry(s0, addr / 4096, i);
    var (s1, j) := Prepared(s, addr);
    assert j == i && s1 == Demand(s0, i, block);
    maxConf := MaxConf(s1.issued, s1.useful);
  }

  lemma FirstSignature(sig: nat, delta: int)
    requires sig < SIG_SIZE && -63 <= delta <= 63 && delta != 0
    ensures sig == 0 ==> NewSignature(sig, delta) == (if delta < 0 then 64 - delta else delta)
    ensures NewSignature(sig, delta) != 0
  {
    FromNothing(delta);
  }

  function BlockOf(e: Event): nat
    requires e.Accessed?
  {
    e.addr / 64 % 64
  }

  /** From any consistent tables, a page is accessed again and again, always `delta` blocks further. */
  ghost predicate Walks(run: seq<Spp>, events: seq<Event>, page: nat, delta: int) {
    && |run| == |events| + 1 && Inv(run[0])
    && (forall k :: 0 <= k < |events| ==> events[k].Accessed? && Happens(run[k], run[k + 1], events[k]) && events[k].addr / 4096 == page)
    && (forall k :: 0 <= k < |events| - 1 ==> BlockOf(events[k + 1]) == BlockOf(events[k]) + delta)
  }

  /** After `k` more accesses the signature has been extended `k` times. */
  lemma {:induction false} WalkState(run: seq<Spp>, events: seq<Event>, page: nat, delta: int, k: nat) returns (sig: nat)
    requires Walks(run, events, page, delta) && k < |events| && delta != 0 && -63 <= delta <= 63
    ensures sig < SIG_SIZE && Inv(run[k + 1]) && At(run[k + 1], page, BlockOf(events[k]), StepsOn(sig, delta, k))
  {
    hide Inv, At, Operate, NewSignature;
    if k == 0 {
      assert Happens(run[k], run[k + 1], events[k]);
      sig := AccessWatches(run[0], events[0].addr, events[0].accepted);
      assert StepsOn(sig, delta, 0) == sig;
    } else {
      sig := WalkState(run, events, page, delta, k - 1);
      var m := WalkStep(run, events, page, delta, k, StepsOn(sig, delta, k - 1));
    }
  }

  lemma WalkStep(run: seq<Spp>, events: seq<Event>, page: nat, delta: int, k: nat, sig: nat) returns (maxConf: nat)
    requires Walks(run, events, page, delta) && 0 < k < |events| && delta != 0
    requires Inv(run[k]) && At(run[k], page, BlockOf(events[k - 1]), sig)
    ensures -63 <= delta <= 63 && sig < SIG_SIZE && PatternsOk(run[k].pt) && Inv(run[k + 1]) && PatternsOk(run[k + 1].pt)
    ensures At(run[k + 1], page, BlockOf(events[k]), NewSignature(sig, delta))
    ensures run[k + 1].pt == (if sig == 0 then run[k].pt else run[k].pt[sig % 509 := Learn(run[k].pt[sig % 509], delta)])
    ensures maxConf <= CAP
    ensures sig != 0 ==> Offers(run[k], events[k].addr) == PfCheck(run[k + 1].pt, NewSignature(sig, delta), BlockOf(events[k]), maxConf)
  {
    hide Inv, At, Operate, NewSignature, Offers, PfCheck, Learn, PatternsOk;
    assert Happens(run[k], run[k + 1], events[k]);
    assert BlockOf(events[k - 1 + 1]) == BlockOf(events[k - 1]) + delta;
    maxConf := AccessMoves(run[k], events[k].addr, events[k].accepted, BlockOf(events[k - 1]), sig);
  }

  /** From the fifth access on, the signature is steady. */
  lemma WalkSteadies(run: seq<Spp>, events: seq<Event>, page: nat, delta: int, k: nat)
    requires Walks(run, events, page, delta) && 4 <= k < |events| && delta != 0 && -63 <= delta <= 63
    ensures Inv(run[k + 1]) && At(run[k + 1], page, BlockOf(events[k]), Steady(delta))
  {
    hide Inv, At, Walks, Steady, StepsOn;
    var sig := WalkState(run, events, page, delta, k);
    SteadyAfterFour(sig, delta, k);
  }

  /** From there on, each access is one more sighting of the stride. */
  lemma {:induction false} WalkLearns(run: seq<Spp>, events: seq<Event>, page: nat, delta: int, k: nat)
    requires Walks(run, events, page, delta) && 4 <= k < |events| && delta != 0 && -63 <= delta <= 63
    ensures PatternsOk(run[5].pt)
    ensures run[k + 1].pt == run[5].pt[Steady(delta) % 509 := LearnMany(run[5].pt[Steady(delta) % 509], delta, k - 4)]
  {
    hide Inv, At, Steady, NewSignature, Learn, SetOk;
    WalkSteadies(run, events, page, delta, 4);
    assert PatternsOk(run[5].pt) by { HasPatterns(run[5]); }
    if k == 4 {
      var pt, j := run[5].pt, Steady(delta) % 509;
      assert LearnMany(pt[j], delta, 0) == pt[j];
    } else {
      WalkLearns(run, events, page, delta, k - 1);
      WalkSteadies(run, events, page, delta, k - 1);
      SteadyStays(delta);
      var m := WalkStep(run, events, page, delta, k, Steady(delta));
      var n: nat := k - 4;
      assert LearnMany(run[5].pt[Steady(delta) % 509], delta, n) == Learn(LearnMany(run[5].pt[Steady(delta) % 509], delta, n - 1), delta);
    }
  }

  lemma HasPatterns(s: Spp)
    requires Inv(s)
    ensures PatternsOk(s.pt)
  {
  }

  /**
    A page that is walked with a steady stride is prefetched, whatever the tables held before:
    from its tenth access in a row on, the stride is offered wherever it stays in the page, and
    from the 38th on with full confidence.
   */
  lemma SteadyWalkIsOffered(run: seq<Spp>, events: seq<Event>, page: nat, delta: int, k: nat) returns (c: Candidate)
    requires Walks(run, events, page, delta) && 9 <= k < |events| && delta != 0 && -63 <= delta <= 63
    requires 0 <= BlockOf(events[k]) + delta <= 63
    ensures Inv(run[k]) && c in Offers(run[k], events[k].addr) && c.delta == delta && (k >= 37 ==> c.conf == 100)
  {
    hide Inv, At, Steady, NewSignature, Learn, SetOk, Offers, PfCheck, PatternsOk, LearnMany;
    WalkSteadies(run, events, page, delta, k - 1);
    WalkSteadies(run, events, page, delta, 4);
    WalkLearns(run, events, page, delta, k);
    SteadyStays(delta);
    var maxConf := WalkStep(run, events, page, delta, k, Steady(delta));
    c := SightingsAreOffered(run[5].pt, Steady(delta), BlockOf(events[k]), maxConf, delta, k - 4);
  }

  // ---- Requests and evictions ----

  /** One of the first `n` candidates asks for block `t`, is likely enough and accepted. */
  ghost predicate AsksFor(buffer: seq<Candidate>, accepted: seq<bool>, n: nat, block: int, t: int)
    requires n <= |buffer| <= |accepted|
  {
    exists x :: 0 <= x < n && buffer[x].conf >= 75 && accepted[x] && t == block + buffer[x].delta
  }

  /** After all requests, the blocks marked as prefetched are those before and every unused one that was asked for. */
  lemma {:induction false} RequestedIff(s: Spp, i: nat, block: int, buffer: seq<Candidate>, accepted: seq<bool>, n: nat, t: int)
    requires i < |s.st| && n <= |buffer| <= |accepted|
    ensures var r := Requests(s, i, block, buffer, accepted, n);
            && r.st == s.st[i := s.st[i].(prefetched := r.st[i].prefetched)] && r.pt == s.pt
            && (t in r.st[i].prefetched <==> t in s.st[i].prefetched || (t !in s.st[i].used && AsksFor(buffer, accepted, n, block, t)))
  {
    if n > 0 {
      RequestedIff(s, i, block, buffer, accepted, n - 1, t);
      assert AsksFor(buffer, accepted, n, block, t)
             <==> AsksFor(buffer, accepted, n - 1, block, t) || (buffer[n - 1].conf >= 75 && accepted[n - 1] && t == block + buffer[n - 1].delta);
      var r := Requests(s, i, block, buffer, accepted, n - 1);
      RequestedIff(s, i, block, buffer, accepted, n - 1, block + buffer[n - 1].delta);
    }
  }

  /** A page that was not watched, or had no signature yet, is offered nothing. */
  lemma NothingIsOfferedAtFirst(s: Spp, addr: nat)
    requires Inv(s)
    requires forall i: nat :: WatchedAt(s, addr / 4096, i) ==> s.st[i].signature == 0
    ensures Offers(s, addr) == []
  {
    var block := addr / 64 % 64;
    var s0 := StUpdate(s, addr / 4096, block);
    StUpdateInv(s, addr / 4096, block);
    var j: nat;
    if i: nat :| WatchedAt(s, addr / 4096, i) {
      j := i;
      AccessInFields(s, addr / 4096, block, i);
    } else {
      j := FirstAccessInFields(s, addr / 4096, block);
    }
    assert WatchedAt(s0, addr / 4096, j);
    OwnEntry(s0, addr / 4096, j);
    assert Prepared(s, addr) == (Demand(s0, j, block), j);
    hide StUpdate, PfCheck;
  }

  /** An evicted line is neither prefetched nor used any more in the entry of its page; nothing else changes. */
  lemma EvictInFields(s: Spp, addr: nat, i: nat)
    requires Inv(s) && WatchedAt(s, addr / 4096, i) && addr >= 64
    ensures var b := addr / 64 % 64;
            Evict(s, addr) == s.(st := s.st[i := s.st[i].(prefetched := s.st[i].prefetched - {b}, used := s.st[i].used - {b})])
  {
    OwnEntry(s, addr / 4096, i);
  }
}
