/**
  The signature table of the prefetcher and what happens on an access (kpcp.h and
  kpcp.l2c_pref): the page's signature is updated, candidates are looked up and requested.
 */
module SignatureTables {
  import opened Options
  import opened Recency
  import opened PatternTables
  import opened SignaturePath

  /**
    A page under watch. `prefetched` and `used` are the blocks set in l2_pf and used;
    signature 0 is no signature yet.
   */
  datatype Page = Page(valid: bool, tag: nat, last: nat, signature: nat, firstHit: bool, lru: nat,
                       prefetched: set<int>, used: set<int>)

  /** `issued` and `useful` are spp_pf_issued and spp_pf_useful. */
  datatype Spp = Spp(st: seq<Page>, pt: Patterns, issued: nat, useful: nat)

  function PageRanks(st: seq<Page>): (r: seq<nat>)
    ensures |r| == |st|
  {
    seq(|st|, i requires 0 <= i < |st| => st[i].lru)
  }

  // ---- Searches ----

  /** L2_ST_check */
  function FindPage(st: seq<Page>, tag: nat, n: nat): (r: Option<nat>)
    requires n <= |st|
    ensures r.Some? ==> r.value < n && st[r.value].valid && st[r.value].tag == tag
                        && forall i :: 0 <= i < r.value ==> !(st[i].valid && st[i].tag == tag)
    ensures r.None? ==> forall i :: 0 <= i < n ==> !(st[i].valid && st[i].tag == tag)
  {
    if n == 0 then None
    else match FindPage(st, tag, n - 1)
      case Some(i) => Some(i)
      case None => if st[n - 1].valid && st[n - 1].tag == tag then Some(n - 1) else None
  }

  function FindFree(st: seq<Page>, n: nat): (r: Option<nat>)
    requires n <= |st|
    ensures r.Some? ==> r.value < n && !st[r.value].valid && forall i :: 0 <= i < r.value ==> st[i].valid
    ensures r.None? ==> forall i :: 0 <= i < n ==> st[i].valid
  {
    if n == 0 then None
    else match FindFree(st, n - 1)
      case Some(i) => Some(i)
      case None => if !st[n - 1].valid then Some(n - 1) else None
  }

  function FindOldest(st: seq<Page>, n: nat): (r: Option<nat>)
    requires n <= |st|
    ensures r.Some? ==> r.value < n && st[r.value].lru == |st| - 1 && forall i :: 0 <= i < r.value ==> st[i].lru != |st| - 1
    ensures r.None? ==> forall i :: 0 <= i < n ==> st[i].lru != |st| - 1
  {
    if n == 0 then None
    else match FindOldest(st, n - 1)
      case Some(i) => Some(i)
      case None => if st[n - 1].lru == |st| - 1 then Some(n - 1) else None
  }

  function TouchPage(st: seq<Page>, w: nat): seq<Page>
    requires w < |st|
  {
    seq(|st|, i requires 0 <= i < |st| => st[i].(lru := Touch(PageRanks(st), w)[i]))
  }

  // ---- L2_ST_update ----

  /** Pages are told apart by 16 bits. */
  function Tag(page: nat): nat { page % 0x10000 }

  /** A watched page is accessed: its first delta makes its signature, later ones extend it. */
  function Revisited(e: Page, block: nat): Page
    requires e.signature < SIG_SIZE && SigDelta(block - e.last) < SIG_SIZE
  {
    var delta := block - e.last;
    if e.signature == 0 then e.(signature := SigDelta(delta), firstHit := true, last := block)
    else if delta == 0 then e.(firstHit := false)
    else e.(signature := NewSignature(e.signature, delta), firstHit := false, last := block)
  }

  /** What the pattern table learns from the access. */
  function Learned(pt: Patterns, e: Page, block: nat): Patterns
    requires |pt| == SETS
  {
    var delta := block - e.last;
    if e.signature == 0 || delta == 0 then pt
    else pt[e.signature % SETS := Learn(pt[e.signature % SETS], delta)]
  }

  /** The entry of a page that was not watched: a free one keeps its block maps, the oldest is cleared. */
  function Watched(e: Page, free: bool, tag: nat, block: nat): Page {
    if free then e.(valid := true, tag := tag, signature := 0, firstHit := false, last := block)
    else Page(true, tag, block, 0, false, e.lru, {}, {})
  }

  /** The entry an access uses, if the table has one for it. */
  function EntryFor(st: seq<Page>, tag: nat): (r: Option<nat>)
    ensures r.Some? ==> r.value < |st|
  {
    match FindPage(st, tag, |st|)
    case Some(i) => Some(i)
    case None =>
      match FindFree(st, |st|)
      case Some(i) => Some(i)
      case None => FindOldest(st, |st|)
  }

  ghost predicate PageOk(e: Page) { e.signature < SIG_SIZE && e.last < 64 }

  ghost predicate TableOk(st: seq<Page>) {
    && |st| > 0 && Permutation(PageRanks(st))
    && (forall i :: 0 <= i < |st| ==> PageOk(st[i]))
    && (forall i, j :: 0 <= i < j < |st| && st[i].valid && st[j].valid ==> st[i].tag != st[j].tag)
  }

  /** GC_MAX */
  const GC_MAX: nat := 1023

  ghost predicate Inv(s: Spp) { TableOk(s.st) && PatternsOk(s.pt) && s.issued <= GC_MAX }

  /** Every access finds an entry: its own, a free one, or the least recent. */
  lemma EntryExists(st: seq<Page>, tag: nat)
    requires TableOk(st)
    ensures EntryFor(st, tag).Some?
  {
    var w := RankIsTaken(PageRanks(st), |st| - 1);
    assert PageRanks(st)[w] == st[w].lru;
  }

  ghost function StUpdate(s: Spp, page: nat, block: nat): Spp
    requires Inv(s) && block < 64
  {
    EntryExists(s.st, Tag(page));
    var i := EntryFor(s.st, Tag(page)).value;
    var e := s.st[i];
    if FindPage(s.st, Tag(page), |s.st|).Some? then
      s.(st := TouchPage(s.st[i := Revisited(e, block)], i), pt := Learned(s.pt, e, block))
    else
      s.(st := TouchPage(s.st[i := Watched(e, !e.valid, Tag(page), block)], i))
  }

  lemma TouchPageRanks(st: seq<Page>, w: nat, e: Page)
    requires w < |st| && e.lru == st[w].lru
    ensures PageRanks(TouchPage(st[w := e], w)) == Touch(PageRanks(st), w)
  {
    assert PageRanks(st[w := e]) == PageRanks(st);
  }

  /** An access leaves its page watched, once, and most recent. */
  lemma StUpdateInv(s: Spp, page: nat, block: nat)
    requires Inv(s) && block < 64
    ensures var s1 := StUpdate(s, page, block);
            && Inv(s1) && |s1.st| == |s.st|
            && var i := FindPage(s1.st, Tag(page), |s1.st|); i.Some? && s1.st[i.value].lru == 0
  {
    EntryExists(s.st, Tag(page));
    var i := EntryFor(s.st, Tag(page)).value;
    var e := s.st[i];
    var s1 := StUpdate(s, page, block);
    TouchKeepsPermutation(PageRanks(s.st), i);
    if FindPage(s.st, Tag(page), |s.st|).Some? {
      TouchPageRanks(s.st, i, Revisited(e, block));
      LearnedOk(s.pt, e, block);
      hide Learned, PatternsOk;
    } else {
      TouchPageRanks(s.st, i, Watched(e, !e.valid, Tag(page), block));
      hide PatternsOk;
    }
    assert s1.st[i].valid && s1.st[i].tag == Tag(page) && PageRanks(s1.st)[i] == s1.st[i].lru;
  }

  lemma LearnedOk(pt: Patterns, e: Page, block: nat)
    requires PatternsOk(pt) && PageOk(e) && block < 64
    ensures PatternsOk(Learned(pt, e, block))
  {
    if e.signature != 0 && block != e.last {
      LearnOk(pt[e.signature % SETS], block - e.last);
      hide SetOk, Learn;
    }
  }

  // ---- An access ----

  /** MAX_CONF: the share of prefetches that were useful, capped. */
  function MaxConf(issued: nat, useful: nat): (r: int)
    ensures 0 <= r <= CAP
  {
    if issued == 0 then CAP
    else if 100 * useful / issued >= CAP then CAP
    else 100 * useful / issued
  }

  /** The accessed block was a useful prefetch if it was prefetched and not used before. */
  function Demand(s: Spp, i: nat, block: int): Spp
    requires i < |s.st|
  {
    var e := s.st[i];
    s.(useful := if block in e.prefetched && block !in e.used then s.useful + 1 else s.useful,
       st := s.st[i := e.(used := e.used + {block})])
  }

  /** One candidate is requested, unless its block was; `accepted` says that prefetch_line took it. */
  function Request(s: Spp, i: nat, block: int, c: Candidate, accepted: bool): Spp
    requires i < |s.st|
  {
    var e := s.st[i];
    var target := block + c.delta;
    if target in e.prefetched || target in e.used || c.conf < FILL_THRESHOLD || !accepted then s
    else
      var s1 := s.(st := s.st[i := e.(prefetched := e.prefetched + {target})], issued := s.issued + 1);
      if s1.issued > GC_MAX then s1.(issued := s1.issued / 2, useful := s1.useful / 2) else s1
  }

  const FILL_THRESHOLD: int := 75

  function Requests(s: Spp, i: nat, block: int, buffer: seq<Candidate>, accepted: seq<bool>, n: nat): (r: Spp)
    requires i < |s.st| && n <= |buffer| <= |accepted|
    ensures |r.st| == |s.st|
  {
    if n == 0 then s else Request(Requests(s, i, block, buffer, accepted, n - 1), i, block, buffer[n - 1], accepted[n - 1])
  }

  ghost function Buffer(s: Spp, i: nat, block: int): seq<Candidate>
    requires i < |s.st| && PatternsOk(s.pt) && s.st[i].signature < SIG_SIZE
  {
    if s.st[i].signature != 0 && !s.st[i].firstHit
    then PfCheck(s.pt, s.st[i].signature, block, MaxConf(s.issued, s.useful)) else []
  }

  /** The state once the page is watched and the demand is marked. */
  ghost function Prepared(s: Spp, addr: nat): (r: (Spp, nat))
    requires Inv(s)
    ensures r.1 < |r.0.st| && PatternsOk(r.0.pt) && r.0.st[r.1].signature < SIG_SIZE
  {
    var block := addr / 64 % 64;
    var s1 := StUpdate(s, addr / 4096, block);
    StUpdateInv(s, addr / 4096, block);
    var i := FindPage(s1.st, Tag(addr / 4096), |s1.st|).value;
    assert PageOk(s1.st[i]);
    (Demand(s1, i, block), i)
  }

  /** l2c_prefetcher_operate; `accepted` says which requests the prefetch queue has room for. */
  ghost function Operate(s: Spp, addr: nat, accepted: seq<bool>): Spp
    requires Inv(s) && |accepted| >= BUFFER
  {
    var block := addr / 64 % 64;
    var (s1, i) := Prepared(s, addr);
    var buffer := Buffer(s1, i, block);
    BufferOk(s1, i, block);
    Requests(s1, i, block, buffer, accepted, |buffer|)
  }

  /** No request has delta 0, and every one is for another block of the accessed page. */
  lemma BufferOk(s: Spp, i: nat, block: int)
    requires i < |s.st| && PatternsOk(s.pt) && s.st[i].signature < SIG_SIZE
    ensures |Buffer(s, i, block)| <= BUFFER
    ensures forall x :: 0 <= x < |Buffer(s, i, block)| ==> Likely(Buffer(s, i, block)[x], block)
  {
    if s.st[i].signature != 0 && !s.st[i].firstHit {
      PfCheckOk(s.pt, s.st[i].signature, block, MaxConf(s.issued, s.useful));
    }
  }

  /** Requests and demands change nothing but the block maps and the two counters. */
  ghost predicate SameTable(s: Spp, s1: Spp) {
    && s1.pt == s.pt && |s1.st| == |s.st| && s1.issued <= GC_MAX
    && forall k :: 0 <= k < |s.st| ==> s1.st[k].(prefetched := {}, used := {}) == s.st[k].(prefetched := {}, used := {})
  }

  lemma SameTableInv(s: Spp, s1: Spp)
    requires Inv(s) && SameTable(s, s1)
    ensures Inv(s1)
  {
    assert forall k :: 0 <= k < |s.st| ==> s1.st[k].lru == s.st[k].lru;
    assert PageRanks(s1.st) == PageRanks(s.st);
    assert forall k :: 0 <= k < |s.st| ==>
      s1.st[k].valid == s.st[k].valid && s1.st[k].tag == s.st[k].tag && PageOk(s.st[k]) && PageOk(s1.st[k]);
  }

  lemma {:induction false} RequestsSame(s: Spp, i: nat, block: int, buffer: seq<Candidate>, accepted: seq<bool>, n: nat)
    requires i < |s.st| && n <= |buffer| <= |accepted| && s.issued <= GC_MAX
    ensures SameTable(s, Requests(s, i, block, buffer, accepted, n))
  {
    if n > 0 {
      RequestsSame(s, i, block, buffer, accepted, n - 1);
    }
  }

  /** Every access keeps both tables consistent, whatever the prefetch queue accepts. */
  lemma OperateInv(s: Spp, addr: nat, accepted: seq<bool>)
    requires Inv(s) && |accepted| >= BUFFER
    ensures Inv(Operate(s, addr, accepted))
  {
    var block := addr / 64 % 64;
    StUpdateInv(s, addr / 4096, block);
    var s0 := StUpdate(s, addr / 4096, block);
    var (s1, i) := Prepared(s, addr);
    assert SameTable(s0, s1);
    SameTableInv(s0, s1);
    BufferOk(s1, i, block);
    RequestsSame(s1, i, block, Buffer(s1, i, block), accepted, |Buffer(s1, i, block)|);
    hide Buffer, Requests, StUpdate, Demand;
    SameTableInv(s1, Operate(s, addr, accepted));
  }

  function Initial(pages: nat): Spp {
    Spp(seq(pages, i requires 0 <= i < pages => Page(false, 0, 0, 0, false, i, {}, {})),
        seq(SETS, _ => PatternSet([Way(0, 0), Way(0, 0), Way(0, 0), Way(0, 0)], 0)), 0, 0)
  }

  lemma InitialInv(pages: nat)
    requires pages > 0
    ensures Inv(Initial(pages))
  {
    var s := Initial(pages);
    SumZero([Way(0, 0), Way(0, 0), Way(0, 0), Way(0, 0)]);
  }

  // ---- Evictions, and runs ----

  /** l2c_prefetcher_cache_fill: the block of an evicted line is no longer marked. */
  function Evict(s: Spp, addr: nat): Spp {
    match FindPage(s.st, Tag(addr / 4096), |s.st|)
    case None => s
    case Some(i) =>
      var block := addr / 64 % 64;
      if addr / 64 == 0 then s
      else s.(st := s.st[i := s.st[i].(prefetched := s.st[i].prefetched - {block}, used := s.st[i].used - {block})])
  }

  datatype Event = Accessed(addr: nat, accepted: seq<bool>) | LineEvicted(addr: nat)

  ghost predicate Happens(s: Spp, s1: Spp, event: Event) {
    Inv(s) ==>
      match event
      case Accessed(addr, accepted) => |accepted| >= BUFFER && s1 == Operate(s, addr, accepted)
      case LineEvicted(addr) => s1 == Evict(s, addr)
  }

  ghost predicate IsRun(run: seq<Spp>, events: seq<Event>) {
    && |run| == |events| + 1
    && (exists pages: nat :: pages > 0 && run[0] == Initial(pages))
    && forall k :: 0 <= k < |events| ==> Happens(run[k], run[k + 1], events[k])
  }

  /** From the start, over any accesses and evictions, the tables stay consistent. */
  lemma {:induction false} ReachableInv(run: seq<Spp>, events: seq<Event>, k: nat)
    requires IsRun(run, events) && k < |run|
    ensures Inv(run[k])
  {
    if k == 0 {
      var pages: nat :| pages > 0 && run[0] == Initial(pages);
      InitialInv(pages);
    } else {
      ReachableInv(run, events, k - 1);
      assert Happens(run[k - 1], run[k - 1 + 1], events[k - 1]);
      hide Inv, Operate;
      match events[k - 1]
      case Accessed(addr, accepted) => OperateInv(run[k - 1], addr, accepted);
      case LineEvicted(addr) => EvictInv(run[k - 1], addr);
    }
  }

  lemma EvictInv(s: Spp, addr: nat)
    requires Inv(s)
    ensures Inv(Evict(s, addr))
  {
    assert SameTable(s, Evict(s, addr));
    SameTableInv(s, Evict(s, addr));
  }
}
