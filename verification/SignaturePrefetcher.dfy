/** The signature-path prefetcher as the simulator runs it: loops over its tables, in place. */
module SignaturePrefetchers {
  import opened Options
  import opened Recency
  import opened PatternTables
  import opened SignaturePath
  import opened SignatureTables

  // ---- The pattern table ----

  method FindWay(ways: seq<Way>, delta: int) returns (r: Option<nat>)
    ensures r == FindDelta(ways, delta, |ways|)
  {
    for i := 0 to |ways|
      invariant FindDelta(ways, delta, i) == None
    {
      if ways[i].delta == delta {
        FoundFirst(ways, delta, i, |ways|);
        return Some(i);
      }
    }
    return None;
  }

  lemma FoundFirst(ways: seq<Way>, delta: int, i: nat, n: nat)
    requires i < n <= |ways| && ways[i].delta == delta && FindDelta(ways, delta, i) == None
    ensures FindDelta(ways, delta, n) == Some(i)
  {
    assert FindDelta(ways, delta, n).Some?;
  }

  method LowestWay(ways: seq<Way>, bound: nat) returns (r: Option<nat>)
    ensures r == FindLowest(ways, bound, |ways|)
  {
    r := None;
    var lowest := bound;
    for i := 0 to |ways|
      invariant r == FindLowest(ways, bound, i)
      invariant lowest == if r.Some? then ways[r.value].count else bound
    {
      if ways[i].count < lowest {
        r := Some(i);
        lowest := ways[i].count;
      }
    }
  }

  method Halve(ways: seq<Way>) returns (r: seq<Way>)
    ensures r == Halved(ways)
  {
    r := ways;
    for i := 0 to |ways|
      invariant |r| == |ways| && forall k :: 0 <= k < |ways| ==> r[k] == if k < i then Halved(ways)[k] else ways[k]
    {
      r := r[i := r[i].(count := r[i].count / 2)];
    }
  }

  /** L2_PT_update, on the ways of one signature. */
  method PtUpdate(s: PatternSet, delta: int) returns (r: PatternSet)
    requires SetOk(s) && delta != 0 && -63 <= delta <= 63
    ensures r == Learn(s, delta) && SetOk(r) && |r.ways| == |s.ways|
  {
    LearnOk(s, delta);
    var total := s.total + 1;
    var ways := s.ways;
    if total == CSIG_MAX {
      total := CSIG_MAX / 2;
      ways := Halve(ways);
    }
    assert PatternSet(ways, total) == Seen(s);
    var found := FindWay(ways, delta);
    if found.Some? {
      ways := ways[found.value := ways[found.value].(count := ways[found.value].count + 1)];
    } else {
      found := FindWay(ways, 0);
      if found == None {
        found := LowestWay(ways, CSIG_MAX);
        // The lowest counter is always below the maximum.
        assert found.Some?;
      }
      ways := ways[found.value := Way(delta, 0)];
    }
    r := PatternSet(ways, total);
  }

  /** The sighting of update_pattern: all counters of a set are halved when its sightings pass the maximum. */
  method Sight(ways: seq<Way>, total: nat) returns (r: PatternSet)
    ensures r == SppSeen(PatternSet(ways, total))
  {
    if total + 1 > C_SIG_MAX {
      var halved := Halve(ways);
      r := PatternSet(halved, (total + 1) / 2);
    } else {
      r := PatternSet(ways, total + 1);
    }
  }

  /** update_pattern of the second version. */
  method UpdatePattern(s: PatternSet, delta: int) returns (r: PatternSet)
    requires SppOk(s)
    ensures r == SppLearn(s, delta) && SppOk(r)
  {
    SppLearnOk(s, delta);
    var hit := FindWay(s.ways, delta);
    if hit.Some? {
      r := Sight(s.ways[hit.value := s.ways[hit.value].(count := s.ways[hit.value].count + 1)], s.total);
    } else {
      var victim := LowestWay(s.ways, C_SIG_MAX);
      // "Cannot find a replacement victim!" does not happen.
      assert victim.Some?;
      r := Sight(s.ways[victim.value := Way(delta, 0)], s.total);
    }
  }

  // ---- The search for candidates ----

  /** The most counted way of those likely enough, as the loops of PF_check track it. */
  method BestWay(ways: seq<Way>, conf: int, total: nat, maxConf: int) returns (r: Option<nat>, best: int)
    requires total > 0 && conf >= 0 && maxConf >= 0
    ensures r == Best(ways, AheadConf(conf, total, maxConf), |ways|)
    ensures r.Some? ==> best == PathConfidence(conf, ways[r.value], total, maxConf)
  {
    var most := 0;
    r := None;
    best := conf;
    for i := 0 to |ways|
      invariant r == Best(ways, AheadConf(conf, total, maxConf), i)
      invariant most == if r.Some? then ways[r.value].count else 0
      invariant r.Some? ==> best == PathConfidence(conf, ways[r.value], total, maxConf)
    {
      var likely := conf * ways[i].count / total * maxConf / 100;
      if likely >= PF_THRESHOLD {
        if most < ways[i].count {
          most := ways[i].count;
          r := Some(i);
          best := likely;
        }
      }
    }
  }

  // ---- The signature table ----

  /** L2_ST_check */
  method StCheck(st: array<Page>, page: nat) returns (r: Option<nat>)
    ensures r == FindPage(st[..], Tag(page), st.Length)
  {
    for i := 0 to st.Length
      invariant forall k :: 0 <= k < i ==> !(st[k].valid && st[k].tag == Tag(page))
    {
      if st[i].valid && st[i].tag == page % 0x10000 {
        return Some(i);
      }
    }
    return None;
  }

  /** The loop that ages the pages that were more recent. */
  method Promote(st: array<Page>, w: nat)
    requires w < st.Length
    modifies st
    ensures st[..] == TouchPage(old(st[..]), w)
  {
    ghost var before := st[..];
    var position := st[w].lru;
    for i := 0 to st.Length
      invariant forall k :: 0 <= k < st.Length ==>
                  st[k] == if k < i && before[k].lru < position then before[k].(lru := before[k].lru + 1) else before[k]
    {
      if st[i].lru < position {
        st[i] := st[i].(lru := st[i].lru + 1);
      }
    }
    st[w] := st[w].(lru := 0);
    assert forall k :: 0 <= k < st.Length ==> st[k] == TouchPage(before, w)[k];
  }

  method FreePage(st: array<Page>) returns (r: Option<nat>)
    ensures r == FindFree(st[..], st.Length)
  {
    for i := 0 to st.Length
      invariant forall k :: 0 <= k < i ==> st[k].valid
    {
      if !st[i].valid {
        return Some(i);
      }
    }
    return None;
  }

  method OldestPage(st: array<Page>) returns (r: nat)
    requires FindOldest(st[..], st.Length).Some?
    ensures FindOldest(st[..], st.Length) == Some(r)
  {
    r := 0;
    while st[r].lru != st.Length - 1
      invariant r < st.Length && forall k :: 0 <= k < r ==> st[k].lru != st.Length - 1
      decreases st.Length - r
    {
      r := r + 1;
    }
  }

  /** A watched page is accessed. */
  method Revisit(st: array<Page>, pt: array<PatternSet>, w: nat, block: nat)
    requires PatternsOk(pt[..]) && w < st.Length && PageOk(st[w]) && block < 64
    modifies st, pt
    ensures |old(pt[..])| == SETS
    ensures st[..] == old(st[..])[w := Revisited(old(st[w]), block)] && pt[..] == Learned(old(pt[..]), old(st[w]), block)
  {
    var e := st[w];
    var delta := block - e.last;
    if e.signature == 0 {
      st[w] := e.(signature := SigDelta(delta), firstHit := true, last := block);
    } else if delta != 0 {
      assert SetOk(pt[..][e.signature % SETS]);
      var learned := PtUpdate(pt[e.signature % SETS], delta);
      pt[e.signature % SETS] := learned;
      st[w] := e.(signature := NewSignature(e.signature, delta), firstHit := false, last := block);
    } else {
      st[w] := e.(firstHit := false);
    }
  }

  /** L2_ST_update: the page of the access is watched afterwards, and is the most recent. */
  method UpdatePages(st: array<Page>, pt: array<PatternSet>, page: nat, block: nat, ghost issued: nat, ghost useful: nat)
    requires Inv(Spp(st[..], pt[..], issued, useful)) && block < 64
    modifies st, pt
    ensures old(Inv(Spp(st[..], pt[..], issued, useful))) && Inv(Spp(st[..], pt[..], issued, useful))
    ensures Spp(st[..], pt[..], issued, useful) == SignatureTables.StUpdate(old(Spp(st[..], pt[..], issued, useful)), page, block)
  {
    ghost var s := Spp(st[..], pt[..], issued, useful);
    StUpdateInv(s, page, block);
    EntryExists(s.st, Tag(page));
    var i := StCheck(st, page);
    var w;
    if i.Some? {
      w := i.value;
      assert PageOk(s.st[w]);
      hide Inv, PatternsOk, TableOk;
      Revisit(st, pt, w, block);
    } else {
      i := FreePage(st);
      if i.Some? {
        w := i.value;
        st[w] := st[w].(valid := true, tag := page % 0x10000, signature := 0, firstHit := false, last := block);
      } else {
        w := OldestPage(st);
        st[w] := Page(true, page % 0x10000, block, 0, false, st[w].lru, {}, {});
      }
      assert st[..] == s.st[w := Watched(s.st[w], !s.st[w].valid, Tag(page), block)];
    }
    Promote(st, w);
  }

  class SignaturePrefetcher {
    const pages: array<Page>
    const patterns: array<PatternSet>
    const buffer: array<Candidate>
    var issued: nat
    var useful: nat
    var numPf: nat
    var currConf: int
    var currDelta: int

    ghost predicate Valid()
      reads this, patterns, buffer
    {
      buffer.Length == BUFFER && numPf <= BUFFER && PatternsOk(patterns[..])
    }

    ghost function Value(): Spp
      reads this, pages, patterns
    {
      Spp(pages[..], patterns[..], issued, useful)
    }

    constructor (size: nat)
      requires size > 0
      ensures Valid() && Value() == Initial(size) && Inv(Value())
    {
      pages := new Page[size](i => Page(false, 0, 0, 0, false, i, {}, {}));
      patterns := new PatternSet[SETS](_ => PatternSet([Way(0, 0), Way(0, 0), Way(0, 0), Way(0, 0)], 0));
      buffer := new Candidate[BUFFER](_ => Candidate(0, 0, 0, 0));
      numPf, currConf, currDelta, issued, useful := 0, 0, 0, 0, 0;
      new;
      InitialInv(size);
      assert pages[..] == Initial(size).st && patterns[..] == Initial(size).pt;
    }

    /** One more candidate. */
    method Push(c: Candidate)
      requires Valid() && numPf < BUFFER
      modifies buffer, this`numPf
      ensures Valid() && numPf == old(numPf) + 1 && buffer[..numPf] == old(buffer[..numPf]) + [c]
    {
      buffer[numPf] := c;
      numPf := numPf + 1;
    }

    /** The first part of PF_check: the deltas that followed this very signature. */
    method CheckDirect(s: nat, block: int)
      requires Valid() && numPf == 0 && s < SIG_SIZE
      modifies buffer, this`numPf, this`currConf, this`currDelta
      ensures Valid() && Search(buffer[..numPf], currConf, currDelta) == Start(SetFor(patterns[..], s), s, block)
    {
      var known := patterns[s % SETS];
      assert |known.ways| == 4 && known == SetFor(patterns[..], s);
      assert buffer[..numPf] == [];
      currConf, currDelta := 0, 0;
      if known.total != 0 {
        var best, conf := CheckWays(known, s, block);
        if best.Some? {
          currConf, currDelta := conf, known.ways[best.value].delta;
        }
      }
    }

    /** Its loop over the ways. */
    method CheckWays(known: PatternSet, s: nat, block: int) returns (best: Option<nat>, bestConf: int)
      requires Valid() && numPf == 0 && known.total > 0 && |known.ways| == 4
      modifies buffer, this`numPf
      ensures Valid() && buffer[..numPf] == Direct(known, s, block, |known.ways|)
      ensures best == Best(known.ways, DirectConf(known.total), |known.ways|)
      ensures best.Some? ==> bestConf == Confidence(known.ways[best.value], known.total)
    {
      hide Confidence, PatternsOk;
      var most := 0;
      best, bestConf := None, 100;
      for i := 0 to |known.ways|
        invariant Valid() && numPf <= i && buffer[..numPf] == Direct(known, s, block, i)
        invariant best == Best(known.ways, DirectConf(known.total), i)
        invariant most == if best.Some? then known.ways[best.value].count else 0
        invariant best.Some? ==> bestConf == Confidence(known.ways[best.value], known.total)
      {
        var conf := Confidence(known.ways[i], known.total);
        if conf >= PF_THRESHOLD {
          if SamePage(block, known.ways[i].delta) {
            Push(Candidate(known.ways[i].delta, s, conf, 1));
          }
          if most < known.ways[i].count {
            most, best, bestConf := known.ways[i].count, Some(i), conf;
          }
        }
      }
    }

    /** The path goes on by one way. */
    method GoOn(w: Way, sig: nat, conf: int, block: int, ghost p: Path)
      requires Valid() && numPf < BUFFER && p.delta == currDelta && p.buffer == buffer[..numPf]
      modifies buffer, this`numPf, this`currConf, this`currDelta
      ensures Valid() && Path(sig, currConf, currDelta, old(currDelta), buffer[..numPf]) == Ahead(p, sig, w, conf, block)
    {
      hide PatternsOk;
      var delta := currDelta + w.delta;
      if SamePage(block, delta) {
        if delta != 0 {
          Push(Candidate(delta, sig, conf, numPf + 1));
        }
      }
      currConf := conf;
      currDelta := delta;
    }

    /** One round of the look-ahead loop of PF_check. */
    method LookAhead(sig: nat, last: int, block: int, maxConf: int) returns (sig1: nat)
      requires Valid() && 0 <= maxConf <= CAP && PathOk(Path(sig, currConf, currDelta, last, buffer[..numPf]))
      requires currConf >= PF_THRESHOLD
      modifies buffer, this`numPf, this`currConf, this`currDelta
      ensures Valid() && |patterns[..]| == SETS
      ensures Path(sig1, currConf, currDelta, old(currDelta), buffer[..numPf])
              == Step(patterns[..], block, maxConf, Path(sig, old(currConf), old(currDelta), last, old(buffer[..numPf])))
    {
      ghost var p := Path(sig, currConf, currDelta, last, buffer[..numPf]);
      sig1 := NewSignature(sig, currDelta - last);
      assert patterns.Length == SETS;
      hide PatternsOk, PathConfidence, Ahead;
      var known := patterns[sig1 % SETS];
      assert known == SetFor(patterns[..], sig1);
      if known.total != 0 {
        var best, conf := BestWay(known.ways, currConf, known.total, maxConf);
        if best.Some? && numPf < buffer.Length {
          GoOn(known.ways[best.value], sig1, conf, block, p);
          return;
        }
      }
      currConf, currDelta := 0, 0;
    }

    /** PF_check: the look-ahead loop ends because the confidence of the path shrinks in every round. */
    method PfCheck(s: nat, block: int, maxConf: int)
      requires Valid() && numPf == 0 && s < SIG_SIZE && 0 <= maxConf <= CAP
      modifies buffer, this`numPf, this`currConf, this`currDelta
      ensures Valid() && buffer[..numPf] == SignaturePath.PfCheck(patterns[..], s, block, maxConf)
    {
      StartOk(patterns[..], s, block);
      CheckDirect(s, block);
      var sig, last := s, 0;
      ghost var start := Path(s, currConf, currDelta, 0, buffer[..numPf]);
      while currConf >= PF_THRESHOLD
        invariant Valid() && PathOk(Path(sig, currConf, currDelta, last, buffer[..numPf]))
        invariant currConf >= 0
        invariant Follow(patterns[..], block, maxConf, Path(sig, currConf, currDelta, last, buffer[..numPf]))
                  == Follow(patterns[..], block, maxConf, start)
        decreases currConf
      {
        var before := currDelta;
        StepShrinks(patterns[..], block, maxConf, Path(sig, currConf, currDelta, last, buffer[..numPf]));
        sig := LookAhead(sig, last, block, maxConf);
        last := before;
      }
    }

    /** One request of the loop of l2c_prefetcher_operate. */
    method Request(i: nat, block: int, c: Candidate, accepted: bool)
      requires i < pages.Length && Likely(c, block)
      modifies pages, this`issued, this`useful
      ensures Value() == SignatureTables.Request(old(Value()), i, block, c, accepted)
    {
      // The source gives up on a candidate of delta 0; there is none.
      assert c.delta != 0;
      var target := block + c.delta;
      if !(target in pages[i].prefetched || target in pages[i].used) {
        if c.conf >= FILL_THRESHOLD {
          if accepted {
            pages[i] := pages[i].(prefetched := pages[i].prefetched + {target});
            issued := issued + 1;
            if issued > GC_MAX {
              issued := issued / 2;
              useful := useful / 2;
            }
            assert pages[..] == old(pages[..])[i := pages[i]];
          }
        }
      }
      assert patterns[..] == old(patterns[..]);
    }

    /** The demand marks its block, and what it found there. */
    method MarkDemand(i: nat, block: nat)
      requires i < pages.Length
      modifies pages, this`useful
      ensures Value() == Demand(old(Value()), i, block)
    {
      if block in pages[i].prefetched && block !in pages[i].used {
        useful := useful + 1;
      }
      pages[i] := pages[i].(used := pages[i].used + {block});
      assert pages[..] == old(pages[..])[i := pages[i]];
      assert patterns[..] == old(patterns[..]);
    }

    /** The request loops of l2c_prefetcher_operate. */
    method RequestAll(i: nat, block: int, accepted: seq<bool>)
      requires i < pages.Length && Valid() && |accepted| >= BUFFER
      requires forall x :: 0 <= x < numPf ==> Likely(buffer[x], block)
      modifies pages, this`issued, this`useful
      ensures Valid() && Value() == Requests(old(Value()), i, block, buffer[..numPf], accepted, numPf)
    {
      hide Likely;
      ghost var s := Value();
      for x := 0 to numPf
        invariant Valid() && Value() == Requests(s, i, block, buffer[..numPf], accepted, x)
      {
        Request(i, block, buffer[x], accepted[x]);
      }
    }

    /** l2c_prefetcher_operate */
    method Operate(addr: nat, accepted: seq<bool>)
      requires Valid() && Inv(Value()) && |accepted| >= BUFFER
      modifies pages, patterns, buffer, this
      ensures Valid() && Inv(Value()) && old(Inv(Value()))
      ensures Value() == SignatureTables.Operate(old(Value()), addr, accepted)
    {
      ghost var s := Value();
      OperateInv(s, addr, accepted);
      var block := addr / 64 % 64;
      StUpdateInv(s, addr / 4096, block);
      UpdatePages(pages, patterns, addr / 4096, block, issued, useful);
      var found := StCheck(pages, addr / 4096);
      // The page was found: the double check of the source.
      assert found.Some?;
      var i := found.value;
      numPf, currConf, currDelta := 0, 0, 0;
      assert PageOk(pages[..][i]);
      hide Inv, PatternsOk, TableOk;
      MarkDemand(i, block);
      var maxConf := MaxConf(issued, useful);
      BufferOk(Value(), i, block);
      if pages[i].signature != 0 && !pages[i].firstHit {
        PfCheck(pages[i].signature, block, maxConf);
      } else {
        assert buffer[..numPf] == [];
      }
      assert forall x :: 0 <= x < numPf ==> buffer[x] == buffer[..numPf][x];
      RequestAll(i, block, accepted);
    }
  }
}
