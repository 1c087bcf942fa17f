/**
  What the pattern tables count: each sighting of a delta, and over a run of sightings of one
  delta alone, enough for it to be prefetched.
 */
module PatternCounts {
  import opened Options
  import opened PatternTables
  import opened SignaturePath

  // ---- One sighting ----

  function HalfIf(full: bool, n: nat): nat { if full then n / 2 else n }

  ghost predicate Known(s: PatternSet, delta: int) { exists k :: 0 <= k < |s.ways| && s.ways[k].delta == delta }

  /** Way `i` is the first whose counter is the lowest. */
  ghost predicate IsLowest(s: PatternSet, i: nat, full: bool) {
    && i < |s.ways|
    && (forall k :: 0 <= k < |s.ways| ==> HalfIf(full, s.ways[i].count) <= HalfIf(full, s.ways[k].count))
    && (forall k :: 0 <= k < i ==> HalfIf(full, s.ways[i].count) < HalfIf(full, s.ways[k].count))
  }

  /**
    L2_PT_update: the 16th sighting of a signature first halves every counter. Then a delta that
    has a way is counted there once; a new one takes the first free way, or else the first with
    the lowest counter, and starts from 0. No other way changes.
   */
  lemma LearnInNumbers(s: PatternSet, delta: int) returns (i: nat)
    requires SetOk(s) && delta != 0 && -63 <= delta <= 63
    ensures i < |s.ways| == |Learn(s, delta).ways|
    ensures var full := s.total + 1 == 16; var r := Learn(s, delta);
            && r.total == (if full then 8 else s.total + 1)
            && (forall k :: 0 <= k < |s.ways| && k != i ==> r.ways[k] == Way(s.ways[k].delta, HalfIf(full, s.ways[k].count)))
            && (if Known(s, delta) then s.ways[i].delta == delta && r.ways[i] == Way(delta, HalfIf(full, s.ways[i].count) + 1)
                else
                  && r.ways[i] == Way(delta, 0)
                  && (if Known(s, 0) then s.ways[i].delta == 0 && forall k :: 0 <= k < i ==> s.ways[k].delta != 0
                      else IsLowest(s, i, full)))
  {
    LearnOk(s, delta);
    var s1 := Seen(s);
    assert forall k :: 0 <= k < |s.ways| ==> s1.ways[k].delta == s.ways[k].delta;
    i := WayFor(s1.ways, delta).value;
  }

  /**
    update_pattern: a delta that has a way is counted there once, and a new one takes the first
    way with the lowest counter and starts from 0. After that, the 16th sighting halves every
    counter.
   */
  lemma SppLearnInNumbers(s: PatternSet, delta: int) returns (i: nat)
    requires SppOk(s)
    ensures i < |s.ways| == |SppLearn(s, delta).ways|
    ensures var full := s.total + 1 == 16; var r := SppLearn(s, delta);
            && r.total == (if full then 8 else s.total + 1)
            && (forall k :: 0 <= k < |s.ways| && k != i ==> r.ways[k] == Way(s.ways[k].delta, HalfIf(full, s.ways[k].count)))
            && (if Known(s, delta) then s.ways[i].delta == delta && r.ways[i] == Way(delta, HalfIf(full, s.ways[i].count + 1))
                else r.ways[i] == Way(delta, 0) && IsLowest(s, i, false))
  {
    SppLearnOk(s, delta);
    i := SppWay(s.ways, delta).value;
  }

  // ---- A run of sightings of one delta ----

  function LearnMany(s: PatternSet, delta: int, n: nat): PatternSet {
    if n == 0 then s else Learn(LearnMany(s, delta, n - 1), delta)
  }

  /** The counter of a delta, and the sightings of its signature. */
  datatype Tally = Tally(count: nat, total: nat)

  predicate TallyOk(t: Tally) { t.count <= t.total && 0 < t.total < 16 }

  /** A tally after one more sighting of its delta. */
  function Another(t: Tally): Tally {
    if t.total == 15 then Tally(t.count / 2 + 1, 8) else Tally(t.count + 1, t.total + 1)
  }

  /** How many further sightings are enough for the counter to be the total. */
  function Missing(t: Tally): int {
    var lag := t.total - t.count;
    if lag <= 0 then 0 else (if lag == 1 then 16 else if lag < 4 then 24 else if lag < 8 then 32 else 40) - t.total
  }

  lemma AnotherShrinks(t: Tally)
    requires TallyOk(t)
    ensures TallyOk(Another(t)) && 0 <= Missing(t) <= 32 && Missing(Another(t)) <= (if Missing(t) > 0 then Missing(t) - 1 else 0)
    ensures Missing(t) == 0 <==> t.count == t.total
    ensures 4 * t.count >= t.total ==> 4 * Another(t).count >= Another(t).total
  {
  }

  lemma FourMore(t: Tally)
    requires TallyOk(t)
    ensures var r := Another(Another(Another(Another(t)))); 4 * r.count >= r.total
  {
  }

  /** Way `i` is that of the delta, with this tally. */
  ghost predicate Has(s: PatternSet, delta: int, i: nat, t: Tally) {
    SetOk(s) && i < |s.ways| && s.ways[i] == Way(delta, t.count) && s.total == t.total && TallyOk(t)
  }

  lemma Sighting(s: PatternSet, delta: int, i: nat, t: Tally)
    requires Has(s, delta, i, t) && delta != 0 && -63 <= delta <= 63
    ensures Has(Learn(s, delta), delta, i, Another(t))
  {
    LearnOk(s, delta);
    var k := LearnInNumbers(s, delta);
    assert k == i;
    AnotherShrinks(t);
  }

  lemma FirstSighting(s: PatternSet, delta: int) returns (i: nat, t: Tally)
    requires SetOk(s) && delta != 0 && -63 <= delta <= 63
    ensures Has(Learn(s, delta), delta, i, t)
  {
    LearnOk(s, delta);
    i := LearnInNumbers(s, delta);
    t := Tally(Learn(s, delta).ways[i].count, Learn(s, delta).total);
    WayBound(Learn(s, delta), i);
  }

  /**
    Whatever was seen before: after five sightings of one delta in a row, at least every fourth
    counted sighting is one of that delta, and after 33 all of them are.
   */
  lemma {:induction false} SightingsAddUp(s: PatternSet, delta: int, n: nat) returns (i: nat, t: Tally)
    requires SetOk(s) && delta != 0 && -63 <= delta <= 63 && n > 0
    ensures Has(LearnMany(s, delta, n), delta, i, t)
    ensures n >= 5 ==> 4 * t.count >= t.total
    ensures n >= 33 ==> t.count == t.total
    ensures n + Missing(t) <= 33 || t.count == t.total
  {
    hide SetOk, Learn;
    if n == 1 {
      i, t := FirstSighting(s, delta);
      AnotherShrinks(t);
      assert LearnMany(s, delta, 1) == Learn(LearnMany(s, delta, 0), delta);
    } else if n == 5 {
      var t1: Tally;
      i, t1 := FirstSighting(s, delta);
      assert LearnMany(s, delta, 1) == Learn(LearnMany(s, delta, 0), delta);
      t := FourSightings(LearnMany(s, delta, 1), delta, i, t1);
      AnotherShrinks(t1);
      LearnFour(s, delta);
    } else {
      var t1: Tally;
      i, t1 := SightingsAddUp(s, delta, n - 1);
      Sighting(LearnMany(s, delta, n - 1), delta, i, t1);
      t := Another(t1);
      AnotherShrinks(t1);
    }
  }

  lemma LearnFour(s: PatternSet, delta: int)
    ensures LearnMany(s, delta, 5) == Learn(Learn(Learn(Learn(LearnMany(s, delta, 1), delta), delta), delta), delta)
  {
    assert LearnMany(s, delta, 2) == Learn(LearnMany(s, delta, 1), delta);
    assert LearnMany(s, delta, 3) == Learn(LearnMany(s, delta, 2), delta);
    assert LearnMany(s, delta, 4) == Learn(LearnMany(s, delta, 3), delta);
  }

  lemma FourSightings(s: PatternSet, delta: int, i: nat, t: Tally) returns (r: Tally)
    requires Has(s, delta, i, t) && delta != 0 && -63 <= delta <= 63
    ensures Has(Learn(Learn(Learn(Learn(s, delta), delta), delta), delta), delta, i, r) && 4 * r.count >= r.total
    ensures Missing(t) >= 4 ==> Missing(r) <= Missing(t) - 4
    ensures Missing(t) < 4 ==> r.count == r.total
  {
    hide SetOk, Learn, Another, Missing, TallyOk;
    var s1 := Learn(s, delta);
    var s2 := Learn(s1, delta);
    var s3 := Learn(s2, delta);
    var t1 := Another(t);
    var t2 := Another(t1);
    var t3 := Another(t2);
    Sighting(s, delta, i, t);
    Sighting(s1, delta, i, t1);
    Sighting(s2, delta, i, t2);
    Sighting(s3, delta, i, t3);
    r := Another(t3);
    AnotherShrinks(t);
    AnotherShrinks(t1);
    AnotherShrinks(t2);
    AnotherShrinks(t3);
    AnotherShrinks(r);
    FourMore(t);
  }

  // ---- Candidates ----

  /**
    The direct candidates are exactly the deltas that make up at least a quarter of the
    sightings and stay in the page, each with its share in hundredths.
   */
  lemma {:induction false} DirectIff(known: PatternSet, s: nat, block: int, n: nat, c: Candidate)
    requires known.total > 0 && n <= |known.ways|
    ensures c in Direct(known, s, block, n)
            <==> c.signature == s && c.depth == 1 && c.conf >= 25 && 0 <= block + c.delta <= 63
                 && exists k :: 0 <= k < n && known.ways[k].delta == c.delta && c.conf == 100 * known.ways[k].count / known.total
  {
    if n > 0 {
      DirectIff(known, s, block, n - 1, c);
    }
  }

  /** A quarter of the sightings is a share of 25 in hundredths. */
  lemma Quarter(t: Tally)
    requires TallyOk(t) && 4 * t.count >= t.total
    ensures 25 <= 100 * t.count / t.total <= 100 && (t.count == t.total ==> 100 * t.count / t.total == 100)
  {
    AtLeast(100 * t.count, 25, t.total);
    QuotientBound(100 * t.count, 100, t.total);
    if t.count == t.total {
      AtLeast(100 * t.count, 100, t.total);
    }
  }

  lemma AtLeast(y: nat, k: nat, d: nat)
    requires d > 0 && k * d <= y
    ensures k <= y / d
  {
    var q := y / d;
    assert y < (q + 1) * d;
    if q < k {
      Monotone(q + 1, k, d);
    }
  }

  /** PF_check offers a delta of a quarter of the sightings, if it stays in the page. */
  lemma OffersDelta(pt: Patterns, s: nat, block: int, maxConf: int, delta: int, i: nat, t: Tally) returns (c: Candidate)
    requires PatternsOk(pt) && 0 <= maxConf <= CAP && s < SIG_SIZE
    requires Has(pt[s % 509], delta, i, t) && 4 * t.count >= t.total && 0 <= block + delta <= 63
    ensures c in PfCheck(pt, s, block, maxConf) && c == Candidate(delta, s, 100 * t.count / t.total, 1)
  {
    c := Candidate(delta, s, 100 * t.count / t.total, 1);
    Quarter(t);
    var known := SetFor(pt, s);
    DirectIff(known, s, block, |known.ways|, c);
    assert Start(known, s, block).buffer == Direct(known, s, block, |known.ways|);
    PfCheckOk(pt, s, block, maxConf);
  }

  /**
    After at least five sightings of one delta in a row after a signature, PF_check offers that
    delta for the signature, from every block from which it stays in the page; after 33, with
    full confidence.
   */
  lemma SightingsAreOffered(pt: Patterns, s: nat, block: int, maxConf: int, delta: int, n: nat) returns (c: Candidate)
    requires PatternsOk(pt) && 0 <= maxConf <= CAP && s < SIG_SIZE && n >= 5
    requires delta != 0 && -63 <= delta <= 63 && 0 <= block + delta <= 63
    ensures PatternsOk(pt[s % 509 := LearnMany(pt[s % 509], delta, n)])
    ensures c in PfCheck(pt[s % 509 := LearnMany(pt[s % 509], delta, n)], s, block, maxConf)
    ensures c.delta == delta && c.signature == s && c.depth == 1 && (n >= 33 ==> c.conf == 100)
  {
    var i, t := SightingsAddUp(pt[s % 509], delta, n);
    SameWays(pt[s % 509], delta, n);
    var pt1 := pt[s % 509 := LearnMany(pt[s % 509], delta, n)];
    c := OffersDelta(pt1, s, block, maxConf, delta, i, t);
    Quarter(t);
  }

  lemma {:induction false} SameWays(s: PatternSet, delta: int, n: nat)
    requires SetOk(s) && delta != 0 && -63 <= delta <= 63
    ensures SetOk(LearnMany(s, delta, n)) && |LearnMany(s, delta, n).ways| == |s.ways|
  {
    if n > 0 {
      SameWays(s, delta, n - 1);
      LearnOk(LearnMany(s, delta, n - 1), delta);
    }
  }

  // ---- The path ahead ----

  /** How likely it is, in hundredths, that a path of likelihood `conf` goes on by a delta. */
  function Ahead100(conf: nat, count: nat, total: nat, maxConf: nat): nat
    requires total > 0
  {
    conf * count / total * maxConf / 100
  }

  /** Way `i` is seen most of those likely enough, and is the first of these. */
  ghost predicate MostSeen(known: PatternSet, conf: nat, maxConf: nat, i: nat)
    requires known.total > 0
  {
    && i < |known.ways| && known.ways[i].count > 0 && Ahead100(conf, known.ways[i].count, known.total, maxConf) >= 25
    && (forall k :: 0 <= k < |known.ways| && Ahead100(conf, known.ways[k].count, known.total, maxConf) >= 25
                    ==> known.ways[k].count < known.ways[i].count || (known.ways[k].count == known.ways[i].count && i <= k))
  }

  lemma {:induction false} BestIsFirst(ways: seq<Way>, conf: Way -> int, n: nat)
    requires n <= |ways|
    ensures Best(ways, conf, n).Some? ==>
              var i := Best(ways, conf, n).value;
              forall k :: 0 <= k < n && conf(ways[k]) >= PF_THRESHOLD ==>
                ways[k].count < ways[i].count || (ways[k].count == ways[i].count && i <= k)
  {
    if n > 0 {
      BestIsFirst(ways, conf, n - 1);
    }
  }

  /**
    One round of the look-ahead goes to the next signature and on by the delta seen most there,
    if one is likely enough and the buffer has room; that delta, counted from the start, is a
    candidate if it stays in the page and leads elsewhere. Otherwise the path ends.
   */
  lemma StepInNumbers(pt: Patterns, block: int, maxConf: nat, p: Path) returns (i: nat)
    requires PatternsOk(pt) && maxConf <= 99 && PathOk(p) && p.conf >= 25
    ensures var sig := NewSignature(p.signature, p.delta - p.last); var known := pt[sig % 509]; var r := Step(pt, block, maxConf, p);
            && r.signature == sig && r.last == p.delta
            && if known.total > 0 && |p.buffer| < 32 && exists k: nat :: MostSeen(known, p.conf, maxConf, k) then
                 && MostSeen(known, p.conf, maxConf, i)
                 && r.conf == Ahead100(p.conf, known.ways[i].count, known.total, maxConf)
                 && r.delta == p.delta + known.ways[i].delta
                 && r.buffer == (if 0 <= block + r.delta <= 63 && r.delta != 0
                                 then p.buffer + [Candidate(r.delta, sig, r.conf, |p.buffer| + 1)] else p.buffer)
               else r.conf == 0 && r.buffer == p.buffer
  {
    var sig := NewSignature(p.signature, p.delta - p.last);
    var known := SetFor(pt, sig);
    i := 0;
    if known.total > 0 {
      var conf := AheadConf(p.conf, known.total, maxConf);
      forall k | 0 <= k < |known.ways|
        ensures conf(known.ways[k]) == Ahead100(p.conf, known.ways[k].count, known.total, maxConf)
      {
      }
      BestIsFirst(known.ways, conf, |known.ways|);
      var b := Best(known.ways, conf, |known.ways|);
      if b.Some? {
        i := b.value;
        assert MostSeen(known, p.conf, maxConf, i);
      }
    }
  }

  lemma WholeShare(count: nat, total: nat)
    requires total > 0
    ensures Ahead100(100, count, total, 100) == 100 * count / total
  {
    TimesHundred(100 * count / total);
  }

  lemma TimesHundred(x: nat)
    ensures x * 100 / 100 == x
  {
  }

  /** The path starts with the delta seen most after the signature itself, if one is likely enough. */
  lemma StartInNumbers(known: PatternSet, s: nat, block: int) returns (i: nat)
    requires known.total > 0
    ensures var r := Start(known, s, block);
            if exists k: nat :: MostSeen(known, 100, 100, k) then
              && MostSeen(known, 100, 100, i)
              && r.conf == 100 * known.ways[i].count / known.total && r.delta == known.ways[i].delta
            else r.conf == 0
  {
    var conf := DirectConf(known.total);
    forall k | 0 <= k < |known.ways|
      ensures conf(known.ways[k]) == Ahead100(100, known.ways[k].count, known.total, 100)
    {
      WholeShare(known.ways[k].count, known.total);
    }
    BestIsFirst(known.ways, conf, |known.ways|);
    var b := Best(known.ways, conf, |known.ways|);
    i := 0;
    if b.Some? {
      i := b.value;
      assert MostSeen(known, 100, 100, i);
    }
  }

  /** `n` rounds of the look-ahead. */
  ghost function Rounds(pt: Patterns, block: int, maxConf: nat, p: Path, n: nat): (r: Path)
    requires PatternsOk(pt) && maxConf <= 99 && PathOk(p)
    ensures PathOk(r)
    decreases n
  {
    if n == 0 || p.conf < 25 then p
    else
      StepShrinks(pt, block, maxConf, p);
      Rounds(pt, block, maxConf, Step(pt, block, maxConf, p), n - 1)
  }

  /** The look-ahead goes on for as long as the path is likely enough, and no longer. */
  lemma {:induction false} FollowsToTheEnd(pt: Patterns, block: int, maxConf: nat, p: Path) returns (n: nat)
    requires PatternsOk(pt) && maxConf <= 99 && PathOk(p)
    ensures Follow(pt, block, maxConf, p) == Rounds(pt, block, maxConf, p, n) && Follow(pt, block, maxConf, p).conf < 25
    decreases p.conf
  {
    if p.conf < 25 {
      n := 0;
    } else {
      StepShrinks(pt, block, maxConf, p);
      hide Step, PathOk, PatternsOk;
      var m := FollowsToTheEnd(pt, block, maxConf, Step(pt, block, maxConf, p));
      n := m + 1;
    }
  }
}
