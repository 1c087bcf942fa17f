/**
  The signature-path prefetcher (kpcp.l2c_pref, kpcp.h): from the signature of a page it
  follows the most likely deltas, as long as the path is likely enough.
 */
module SignaturePath {
  import opened Options
  import opened PatternTables
  import opened Powers

  /** L2_PT_PRIME, PF_THRESHOLD, L2C_MSHR_SIZE, and the cap on MAX_CONF */
  const SETS: nat := 509
  const PF_THRESHOLD: int := 25
  const BUFFER: nat := 32
  const CAP: int := 99

  /** Signatures have SIG_LENGTH bits. */
  const SIG_SIZE: nat := 4096

  /** A delta as an unsigned number: negative ones come after the 64 blocks of a page. */
  function SigDelta(delta: int): nat { if delta < 0 then 64 - delta else delta }

  /** get_new_signature, for deltas whose number fits a signature: a step never leads to the empty one. */
  function NewSignature(sig: nat, delta: int): (r: nat)
    requires sig < SIG_SIZE && SigDelta(delta) < SIG_SIZE
    ensures r < SIG_SIZE && (r == 0 ==> delta == 0 && sig == 0)
  {
    if delta == 0 then sig
    else
      var s := Shifted(sig, delta);
      if s == 0 then SigDelta(delta) else s
  }

  function Shifted(sig: nat, delta: int): (r: nat)
    requires sig < SIG_SIZE && SigDelta(delta) < SIG_SIZE
    ensures r < SIG_SIZE
  {
    assert Pow2(12) == SIG_SIZE;
    XorBound(sig * 8 % SIG_SIZE, SigDelta(delta), 12);
    Xor(sig * 8 % SIG_SIZE, SigDelta(delta))
  }

  /** Different steps from one signature lead to different signatures. */
  lemma SignaturesDistinguishDeltas(sig: nat, delta: int, other: int)
    requires sig < SIG_SIZE && -63 <= delta <= 63 && -63 <= other <= 63
    requires delta != 0 && other != 0 && delta != other
    ensures NewSignature(sig, delta) != NewSignature(sig, other)
  {
    var a := sig * 8 % SIG_SIZE;
    var d, e := SigDelta(delta), SigDelta(other);
    if Xor(a, d) == Xor(a, e) {
      XorInjective(a, d, e);
    }
    XorSelf(a);
    XorZero(a);
    if Xor(a, d) == 0 {
      XorInjective(a, d, a);
      if Xor(a, e) == d {
        XorInjective(a, e, 0);
      }
    }
    if Xor(a, e) == 0 {
      XorInjective(a, e, a);
      if Xor(a, d) == e {
        XorInjective(a, d, 0);
      }
    }
  }

  type Patterns = seq<PatternSet>

  ghost predicate PatternsOk(pt: Patterns) {
    |pt| == SETS && forall i :: 0 <= i < SETS ==> SetOk(pt[i]) && |pt[i].ways| == 4
  }

  function SetFor(pt: Patterns, s: nat): PatternSet
    requires |pt| == SETS
  {
    pt[s % SETS]
  }

  /** check_same_page */
  predicate SamePage(block: int, delta: int) { 0 <= block + delta <= 63 }

  // ---- The prefetch buffer ----

  datatype Candidate = Candidate(delta: int, signature: nat, conf: int, depth: nat)

  /** Where the search stands: pf_buffer, curr_conf, curr_delta, and the delta before the last step. */
  datatype Search = Search(buffer: seq<Candidate>, conf: int, delta: int)

  function Confidence(w: Way, total: nat): int
    requires total > 0
  {
    100 * w.count / total
  }

  /** The ways below `n` that are likely enough and stay in the page go to the buffer. */
  function Direct(known: PatternSet, s: nat, block: int, n: nat): (r: seq<Candidate>)
    requires known.total > 0 && n <= |known.ways|
    ensures |r| <= n
  {
    if n == 0 then []
    else
      var earlier := Direct(known, s, block, n - 1);
      var w := known.ways[n - 1];
      if Confidence(w, known.total) >= PF_THRESHOLD && SamePage(block, w.delta)
      then earlier + [Candidate(w.delta, s, Confidence(w, known.total), 1)]
      else earlier
  }

  /** The way with the highest counter, the first of these, among those below `n` that are likely enough. */
  function Best(ways: seq<Way>, conf: Way -> int, n: nat): (r: Option<nat>)
    requires n <= |ways|
    ensures r.Some? ==> r.value < n && ways[r.value].count > 0 && conf(ways[r.value]) >= PF_THRESHOLD
    ensures forall i :: 0 <= i < n && conf(ways[i]) >= PF_THRESHOLD && ways[i].count > 0 ==>
                          r.Some? && ways[i].count <= ways[r.value].count
  {
    if n == 0 then None
    else
      var earlier := Best(ways, conf, n - 1);
      var w := ways[n - 1];
      if conf(w) >= PF_THRESHOLD && w.count > (if earlier.Some? then ways[earlier.value].count else 0)
      then Some(n - 1) else earlier
  }

  function DirectConf(total: nat): Way -> int
    requires total > 0
  {
    w => Confidence(w, total)
  }

  /** The first part of PF_check: the deltas seen after the signature itself. */
  function Start(known: PatternSet, s: nat, block: int): Search {
    if known.total == 0 then Search([], 0, 0)
    else
      var buffer := Direct(known, s, block, |known.ways|);
      match Best(known.ways, DirectConf(known.total), |known.ways|)
      case Some(i) => Search(buffer, Confidence(known.ways[i], known.total), known.ways[i].delta)
      case None => Search(buffer, 0, 0)
  }

  /** The confidence of going one step further along a path of confidence `conf`. */
  function PathConfidence(conf: int, w: Way, total: nat, maxConf: int): int
    requires total > 0 && conf >= 0 && maxConf >= 0
  {
    conf * w.count / total * maxConf / 100
  }

  /** A way counts at most as often as the signature was seen, so confidence shrinks along a path. */
  lemma ConfidenceShrinks(conf: int, w: Way, total: nat, maxConf: int)
    requires total > 0 && w.count <= total && conf > 0 && 0 <= maxConf <= CAP
    ensures 0 <= PathConfidence(conf, w, total, maxConf) < conf
    ensures 100 * PathConfidence(conf, w, total, maxConf) <= conf * maxConf
  {
    ProductBound(conf, w.count, total);
    var x := conf * w.count / total;
    Capped(x, conf, maxConf);
  }

  lemma Capped(x: int, conf: int, maxConf: int)
    requires 0 <= x <= conf && conf > 0 && 0 <= maxConf <= CAP
    ensures 0 <= x * maxConf / 100 < conf && 100 * (x * maxConf / 100) <= conf * maxConf
  {
    Monotone(x, conf, maxConf);
    Monotone(0, x, maxConf);
    Monotone(maxConf, CAP, conf);
    Hundredth(x * maxConf, conf);
  }

  lemma Hundredth(y: int, conf: int)
    requires 0 <= y <= CAP * conf && conf > 0
    ensures 0 <= y / 100 < conf && 100 * (y / 100) <= y
  {
  }

  lemma Monotone(x: int, y: int, k: int)
    requires x <= y && k >= 0
    ensures x * k <= y * k && k * x <= k * y
  {
  }

  lemma ProductBound(conf: int, count: nat, total: nat)
    requires total > 0 && count <= total && conf >= 0
    ensures 0 <= conf * count / total <= conf
  {
    Monotone(count, total, conf);
    Monotone(0, count, conf);
    QuotientBound(conf * count, conf, total);
  }

  lemma QuotientBound(y: int, conf: int, total: nat)
    requires total > 0 && 0 <= y <= conf * total
    ensures 0 <= y / total <= conf
  {
    var q := y / total;
    assert q * total <= y;
    assert q > conf ==> q * total >= (conf + 1) * total by {
      if q > conf {
        Monotone(conf + 1, q, total);
      }
    }
  }

  // ---- The path ahead ----

  /** la_signature, curr_conf, curr_delta, last_delta and pf_buffer while looking ahead. */
  datatype Path = Path(signature: nat, conf: int, delta: int, last: int, buffer: seq<Candidate>)

  function AheadConf(conf: int, total: nat, maxConf: int): Way -> int
    requires total > 0 && conf >= 0 && maxConf >= 0
  {
    w => PathConfidence(conf, w, total, maxConf)
  }

  /** A path that goes on has come here by the delta of one way. */
  ghost predicate PathOk(p: Path) { p.signature < SIG_SIZE && (p.conf >= PF_THRESHOLD ==> -63 <= p.delta - p.last <= 63) }

  /** Nothing ahead is likely enough, or the buffer is full. */
  function Over(p: Path, sig: nat): Path { Path(sig, 0, 0, p.delta, p.buffer) }

  /** The most likely way ahead, and a candidate if it stays in the page and is not where we started. */
  function Ahead(p: Path, sig: nat, w: Way, conf: int, block: int): Path {
    var delta := p.delta + w.delta;
    Path(sig, conf, delta, p.delta,
         if SamePage(block, delta) && delta != 0 then p.buffer + [Candidate(delta, sig, conf, |p.buffer| + 1)] else p.buffer)
  }

  /** One round of the look-ahead loop of PF_check. */
  function Step(pt: Patterns, block: int, maxConf: int, p: Path): (r: Path)
    requires |pt| == SETS && 0 <= maxConf && p.conf >= PF_THRESHOLD && p.signature < SIG_SIZE && SigDelta(p.delta - p.last) < SIG_SIZE
  {
    var sig := NewSignature(p.signature, p.delta - p.last);
    var known := SetFor(pt, sig);
    if known.total == 0 then Over(p, sig)
    else
      match Best(known.ways, AheadConf(p.conf, known.total, maxConf), |known.ways|)
      case None => Over(p, sig)
      case Some(i) =>
        if |p.buffer| < BUFFER
        then Ahead(p, sig, known.ways[i], PathConfidence(p.conf, known.ways[i], known.total, maxConf), block)
        else Over(p, sig)
  }

  /** A round shrinks the confidence of the path, so the loop ends. */
  lemma StepShrinks(pt: Patterns, block: int, maxConf: int, p: Path)
    requires PatternsOk(pt) && 0 <= maxConf <= CAP && PathOk(p) && p.conf >= PF_THRESHOLD
    ensures var r := Step(pt, block, maxConf, p);
            0 <= r.conf < p.conf && PathOk(r) && p.buffer <= r.buffer && |r.buffer| <= |p.buffer| + 1
            && (|r.buffer| > |p.buffer| ==>
                  |p.buffer| < BUFFER && Likely(r.buffer[|p.buffer|], block) && r.buffer[|p.buffer|].conf == r.conf)
  {
    var sig := NewSignature(p.signature, p.delta - p.last);
    var known := SetFor(pt, sig);
    assert SetOk(known);
    if known.total > 0 {
      var b := Best(known.ways, AheadConf(p.conf, known.total, maxConf), |known.ways|);
      if b.Some? {
        WayBound(known, b.value);
        ConfidenceShrinks(p.conf, known.ways[b.value], known.total, maxConf);
      }
    }
  }

  /** A candidate is a different block of the trigger's page, and likely enough. */
  predicate Likely(c: Candidate, block: int) {
    c.delta != 0 && SamePage(block, c.delta) && c.conf >= PF_THRESHOLD && c.signature < SIG_SIZE
  }

  /** The look-ahead loop. */
  ghost function Follow(pt: Patterns, block: int, maxConf: int, p: Path): Path
    requires PatternsOk(pt) && 0 <= maxConf <= CAP && PathOk(p)
    decreases p.conf
  {
    if p.conf >= PF_THRESHOLD then
      StepShrinks(pt, block, maxConf, p);
      Follow(pt, block, maxConf, Step(pt, block, maxConf, p))
    else
      p
  }

  /** From place `n` on, the candidates get less and less likely. */
  ghost predicate Fading(buffer: seq<Candidate>, n: int) {
    forall x, y :: n <= x < y < |buffer| && 0 <= x ==> buffer[x].conf > buffer[y].conf
  }

  /** Looking ahead fits the buffer, stays in the page, and finds less and less likely candidates. */
  lemma {:induction false} FollowOk(pt: Patterns, block: int, maxConf: int, p: Path, n: nat)
    requires PatternsOk(pt) && 0 <= maxConf <= CAP && PathOk(p)
    requires n <= |p.buffer| <= BUFFER && (forall x :: 0 <= x < |p.buffer| ==> Likely(p.buffer[x], block))
    requires Fading(p.buffer, n) && forall x :: n <= x < |p.buffer| ==> p.buffer[x].conf >= p.conf
    ensures var r := Follow(pt, block, maxConf, p).buffer;
            && p.buffer <= r && |r| <= BUFFER && Fading(r, n)
            && (forall x :: 0 <= x < |r| ==> Likely(r[x], block)) && forall x :: |p.buffer| <= x < |r| ==> r[x].conf < p.conf
    decreases p.conf
  {
    if p.conf >= PF_THRESHOLD {
      StepShrinks(pt, block, maxConf, p);
      var q := Step(pt, block, maxConf, p);
      hide Step, PatternsOk;
      assert |q.buffer| > |p.buffer| ==> q.buffer == p.buffer + [q.buffer[|p.buffer|]];
      FollowOk(pt, block, maxConf, q, n);
    }
  }

  /** The deltas seen after the signature itself: at most one candidate a way. */
  lemma {:induction false} DirectOk(known: PatternSet, s: nat, block: int, n: nat)
    requires SetOk(known) && known.total > 0 && n <= |known.ways| && s < SIG_SIZE
    ensures forall x :: 0 <= x < |Direct(known, s, block, n)| ==> Likely(Direct(known, s, block, n)[x], block)
  {
    if n > 0 {
      DirectOk(known, s, block, n - 1);
    }
  }

  /** PF_check: the candidates for a signature, seen from a block of a page. */
  ghost function PfCheck(pt: Patterns, s: nat, block: int, maxConf: int): seq<Candidate>
    requires PatternsOk(pt) && 0 <= maxConf <= CAP && s < SIG_SIZE
  {
    var start := Start(SetFor(pt, s), s, block);
    StartOk(pt, s, block);
    if start.conf >= PF_THRESHOLD then Follow(pt, block, maxConf, Path(s, start.conf, start.delta, 0, start.buffer)).buffer
    else start.buffer
  }

  lemma StartOk(pt: Patterns, s: nat, block: int)
    requires PatternsOk(pt) && s < SIG_SIZE
    ensures var start := Start(SetFor(pt, s), s, block);
            && -63 <= start.delta <= 63 && 0 <= start.conf <= 100 && |start.buffer| <= 4
            && forall x :: 0 <= x < |start.buffer| ==> Likely(start.buffer[x], block)
  {
    var known := SetFor(pt, s);
    assert SetOk(known);
    if known.total > 0 {
      DirectOk(known, s, block, |known.ways|);
      var b := Best(known.ways, DirectConf(known.total), |known.ways|);
      if b.Some? {
        WayBound(known, b.value);
        ProductBound(100, known.ways[b.value].count, known.total);
      }
    }
  }

  /**
    The look-ahead ends with at most 32 candidates, all of them other blocks of the page, and
    after the direct ones they get less and less likely.
   */
  lemma PfCheckOk(pt: Patterns, s: nat, block: int, maxConf: int)
    requires PatternsOk(pt) && 0 <= maxConf <= CAP && s < SIG_SIZE
    ensures var r := PfCheck(pt, s, block, maxConf); var direct := Start(SetFor(pt, s), s, block).buffer;
            && |r| <= BUFFER && direct <= r && |direct| <= 4 && Fading(r, |direct|)
            && (forall x :: 0 <= x < |r| ==> Likely(r[x], block)) && forall x :: |direct| <= x < |r| ==> r[x].conf < 100
  {
    StartOk(pt, s, block);
    var start := Start(SetFor(pt, s), s, block);
    hide Start;
    if start.conf >= PF_THRESHOLD {
      FollowOk(pt, block, maxConf, Path(s, start.conf, start.delta, 0, start.buffer), |start.buffer|);
    }
  }

  /** Among less and less likely candidates few are very likely. */
  lemma {:induction false} FadingBound(buffer: seq<Candidate>, n: nat, x: nat)
    requires Fading(buffer, n) && n <= x < |buffer| && buffer[n].conf < 100
    ensures buffer[x].conf < 100 - (x - n)
  {
    if n < x {
      FadingBound(buffer, n, x - 1);
    }
  }

  /**
    A candidate likely enough for the L2 is among the first 29 of the buffer, so its depth
    indexes the 32 depth counters.
   */
  lemma DepthFits(pt: Patterns, s: nat, block: int, maxConf: int, x: nat)
    requires PatternsOk(pt) && 0 <= maxConf <= CAP && s < SIG_SIZE
    requires x < |PfCheck(pt, s, block, maxConf)| && PfCheck(pt, s, block, maxConf)[x].conf >= 75
    ensures x < 29
  {
    PfCheckOk(pt, s, block, maxConf);
    var n := |Start(SetFor(pt, s), s, block).buffer|;
    if n <= x {
      FadingBound(PfCheck(pt, s, block, maxConf), n, x);
    }
  }

  /** A candidate's address is in the page of the trigger, so prefetch_line accepts it while its queue has room. */
  lemma CandidateInPage(addr: nat, delta: int)
    requires SamePage(addr / 64 % 64, delta)
    ensures addr / 64 + delta >= 0 && (addr / 64 + delta) * 64 / 4096 == addr / 4096
    ensures (addr / 64 + delta) % 64 == addr / 64 % 64 + delta
  {
    var line := addr / 64;
    assert line == 64 * (line / 64) + line % 64 && line / 64 == addr / 4096;
    var line1 := line + delta;
    assert line1 == 64 * (line / 64) + (line % 64 + delta);
    assert line1 / 64 == line / 64;
    assert line1 * 64 / 4096 == line1 / 64;
  }
}
