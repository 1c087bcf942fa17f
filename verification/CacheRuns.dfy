/**
  Whole runs of a cache: its invariant, true recency, no dirty line dropped and no waiting
  load forgotten.
 */
module CacheRuns {
  import opened Options
  import opened Powers
  import opened Recency
  import opened CacheModel
  import opened CacheSafety

  // ---- Runs ----

  datatype Step =
    | Wrote(p: Packet)
    | Read(p: Packet)
    | Prefetched(p: Packet, lowerRoom: bool)
    | Returned(i: nat, now: nat)
    | Filling(now: nat, lowerRoom: bool)
    | Invalidated(a: nat)

  ghost predicate Steps(c: Cache, c1: Cache, step: Step) {
    && |c.sets| > 0
    && match step
       case Wrote(p) => p.address != 0 && c1 == HandleWrite(c, p).cache
       case Read(p) => p.address != 0 && c1 == HandleRead(c, p).cache
       case Prefetched(p, lowerRoom) => p.address != 0 && c1 == HandlePrefetch(c, p, lowerRoom).cache
       case Returned(i, now) => i < |c.mshr| && c.mshr[i].address != 0 && c1 == ReturnData(c, i, now)
       case Filling(now, lowerRoom) => c1 == HandleFill(c, now, lowerRoom)
       case Invalidated(a) => c1 == Invalidate(c, a)
  }

  lemma StepsInv(c: Cache, c1: Cache, step: Step)
    requires Inv(c) && Steps(c, c1, step)
    ensures Inv(c1)
  {
    hide SetsOk, MshrOk, Exclusive, NextOk, HandleWrite, HandleRead, HandlePrefetch, ReturnData, HandleFill, Invalidate;
    match step
    case Wrote(p) => HandleWriteInv(c, p);
    case Read(p) => HandleReadInv(c, p);
    case Prefetched(p, lowerRoom) => HandlePrefetchInv(c, p, lowerRoom);
    case Returned(i, now) => ReturnDataInv(c, i, now);
    case Filling(now, lowerRoom) => HandleFillInv(c, now, lowerRoom);
    case Invalidated(a) => InvalidateInv(c, a);
  }

  ghost predicate StartsEmpty(c: Cache) {
    exists level: nat, latency: nat, sets: nat, ways: nat, registers: nat ::
      sets > 0 && ways > 0 && c == Initial(level, latency, sets, ways, registers)
  }

  ghost predicate IsRun(run: seq<Cache>, steps: seq<Step>) {
    && |run| == |steps| + 1 && StartsEmpty(run[0])
    && forall k :: 0 <= k < |steps| ==> Steps(run[k], run[k + 1], steps[k])
  }

  lemma InitialInv(c: Cache)
    requires StartsEmpty(c)
    ensures Inv(c)
  {
    assert Busy(c.mshr) == {};
  }

  /** In every reachable state the invariant holds. */
  lemma {:induction false} ReachableInv(run: seq<Cache>, steps: seq<Step>, k: nat)
    requires IsRun(run, steps) && k < |run|
    ensures Inv(run[k])
  {
    if k == 0 {
      InitialInv(run[0]);
    } else {
      ReachableInv(run, steps, k - 1);
      hide Inv, StartsEmpty;
      assert Steps(run[k - 1], run[k - 1 + 1], steps[k - 1]);
      StepsInv(run[k - 1], run[k], steps[k - 1]);
    }
  }

  ghost predicate HeldAt(c: Cache, s: int, w: int, a: nat) {
    0 <= s < |c.sets| && 0 <= w < |c.sets[s]| && IsHit(c.sets[s][w], a)
  }

  /** In every reachable state a line is in one way of its set or in one register, and not in both. */
  lemma LinesAreInOnePlace(run: seq<Cache>, steps: seq<Step>, k: nat, a: nat)
    requires IsRun(run, steps) && k < |run| && a != 0
    ensures var c := run[k];
            && |c.sets| > 0
            && (forall s, v, t, w :: HeldAt(c, s, v, a) && HeldAt(c, t, w, a) ==> s == t && v == w)
            && (forall i, j :: 0 <= i < |c.mshr| && 0 <= j < |c.mshr| && c.mshr[i].address == a == c.mshr[j].address ==> i == j)
            && (forall s, w :: HeldAt(c, s, w, a) ==> !Pending(c, a))
  {
    ReachableInv(run, steps, k);
    var c := run[k];
    hide IsRun, NextOk, RowOk;
    forall s, w | HeldAt(c, s, w, a)
      ensures s == SetOf(|c.sets|, a) && CheckHit(c.sets[s], a) == Some(w)
    {
      CachedOnce(c, s, w, a);
    }
  }

  // ---- Recency ----

  /** The way of set `s` that a step touches. */
  ghost function Touched(c: Cache, step: Step, s: nat): Option<nat>
    requires s < |c.sets|
  {
    match step
    case Wrote(p) => if SetOf(|c.sets|, p.address) == s && p.kind != Writeback then CheckHit(c.sets[s], p.address) else None
    case Read(p) => if SetOf(|c.sets|, p.address) == s && p.kind != Writeback then CheckHit(c.sets[s], p.address) else None
    case Prefetched(p, _) => if SetOf(|c.sets|, p.address) == s && p.kind != Writeback then CheckHit(c.sets[s], p.address) else None
    case Filling(now, lowerRoom) =>
      if CanFill(c, now, lowerRoom) && SetOf(|c.sets|, c.mshr[c.nextIndex].address) == s then Victim(c.sets[s]) else None
    case Returned(_, _) => None
    case Invalidated(_) => None
  }

  /** Hits, other than of writebacks from above, and fills touch their way; nothing else changes a rank. */
  lemma StepTouches(c: Cache, c1: Cache, step: Step, s: nat)
    requires Inv(c) && Steps(c, c1, step) && s < |c.sets|
    ensures |c1.sets| == |c.sets|
    ensures match Touched(c, step, s)
            case Some(w) => w < |c.sets[s]| && Ranks(c1.sets[s]) == Touch(Ranks(c.sets[s]), w)
            case None => Ranks(c1.sets[s]) == Ranks(c.sets[s])
  {
    hide SetsOk, MshrOk, Exclusive, NextOk;
    match Touched(c, step, s)
    case Some(w) => TouchRanks(c.sets[s], w);
    case None =>
  }

  /** The ways of set `s` touched in the first `k` steps. */
  ghost function History(run: seq<Cache>, steps: seq<Step>, s: nat, k: nat): seq<nat>
    requires k <= |steps| < |run|
  {
    if k == 0 || s >= |run[k - 1].sets| then []
    else
      var earlier := History(run, steps, s, k - 1);
      match Touched(run[k - 1], steps[k - 1], s)
      case Some(w) => earlier + [w]
      case None => earlier
  }

  lemma StepAt(run: seq<Cache>, steps: seq<Step>, k: nat)
    requires IsRun(run, steps) && k < |run| - 1
    ensures |run| == |steps| + 1 && Inv(run[k]) && Steps(run[k], run[k + 1], steps[k])
  {
    ReachableInv(run, steps, k);
  }

  /** One more touch, or none, is one more entry of the history, or none. */
  lemma PlayOn(start: seq<nat>, h: seq<nat>, touched: Option<nat>, ranks: seq<nat>, ranks1: seq<nat>)
    requires (forall m :: 0 <= m < |h| ==> h[m] < |start|) && ranks == Play(start, h)
    requires match touched
             case Some(w) => w < |ranks| && ranks1 == Touch(ranks, w)
             case None => ranks1 == ranks
    ensures var h1 := match touched case Some(w) => h + [w] case None => h;
            (forall m :: 0 <= m < |h1| ==> h1[m] < |start|) && ranks1 == Play(start, h1)
  {
    match touched
    case Some(w) => assert (h + [w])[..|h|] == h;
    case None =>
  }

  /** The ranks of a set are those of its history. */
  lemma {:induction false} RanksFollowHistory(run: seq<Cache>, steps: seq<Step>, s: nat, k: nat)
    requires IsRun(run, steps) && k < |run| == |steps| + 1 && s < |run[0].sets|
    ensures s < |run[k].sets|
    ensures var h := History(run, steps, s, k); var start := Ranks(run[0].sets[s]);
            && (forall m :: 0 <= m < |h| ==> h[m] < |start|)
            && Ranks(run[k].sets[s]) == Play(start, h)
  {
    hide IsRun, Inv, Steps, Touched, Ranks, Touch;
    if k > 0 {
      hide Play;
      RanksFollowHistory(run, steps, s, k - 1);
      StepAt(run, steps, k - 1);
      StepTouches(run[k - 1], run[k], steps[k - 1], s);
      PlayOn(Ranks(run[0].sets[s]), History(run, steps, s, k - 1), Touched(run[k - 1], steps[k - 1], s),
             Ranks(run[k - 1].sets[s]), Ranks(run[k].sets[s]));
    }
  }

  /**
    Over a whole run the lower rank of a set is the more recently touched way. So the way
    that a full set gives up is the one untouched for longest.
   */
  lemma RanksAreTrueRecency(run: seq<Cache>, steps: seq<Step>, s: nat, k: nat, v: nat, w: nat)
    requires IsRun(run, steps) && k < |run| == |steps| + 1 && s < |run[0].sets|
    requires v < |run[0].sets[s]| && w < |run[0].sets[s]|
    ensures s < |run[k].sets| && |run[k].sets[s]| == |run[0].sets[s]|
    ensures run[k].sets[s][v].lru < run[k].sets[s][w].lru
            <==> MoreRecent(Ranks(run[0].sets[s]), History(run, steps, s, k), v, w)
  {
    ReachableInv(run, steps, 0);
    assert RowOk(run[0].sets[s], s, |run[0].sets|);
    hide IsRun, Inv;
    RanksFollowHistory(run, steps, s, k);
    RanksAreRecency(Ranks(run[0].sets[s]), History(run, steps, s, k));
    assert |Ranks(run[k].sets[s])| == |run[k].sets[s]|;
    assert Ranks(run[k].sets[s])[v] == run[k].sets[s][v].lru && Ranks(run[k].sets[s])[w] == run[k].sets[s][w].lru;
  }

  // ---- Dirty lines ----

  ghost predicate Dirty(c: Cache, s: int, w: int, a: nat) {
    0 <= s < |c.sets| && 0 <= w < |c.sets[s]| && c.sets[s][w].dirty && c.sets[s][w].tag == a
  }

  /** What a step sends to the write queue below. */
  ghost function Evicted(c: Cache, step: Step): Option<nat>
    requires |c.sets| > 0
  {
    match step
    case Filling(now, lowerRoom) => WrittenBack(c, now, lowerRoom)
    case _ => None
  }

  /** A dirty line stays, in its way, until a fill writes it back; not even invalidation drops it. */
  lemma DirtyUntilWrittenBack(c: Cache, c1: Cache, step: Step, s: int, w: int, a: nat)
    requires Inv(c) && Steps(c, c1, step) && Dirty(c, s, w, a)
    ensures Dirty(c1, s, w, a) || Evicted(c, step) == Some(a)
  {
    hide SetsOk, MshrOk, Exclusive, NextOk;
  }
}
