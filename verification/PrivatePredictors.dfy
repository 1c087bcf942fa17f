/**
  VIP (branch/bp_candidates/vip.cc): branches that are often mispredicted get a private
  perceptron, and a score decides whether its prediction or the default one is used.
 */
module PrivatePredictors {
  import opened Options
  import opened Counting
  import opened RecencyLists
  import opened MissCaches
  import opened Perceptrons

  const MIN_SCORE: int := -2
  const MAX_SCORE: int := 1

  /** The parts of a VIP that never change: the private prototype, GHRLen and the snapshot interval. */
  datatype Setup = Setup(g: Config, len: nat, interval: nat)

  /**
    `saved` is the snapshot of the miss cache: place i of it has the pc of private predictor
    i. The default predictor is outside; only its last prediction is kept.
   */
  datatype Vip = Vip(segments: Segments, saved: seq<nat>, privates: seq<State>, scores: seq<int>,
                     lastDefault: bool, lastPrivate: bool, count: nat, history: nat)

  ghost predicate Shape(v: Vip, u: Setup) {
    && ConfigOk(u.g) && |v.saved| == |v.privates| == |v.scores| && |v.saved| > 0 && SegmentsOk(v.segments, |v.saved|)
    && v.history < HISTORY_SIZE
    && forall i :: 0 <= i < |v.scores| ==> MIN_SCORE <= v.scores[i] <= MAX_SCORE
  }

  /** Between a branch and the next every private predictor is settled. */
  ghost predicate VipOk(v: Vip, u: Setup) { Shape(v, u) && forall i :: 0 <= i < |v.privates| ==> Settled(v.privates[i], u.g) }

  /** get_idx: the private predictor of a pc. */
  function IndexIn(saved: seq<nat>, pc: nat): (r: Option<nat>)
    ensures IsIndex(saved, pc, r)
  {
    if saved == [] then None
    else if saved[0] == pc then Some(0)
    else match IndexIn(saved[1..], pc)
      case None => None
      case Some(i) =>
        assert forall k :: 0 < k < |saved| ==> saved[k] == saved[1..][k - 1];
        Some(i + 1)
  }

  lemma IndexIsUnique(saved: seq<nat>, pc: nat, r: Option<nat>)
    requires IsIndex(saved, pc, r)
    ensures r == IndexIn(saved, pc)
  {
  }

  /** The history that private predictor `i` predicts from. */
  function PrivateHistory(v: Vip, u: Setup, i: nat): nat
    requires i < |v.privates|
  {
    Extended(v.privates[i].spec, v.history, u.len)
  }

  /** predict, given the default prediction `d`. */
  function Predicted(v: Vip, u: Setup, pc: nat, d: bool): Vip
    requires |v.privates| == |v.saved| && forall i :: 0 <= i < |v.privates| ==> StateOk(v.privates[i], u.g)
  {
    match IndexIn(v.saved, pc)
    case None => v.(lastDefault := d)
    case Some(i) =>
      v.(privates := v.privates[i := Predict(v.privates[i], u.g, pc, PrivateHistory(v, u, i))],
         lastPrivate := Answer(v.privates[i], u.g, pc, PrivateHistory(v, u, i)), lastDefault := d)
  }

  /** What predict answers: the private prediction while its score is negative. */
  function Chosen(v: Vip, u: Setup, pc: nat, d: bool): bool
    requires |v.privates| == |v.saved| == |v.scores| && forall i :: 0 <= i < |v.privates| ==> StateOk(v.privates[i], u.g)
  {
    match IndexIn(v.saved, pc)
    case None => d
    case Some(i) => if v.scores[i] < 0 then Answer(v.privates[i], u.g, pc, PrivateHistory(v, u, i)) else d
  }

  /** updateScoreBoard */
  function Scored(score: int, d: bool, p: bool, taken: bool): int {
    if d == p then score
    else if d == taken && score < MAX_SCORE then score + 1
    else if score > MIN_SCORE then score - 1
    else score
  }

  /** update; `snapshot` is what the miss cache would save now. */
  function Updated(v: Vip, u: Setup, pc: nat, taken: bool, snapshot: seq<nat>): Vip
    requires |v.privates| == |v.saved| == |v.scores| && forall i :: 0 <= i < |v.privates| ==> StateOk(v.privates[i], u.g)
  {
    var segments := if taken != v.lastDefault then Access(v.segments, pc, |v.saved|) else v.segments;
    var privates := match IndexIn(v.saved, pc)
                    case None => v.privates
                    case Some(i) => v.privates[i := Update(v.privates[i], u.g, pc, taken)];
    var scores := match IndexIn(v.saved, pc)
                  case None => v.scores
                  case Some(i) => v.scores[i := Scored(v.scores[i], v.lastDefault, v.lastPrivate, taken)];
    var full := v.count + 1 == u.interval;
    Vip(segments, if full then snapshot else v.saved, privates, scores, v.lastDefault, v.lastPrivate,
        if full then 0 else v.count + 1, Push(v.history, taken))
  }

  // ---- A branch: prediction and outcome ----

  /** Scores stay in their range; a right default prediction raises one, except at the top, where it lowers it. */
  lemma ScoreMeaning(score: int, d: bool, p: bool, taken: bool)
    requires MIN_SCORE <= score <= MAX_SCORE
    ensures MIN_SCORE <= Scored(score, d, p, taken) <= MAX_SCORE
    ensures -1 <= Scored(score, d, p, taken) - score <= 1
    ensures Scored(score, d, p, taken) > score <==> d != p && d == taken && score < MAX_SCORE
    ensures Scored(score, d, p, taken) < score <==> d != p && score > MIN_SCORE && (p == taken || score == MAX_SCORE)
  {
  }

  /** A prediction leaves the snapshot alone, so that its outcome reaches the same private predictor. */
  lemma PredictedOk(v: Vip, u: Setup, pc: nat, d: bool)
    requires VipOk(v, u)
    ensures var w := Predicted(v, u, pc, d);
            && w.saved == v.saved && |w.privates| == |v.privates| && w.scores == v.scores
            && Shape(w, u) && forall i :: 0 <= i < |w.privates| ==> StateOk(w.privates[i], u.g)
  {
    match IndexIn(v.saved, pc)
    case None =>
    case Some(i) => RoundSettles(v.privates[i], u.g, pc, PrivateHistory(v, u, i), true);
  }

  /**
    The private predictor that is asked about a branch is the one that learns its outcome,
    though the miss cache is accessed in between: it makes one full round, the others none,
    and all are settled again.
   */
  lemma BranchReachesItsPredictor(v: Vip, u: Setup, pc: nat, d: bool, taken: bool, snapshot: seq<nat>)
    requires VipOk(v, u) && pc != 0 && |snapshot| == |v.saved|
    ensures |Predicted(v, u, pc, d).privates| == |Predicted(v, u, pc, d).saved| == |Predicted(v, u, pc, d).scores|
    ensures forall i :: 0 <= i < |v.privates| ==> StateOk(Predicted(v, u, pc, d).privates[i], u.g)
    ensures var w := Updated(Predicted(v, u, pc, d), u, pc, taken, snapshot);
            && VipOk(w, u) && |w.saved| == |v.saved|
            && forall i :: 0 <= i < |v.privates| ==>
                 w.privates[i] == if IndexIn(v.saved, pc) == Some(i)
                                  then Round(v.privates[i], u.g, pc, PrivateHistory(v, u, i), taken) else v.privates[i]
  {
    PredictedOk(v, u, pc, d);
    var w0 := Predicted(v, u, pc, d);
    UpdatedShape(w0, u, pc, taken, snapshot);
    match IndexIn(v.saved, pc)
    case None =>
    case Some(i) =>
      RoundSettles(v.privates[i], u.g, pc, PrivateHistory(v, u, i), taken);
      hide Settled, Predict, Update, Shape, StateOk;
  }

  lemma UpdatedShape(v: Vip, u: Setup, pc: nat, taken: bool, snapshot: seq<nat>)
    requires Shape(v, u) && pc != 0 && |snapshot| == |v.saved| && forall i :: 0 <= i < |v.privates| ==> StateOk(v.privates[i], u.g)
    ensures Shape(Updated(v, u, pc, taken, snapshot), u) && |Updated(v, u, pc, taken, snapshot).saved| == |v.saved|
  {
    if Cached(v.segments, pc) {
      HitKeepsAll(v.segments, pc, |v.saved|);
    } else {
      MissEvictsOne(v.segments, pc, |v.saved|);
    }
    hide Access, SegmentsOk, StateOk, Update;
    match IndexIn(v.saved, pc)
    case None =>
    case Some(i) => ScoreMeaning(v.scores[i], v.lastDefault, v.lastPrivate, taken);
  }

  datatype Branch = Branch(pc: nat, d: bool, taken: bool, snapshot: seq<nat>)

  /** A run of branches, each predicted and then resolved. */
  ghost predicate IsRun(run: seq<Vip>, branches: seq<Branch>, u: Setup) {
    && |run| == |branches| + 1 && VipOk(run[0], u)
    && forall k :: 0 <= k < |branches| ==>
         && branches[k].pc != 0 && |branches[k].snapshot| == |run[0].saved|
         && (VipOk(run[k], u) ==> Resolves(run[k], run[k + 1], branches[k], u))
  }

  ghost predicate Resolves(v: Vip, w: Vip, b: Branch, u: Setup)
    requires VipOk(v, u)
  {
    PredictedOk(v, u, b.pc, b.d);
    w == Updated(Predicted(v, u, b.pc, b.d), u, b.pc, b.taken, b.snapshot)
  }

  /** Over any run every score stays in range, and no private predictor ever waits or disagrees with itself. */
  lemma {:induction false} RunIsOk(run: seq<Vip>, branches: seq<Branch>, u: Setup, k: nat)
    requires IsRun(run, branches, u) && k < |run|
    ensures VipOk(run[k], u) && |run[k].saved| == |run[0].saved|
  {
    if k > 0 {
      RunIsOk(run, branches, u, k - 1);
      var b := branches[k - 1];
      assert Resolves(run[k - 1], run[k - 1 + 1], b, u);
      BranchReachesItsPredictor(run[k - 1], u, b.pc, b.d, b.taken, b.snapshot);
    }
  }

  lemma InitialOk(u: Setup, n: nat)
    requires ConfigOk(u.g) && n > 0
    ensures VipOk(Start(u, n), u)
  {
    InitialSettled(u.g);
  }

  function Start(u: Setup, n: nat): Vip {
    Vip(Segments([], []), seq(n, _ => 0), seq(n, _ => Initial(u.g)), seq(n, _ => 0), false, false, 0, 0)
  }

  // ---- In place ----

  class VipPredictor {
    const u: Setup
    const cache: SegmentedMissCache
    const privates: array<State>
    const scoreboard: array<int>
    var lastDefault: bool
    var lastPrivate: bool
    var count: nat
    var history: nat

    ghost predicate Parts()
      reads this, cache, cache.guarded, cache.guarded.entries, cache.probation, cache.probation.entries
    {
      cache.Valid() && privates.Length == scoreboard.Length == cache.saved.Length && scoreboard as object != cache.saved
    }

    ghost function Value(): Vip
      reads this, cache, cache.guarded, cache.probation, cache.saved, privates, scoreboard
    {
      Vip(cache.Value(), cache.saved[..], privates[..], scoreboard[..], lastDefault, lastPrivate, count, history)
    }

    constructor (u: Setup, n: nat)
      requires ConfigOk(u.g) && n > 0
      ensures Parts() && this.u == u && Value() == Start(u, n) && VipOk(Value(), u)
    {
      this.u := u;
      var c := new SegmentedMissCache(n);
      cache := c;
      privates := new State[n](_ => Initial(u.g));
      scoreboard := new int[n](_ => 0);
      lastDefault, lastPrivate, count, history := false, false, 0, 0;
      new;
      assert Value() == Start(u, n);
      InitialOk(u, n);
    }

    /** predict, with the default prediction `d`. */
    method Predict(pc: nat, d: bool) returns (taken: bool)
      requires Parts() && VipOk(Value(), u)
      modifies privates, this`lastDefault, this`lastPrivate
      ensures Parts() && old(VipOk(Value(), u))
      ensures Value() == Predicted(old(Value()), u, pc, d) && taken == Chosen(old(Value()), u, pc, d)
    {
      var idx := cache.GetIdx(pc);
      IndexIsUnique(cache.saved[..], pc, idx);
      if idx.None? {
        taken := d;
      } else {
        var i := idx.value;
        var h := Extended(privates[i].spec, history, u.len);
        lastPrivate := Answer(privates[i], u.g, pc, h);
        privates[i] := Perceptrons.Predict(privates[i], u.g, pc, h);
        taken := if scoreboard[i] < 0 then lastPrivate else d;
      }
      lastDefault := d;
    }

    /** The score of private predictor `i`. */
    method UpdateScoreBoard(i: nat, d: bool, p: bool, taken: bool)
      requires i < scoreboard.Length
      modifies scoreboard
      ensures scoreboard[..] == old(scoreboard[..])[i := Scored(old(scoreboard[i]), d, p, taken)]
    {
      if d == p {
        return;
      }
      if d == taken && scoreboard[i] < MAX_SCORE {
        scoreboard[i] := scoreboard[i] + 1;
      } else if scoreboard[i] > MIN_SCORE {
        scoreboard[i] := scoreboard[i] - 1;
      }
    }

    /** A misprediction of the default is noted in the miss cache. */
    method NoteMiss(pc: nat, taken: bool)
      requires Parts() && pc != 0
      modifies cache.guarded, cache.guarded.entries, cache.probation, cache.probation.entries
      ensures Parts()
      ensures cache.Value() == if taken != lastDefault then Access(old(cache.Value()), pc, cache.saved.Length) else old(cache.Value())
    {
      if taken != lastDefault {
        var ignored := cache.Access(pc);
      }
    }

    /** The private predictor of a branch, if it has one, learns the outcome, and so does its score. */
    method Teach(pc: nat, taken: bool)
      requires privates.Length == scoreboard.Length == cache.saved.Length && scoreboard as object != cache.saved
      requires forall i :: 0 <= i < privates.Length ==> StateOk(privates[i], u.g)
      modifies privates, scoreboard
      ensures cache.saved[..] == old(cache.saved[..]) && old(forall i :: 0 <= i < privates.Length ==> StateOk(privates[i], u.g))
      ensures match IndexIn(cache.saved[..], pc)
              case None => privates[..] == old(privates[..]) && scoreboard[..] == old(scoreboard[..])
              case Some(i) => privates[..] == old(privates[..])[i := Perceptrons.Update(old(privates[i]), u.g, pc, taken)]
                              && scoreboard[..] == old(scoreboard[..])[i := Scored(old(scoreboard[i]), lastDefault, lastPrivate, taken)]
    {
      var idx := cache.GetIdx(pc);
      IndexIsUnique(cache.saved[..], pc, idx);
      if idx.Some? {
        var i := idx.value;
        privates[i] := Perceptrons.Update(privates[i], u.g, pc, taken);
        UpdateScoreBoard(i, lastDefault, lastPrivate, taken);
      }
    }

    /** On a fixed interval the miss cache is saved. */
    method CountBranch()
      requires Parts()
      modifies this`count, cache.saved
      ensures Parts() && cache.Value() == old(cache.Value()) && scoreboard[..] == old(scoreboard[..])
      ensures if old(count) + 1 == u.interval then count == 0 else count == old(count) + 1 && cache.saved[..] == old(cache.saved[..])
    {
      count := count + 1;
      if count == u.interval {
        count := 0;
        cache.Snapshot();
      }
    }

    /** update, for a branch that has been predicted: the snapshot comes last. */
    method Update(pc: nat, taken: bool)
      requires Parts() && pc != 0 && forall i :: 0 <= i < privates.Length ==> StateOk(privates[i], u.g)
      modifies this, privates, scoreboard, cache.saved
      modifies cache.guarded, cache.guarded.entries, cache.probation, cache.probation.entries
      ensures Parts() && |old(Value()).privates| == |old(Value()).saved| == |old(Value()).scores|
      ensures forall i :: 0 <= i < |old(Value()).privates| ==> StateOk(old(Value()).privates[i], u.g)
      ensures Value() == Updated(old(Value()), u, pc, taken, cache.saved[..])
    {
      hide Access, Perceptrons.Update, Scored, SegmentsOk, StateOk;
      NoteMiss(pc, taken);
      Teach(pc, taken);
      CountBranch();
      history := Push(history, taken);
    }
  }
}
