/** When a perceptron trains, and how far: what a prediction and its outcome do to each weight, in numbers. */
module Trainings {
  import opened Options
  import opened Powers
  import opened RecencyLists
  import opened MissCaches
  import opened Perceptrons
  import opened PrivatePredictors

  /** One more outcome of the same kind: up to the largest weight or down to the smallest, and no further. */
  function Nudged(w: int, up: bool, g: Config): int
    requires g.weightLen > 0
  {
    if up && w < Pow2(g.weightLen - 1) - 1 then w + 1
    else if !up && w > -(Pow2(g.weightLen - 1) as int) then w - 1
    else w
  }

  /** How many of the first `n` weights are not at their limit for this outcome. */
  function FreeWeights(s: Slot, history: nat, taken: bool, g: Config, n: nat): nat
    requires g.weightLen > 0 && n <= |s.weights|
  {
    if n == 0 then 0
    else FreeWeights(s, history, taken, g, n - 1)
         + if (if taken == Bit(history, n - 1) then s.weights[n - 1] < Pow2(g.weightLen - 1) - 1
               else s.weights[n - 1] > -(Pow2(g.weightLen - 1) as int)) then 1 else 0
  }

  function FreeBias(s: Slot, taken: bool, g: Config): nat
    requires g.weightLen > 0
  {
    if (if taken then s.bias < Pow2(g.weightLen - 1) - 1 else s.bias > -(Pow2(g.weightLen - 1) as int)) then 1 else 0
  }

  lemma {:induction false} FreeMove(s: Slot, history: nat, taken: bool, g: Config, n: nat)
    requires g.weightLen > 0 && n <= |s.weights|
    ensures Movable(s, history, taken, MinWeight(g), MaxWeight(g), n) == FreeWeights(s, history, taken, g, n)
  {
    if n > 0 {
      FreeMove(s, history, taken, g, n - 1);
    }
  }

  /** The answer was right, and the sum at least the threshold away from 0. */
  predicate Sure(sum: int, taken: bool, threshold: int) { if taken then sum >= 0 && sum >= threshold else sum < 0 && -sum >= threshold }

  /** A prediction that is right and sure of it leaves every slot as it is. */
  lemma SureRoundKeeps(p: State, g: Config, pc: nat, history: nat, taken: bool)
    requires Settled(p, g) && Sure(Sum(p.slots[pc % g.slots], history), taken, g.threshold)
    ensures Round(p, g, pc, history, taken).slots == p.slots
  {
    RoundSettles(p, g, pc, history, taken);
  }

  /**
    Any other prediction trains the slot of its branch and no other: each weight is nudged up if
    its outcome agrees with that of the branch and down if not. So the sum for that history moves
    towards the outcome, by the number of weights, bias included, that are not at their limit.
   */
  lemma UnsureRoundTrains(p: State, g: Config, pc: nat, history: nat, taken: bool)
    requires Settled(p, g) && !Sure(Sum(p.slots[pc % g.slots], history), taken, g.threshold)
    ensures var k := pc % g.slots; var s := p.slots[k]; var r := Round(p, g, pc, history, taken);
            && |r.slots| == |p.slots| && (forall j :: 0 <= j < |p.slots| && j != k ==> r.slots[j] == p.slots[j])
            && |r.slots[k].weights| == |s.weights|
            && (forall j :: 0 <= j < |s.weights| ==> r.slots[k].weights[j] == Nudged(s.weights[j], taken == Bit(history, j), g))
            && r.slots[k].bias == Nudged(s.bias, taken, g)
            && Sum(r.slots[k], history)
               == Sum(s, history) + (if taken then 1 else -1) * (FreeWeights(s, history, taken, g, |s.weights|) + FreeBias(s, taken, g))
  {
    RoundSettles(p, g, pc, history, taken);
    var s := p.slots[pc % g.slots];
    TrainingMovesTheSum(s, history, taken, MinWeight(g), MaxWeight(g));
    FreeMove(s, history, taken, g, |s.weights|);
  }

  /** A branch is predicted as taken if and only if the sum is not negative; the guess goes into the history at once. */
  lemma PredictsBySign(p: State, g: Config, pc: nat, history: nat)
    requires Settled(p, g)
    ensures Answer(p, g, pc, history) <==> Sum(p.slots[pc % g.slots], history) >= 0
    ensures forall i: nat :: i < 64 ==>
              Bit(Predict(p, g, pc, history).spec, i) == if i == 0 then Answer(p, g, pc, history) else Bit(p.spec, i - 1)
    ensures Predict(p, g, pc, history).slots == p.slots && Predict(p, g, pc, history).real_ == p.real_
  {
    forall i: nat | i < 64
      ensures Bit(Predict(p, g, pc, history).spec, i) == if i == 0 then Answer(p, g, pc, history) else Bit(p.spec, i - 1)
    {
      PushBits(p.spec, Answer(p, g, pc, history), i);
    }
  }

  /** Added outcomes come below those of the predictor, the rest of whose history moves up. */
  lemma {:induction false} JoinedBits(history: nat, addon: nat, len: nat, i: nat)
    ensures Bit(history * Pow2(len) + addon % Pow2(len), i) == if i < len then Bit(addon, i) else Bit(history, i - len)
    decreases len
  {
    if len > 0 {
      var m := Pow2(len - 1);
      HalfOfRemainder(addon, m);
      assert history * Pow2(len) == 2 * (history * m);
      var x := history * Pow2(len) + addon % Pow2(len);
      assert x / 2 == history * m + addon / 2 % m && x % 2 == addon % 2;
      if i > 0 {
        JoinedBits(history, addon / 2, len - 1, i - 1);
      }
    }
  }

  lemma ExtendedBits(history: nat, addon: nat, len: nat, i: nat)
    requires i < 64
    ensures Bit(Extended(history, addon, len), i) == if i < len then Bit(addon, i) else Bit(history, i - len)
  {
    LowBits(history * Pow2(len) + addon % Pow2(len), 64, i);
    JoinedBits(history, addon, len, i);
  }

  // ---- VIP ----

  /** Private predictor `i` is that of the branch: the first place of the snapshot with its pc. */
  ghost predicate Owns(v: Vip, pc: nat, i: nat) {
    i < |v.saved| && v.saved[i] == pc && forall k :: 0 <= k < i ==> v.saved[k] != pc
  }

  lemma OwnsIffIndex(v: Vip, pc: nat, i: nat)
    ensures Owns(v, pc, i) <==> IndexIn(v.saved, pc) == Some(i)
  {
  }

  /** The private prediction is the answer if and only if the branch has a private predictor whose score is negative. */
  lemma AnswersPrivatelyIff(v: Vip, u: Setup, pc: nat, d: bool)
    requires VipOk(v, u)
    ensures forall i: nat :: Owns(v, pc, i) ==> Chosen(v, u, pc, d) == if v.scores[i] < 0 then Answer(v.privates[i], u.g, pc, PrivateHistory(v, u, i)) else d
    ensures (forall i: nat :: !Owns(v, pc, i)) ==> Chosen(v, u, pc, d) == d
  {
    forall i: nat
      ensures Owns(v, pc, i) <==> IndexIn(v.saved, pc) == Some(i)
    {
      OwnsIffIndex(v, pc, i);
    }
  }

  /** A score after the two predictors disagreed, when the default one was right or the private one was. */
  function ScoreAfter(score: int, defaultRight: bool): int {
    if defaultRight && score < 1 then score + 1 else if score > -2 then score - 1 else score
  }

  /**
    A branch and its outcome: the miss cache notes it if and only if the default predictor was
    wrong; only the score of its own private predictor changes, and only if the two disagreed;
    and at the end of each interval the new snapshot is in force.
   */
  lemma BranchInFields(v: Vip, u: Setup, pc: nat, d: bool, taken: bool, snapshot: seq<nat>)
    requires VipOk(v, u) && pc != 0 && |snapshot| == |v.saved|
    ensures |Predicted(v, u, pc, d).privates| == |Predicted(v, u, pc, d).saved| == |Predicted(v, u, pc, d).scores|
    ensures forall i :: 0 <= i < |v.privates| ==> StateOk(Predicted(v, u, pc, d).privates[i], u.g)
    ensures var r := Updated(Predicted(v, u, pc, d), u, pc, taken, snapshot);
            && r.lastDefault == d && r.history == (2 * v.history + if taken then 1 else 0) % 0x1_0000_0000_0000_0000
            && r.segments == (if d == taken then v.segments else Access(v.segments, pc, |v.saved|))
            && (r.count, r.saved) == (if v.count + 1 == u.interval then (0, snapshot) else (v.count + 1, v.saved))
            && |r.scores| == |v.scores|
            && forall i: nat :: i < |v.scores| ==>
                 r.scores[i] == if Owns(v, pc, i) && Answer(v.privates[i], u.g, pc, PrivateHistory(v, u, i)) != d
                                then ScoreAfter(v.scores[i], d == taken) else v.scores[i]
  {
    hide Access, SegmentsOk, Update, Predict, Answer, Extended, Settled;
    PredictedOk(v, u, pc, d);
    forall i: nat
      ensures Owns(v, pc, i) <==> IndexIn(v.saved, pc) == Some(i)
    {
      OwnsIffIndex(v, pc, i);
    }
    HistorySize();
  }

  lemma HistorySize()
    ensures HISTORY_SIZE == 0x1_0000_0000_0000_0000
  {
    Pow2Adds(32, 32);
    Pow2Adds(16, 16);
    Pow2Adds(8, 8);
    assert Pow2(8) == 256 by { assert Pow2(2) == 4 && Pow2(4) == 16 && Pow2(6) == 64; }
  }

  /** A private predictor looks at the latest outcomes of all branches and, before them, at its own. */
  lemma PrivateHistoryBits(v: Vip, u: Setup, i: nat, b: nat)
    requires i < |v.privates| && b < 64
    ensures Bit(PrivateHistory(v, u, i), b) == if b < u.len then Bit(v.history, b) else Bit(v.privates[i].spec, b - u.len)
  {
    ExtendedBits(v.privates[i].spec, v.history, u.len, b);
  }
}
