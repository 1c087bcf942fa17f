/**
  The perceptron branch predictor (branch/bp_candidates/perceptron.cc): a slot of weights for
  a branch, a history of outcomes, and the state of predictions that wait for their outcome.
 */
module Perceptrons {
  import opened Powers

  // ---- Pending predictions ----

  /** What a prediction was made from. */
  datatype PState = PState(history: nat, sum: int)

  /** QUEUE_SIZE */
  const QUEUE_SIZE: nat := 4

  /** Pstate_queue: a ring of four states. */
  datatype Queue = Queue(head: nat, tail: nat, storage: seq<PState>)

  ghost predicate QueueOk(q: Queue) { |q.storage| == QUEUE_SIZE && q.head < QUEUE_SIZE && q.tail < QUEUE_SIZE }

  function Enqueue(q: Queue, s: PState): Queue
    requires QueueOk(q)
  {
    q.(storage := q.storage[q.tail := s], tail := (q.tail + 1) % QUEUE_SIZE)
  }

  function Dequeue(q: Queue): (Queue, PState)
    requires QueueOk(q)
  {
    (q.(head := (q.head + 1) % QUEUE_SIZE), q.storage[q.head])
  }

  /** The states that wait, the earliest first. */
  function Waiting(q: Queue): (r: seq<PState>)
    requires QueueOk(q)
    ensures |r| < QUEUE_SIZE
  {
    seq((q.tail + QUEUE_SIZE - q.head) % QUEUE_SIZE, i requires 0 <= i => q.storage[(q.head + i) % QUEUE_SIZE])
  }

  /** Up to three states wait in turn. With a fourth the ring looks empty: all of them are lost. */
  lemma EnqueueAppends(q: Queue, s: PState)
    requires QueueOk(q)
    ensures QueueOk(Enqueue(q, s))
    ensures Waiting(Enqueue(q, s)) == if |Waiting(q)| < QUEUE_SIZE - 1 then Waiting(q) + [s] else []
  {
  }

  /** The earliest state leaves. */
  lemma DequeueTakesFirst(q: Queue)
    requires QueueOk(q) && Waiting(q) != []
    ensures QueueOk(Dequeue(q).0)
    ensures Dequeue(q).1 == Waiting(q)[0] && Waiting(Dequeue(q).0) == Waiting(q)[1..]
  {
  }

  function EnqueueAll(q: Queue, list: seq<PState>): (r: Queue)
    requires QueueOk(q)
    ensures QueueOk(r)
    decreases list
  {
    if list == [] then q else EnqueueAll(Enqueue(q, list[0]), list[1..])
  }

  function DequeueAll(q: Queue, n: nat): (r: seq<PState>)
    requires QueueOk(q)
    ensures |r| == n
    decreases n
  {
    if n == 0 then [] else [Dequeue(q).1] + DequeueAll(Dequeue(q).0, n - 1)
  }

  lemma {:induction false} EnqueuedWait(q: Queue, list: seq<PState>)
    requires QueueOk(q) && |Waiting(q)| + |list| < QUEUE_SIZE
    ensures Waiting(EnqueueAll(q, list)) == Waiting(q) + list
    decreases list
  {
    if list != [] {
      EnqueueAppends(q, list[0]);
      EnqueuedWait(Enqueue(q, list[0]), list[1..]);
      assert Waiting(q) + [list[0]] + list[1..] == Waiting(q) + list;
    }
  }

  lemma {:induction false} WaitingLeave(q: Queue, n: nat)
    requires QueueOk(q) && n <= |Waiting(q)|
    ensures DequeueAll(q, n) == Waiting(q)[..n]
    decreases n
  {
    if n > 0 {
      DequeueTakesFirst(q);
      WaitingLeave(Dequeue(q).0, n - 1);
    }
  }

  /** Up to three pending predictions come back in the order in which they were made. */
  lemma ThreePendAtMost(q: Queue, list: seq<PState>)
    requires QueueOk(q) && q.head == q.tail && |list| < QUEUE_SIZE
    ensures DequeueAll(EnqueueAll(q, list), |list|) == list
  {
    assert Waiting(q) == [];
    EnqueuedWait(q, list);
    WaitingLeave(EnqueueAll(q, list), |list|);
  }

  // ---- Weights ----

  datatype Slot = Slot(weights: seq<int>, bias: int)

  /** GHRLen, tableSize, the range of a weight, and the confidence below which a right prediction trains. */
  datatype Config = Config(len: nat, slots: nat, weightLen: nat, threshold: int)

  ghost predicate ConfigOk(g: Config) { g.len <= 64 && g.slots > 0 && g.weightLen > 0 }

  function MaxWeight(g: Config): (r: int)
    requires g.weightLen > 0
    ensures r >= 0
  {
    Pow2(g.weightLen - 1) - 1
  }

  function MinWeight(g: Config): (r: int)
    requires g.weightLen > 0
    ensures r + Pow2(g.weightLen - 1) == 0
  {
    -(MaxWeight(g) + 1)
  }

  /** The part of the dot product that comes from the first `n` outcomes. */
  function Dot(weights: seq<int>, history: nat, n: nat): int
    requires n <= |weights|
  {
    if n == 0 then 0
    else Dot(weights, history, n - 1) + if Bit(history, n - 1) then weights[n - 1] else -weights[n - 1]
  }

  function Sum(s: Slot, history: nat): int { s.bias + Dot(s.weights, history, |s.weights|) }

  function Moved(w: int, up: bool, lo: int, hi: int): int {
    if up then (if w < hi then w + 1 else w) else if w > lo then w - 1 else w
  }

  /** A weight moves towards agreement of its outcome with the branch. */
  function Trained(s: Slot, history: nat, taken: bool, lo: int, hi: int): Slot {
    Slot(seq(|s.weights|, i requires 0 <= i < |s.weights| => Moved(s.weights[i], taken == Bit(history, i), lo, hi)),
         Moved(s.bias, taken, lo, hi))
  }

  ghost predicate InRange(s: Slot, lo: int, hi: int) {
    lo <= s.bias <= hi && forall i :: 0 <= i < |s.weights| ==> lo <= s.weights[i] <= hi
  }

  // ---- The predictor ----

  const HISTORY_SIZE: nat := Pow2(64)

  /** Histories have 64 bits. */
  function Push(history: nat, taken: bool): nat { (2 * history + if taken then 1 else 0) % HISTORY_SIZE }

  datatype State = State(slots: seq<Slot>, spec: nat, real_: nat, pending: Queue)

  ghost predicate StateOk(p: State, g: Config) {
    && ConfigOk(g) && |p.slots| == g.slots && QueueOk(p.pending) && p.spec < HISTORY_SIZE && p.real_ < HISTORY_SIZE
    && forall k :: 0 <= k < g.slots ==> |p.slots[k].weights| == g.len && InRange(p.slots[k], MinWeight(g), MaxWeight(g))
  }

  /** Between a prediction with its outcome and the next: nothing pends, and the histories agree. */
  ghost predicate Settled(p: State, g: Config) { StateOk(p, g) && p.pending.head == p.pending.tail && p.spec == p.real_ }

  /** Both forms of predict: the history the sum is made from may have other outcomes added. */
  function Predict(p: State, g: Config, pc: nat, history: nat): State
    requires StateOk(p, g)
  {
    var sum := Sum(p.slots[pc % g.slots], history);
    p.(pending := Enqueue(p.pending, PState(history, sum)), spec := Push(p.spec, sum >= 0))
  }

  /** What predict answers. */
  function Answer(p: State, g: Config, pc: nat, history: nat): bool
    requires StateOk(p, g)
  {
    Sum(p.slots[pc % g.slots], history) >= 0
  }

  /** The history of predict with `len` outcomes of its caller added. */
  function Extended(history: nat, addon: nat, len: nat): nat { (history * Pow2(len) + addon % Pow2(len)) % HISTORY_SIZE }

  function Abs(x: int): nat { if x < 0 then -x else x }

  function Update(p: State, g: Config, pc: nat, taken: bool): State
    requires StateOk(p, g)
  {
    var (pending, s) := Dequeue(p.pending);
    var k := pc % g.slots;
    var wrong := (s.sum >= 0) != taken;
    var real_ := Push(p.real_, taken);
    State(if wrong || Abs(s.sum) < g.threshold
          then p.slots[k := Trained(p.slots[k], s.history, taken, MinWeight(g), MaxWeight(g))] else p.slots,
          if wrong then real_ else p.spec, real_, pending)
  }

  /** Reset */
  function Initial(g: Config): State {
    State(seq(g.slots, _ => Slot(seq(g.len, _ => 0), 0)), 0, 0,
          Queue(0, 0, [PState(0, 0), PState(0, 0), PState(0, 0), PState(0, 0)]))
  }

  lemma InitialSettled(g: Config)
    requires ConfigOk(g)
    ensures Settled(Initial(g), g)
  {
  }

  // ---- Training ----

  /** How many of the first `n` weights a training can move. */
  function Movable(s: Slot, history: nat, taken: bool, lo: int, hi: int, n: nat): nat
    requires n <= |s.weights|
  {
    if n == 0 then 0
    else Movable(s, history, taken, lo, hi, n - 1)
         + if Moved(s.weights[n - 1], taken == Bit(history, n - 1), lo, hi) != s.weights[n - 1] then 1 else 0
  }

  lemma {:induction false} TrainedDot(s: Slot, history: nat, taken: bool, lo: int, hi: int, n: nat)
    requires n <= |s.weights|
    ensures var d := Dot(Trained(s, history, taken, lo, hi).weights, history, n) - Dot(s.weights, history, n);
            d == if taken then Movable(s, history, taken, lo, hi, n) as int else -(Movable(s, history, taken, lo, hi, n) as int)
  {
    if n > 0 {
      TrainedDot(s, history, taken, lo, hi, n - 1);
    }
  }

  /** A training moves the sum towards the outcome, by the number of weights that are not at their limit. */
  lemma TrainingMovesTheSum(s: Slot, history: nat, taken: bool, lo: int, hi: int)
    ensures var d := Sum(Trained(s, history, taken, lo, hi), history) - Sum(s, history);
            var moved := Movable(s, history, taken, lo, hi, |s.weights|) + if Moved(s.bias, taken, lo, hi) != s.bias then 1 else 0;
            d == if taken then moved else -moved
    ensures InRange(s, lo, hi) ==> InRange(Trained(s, history, taken, lo, hi), lo, hi)
  {
    TrainedDot(s, history, taken, lo, hi, |s.weights|);
  }

  // ---- A prediction and its outcome ----

  /** One branch: predict, and then the outcome. */
  function Round(p: State, g: Config, pc: nat, history: nat, taken: bool): State
    requires StateOk(p, g)
  {
    Update(Predict(p, g, pc, history), g, pc, taken)
  }

  /**
    The outcome is applied to the very prediction it belongs to, after which nothing pends,
    the histories agree, and the weights are in range.
   */
  lemma RoundSettles(p: State, g: Config, pc: nat, history: nat, taken: bool)
    requires Settled(p, g)
    ensures StateOk(Predict(p, g, pc, history), g)
    ensures Dequeue(Predict(p, g, pc, history).pending).1 == PState(history, Sum(p.slots[pc % g.slots], history))
    ensures Settled(Round(p, g, pc, history, taken), g)
    ensures Round(p, g, pc, history, taken).real_ == Push(p.real_, taken)
  {
    var k := pc % g.slots;
    TrainingMovesTheSum(p.slots[k], history, taken, MinWeight(g), MaxWeight(g));
  }

  // ---- Learning a constant branch ----

  /** A new outcome is the lowest bit, the others move up. */
  lemma PushBits(history: nat, taken: bool, i: nat)
    requires i < 64
    ensures Bit(Push(history, taken), i) == if i == 0 then taken else Bit(history, i - 1)
  {
    var x := 2 * history + if taken then 1 else 0;
    LowBits(x, 64, i);
    assert x / 2 == history;
  }

  /** The last `m` outcomes were all the same. */
  ghost predicate Steady(history: nat, taken: bool, m: nat) { forall i: nat :: i < m ==> Bit(history, i) == taken }

  lemma PushSteady(history: nat, taken: bool, m: nat)
    requires m <= 64 && Steady(history, taken, if m > 0 then m - 1 else 0)
    ensures Steady(Push(history, taken), taken, m)
  {
    forall i: nat | i < m ensures Bit(Push(history, taken), i) == taken {
      PushBits(history, taken, i);
    }
  }

  /** Every weight has been moved `m` times, as far as its range goes. */
  ghost predicate Learned(s: Slot, taken: bool, m: nat, lo: int, hi: int) {
    && (forall i :: 0 <= i < |s.weights| ==> s.weights[i] >= lo + m || s.weights[i] >= hi)
    && if taken then s.bias >= lo + m || s.bias >= hi else s.bias <= hi - m || s.bias <= lo
  }

  lemma TrainingTeaches(s: Slot, history: nat, taken: bool, m: nat, lo: int, hi: int)
    requires Steady(history, taken, |s.weights|) && Learned(s, taken, m, lo, hi) && InRange(s, lo, hi)
    ensures Learned(Trained(s, history, taken, lo, hi), taken, m + 1, lo, hi)
  {
  }

  lemma {:induction false} DotSign(weights: seq<int>, history: nat, taken: bool, n: nat)
    requires n <= |weights| && Steady(history, taken, n) && forall i :: 0 <= i < n ==> weights[i] >= 0
    ensures if taken then Dot(weights, history, n) >= 0 else Dot(weights, history, n) <= 0
  {
    if n > 0 {
      DotSign(weights, history, taken, n - 1);
    }
  }

  /** After as many trainings as half the range of a weight the prediction is right. */
  lemma EnoughIsRight(s: Slot, history: nat, taken: bool, half: nat)
    requires half > 0 && Steady(history, taken, |s.weights|) && Learned(s, taken, half, -(half as int), half - 1)
    ensures (Sum(s, history) >= 0) == taken
  {
    DotSign(s.weights, history, taken, |s.weights|);
  }

  /** A branch that always goes the same way, alone, for |run| - 1 rounds. */
  ghost predicate Constant(run: seq<State>, g: Config, pc: nat, taken: bool) {
    && |run| > 0 && Settled(run[0], g)
    && forall t :: 0 <= t < |run| - 1 && StateOk(run[t], g) ==> run[t + 1] == Round(run[t], g, pc, run[t].spec, taken)
  }

  ghost predicate Wrong(p: State, g: Config, pc: nat, taken: bool) { StateOk(p, g) && Answer(p, g, pc, p.spec) != taken }

  /** The mispredictions of the rounds from `a` to `b`. */
  ghost function Mispredictions(run: seq<State>, g: Config, pc: nat, taken: bool, a: nat, b: nat): nat
    requires a <= b < |run|
    decreases b - a
  {
    if a == b then 0
    else (if Wrong(run[a], g, pc, taken) then 1 else 0) + Mispredictions(run, g, pc, taken, a + 1, b)
  }

  lemma {:induction false} ConstantSettled(run: seq<State>, g: Config, pc: nat, taken: bool, t: nat)
    requires Constant(run, g, pc, taken) && t < |run|
    ensures Settled(run[t], g) && Steady(run[t].spec, taken, if t < 64 then t else 64)
  {
    if t > 0 {
      ConstantSettled(run, g, pc, taken, t - 1);
      RoundSettles(run[t - 1], g, pc, run[t - 1].spec, taken);
      assert run[t - 1 + 1] == Round(run[t - 1], g, pc, run[t - 1].spec, taken);
      hide Round;
      PushSteady(run[t - 1].real_, taken, if t < 64 then t else 64);
    }
  }

  /** Each misprediction with a steady history is a training, and enough trainings end them. */
  lemma {:induction false} FewMispredictions(run: seq<State>, g: Config, pc: nat, taken: bool, a: nat, b: nat, m: nat)
    requires Constant(run, g, pc, taken) && g.len <= a <= b < |run| && m <= Pow2(g.weightLen - 1)
    requires StateOk(run[a], g) && Learned(run[a].slots[pc % g.slots], taken, m, MinWeight(g), MaxWeight(g))
    ensures Mispredictions(run, g, pc, taken, a, b) + m <= Pow2(g.weightLen - 1)
    decreases b - a
  {
    if a < b {
      ConstantSettled(run, g, pc, taken, a);
      ConstantSettled(run, g, pc, taken, a + 1);
      RoundTeaches(run[a], g, pc, taken, m);
      assert run[a + 1] == Round(run[a], g, pc, run[a].spec, taken);
      hide Round, Learned;
      FewMispredictions(run, g, pc, taken, a + 1, b, if Wrong(run[a], g, pc, taken) then m + 1 else m);
    }
  }

  lemma RoundTeaches(p: State, g: Config, pc: nat, taken: bool, m: nat)
    requires Settled(p, g) && Steady(p.spec, taken, g.len) && m <= Pow2(g.weightLen - 1)
    requires Learned(p.slots[pc % g.slots], taken, m, MinWeight(g), MaxWeight(g))
    ensures StateOk(Round(p, g, pc, p.spec, taken), g)
    ensures var s1 := Round(p, g, pc, p.spec, taken).slots[pc % g.slots];
            Learned(s1, taken, if Wrong(p, g, pc, taken) then m + 1 else m, MinWeight(g), MaxWeight(g))
    ensures Wrong(p, g, pc, taken) ==> m < Pow2(g.weightLen - 1)
  {
    var s := p.slots[pc % g.slots];
    RoundSettles(p, g, pc, p.spec, taken);
    TrainingTeaches(s, p.spec, taken, m, MinWeight(g), MaxWeight(g));
    if m == Pow2(g.weightLen - 1) {
      EnoughIsRight(s, p.spec, taken, m);
    }
  }

  lemma {:induction false} CountAtMost(run: seq<State>, g: Config, pc: nat, taken: bool, a: nat, b: nat)
    requires a <= b < |run|
    ensures Mispredictions(run, g, pc, taken, a, b) <= b - a
    decreases b - a
  {
    if a < b {
      CountAtMost(run, g, pc, taken, a + 1, b);
    }
  }

  lemma {:induction false} CountSplits(run: seq<State>, g: Config, pc: nat, taken: bool, a: nat, b: nat, c: nat)
    requires a <= b <= c < |run|
    ensures Mispredictions(run, g, pc, taken, a, c)
            == Mispredictions(run, g, pc, taken, a, b) + Mispredictions(run, g, pc, taken, b, c)
    decreases b - a
  {
    if a < b {
      CountSplits(run, g, pc, taken, a + 1, b, c);
    }
  }

  /**
    From any settled state, a branch that always goes the same way is mispredicted at most
    GHRLen + 2^(weightLen - 1) times, however long it runs.
   */
  lemma ConstantBranchIsLearned(run: seq<State>, g: Config, pc: nat, taken: bool)
    requires Constant(run, g, pc, taken)
    ensures Mispredictions(run, g, pc, taken, 0, |run| - 1) <= g.len + Pow2(g.weightLen - 1)
  {
    var n := |run| - 1;
    var a := if g.len < n then g.len else n;
    CountSplits(run, g, pc, taken, 0, a, n);
    CountAtMost(run, g, pc, taken, 0, a);
    if a == g.len {
      ConstantSettled(run, g, pc, taken, a);
      FewMispredictions(run, g, pc, taken, a, n, 0);
    }
  }
}
