/** The perceptron as the simulator runs it: all weights in one array, updated in place. */
module PerceptronArrays {
  import opened Powers
  import opened Perceptrons

  /** The weights of slot `k` are `len` places of the array, from `k * len` on. */
  lemma RowInside(len: nat, slots: nat, k: nat)
    requires k < slots
    ensures 0 <= k * len && k * len + len <= slots * len
  {
    assert slots * len == k * len + (slots - k) * len;
    assert (slots - k) * len == len + (slots - k - 1) * len;
    assert (slots - k - 1) * len >= 0;
  }

  /** Rows do not overlap. */
  lemma RowsApart(len: nat, j: nat, k: nat)
    requires j < k
    ensures j * len + len <= k * len
  {
    RowInside(len, k, j);
  }

  ghost function SlotAt(weights: seq<int>, bias: seq<int>, len: nat, slots: nat, k: nat): Slot
    requires |weights| == slots * len && |bias| == slots && k < slots
  {
    RowInside(len, slots, k);
    Slot(weights[k * len..k * len + len], bias[k])
  }

  /** The slots that the two arrays make up. */
  ghost function SlotsOf(weights: seq<int>, bias: seq<int>, len: nat, slots: nat): (r: seq<Slot>)
    requires |weights| == slots * len && |bias| == slots
    ensures |r| == slots
  {
    seq(slots, k requires 0 <= k < slots => SlotAt(weights, bias, len, slots, k))
  }

  /** A change within one row is a change of one slot. */
  lemma OneSlotChanges(w0: seq<int>, b0: seq<int>, w1: seq<int>, b1: seq<int>, len: nat, slots: nat, k: nat, s: Slot)
    requires |w0| == |w1| == slots * len && |b0| == |b1| == slots && k < slots
    requires forall i :: 0 <= i < |w0| && !(k * len <= i < k * len + len) ==> w1[i] == w0[i]
    requires b1 == b0[k := b1[k]] && SlotAt(w1, b1, len, slots, k) == s
    ensures SlotsOf(w1, b1, len, slots) == SlotsOf(w0, b0, len, slots)[k := s]
  {
    forall j | 0 <= j < slots && j != k ensures SlotAt(w1, b1, len, slots, j) == SlotAt(w0, b0, len, slots, j) {
      RowInside(len, slots, j);
      RowInside(len, slots, k);
      if j < k {
        RowsApart(len, j, k);
      } else {
        RowsApart(len, k, j);
      }
      assert w1[j * len..j * len + len] == w0[j * len..j * len + len];
    }
  }

  class PstateQueue {
    const storage: array<PState>
    var head: nat
    var tail: nat

    ghost function Value(): Queue
      reads this, storage
    {
      Queue(head, tail, storage[..])
    }

    constructor ()
      ensures QueueOk(Value()) && head == tail == 0 && fresh(storage)
      ensures Value() == Queue(0, 0, [PState(0, 0), PState(0, 0), PState(0, 0), PState(0, 0)])
    {
      storage := new PState[QUEUE_SIZE](_ => PState(0, 0));
      head, tail := 0, 0;
    }

    method Enqueue(s: PState)
      requires QueueOk(Value())
      modifies this, storage
      ensures QueueOk(Value()) && old(QueueOk(Value())) && Value() == Perceptrons.Enqueue(old(Value()), s)
      ensures Waiting(Value()) == if |old(Waiting(Value()))| < QUEUE_SIZE - 1 then old(Waiting(Value())) + [s] else []
    {
      EnqueueAppends(Value(), s);
      storage[tail] := s;
      tail := (tail + 1) % QUEUE_SIZE;
    }

    method Dequeue() returns (s: PState)
      requires QueueOk(Value())
      modifies this
      ensures QueueOk(Value()) && old(QueueOk(Value())) && (Value(), s) == Perceptrons.Dequeue(old(Value()))
      ensures old(Waiting(Value())) != [] ==> s == old(Waiting(Value()))[0] && Waiting(Value()) == old(Waiting(Value()))[1..]
    {
      if Waiting(Value()) != [] {
        DequeueTakesFirst(Value());
      }
      s := storage[head];
      head := (head + 1) % QUEUE_SIZE;
    }
  }

  class Perceptron {
    const g: Config
    const weights: array<int>
    const bias: array<int>
    const pending: PstateQueue
    var spec: nat
    var real_: nat

    ghost predicate Shaped()
      reads this, pending
    {
      ConfigOk(g) && weights != bias && weights.Length == g.slots * g.len && bias.Length == g.slots
    }

    ghost function Value(): State
      requires Shaped()
      reads this, weights, bias, pending, pending.storage
    {
      State(SlotsOf(weights[..], bias[..], g.len, g.slots), spec, real_, pending.Value())
    }

    ghost predicate Valid()
      reads this, weights, bias, pending, pending.storage
    {
      Shaped() && StateOk(Value(), g)
    }

    constructor (g: Config)
      requires ConfigOk(g)
      ensures Valid() && this.g == g && Value() == Initial(g) && Settled(Value(), g)
    {
      this.g := g;
      assert g.slots * g.len >= 0;
      weights := new int[g.slots * g.len](_ => 0);
      bias := new int[g.slots](_ => 0);
      var queue := new PstateQueue();
      pending := queue;
      spec, real_ := 0, 0;
      new;
      forall k | 0 <= k < g.slots ensures SlotAt(weights[..], bias[..], g.len, g.slots, k) == Initial(g).slots[k] {
        RowInside(g.len, g.slots, k);
        assert weights[..][k * g.len..k * g.len + g.len] == Initial(g).slots[k].weights;
      }
      InitialSettled(g);
      assert Value() == Initial(g);
    }

    /** The dot product, and the bias. */
    method ComputeSum(idx: nat, history: nat) returns (sum: int)
      requires Shaped() && idx < g.slots
      ensures sum == Sum(SlotsOf(weights[..], bias[..], g.len, g.slots)[idx], history)
    {
      ghost var s := SlotAt(weights[..], bias[..], g.len, g.slots, idx);
      RowInside(g.len, g.slots, idx);
      sum := bias[idx];
      for i := 0 to g.len
        invariant sum == bias[idx] + Dot(s.weights, history, i)
      {
        assert s.weights[i] == weights[idx * g.len + i];
        if Bit(history, i) {
          sum := sum + weights[idx * g.len + i];
        } else {
          sum := sum - weights[idx * g.len + i];
        }
      }
    }

    /** predict, with the history it is to use. */
    method PredictFrom(pc: nat, history: nat) returns (taken: bool, confidence: nat)
      requires Valid()
      modifies this`spec, pending, pending.storage
      ensures Shaped() && old(Valid()) && Value() == Perceptrons.Predict(old(Value()), g, pc, history)
      ensures taken == Answer(old(Value()), g, pc, history)
      ensures confidence == Abs(Sum(old(Value()).slots[pc % g.slots], history))
    {
      var sum := ComputeSum(pc % g.slots, history);
      pending.Enqueue(PState(history, sum));
      spec := Push(spec, sum >= 0);
      return sum >= 0, Abs(sum);
    }

    method Predict(pc: nat) returns (taken: bool, confidence: nat)
      requires Valid()
      modifies this`spec, pending, pending.storage
      ensures Shaped() && old(Valid()) && Value() == Perceptrons.Predict(old(Value()), g, pc, old(spec))
      ensures taken == Answer(old(Value()), g, pc, old(spec))
    {
      taken, confidence := PredictFrom(pc, spec);
    }

    method PredictWith(pc: nat, addon: nat, len: nat) returns (taken: bool, confidence: nat)
      requires Valid()
      modifies this`spec, pending, pending.storage
      ensures Shaped() && old(Valid())
      ensures Value() == Perceptrons.Predict(old(Value()), g, pc, Extended(old(spec), addon, len))
      ensures taken == Answer(old(Value()), g, pc, Extended(old(spec), addon, len))
    {
      taken, confidence := PredictFrom(pc, Extended(spec, addon, len));
    }

    /** Train one slot. */
    method Train(idx: nat, history: nat, taken: bool)
      requires Shaped() && idx < g.slots
      modifies weights, bias
      ensures SlotsOf(weights[..], bias[..], g.len, g.slots)
              == old(SlotsOf(weights[..], bias[..], g.len, g.slots))
                 [idx := Trained(old(SlotsOf(weights[..], bias[..], g.len, g.slots))[idx], history, taken, MinWeight(g), MaxWeight(g))]
    {
      ghost var w0, b0 := weights[..], bias[..];
      ghost var s := SlotAt(w0, b0, g.len, g.slots, idx);
      ghost var t := Trained(s, history, taken, MinWeight(g), MaxWeight(g));
      RowInside(g.len, g.slots, idx);
      TrainWeights(idx, history, taken);
      if taken {
        if bias[idx] < MaxWeight(g) {
          bias[idx] := bias[idx] + 1;
        }
      } else if bias[idx] > MinWeight(g) {
        bias[idx] := bias[idx] - 1;
      }
      assert bias[..] == b0[idx := t.bias];
      assert weights[idx * g.len..idx * g.len + g.len] == t.weights;
      OneSlotChanges(w0, b0, weights[..], bias[..], g.len, g.slots, idx, t);
    }

    /** The loop over the weights of a slot. */
    method TrainWeights(idx: nat, history: nat, taken: bool)
      requires Shaped() && idx < g.slots && idx * g.len + g.len <= weights.Length
      modifies weights
      ensures forall i :: 0 <= i < weights.Length ==>
                weights[i] == if idx * g.len <= i < idx * g.len + g.len
                              then Moved(old(weights[i]), taken == Bit(history, i - idx * g.len), MinWeight(g), MaxWeight(g))
                              else old(weights[i])
    {
      var row := idx * g.len;
      for i := 0 to g.len
        invariant forall j :: 0 <= j < weights.Length ==>
                    weights[j] == if row <= j < row + i
                                  then Moved(old(weights[j]), taken == Bit(history, j - row), MinWeight(g), MaxWeight(g))
                                  else old(weights[j])
      {
        if taken == Bit(history, i) {
          if weights[row + i] < MaxWeight(g) {
            weights[row + i] := weights[row + i] + 1;
          }
        } else if weights[row + i] > MinWeight(g) {
          weights[row + i] := weights[row + i] - 1;
        }
      }
    }

    method Update(pc: nat, taken: bool)
      requires Valid()
      modifies this, weights, bias, pending
      ensures Shaped() && old(Valid()) && Value() == Perceptrons.Update(old(Value()), g, pc, taken)
    {
      var idx := pc % g.slots;
      var s := pending.Dequeue();
      if (s.sum >= 0) != taken || Abs(s.sum) < g.threshold {
        Train(idx, s.history, taken);
      }
      real_ := Push(real_, taken);
      if (s.sum >= 0) != taken {
        spec := real_;
      }
    }
  }
}
