/** Places in a circular buffer of `n` slots, counted from its head. */
module RingOrder {
  /** How many places slot `i` is behind the head. */
  function Pos(i: int, head: int, n: int): int { if i >= head then i - head else i - head + n }

  /** The slot `k` places behind the head. */
  function At(k: int, head: int, n: int): int { if head + k < n then head + k else head + k - n }
}

/** The core's rings of indices: RTE0, RTE1, RTL0, RTL1, RTS0, RTS1 and STA. */
module IndexRings {
  import opened RingOrder

  /** A ring marks a free slot with a number no member reaches and has no member counter. */
  class IndexRing {
    const slots: array<nat>
    const empty: nat
    var head: nat
    var tail: nat
    ghost var contents: seq<nat>

    ghost predicate Valid()
      reads this, slots
    {
      && head < slots.Length && |contents| <= slots.Length
      && tail == At(|contents|, head, slots.Length)
      && (forall k :: 0 <= k < |contents| ==> contents[k] < empty)
      && (forall i :: 0 <= i < slots.Length ==>
            slots[i] == if Pos(i, head, slots.Length) < |contents| then contents[Pos(i, head, slots.Length)] else empty)
    }

    constructor (size: nat, empty: nat)
      requires size > 0
      ensures Valid() && contents == [] && slots.Length == size && this.empty == empty && fresh(slots)
    {
      slots := new nat[size](_ => empty);
      this.empty := empty;
      head := 0;
      tail := 0;
      contents := [];
    }

    /** There is a member at the head exactly when the ring has members. */
    method Peek() returns (occupied: bool, x: nat)
      requires Valid()
      ensures occupied <==> contents != []
      ensures occupied ==> x == contents[0] && x < empty
    {
      x := slots[head];
      occupied := x < empty;
    }

    method Push(x: nat)
      requires Valid() && x < empty && |contents| < slots.Length
      modifies this, slots
      ensures Valid() && contents == old(contents) + [x]
    {
      // The sanity check of the source: the tail slot is free.
      assert slots[tail] == empty;
      slots[tail] := x;
      tail := tail + 1;
      if tail == slots.Length {
        tail := 0;
      }
      contents := contents + [x];
    }

    method Pop()
      requires Valid() && contents != []
      modifies this, slots
      ensures Valid() && contents == old(contents)[1..]
    {
      slots[head] := empty;
      head := head + 1;
      if head == slots.Length {
        head := 0;
      }
      contents := contents[1..];
    }
  }
}
