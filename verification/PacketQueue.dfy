/** The request queues of a cache (block.cc) and how a read enters one (cache.cc). */
module PacketQueues {
  import opened Options
  import opened RingOrder
  import opened CacheModel
  import opened CacheWaiters

  /** The write queue of an L1D compares full addresses, other queues compare lines. */
  predicate Same(x: Packet, y: Packet, full: bool) { if full then x.fullAddr == y.fullAddr else x.address == y.address }

  /** Member `m` is the first of the queue to match. */
  predicate FirstMatch(q: seq<Packet>, p: Packet, full: bool, m: nat) {
    m < |q| && Same(q[m], p, full) && forall k :: 0 <= k < m ==> !Same(q[k], p, full)
  }

  class PacketQueue {
    const entries: array<Packet>
    const full: bool
    var head: nat
    var tail: nat
    var occupancy: nat
    ghost var contents: seq<Packet>

    ghost predicate Valid()
      reads this, entries
    {
      && head < entries.Length && occupancy == |contents| <= entries.Length
      && tail == At(occupancy, head, entries.Length)
      && (forall i :: 0 <= i < entries.Length ==>
            entries[i] == if Pos(i, head, entries.Length) < occupancy then contents[Pos(i, head, entries.Length)] else NO_PACKET)
      && (forall m :: 0 <= m < |contents| ==> contents[m].address != 0)
    }

    constructor (size: nat, full: bool)
      requires size > 0
      ensures Valid() && contents == [] && entries.Length == size && this.full == full && fresh(entries)
    {
      entries := new Packet[size](_ => NO_PACKET);
      this.full := full;
      head, tail, occupancy, contents := 0, 0, 0, [];
    }

    /** Look for a match in the slots from `from` to `to`, which are the places from `k` on. */
    method CheckRange(p: Packet, from: nat, to: nat, ghost k: nat) returns (r: Option<nat>)
      requires Valid() && from <= to <= entries.Length && k + (to - from) <= occupancy
      requires forall i :: from <= i < to ==> Pos(i, head, entries.Length) == k + i - from
      requires forall m :: 0 <= m < k ==> !Same(contents[m], p, full)
      ensures r.Some? ==> from <= r.value < to && FirstMatch(contents, p, full, Pos(r.value, head, entries.Length))
      ensures r.None? ==> forall m :: 0 <= m < k + (to - from) ==> !Same(contents[m], p, full)
    {
      for i := from to to
        invariant forall m :: 0 <= m < k + (i - from) ==> !Same(contents[m], p, full)
      {
        assert entries[i] == contents[k + i - from];
        if (if full then entries[i].fullAddr == p.fullAddr else entries[i].address == p.address) {
          return Some(i);
        }
      }
      return None;
    }

    /** check_queue: the oldest member that matches. */
    method CheckQueue(p: Packet) returns (r: Option<nat>)
      requires Valid()
      ensures r.Some? ==> r.value < entries.Length && Pos(r.value, head, entries.Length) < occupancy
                          && FirstMatch(contents, p, full, Pos(r.value, head, entries.Length))
      ensures r.None? ==> forall m :: 0 <= m < |contents| ==> !Same(contents[m], p, full)
    {
      if head == tail && occupancy == 0 {
        return None;
      }
      if head < tail {
        r := CheckRange(p, head, tail, 0);
      } else {
        r := CheckRange(p, head, entries.Length, 0);
        if r == None {
          r := CheckRange(p, 0, tail, entries.Length - head);
        }
      }
    }

    /** add_queue: the tail slot is free while the queue is not full. */
    method AddQueue(p: Packet)
      requires Valid() && |contents| < entries.Length && p.address != 0
      modifies this, entries
      ensures Valid() && contents == old(contents) + [p]
    {
      // The sanity checks of the source.
      assert !(occupancy > 0 && head == tail);
      assert entries[tail].address == 0;
      entries[tail] := p;
      occupancy := occupancy + 1;
      tail := tail + 1;
      if tail >= entries.Length {
        tail := 0;
      }
      contents := contents + [p];
    }

    /** remove_queue, of the oldest member. */
    method RemoveQueue()
      requires Valid() && contents != []
      modifies this, entries
      ensures Valid() && contents == old(contents)[1..]
    {
      assert !(occupancy == 0 && head == tail);
      entries[head] := NO_PACKET;
      occupancy := occupancy - 1;
      head := head + 1;
      if head >= entries.Length {
        head := 0;
      }
      contents := contents[1..];
    }

    /** A member changes, but not what it is compared by. */
    method Update(i: nat, p: Packet)
      requires Valid() && i < entries.Length && Pos(i, head, entries.Length) < occupancy && p.address != 0
      modifies entries, this`contents
      ensures Valid() && contents == old(contents)[Pos(i, head, entries.Length) := p]
    {
      entries[i] := p;
      contents := contents[Pos(i, head, entries.Length) := p];
    }
  }

  // ---- A read enters the read queue ----

  /** What add_rq does with a request. */
  datatype Admission = Forwarded | Merged(at: nat) | Full | Queued

  /** add_rq: the member with which the request merges will tell it too. */
  function Joins(e: Packet, p: Packet): Packet {
    if p.kind == Rfo then e.(stores := e.stores + {p.sqIndex}, storeMerged := true)
    else e.(loads := e.loads + {p.lqIndex}, loadMerged := true)
  }

  function Delayed(p: Packet, now: nat, latency: nat): Packet {
    p.(eventCycle := if p.eventCycle < now then now + latency else p.eventCycle + latency)
  }

  /** A queued request is due the latency later, counted from now or from its own cycle if that is later. */
  lemma DelayedInNumbers(p: Packet, now: nat, latency: nat)
    ensures Delayed(p, now, latency).eventCycle - latency == if now >= p.eventCycle then now else p.eventCycle
    ensures Delayed(p, now, latency) == p.(eventCycle := Delayed(p, now, latency).eventCycle)
  {
  }

  /** A new request has no dependents yet. */
  ghost predicate IsNew(p: Packet) { Honest(p) && IsDemand(p) && !p.loadMerged && !p.storeMerged }

  /** Merging requests forgets nobody. */
  lemma JoinsGathers(e: Packet, p: Packet)
    requires IsNew(p) && Honest(e) && e.kind != Prefetch
    ensures Honest(Joins(e, p)) && LoadsOf(Joins(e, p)) == LoadsOf(e) + LoadsOf(p) && StoresOf(Joins(e, p)) == StoresOf(e) + StoresOf(p)
  {
  }

  /**
    add_rq: a request for a line that is being written is served from the write queue; one
    for a line already asked for merges; else it is queued if there is room.
   */
  method AddRead(rq: PacketQueue, wq: PacketQueue, p: Packet, now: nat, latency: nat) returns (r: Admission)
    requires rq != wq && rq.entries != wq.entries && rq.Valid() && wq.Valid() && p.address != 0
    requires !rq.full && forall k, m :: 0 <= k < m < |rq.contents| ==> rq.contents[k].address != rq.contents[m].address
    modifies rq, rq.entries
    ensures rq.Valid() && wq.Valid()
    ensures r.Forwarded? <==> exists m :: 0 <= m < |wq.contents| && Same(wq.contents[m], p, wq.full)
    ensures !r.Forwarded? ==> (r.Merged? <==> exists m :: 0 <= m < |old(rq.contents)| && old(rq.contents)[m].address == p.address)
    ensures match r
            case Merged(m) =>
              m < |old(rq.contents)| && old(rq.contents)[m].address == p.address
              && rq.contents == old(rq.contents)[m := Joins(old(rq.contents)[m], p)]
            case Queued => rq.contents == old(rq.contents) + [Delayed(p, now, latency)]
            case Full => |rq.contents| == rq.entries.Length && rq.contents == old(rq.contents)
            case Forwarded => rq.contents == old(rq.contents)
    ensures forall k, m :: 0 <= k < m < |rq.contents| ==> rq.contents[k].address != rq.contents[m].address
  {
    var w := wq.CheckQueue(p);
    if w.Some? {
      return Forwarded;
    }
    var i := rq.CheckQueue(p);
    if i.Some? {
      ghost var m := Pos(i.value, rq.head, rq.entries.Length);
      var place := if i.value >= rq.head then i.value - rq.head else i.value - rq.head + rq.entries.Length;
      rq.Update(i.value, Joins(rq.entries[i.value], p));
      return Merged(place);
    }
    if rq.occupancy == rq.entries.Length {
      return Full;
    }
    rq.AddQueue(Delayed(p, now, latency));
    return Queued;
  }
}
