/** The cache as the simulator runs it: searches and updates over its arrays, in place. */
module CacheArrays {
  import opened Options
  import opened Powers
  import opened Recency
  import opened CacheModel
  import opened CacheSafety

  /** The contents of the block arrays. */
  ghost function Contents(rows: seq<array<Block>>): (r: seq<seq<Block>>)
    reads set s | 0 <= s < |rows| :: rows[s]
    ensures |r| == |rows| && forall s :: 0 <= s < |rows| ==> r[s] == rows[s][..]
  {
    if rows == [] then [] else Contents(rows[..|rows| - 1]) + [rows[|rows| - 1][..]]
  }

  /** lru_update's loop has passed the ways below `n`. */
  ghost predicate HalfTouched(before: seq<Block>, row: seq<Block>, w: nat, n: nat)
    requires w < |before| && |row| == |before|
  {
    forall i :: 0 <= i < |row| ==> row[i] == if i < n && i != w then TouchRow(before, w)[i] else before[i]
  }

  /** check_hit's loop over the ways. */
  method FindHit(row: array<Block>, a: nat) returns (r: Option<nat>)
    ensures r == CheckHit(row[..], a)
  {
    for way := 0 to row.Length
      invariant forall v :: 0 <= v < way ==> !IsHit(row[v], a)
    {
      if row[way].valid && row[way].tag == a {
        return Some(way);
      }
    }
    return None;
  }

  method LruUpdate(row: array<Block>, way: nat)
    requires way < row.Length
    modifies row
    ensures row[..] == TouchRow(old(row[..]), way)
  {
    ghost var before := row[..];
    for i := 0 to row.Length
      invariant HalfTouched(before, row[..], way, i)
    {
      if row[i].lru < row[way].lru {
        row[i] := row[i].(lru := row[i].lru + 1);
      }
    }
    row[way] := row[way].(lru := 0);
  }

  method LruVictim(row: array<Block>) returns (way: nat)
    requires Victim(row[..]).Some?
    ensures way < row.Length && Victim(row[..]) == Some(way)
  {
    way := 0;
    while way < row.Length && row[way].valid
      invariant way <= row.Length && forall v :: 0 <= v < way ==> row[v].valid
    {
      way := way + 1;
    }
    if way == row.Length {
      way := 0;
      while way < row.Length && row[way].lru != row.Length - 1
        invariant way <= row.Length && forall v :: 0 <= v < way ==> row[v].lru != row.Length - 1
      {
        way := way + 1;
      }
    }
    // "no victim" does not happen.
    assert way != row.Length;
  }

  /** fill_cache, after the replacement policy has been told: way `way` takes the line of `e`. */
  method FillCache(row: array<Block>, way: nat, e: Packet)
    requires way < row.Length
    modifies row
    ensures var row1 := TouchRow(old(row[..]), way); row[..] == row1[way := Filled(row1[way], e)]
  {
    ghost var row1 := TouchRow(row[..], way);
    LruUpdate(row, way);
    row[way] := Block(true, false, e.kind == Prefetch, false, e.address, row[way].lru);
    if e.kind == Rfo {
      row[way] := row[way].(dirty := true);
    }
    assert row[..] == row1[way := Filled(row1[way], e)];
  }

  class CacheUnit {
    const level: nat
    const latency: nat
    const rows: seq<array<Block>>
    const mshr: array<Packet>
    var occupancy: int
    var nextIndex: nat
    var nextCycle: Option<nat>

    /** The sets do not share their arrays. */
    ghost predicate Apart()
      reads this
    {
      && |rows| > 0
      && (forall s, t :: 0 <= s < t < |rows| ==> rows[s] != rows[t])
      && (forall s :: 0 <= s < |rows| ==> rows[s] as object != mshr)
    }

    ghost function Value(): Cache
      reads this, mshr, set s | 0 <= s < |rows| :: rows[s]
    {
      Cache(level, latency, Contents(rows), mshr[..], occupancy, nextIndex, nextCycle)
    }

    constructor (level: nat, latency: nat, sets: nat, ways: nat, registers: nat)
      requires sets > 0
      ensures Apart() && Value() == Initial(level, latency, sets, ways, registers)
    {
      var all: seq<array<Block>> := [];
      for s := 0 to sets
        invariant |all| == s && forall t :: 0 <= t < s ==> fresh(all[t]) && all[t][..] == EmptyRow(ways)
        invariant forall t, u :: 0 <= t < u < s ==> all[t] != all[u]
      {
        var row := new Block[ways](w => Block(false, false, false, false, 0, w));
        assert row[..] == EmptyRow(ways);
        all := all + [row];
      }
      this.level, this.latency, rows := level, latency, all;
      mshr := new Packet[registers](_ => NO_PACKET);
      occupancy, nextIndex, nextCycle := 0, 0, None;
      new;
      assert Contents(rows) == Initial(level, latency, sets, ways, registers).sets;
    }

    method CheckHit(a: nat) returns (s: nat, r: Option<nat>)
      requires Apart()
      ensures s < |rows| && s == SetOf(|rows|, a) && r == CacheModel.CheckHit(rows[s][..], a)
    {
      s := a % Pow2(Lg2(|rows|));
      assert s == SetOf(|rows|, a);
      r := FindHit(rows[s], a);
    }

    method CheckMshr(a: nat) returns (r: Option<nat>)
      ensures r == CacheModel.CheckMshr(mshr[..], a)
    {
      for i := 0 to mshr.Length
        invariant forall k :: 0 <= k < i ==> mshr[k].address != a
      {
        if mshr[i].address == a {
          return Some(i);
        }
      }
      return None;
    }

    method AddMshr(p: Packet)
      requires Apart()
      modifies mshr, this`occupancy
      ensures Value() == CacheModel.AddMshr(old(Value()), p)
    {
      var i := CheckMshr(0);
      match i {
        case Some(k) =>
          mshr[k] := p.(returned := false);
          occupancy := occupancy + 1;
          assert mshr[..] == old(mshr[..])[k := p.(returned := false)];
        case None =>
      }
      assert Contents(rows) == old(Contents(rows));
    }

    method UpdateFillCycle()
      modifies this`nextIndex, this`nextCycle
      ensures Value() == CacheModel.UpdateFillCycle(old(Value()))
    {
      var minCycle: Option<nat> := None;
      var minIndex := mshr.Length;
      for i := 0 to mshr.Length
        invariant FindEarliest(mshr[..], i) == if minCycle == None then None else Some(minIndex)
        invariant minCycle == None ==> minIndex == mshr.Length
        invariant minCycle.Some? ==> minIndex < i && minCycle.value == mshr[minIndex].eventCycle
      {
        if mshr[i].returned && (minCycle == None || mshr[i].eventCycle < minCycle.value) {
          minCycle := Some(mshr[i].eventCycle);
          minIndex := i;
        }
      }
      nextCycle := minCycle;
      nextIndex := minIndex;
      assert mshr[..] == old(mshr[..]) && Contents(rows) == old(Contents(rows));
    }

    /** return_data, for a line that has a register. */
    method ReturnData(a: nat, now: nat)
      requires Apart() && CacheModel.CheckMshr(mshr[..], a).Some?
      modifies mshr, this`nextIndex, this`nextCycle
      ensures Value() == CacheModel.ReturnData(old(Value()), CacheModel.CheckMshr(old(mshr[..]), a).value, now)
    {
      var r := CheckMshr(a);
      var i := r.value;
      var cycle := if mshr[i].eventCycle < now then now + latency else mshr[i].eventCycle + latency;
      mshr[i] := mshr[i].(returned := true, eventCycle := cycle);
      assert mshr[..] == old(mshr[..])[i := mshr[i]] && Contents(rows) == old(Contents(rows));
      UpdateFillCycle();
    }

    /** A miss: merge with the line's register, or take a free one, or give up for now. */
    method Miss(p: Packet, from: Queue, keep: bool) returns (handled: bool)
      requires Apart()
      modifies mshr, this`occupancy
      ensures Result(Value(), handled) == CacheModel.Miss(old(Value()), p, from, keep)
    {
      var i := CheckMshr(p.address);
      if i.None? && occupancy < mshr.Length {
        if keep {
          AddMshr(p);
        }
        handled := true;
      } else if i.None? {
        handled := false;
      } else {
        mshr[i.value] := Merge(mshr[i.value], p, from);
        handled := true;
        assert mshr[..] == old(mshr[..])[i.value := mshr[i.value]] && Contents(rows) == old(Contents(rows));
      }
    }

    /** A hit: the line becomes the most recent, unless it is written back from above, and its flags change. */
    method Touch(s: nat, w: nat, touched: bool, dirty: bool, read: bool)
      requires Apart() && s < |rows| && w < rows[s].Length
      modifies rows[s]
      ensures var row := if touched then TouchRow(old(rows[s][..]), w) else old(rows[s][..]);
              var b := row[w];
              var b1 := if dirty then b.(dirty := true) else b;
              Value() == old(Value()).(sets := old(Contents(rows))[s := row[w := if read then b1.(prefetch := false, used := true) else b1]])
    {
      if touched {
        LruUpdate(rows[s], w);
      }
      if dirty {
        rows[s][w] := rows[s][w].(dirty := true);
      }
      if read {
        if rows[s][w].prefetch {
          rows[s][w] := rows[s][w].(prefetch := false);
        }
        rows[s][w] := rows[s][w].(used := true);
      }
      ghost var row := if touched then TouchRow(old(rows[s][..]), w) else old(rows[s][..]);
      ghost var b := if dirty then row[w].(dirty := true) else row[w];
      assert rows[s][..] == row[w := if read then b.(prefetch := false, used := true) else b];
      assert Contents(rows) == old(Contents(rows))[s := rows[s][..]];
    }

    method HandleWrite(p: Packet) returns (handled: bool)
      requires Apart() && Inv(Value()) && p.address != 0
      modifies mshr, this, set s | 0 <= s < |rows| :: rows[s]
      ensures Apart() && Inv(Value()) && |old(Value()).sets| > 0
      ensures Result(Value(), handled) == CacheModel.HandleWrite(old(Value()), p)
    {
      HandleWriteInv(Value(), p);
      hide Inv;
      var s, way := CheckHit(p.address);
      if way.Some? {
        Touch(s, way.value, p.kind != Writeback, true, false);
        handled := true;
      } else {
        handled := Miss(p, Writes, true);
      }
    }

    method HandleRead(p: Packet) returns (handled: bool)
      requires Apart() && Inv(Value()) && p.address != 0
      modifies mshr, this, set s | 0 <= s < |rows| :: rows[s]
      ensures Apart() && Inv(Value()) && |old(Value()).sets| > 0
      ensures Result(Value(), handled) == CacheModel.HandleRead(old(Value()), p)
    {
      HandleReadInv(Value(), p);
      hide Inv;
      var s, way := CheckHit(p.address);
      if way.Some? {
        Touch(s, way.value, p.kind != Writeback, false, true);
        handled := true;
      } else {
        handled := Miss(p, Reads, true);
      }
    }

    method HandlePrefetch(p: Packet, lowerRoom: bool) returns (handled: bool)
      requires Apart() && Inv(Value()) && p.address != 0
      modifies mshr, this, set s | 0 <= s < |rows| :: rows[s]
      ensures Apart() && Inv(Value()) && |old(Value()).sets| > 0
      ensures Result(Value(), handled) == CacheModel.HandlePrefetch(old(Value()), p, lowerRoom)
    {
      HandlePrefetchInv(Value(), p, lowerRoom);
      hide Inv;
      var s, way := CheckHit(p.address);
      if way.Some? {
        Touch(s, way.value, p.kind != Writeback, false, false);
        handled := true;
        ghost var row := if p.kind != Writeback then TouchRow(old(rows[s][..]), way.value) else old(rows[s][..]);
        assert row[way.value := row[way.value]] == row;
      } else {
        var i := CheckMshr(p.address);
        if i.None? && occupancy < mshr.Length && !lowerRoom {
          handled := false;
        } else {
          handled := Miss(p, Prefetches, p.fillLevel <= level);
        }
      }
    }

    /** remove_queue on a miss register. */
    method RemoveMshr(i: nat)
      requires Apart() && i < mshr.Length
      modifies mshr, this`occupancy
      ensures Value() == old(Value()).(mshr := old(mshr[..])[i := NO_PACKET], occupancy := old(occupancy) - 1)
    {
      mshr[i] := NO_PACKET;
      occupancy := occupancy - 1;
      assert mshr[..] == old(mshr[..])[i := NO_PACKET];
      assert Contents(rows) == old(Contents(rows));
    }

    /** The next line takes the place of its victim. */
    method Fill(s: nat, way: nat)
      requires Apart() && nextIndex < mshr.Length && s == SetOf(|rows|, mshr[nextIndex].address)
      requires Victim(rows[s][..]) == Some(way)
      modifies mshr, this`occupancy, this`nextIndex, this`nextCycle, rows[s]
      ensures |old(Value()).sets| > 0 && Value() == CacheModel.Fill(old(Value()))
    {
      hide Victim, TouchRow, Filled, CacheModel.UpdateFillCycle;
      FillCache(rows[s], way, mshr[nextIndex]);
      assert Contents(rows) == old(Contents(rows))[s := rows[s][..]];
      RemoveMshr(nextIndex);
      UpdateFillCycle();
    }

    method HandleFill(now: nat, lowerRoom: bool)
      requires Apart() && Inv(Value())
      modifies mshr, this, set s | 0 <= s < |rows| :: rows[s]
      ensures Apart() && Inv(Value()) && |old(Value()).sets| > 0
      ensures Value() == CacheModel.HandleFill(old(Value()), now, lowerRoom)
    {
      HandleFillInv(Value(), now, lowerRoom);
      hide SetsOk, MshrOk, Exclusive, NextOk, CacheModel.Fill;
      // An index past the end, or an empty register, stands for no cpu.
      if nextIndex >= mshr.Length || mshr[nextIndex].address == 0 {
        return;
      }
      if nextCycle.Some? && nextCycle.value <= now {
        var s := mshr[nextIndex].address % Pow2(Lg2(|rows|));
        assert s == SetOf(|rows|, mshr[nextIndex].address);
        VictimExists(Value(), s);
        hide Inv, Victim;
        var way := LruVictim(rows[s]);
        if rows[s][way].dirty && !lowerRoom {
          return;
        }
        Fill(s, way);
      }
    }

    method InvalidateEntry(a: nat) returns (way: Option<nat>)
      requires Apart() && Inv(Value())
      modifies set s | 0 <= s < |rows| :: rows[s]
      ensures Apart() && Inv(Value()) && |old(Value()).sets| > 0
      ensures Value() == Invalidate(old(Value()), a)
    {
      InvalidateInv(Value(), a);
      hide Inv;
      var s;
      s, way := CheckHit(a);
      if way.Some? {
        rows[s][way.value] := rows[s][way.value].(valid := false);
        assert rows[s][..] == old(rows[s][..])[way.value := rows[s][way.value]];
      }
      assert Contents(rows) == old(Contents(rows))[s := rows[s][..]];
    }
  }
}
