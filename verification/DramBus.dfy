/** The data bus over whole runs: how far apart its uses are. */
module DramBus {
  import opened Options
  import opened DramModel
  import opened DramSafety

  /** The time the bus must rest between two uses: longer when it changes direction. */
  function Gap(first: bool, second: bool, t: Timing): nat {
    t.returnTime + if first == second then 0 else t.turnAround
  }

  ghost predicate Spaced(ts: seq<Transfer>, t: Timing) {
    forall i, j :: 0 <= i < j < |ts| ==> ts[i].cycle + Gap(ts[i].isWrite, ts[j].isWrite, t) <= ts[j].cycle
  }

  /** The bus is held until every past use allows a use in the current direction. */
  ghost predicate BusInv(c: Channel, t: Timing) {
    && Spaced(c.transfers, t)
    && (forall i :: 0 <= i < |c.transfers| ==>
          c.transfers[i].cycle + Gap(c.transfers[i].isWrite, c.writeMode, t) <= c.dbus)
  }

  lemma ProcessBus(c: Channel, now: nat, t: Timing)
    requires |c.bank| == BANK_COUNT && BusInv(c, t)
    requires c.Q(c.writeMode).nextProcess.index < |c.Q(c.writeMode).entry|
    ensures BusInv(Process(c, c.writeMode, now, t), t)
  {}

  lemma SwitchBus(c: Channel, now: nat, t: Timing, m: Marks)
    requires |c.bank| == BANK_COUNT && BusInv(c, t)
    ensures BusInv(SwitchMode(c, now, t, m), t)
  {
    var c1 := SwitchMode(c, now, t, m);
    assert c1.transfers == c.transfers;
    assert c1.dbus == if c1.writeMode == c.writeMode then c.dbus else c.dbus + t.turnAround;
  }

  lemma ApplyBus(c: Channel, e: Event, t: Timing, m: Marks)
    requires |c.bank| == BANK_COUNT && BusInv(c, t)
    ensures BusInv(Apply(c, e, t, m), t)
  {
    if e.Cycle? {
      SwitchBus(c, e.now, t, m);
      var c1 := SwitchMode(c, e.now, t, m);
      var c2 := ScheduleIfDue(c1, e.now, t);
      assert c2.transfers == c1.transfers && c2.dbus == c1.dbus && c2.writeMode == c1.writeMode;
      if IsDue(c2.Q(c2.writeMode).nextProcess, |c2.Q(c2.writeMode).entry|, e.now) {
        ProcessBus(c2, e.now, t);
      }
    }
  }

  lemma StepsBus(c: Channel, c1: Channel, t: Timing, m: Marks)
    requires BusInv(c, t) && Steps(c, c1, t, m)
    ensures BusInv(c1, t)
  {
    var e :| Legal(e) && c1 == Apply(c, e, t, m);
    ApplyBus(c, e, t, m);
  }

  /**
    In every run, any two uses of the bus are at least the return time apart, and a read and
    a write, in either order, at least the return time plus the turn-around time.
   */
  lemma {:induction false} TransfersAreSpaced(run: seq<Channel>, k: nat, t: Timing, m: Marks)
    requires IsRun(run, t, m) && k < |run|
    ensures BusInv(run[k], t)
    ensures Spaced(run[k].transfers, t)
  {
    if k > 0 {
      TransfersAreSpaced(run, k - 1, t, m);
      StepsBus(run[k - 1], run[k], t, m);
    }
  }
}
