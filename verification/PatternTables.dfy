/**
  The pattern tables of the signature-path prefetchers: how often each delta followed a
  signature, counted in small counters that are halved together. Two versions are in use, in
  kpcp.h and in spp_dev.l2c_pref.
 */
module PatternTables {
  import opened Options

  /** A delta and how often it was seen; delta 0 marks a free way in the first version. */
  datatype Way = Way(delta: int, count: nat)

  /** The ways of one signature, and how often the signature was seen. */
  datatype PatternSet = PatternSet(ways: seq<Way>, total: nat)

  function Sum(ways: seq<Way>): nat {
    if ways == [] then 0 else Sum(ways[..|ways| - 1]) + ways[|ways| - 1].count
  }

  lemma {:induction false} SumUpdate(ways: seq<Way>, i: nat, w: Way)
    requires i < |ways|
    ensures Sum(ways[i := w]) == Sum(ways) - ways[i].count + w.count
    ensures ways[i].count <= Sum(ways)
  {
    var n := |ways| - 1;
    if i == n {
      assert ways[i := w][..n] == ways[..n];
    } else {
      SumUpdate(ways[..n], i, w);
      assert ways[i := w][..n] == ways[..n][i := w];
    }
  }

  lemma {:induction false} SumZero(ways: seq<Way>)
    requires forall i :: 0 <= i < |ways| ==> ways[i].count == 0
    ensures Sum(ways) == 0
  {
    if ways != [] {
      SumZero(ways[..|ways| - 1]);
    }
  }

  function Halved(ways: seq<Way>): (r: seq<Way>)
    ensures |r| == |ways|
  {
    seq(|ways|, i requires 0 <= i < |ways| => ways[i].(count := ways[i].count / 2))
  }

  lemma {:induction false} SumHalved(ways: seq<Way>)
    ensures 2 * Sum(Halved(ways)) <= Sum(ways)
  {
    if ways != [] {
      var n := |ways| - 1;
      SumHalved(ways[..n]);
      assert Halved(ways)[..n] == Halved(ways[..n]);
    }
  }

  // ---- Searches ----

  function FindDelta(ways: seq<Way>, delta: int, n: nat): (r: Option<nat>)
    requires n <= |ways|
    ensures r.Some? ==> r.value < n && ways[r.value].delta == delta && forall i :: 0 <= i < r.value ==> ways[i].delta != delta
    ensures r.None? ==> forall i :: 0 <= i < n ==> ways[i].delta != delta
  {
    if n == 0 then None
    else match FindDelta(ways, delta, n - 1)
      case Some(i) => Some(i)
      case None => if ways[n - 1].delta == delta then Some(n - 1) else None
  }

  /** The first way with the lowest counter, among those below `bound`. */
  function FindLowest(ways: seq<Way>, bound: nat, n: nat): (r: Option<nat>)
    requires n <= |ways|
    ensures r.Some? ==> r.value < n && ways[r.value].count < bound
                        && (forall i :: 0 <= i < n ==> ways[r.value].count <= ways[i].count)
                        && (forall i :: 0 <= i < r.value ==> ways[r.value].count < ways[i].count)
    ensures r.None? ==> forall i :: 0 <= i < n ==> ways[i].count >= bound
  {
    if n == 0 then None
    else match FindLowest(ways, bound, n - 1)
      case None => if ways[n - 1].count < bound then Some(n - 1) else None
      case Some(i) => if ways[n - 1].count < ways[i].count then Some(n - 1) else Some(i)
  }

  // ---- L2_PT_update of kpcp.h ----

  /** CSIG_MAX and CDELTA_MAX */
  const CSIG_MAX: nat := 16

  /** One more sighting of the signature; at CSIG_MAX all counters are halved. */
  function Seen(s: PatternSet): PatternSet {
    if s.total + 1 == CSIG_MAX then PatternSet(Halved(s.ways), CSIG_MAX / 2) else s.(total := s.total + 1)
  }

  /** The way of a delta: its own, else a free one, else the one with the lowest counter below CSIG_MAX. */
  function WayFor(ways: seq<Way>, delta: int): (r: Option<nat>)
    ensures r.Some? ==> r.value < |ways|
  {
    match FindDelta(ways, delta, |ways|)
    case Some(i) => Some(i)
    case None =>
      match FindDelta(ways, 0, |ways|)
      case Some(i) => Some(i)
      case None => FindLowest(ways, CSIG_MAX, |ways|)
  }

  function Counted(w: Way, delta: int): Way {
    if w.delta == delta then w.(count := w.count + 1) else Way(delta, 0)
  }

  function Learn(s: PatternSet, delta: int): PatternSet {
    var s1 := Seen(s);
    match WayFor(s1.ways, delta)
    case Some(i) => s1.(ways := s1.ways[i := Counted(s1.ways[i], delta)])
    case None => s1
  }

  /** The counters of the ways never add up to more than the sightings, which stay below CSIG_MAX. */
  ghost predicate SetOk(s: PatternSet) {
    && |s.ways| > 0 && Sum(s.ways) <= s.total < CSIG_MAX
    && (forall i :: 0 <= i < |s.ways| ==> (s.ways[i].delta == 0 ==> s.ways[i].count == 0) && -63 <= s.ways[i].delta <= 63)
    && (forall i, j :: 0 <= i < j < |s.ways| && s.ways[i].delta != 0 ==> s.ways[i].delta != s.ways[j].delta)
  }

  /** No way counts more than the signature was seen. */
  lemma WayBound(s: PatternSet, i: nat)
    requires Sum(s.ways) <= s.total && i < |s.ways|
    ensures s.ways[i].count <= s.total
  {
    SumUpdate(s.ways, i, s.ways[i]);
  }

  lemma SeenOk(s: PatternSet)
    requires SetOk(s)
    ensures var s1 := Seen(s); |s1.ways| == |s.ways| && Sum(s1.ways) + 1 <= s1.total < CSIG_MAX
    ensures forall i :: 0 <= i < |s.ways| ==> Seen(s).ways[i].delta == s.ways[i].delta && Seen(s).ways[i].count <= s.ways[i].count
  {
    SumHalved(s.ways);
  }

  /** Counting, replacing and halving keep the sum in bounds, so there is always a way to replace. */
  lemma LearnOk(s: PatternSet, delta: int)
    requires SetOk(s) && delta != 0 && -63 <= delta <= 63
    ensures SetOk(Learn(s, delta)) && |Learn(s, delta).ways| == |s.ways|
    ensures WayFor(Seen(s).ways, delta).Some?
    ensures exists i :: 0 <= i < |s.ways| && Learn(s, delta).ways[i].delta == delta
  {
    SeenOk(s);
    var s1 := Seen(s);
    WayBound(s1, 0);
    var i := WayFor(s1.ways, delta).value;
    SumUpdate(s1.ways, i, Counted(s1.ways[i], delta));
    assert Learn(s, delta).ways[i].delta == delta;
  }

  // ---- PATTERN_TABLE::update_pattern of spp_dev ----

  /** C_SIG_MAX of the second version, whose counters are halved after they pass it. */
  const C_SIG_MAX: nat := 15

  function SppSeen(s: PatternSet): PatternSet {
    if s.total + 1 > C_SIG_MAX then PatternSet(Halved(s.ways), (s.total + 1) / 2) else s.(total := s.total + 1)
  }

  /** The delta's own way, else the one with the lowest counter below C_SIG_MAX. */
  function SppWay(ways: seq<Way>, delta: int): (r: Option<nat>)
    ensures r.Some? ==> r.value < |ways|
  {
    match FindDelta(ways, delta, |ways|)
    case Some(i) => Some(i)
    case None => FindLowest(ways, C_SIG_MAX, |ways|)
  }

  function SppLearn(s: PatternSet, delta: int): PatternSet {
    match SppWay(s.ways, delta)
    case Some(i) => SppSeen(s.(ways := s.ways[i := Counted(s.ways[i], delta)]))
    case None => s
  }

  ghost predicate SppOk(s: PatternSet) { |s.ways| > 1 && Sum(s.ways) <= s.total <= C_SIG_MAX }

  /** With more than one way, the counters cannot all be at the maximum. */
  lemma SppVictimExists(s: PatternSet)
    requires SppOk(s)
    ensures FindLowest(s.ways, C_SIG_MAX, |s.ways|).Some?
  {
    TwoWays(s.ways);
  }

  lemma TwoWays(ways: seq<Way>)
    requires |ways| > 1
    ensures ways[0].count + ways[1].count <= Sum(ways)
  {
    SumUpdate(ways, 0, Way(0, 0));
    SumUpdate(ways[0 := Way(0, 0)], 1, Way(0, 0));
  }

  /** The second version keeps the same bound, and always finds a victim. */
  lemma SppLearnOk(s: PatternSet, delta: int)
    requires SppOk(s)
    ensures SppWay(s.ways, delta).Some?
    ensures SppOk(SppLearn(s, delta)) && |SppLearn(s, delta).ways| == |s.ways|
    ensures exists i :: 0 <= i < |s.ways| && SppLearn(s, delta).ways[i].delta == delta
  {
    SppVictimExists(s);
    var i := SppWay(s.ways, delta).value;
    var ways := s.ways[i := Counted(s.ways[i], delta)];
    SumUpdate(s.ways, i, Counted(s.ways[i], delta));
    SumHalved(ways);
    assert SppLearn(s, delta).ways[i].delta == delta;
  }
}
