/** Lists of the most recently used items, the latest first, and what caches of them hold. */
module RecencyLists {
  import opened Counting

  /** The list without its item at place `p`. */
  function Drop(list: seq<nat>, p: nat): seq<nat>
    requires p < |list|
  {
    list[..p] + list[p + 1..]
  }

  /** The item at place `p` moves to the front. */
  function Front(list: seq<nat>, p: nat): seq<nat>
    requires p < |list|
  {
    [list[p]] + Drop(list, p)
  }

  lemma FrontAt(list: seq<nat>, p: nat)
    requires p < |list|
    ensures |Front(list, p)| == |list|
    ensures forall a :: 0 <= a < |list| ==>
              Front(list, p)[a] == if a == 0 then list[p] else if a <= p then list[a - 1] else list[a]
  {
  }

  lemma DropAt(list: seq<nat>, p: nat)
    requires p < |list|
    ensures |Drop(list, p)| == |list| - 1
    ensures forall a :: 0 <= a < |list| - 1 ==> Drop(list, p)[a] == if a < p then list[a] else list[a + 1]
  {
  }

  function Without(list: seq<nat>, x: nat): seq<nat> {
    if list == [] then []
    else if list[0] == x then list[1..]
    else [list[0]] + Without(list[1..], x)
  }

  function Limit(list: seq<nat>, n: nat): (r: seq<nat>)
    ensures |r| <= n
  {
    if |list| <= n then list else list[..n]
  }

  /** An item is used: it is first in the list, which keeps at most `n`. */
  function Use(list: seq<nat>, x: nat, n: nat): seq<nat> { Limit([x] + Without(list, x), n) }

  lemma {:induction false} WithoutIsDrop(list: seq<nat>, p: nat)
    requires Distinct(list) && p < |list|
    ensures Without(list, list[p]) == Drop(list, p)
    ensures list[p] !in Drop(list, p)
  {
    if p > 0 {
      var rest := list[1..];
      WithoutIsDrop(rest, p - 1);
      assert rest[p - 1] == list[p];
      assert [list[0]] + Drop(rest, p - 1) == Drop(list, p);
    } else {
      assert Drop(list, 0) == list[1..];
    }
  }

  lemma {:induction false} WithoutAbsent(list: seq<nat>, x: nat)
    requires x !in list
    ensures Without(list, x) == list
  {
    if list != [] {
      WithoutAbsent(list[1..], x);
    }
  }

  lemma {:induction false} WithoutKeeps(list: seq<nat>, x: nat)
    requires Distinct(list)
    ensures Distinct(Without(list, x)) && x !in Without(list, x)
    ensures forall y :: y in Without(list, x) <==> y in list && y != x
    ensures |Without(list, x)| == if x in list then |list| - 1 else |list|
  {
    if list != [] {
      var rest := list[1..];
      WithoutKeeps(rest, x);
      assert list == [list[0]] + rest;
      assert list[0] !in rest;
      if list[0] != x {
        var r := Without(rest, x);
        assert list[0] !in r;
        assert forall a :: 0 <= a < |r| ==> r[a] in r;
      }
    }
  }

  /** Using an item keeps a list of distinct items, with that item in it. */
  lemma UseKeeps(list: seq<nat>, x: nat, n: nat)
    requires Distinct(list) && |list| <= n && n > 0
    ensures Distinct(Use(list, x, n)) && |Use(list, x, n)| <= n && x in Use(list, x, n)
    ensures x in list ==> forall y :: y in Use(list, x, n) <==> y in list
    ensures x !in list && |list| < n ==> forall y :: y in Use(list, x, n) <==> y in list || y == x
    ensures x !in list && |list| == n ==> forall y :: y in Use(list, x, n) <==> y == x || (y in list && y != list[n - 1])
  {
    WithoutKeeps(list, x);
    assert Use(list, x, n)[0] == x;
    if x !in list {
      WithoutAbsent(list, x);
      if |list| == n {
        assert Use(list, x, n) == [x] + list[..n - 1];
        assert list == list[..n - 1] + [list[n - 1]];
      }
    }
  }

  /** Using an item that is in the list moves it to the front. */
  lemma UseIsFront(list: seq<nat>, p: nat, n: nat)
    requires Distinct(list) && p < |list| <= n
    ensures Use(list, list[p], n) == Front(list, p) && Distinct(Front(list, p)) && |Front(list, p)| == |list|
  {
    WithoutIsDrop(list, p);
  }

  /** A new item comes first; the last of a full list is gone. */
  lemma UseNewAt(list: seq<nat>, x: nat, n: nat)
    requires Distinct(list) && x !in list && |list| <= n && n > 0
    ensures Distinct(Use(list, x, n)) && |Use(list, x, n)| == if |list| == n then n else |list| + 1
    ensures forall a :: 0 <= a < |Use(list, x, n)| ==> Use(list, x, n)[a] == if a == 0 then x else list[a - 1]
  {
    UseKeeps(list, x, n);
    WithoutAbsent(list, x);
  }

  // ---- The list of a cache is the recent past ----

  /** All items of a history, each once, the latest first. */
  function Recent(history: seq<nat>): seq<nat> {
    if history == [] then []
    else [history[|history| - 1]] + Without(Recent(history[..|history| - 1]), history[|history| - 1])
  }

  /** What a cache of `n` items holds after a history of uses, the latest last. */
  function Held(history: seq<nat>, n: nat): seq<nat> {
    if history == [] then [] else Use(Held(history[..|history| - 1], n), history[|history| - 1], n)
  }

  lemma {:induction false} RecentDistinct(history: seq<nat>)
    ensures Distinct(Recent(history))
  {
    if history != [] {
      var n := |history| - 1;
      var r := Without(Recent(history[..n]), history[n]);
      assert forall a :: 0 <= a < |r| ==> r[a] in r;
      RecentDistinct(history[..n]);
      WithoutKeeps(Recent(history[..n]), history[n]);
    }
  }

  /** Forgetting what is past the limit does not change what is recent. */
  lemma {:induction false} LimitOfUse(list: seq<nat>, x: nat, n: nat)
    requires n > 0
    ensures Use(Limit(list, n), x, n) == Limit([x] + Without(list, x), n)
  {
    if list != [] && list[0] != x {
      if n > 1 {
        LimitOfUse(list[1..], x, n - 1);
        assert Limit(list, n) == [list[0]] + Limit(list[1..], n - 1);
        var a := Without(Limit(list[1..], n - 1), x);
        var b := Without(list[1..], x);
        assert Limit([x] + a, n - 1) == Limit([x] + b, n - 1);
        SameButOne(a, b, x, list[0], n);
      } else {
        assert Limit(list, n) == [list[0]];
        assert Without([list[0]], x) == [list[0]];
      }
    }
  }

  /** Lists that agree up to a limit agree after another item is put in second place. */
  lemma SameButOne(a: seq<nat>, b: seq<nat>, x: nat, y: nat, n: nat)
    requires n > 1 && Limit([x] + a, n - 1) == Limit([x] + b, n - 1)
    ensures Limit([x] + ([y] + a), n) == Limit([x] + ([y] + b), n)
  {
    assert Limit(a, n - 2) == Limit([x] + a, n - 1)[1..];
    assert Limit(b, n - 2) == Limit([x] + b, n - 1)[1..];
    assert Limit([x] + ([y] + a), n) == [x, y] + Limit(a, n - 2);
    assert Limit([x] + ([y] + b), n) == [x, y] + Limit(b, n - 2);
  }

  /** A cache of `n` items holds exactly the `n` most recently used ones, in that order. */
  lemma {:induction false} HoldsTheRecent(history: seq<nat>, n: nat)
    requires n > 0
    ensures Held(history, n) == Limit(Recent(history), n)
  {
    if history != [] {
      var k := |history| - 1;
      HoldsTheRecent(history[..k], n);
      LimitOfUse(Recent(history[..k]), history[k], n);
    }
  }

  /** So a larger cache always holds what a smaller one does. */
  lemma LargerHoldsMore(history: seq<nat>, m: nat, n: nat)
    requires 0 < m <= n
    ensures Held(history, m) <= Held(history, n)
  {
    HoldsTheRecent(history, m);
    HoldsTheRecent(history, n);
  }

  // ---- Segmented lists ----

  /** New items are on probation; an item that is used again there is protected. */
  datatype Segments = Segments(guarded: seq<nat>, probation: seq<nat>)

  /** SLRUMCache::access: what falls out of the protected list is on probation again. */
  function Access(s: Segments, x: nat, n: nat): Segments {
    if x in s.guarded then s.(guarded := Use(s.guarded, x, n))
    else if x in s.probation then
      var probation := Without(s.probation, x);
      Segments(Use(s.guarded, x, n),
               if |s.guarded| == n && n > 0 then Use(probation, s.guarded[n - 1], n) else probation)
    else s.(probation := Use(s.probation, x, n))
  }

  ghost predicate SegmentsOk(s: Segments, n: nat) {
    && Distinct(s.guarded) && Distinct(s.probation) && |s.guarded| <= n && |s.probation| <= n
    && forall x :: x in s.guarded ==> x !in s.probation
  }

  predicate Cached(s: Segments, x: nat) { x in s.guarded || x in s.probation }

  /** A hit changes no membership: what the protected list gives up always finds room on probation. */
  lemma HitKeepsAll(s: Segments, x: nat, n: nat)
    requires SegmentsOk(s, n) && n > 0 && Cached(s, x)
    ensures SegmentsOk(Access(s, x, n), n)
    ensures forall y :: Cached(Access(s, x, n), y) <==> Cached(s, y)
    ensures x in Access(s, x, n).guarded
  {
    hide Use, Without, Limit;
    UseKeeps(s.guarded, x, n);
    if x !in s.guarded {
      WithoutKeeps(s.probation, x);
      if |s.guarded| == n {
        assert s.guarded[n - 1] in s.guarded;
        UseKeeps(Without(s.probation, x), s.guarded[n - 1], n);
      }
    }
  }

  /** A miss puts the item on probation, and evicts only the oldest item there, if there is no room. */
  lemma MissEvictsOne(s: Segments, x: nat, n: nat)
    requires SegmentsOk(s, n) && n > 0 && !Cached(s, x)
    ensures SegmentsOk(Access(s, x, n), n) && x in Access(s, x, n).probation
    ensures Access(s, x, n).guarded == s.guarded
    ensures forall y :: Cached(Access(s, x, n), y)
                        <==> y == x || (Cached(s, y) && !(|s.probation| == n && y == s.probation[n - 1]))
  {
    hide Use, Limit;
    UseKeeps(s.probation, x, n);
    if |s.probation| == n {
      assert s.probation[n - 1] in s.probation;
    }
  }

  /** A hit in the protected list moves the item to the front; the others keep their order. */
  lemma GuardedHitOrder(s: Segments, n: nat, p: nat)
    requires SegmentsOk(s, n) && p < |s.guarded|
    ensures Access(s, s.guarded[p], n) == Segments([s.guarded[p]] + s.guarded[..p] + s.guarded[p + 1..], s.probation)
  {
    UseIsFront(s.guarded, p, n);
    assert Front(s.guarded, p) == [s.guarded[p]] + s.guarded[..p] + s.guarded[p + 1..];
  }

  /**
    A hit on probation moves the item to the front of the protected list. If that was full, its
    last item goes to the front of the other list; nothing else moves.
   */
  lemma ProbationHitOrder(s: Segments, n: nat, p: nat)
    requires SegmentsOk(s, n) && n > 0 && p < |s.probation|
    ensures var x := s.probation[p]; var rest := s.probation[..p] + s.probation[p + 1..];
            Access(s, x, n) == if |s.guarded| < n then Segments([x] + s.guarded, rest)
                               else Segments([x] + s.guarded[..n - 1], [s.guarded[n - 1]] + rest)
  {
    var x := s.probation[p];
    var rest := s.probation[..p] + s.probation[p + 1..];
    assert x !in s.guarded;
    WithoutIsDrop(s.probation, p);
    WithoutAbsent(s.guarded, x);
    assert |s.guarded| == n ==> ([x] + s.guarded)[..n] == [x] + s.guarded[..n - 1];
    if |s.guarded| == n {
      assert s.guarded[n - 1] in s.guarded;
      assert s.guarded[n - 1] !in rest;
      WithoutAbsent(rest, s.guarded[n - 1]);
    }
  }

  /** A miss puts the item first on probation, where a full list loses its last. */
  lemma MissOrder(s: Segments, x: nat, n: nat)
    requires SegmentsOk(s, n) && n > 0 && !Cached(s, x)
    ensures Access(s, x, n)
            == Segments(s.guarded, if |s.probation| < n then [x] + s.probation else [x] + s.probation[..n - 1])
  {
    WithoutAbsent(s.probation, x);
    assert |s.probation| == n ==> ([x] + s.probation)[..n] == [x] + s.probation[..n - 1];
  }
}
