/** Counting the members of sets and of lists without repetition. */
module Counting {
  ghost predicate Distinct(q: seq<nat>) { forall a, b :: 0 <= a < b < |q| ==> q[a] != q[b] }

  function Numbers(n: nat): (r: set<nat>)
    ensures |r| == n && forall i: nat :: i in r <==> i < n
  {
    if n == 0 then {} else Numbers(n - 1) + {n - 1}
  }

  function Members(q: seq<nat>): (r: set<nat>)
    ensures forall i :: i in r <==> i in q
  {
    set i | i in q
  }

  /** Distinct numbers below `n`: at most `n` of them, and fewer if one number is missing. */
  lemma Pigeonhole(q: seq<nat>, n: nat)
    requires Distinct(q) && forall a :: 0 <= a < |q| ==> q[a] < n
    ensures |q| <= n
    ensures (exists i :: 0 <= i < n && i !in q) ==> |q| < n
  {
    SeqAsSet(q);
    CardinalOfSubset(Members(q), Numbers(n));
    if i :| 0 <= i < n && i !in q {
      CardinalOfSubset(Members(q), Numbers(n) - {i});
    }
  }

  lemma {:induction false} SeqAsSet(q: seq<nat>)
    requires Distinct(q)
    ensures |Members(q)| == |q|
  {
    if q != [] {
      var q1 := q[..|q| - 1];
      SeqAsSet(q1);
      assert q == q1 + [q[|q| - 1]];
      assert Members(q) == Members(q1) + {q[|q| - 1]};
    }
  }

  lemma {:induction false} CardinalOfSubset<T>(a: set<T>, b: set<T>)
    requires a <= b
    ensures |a| <= |b|
  {
    if a != {} {
      var x :| x in a;
      CardinalOfSubset(a - {x}, b - {x});
    }
  }

  /** The members of a set that are below `n`, in ascending order. */
  function Ascending(s: set<nat>, n: nat): (r: seq<nat>)
    ensures forall i :: i in r <==> i in s && i < n
    ensures forall a :: 0 <= a < |r| ==> r[a] < n
    ensures forall a, b :: 0 <= a < b < |r| ==> r[a] < r[b]
  {
    if n == 0 then []
    else if n - 1 in s then Ascending(s, n - 1) + [n - 1]
    else Ascending(s, n - 1)
  }

  lemma AscendingNext(s: set<nat>, n: nat)
    ensures Ascending(s, n + 1) == if n in s then Ascending(s, n) + [n] else Ascending(s, n)
  {
  }

  /** A strictly ascending list is the ascending list of its members. */
  lemma {:induction false} AscendingIsUnique(q: seq<nat>, s: set<nat>, n: nat)
    requires forall a, b :: 0 <= a < b < |q| ==> q[a] < q[b]
    requires forall i :: i in q <==> i in s && i < n
    ensures q == Ascending(s, n)
  {
    assert q == [] || q[0] in q;
    forall a | 0 <= a < |q| ensures q[a] < n {
      assert q[a] in q;
    }
    if n > 0 {
      if n - 1 in s {
        var m := |q| - 1;
        assert n - 1 in q;
        var k :| 0 <= k < |q| && q[k] == n - 1;
        assert q[m] < n;
        assert k == m;
        assert q == q[..m] + [n - 1];
        AscendingIsUnique(q[..m], s, n - 1);
      } else {
        AscendingIsUnique(q, s, n - 1);
      }
    }
  }
}
