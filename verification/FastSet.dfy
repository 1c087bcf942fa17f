/**
  The small-set structure of set.h: up to twelve members in a sorted array, more of them as
  bits of 64-bit words. Loads, stores and register dependencies are kept in such sets.
 */
module FastSets {
  import opened Counting
  import opened Powers

  /** MAX_SIZE, SMALL_SIZE, SMALLER_SIZE, and the width of a word */
  const MAX_SIZE: nat := 512
  const SMALL_SIZE: nat := 13
  const SMALLER_SIZE: nat := 6
  const WORD: nat := 64

  ghost predicate Ordered(q: seq<nat>) { forall i, j :: 0 <= i < j < |q| ==> q[i] < q[j] }

  ghost function Elements(q: seq<nat>): (r: set<nat>)
    ensures forall x :: x in r <==> x in q
  {
    set x | x in q
  }

  /** The numbers whose bit is set. */
  ghost function BitsOf(words: seq<nat>): (r: set<nat>) {
    set x: nat | x < |words| * WORD && Bit(words[x / WORD], x % WORD)
  }

  ghost predicate AreWords(words: seq<nat>) { forall i :: 0 <= i < |words| ==> words[i] < Pow2(WORD) }

  /** Setting one bit adds one number. */
  lemma SetBitAdds(words: seq<nat>, x: nat)
    requires x < |words| * WORD && AreWords(words)
    ensures var words1 := words[x / WORD := Or(words[x / WORD], Pow2(x % WORD))];
            BitsOf(words1) == BitsOf(words) + {x} && AreWords(words1)
  {
    var w := x / WORD;
    var words1 := words[w := Or(words[w], Pow2(x % WORD))];
    Pow2Grows(x % WORD, WORD);
    OrBound(words[w], Pow2(x % WORD), WORD);
    forall y: nat | y < |words| * WORD
      ensures Bit(words1[y / WORD], y % WORD) <==> Bit(words[y / WORD], y % WORD) || y == x
    {
      if y / WORD == w {
        OrBit(words[w], Pow2(x % WORD), y % WORD);
        OneBit(x % WORD, y % WORD);
      }
    }
  }

  lemma InsertedBetween(q: seq<nat>, i: nat, x: nat)
    requires Ordered(q) && i <= |q| && (forall k :: 0 <= k < i ==> q[k] < x) && (forall k :: i <= k < |q| ==> x < q[k])
    ensures Ordered(q[..i] + [x] + q[i..]) && Elements(q[..i] + [x] + q[i..]) == Elements(q) + {x}
    ensures x < MAX_SIZE && (forall k :: 0 <= k < |q| ==> q[k] < MAX_SIZE) ==>
              forall k :: 0 <= k <= |q| ==> (q[..i] + [x] + q[i..])[k] < MAX_SIZE
  {
    assert q == q[..i] + q[i..];
  }

  class FastSet {
    const values: array<nat>
    const bits: array<nat>
    var card: nat

    ghost predicate Valid()
      reads this, values, bits
    {
      && values != bits && values.Length == SMALL_SIZE && bits.Length == MAX_SIZE / WORD
      && card <= SMALL_SIZE && AreWords(bits[..])
      && (card < SMALL_SIZE ==> Ordered(values[..card]) && forall i :: 0 <= i < card ==> values[i] < MAX_SIZE)
    }

    /** The mathematical set. */
    ghost function Members(): set<nat>
      requires Valid()
      reads this, values, bits
    {
      if card < SMALL_SIZE then Elements(values[..card]) else BitsOf(bits[..])
    }

    lemma MembersBelowMax()
      requires Valid()
      ensures forall x :: x in Members() ==> x < MAX_SIZE
    {
    }

    /** While the set is small, card is the number of its members. */
    lemma CardIsSize()
      requires Valid() && card < SMALL_SIZE
      ensures |Members()| == card
    {
      CardCounts(values[..card]);
    }

    constructor ()
      ensures Valid() && Members() == {} && card == 0 && fresh(values) && fresh(bits)
    {
      values := new nat[SMALL_SIZE](_ => 0);
      bits := new nat[MAX_SIZE / WORD](_ => 0);
      card := 0;
    }

    method SetBit(x: nat)
      requires bits.Length == MAX_SIZE / WORD && AreWords(bits[..]) && x < MAX_SIZE
      modifies bits
      ensures AreWords(bits[..]) && BitsOf(bits[..]) == BitsOf(old(bits[..])) + {x}
    {
      SetBitAdds(bits[..], x);
      bits[x / WORD] := Or(bits[x / WORD], Pow2(x % WORD));
      assert bits[..] == old(bits[..])[x / WORD := bits[x / WORD]];
    }

    /** Where a value is, or belongs, in the sorted array. */
    method Place(x: nat) returns (i: nat, present: bool)
      requires Valid() && card < SMALL_SIZE
      ensures i <= card && (present ==> i < card && values[i] == x)
      ensures !present ==> (forall k :: 0 <= k < i ==> values[k] < x) && forall k :: i <= k < card ==> x < values[k]
    {
      i := 0;
      while i < card
        invariant i <= card && forall k :: 0 <= k < i ==> values[k] < x
      {
        var y := values[i];
        if y == x {
          return i, true;
        }
        if y > x {
          assert forall k :: i <= k < card ==> values[..card][i] <= values[..card][k];
          return i, false;
        }
        i := i + 1;
      }
      present := false;
    }

    /** Move the values from place `i` on up by one. */
    method MoveUp(i: nat)
      requires i <= card < values.Length
      modifies values
      ensures values[..i] == old(values[..i]) && values[i + 1..card + 1] == old(values[i..card])
    {
      ghost var before := values[..card];
      var j := card;
      while j > i
        invariant i <= j <= card
        invariant forall k :: 0 <= k < j ==> values[k] == before[k]
        invariant forall k :: j < k <= card ==> values[k] == before[k - 1]
      {
        values[j] := values[j - 1];
        j := j - 1;
      }
    }

    /** insert_small */
    method InsertSmall(x: nat)
      requires Valid() && card < SMALL_SIZE && x < MAX_SIZE
      modifies this`card, values
      ensures card == old(card) + if x in Elements(old(values[..card])) then 0 else 1
      ensures old(card) <= card <= SMALL_SIZE && Ordered(values[..card]) && forall i :: 0 <= i < card ==> values[i] < MAX_SIZE
      ensures Elements(values[..card]) == Elements(old(values[..card])) + {x}
    {
      ghost var before := values[..card];
      var i, present := Place(x);
      if present {
        assert before[i] == x;
        return;
      }
      MoveUp(i);
      values[i] := x;
      card := card + 1;
      InsertedBetween(before, i, x);
      assert values[..card] == before[..i] + [x] + before[i..];
      assert forall k :: 0 <= k < card ==> values[k] == values[..card][k];
    }

    /** smalltobit: the sorted values become bits. They are copied first, since the bits take their place. */
    method SmallToBit(n: nat)
      requires values != bits && values.Length == SMALL_SIZE && bits.Length == MAX_SIZE / WORD && n <= SMALL_SIZE
      requires forall i :: 0 <= i < n ==> values[i] < MAX_SIZE
      modifies bits
      ensures AreWords(bits[..]) && BitsOf(bits[..]) == Elements(values[..n])
    {
      var copied := values[..n];
      for i := 0 to bits.Length
        invariant forall k :: 0 <= k < i ==> bits[k] == 0
      {
        bits[i] := 0;
      }
      NoBitsAreSet(bits[..]);
      for i := 0 to n
        invariant AreWords(bits[..]) && BitsOf(bits[..]) == Elements(copied[..i])
      {
        SetBit(copied[i]);
        assert copied[..i + 1] == copied[..i] + [copied[i]];
      }
      assert copied[..n] == copied;
    }

    /** insert: exactly one number is added. While the set is small, card counts it. */
    method Insert(x: nat)
      requires Valid() && x < MAX_SIZE
      modifies this`card, values, bits
      ensures Valid() && Members() == old(Members()) + {x}
      ensures card == if old(card) < SMALL_SIZE && x !in old(Members()) then old(card) + 1 else old(card)
    {
      if card == 0 {
        values[0] := x;
        card := 1;
        assert values[..card] == [x];
        return;
      }
      if card < SMALL_SIZE {
        InsertSmall(x);
        if card == SMALL_SIZE {
          SmallToBit(card);
        }
      } else {
        SetBit(x);
      }
    }

    method SearchSmallLinear(x: nat) returns (r: bool)
      requires Valid() && card < SMALL_SIZE
      ensures r <==> x in Members()
    {
      for i := 0 to card
        invariant forall k :: 0 <= k < i ==> values[k] < x
      {
        var y := values[i];
        if y > x {
          assert forall k :: 0 <= k < card ==> values[k] == values[..card][k];
          return false;
        }
        if y == x {
          assert values[..card][i] == x;
          return true;
        }
      }
      return false;
    }

    /** search_small: linear below six members, else binary. */
    method SearchSmall(x: nat) returns (r: bool)
      requires Valid() && card < SMALL_SIZE
      ensures r <==> x in Members()
    {
      if card == 0 {
        return false;
      }
      if card < SMALLER_SIZE {
        r := SearchSmallLinear(x);
        return;
      }
      ghost var q := values[..card];
      var begin, end, middle := 0, card - 1, (card - 1) / 2;
      while true
        invariant 0 <= begin <= middle <= end < card
        invariant forall k :: 0 <= k < begin ==> q[k] < x
        invariant forall k :: end < k < card ==> x < q[k]
        decreases end - begin
      {
        var y := values[middle];
        assert y == q[middle];
        if x < y {
          if middle - 1 < begin {
            return false;
          }
          end := middle - 1;
        } else if x > y {
          begin := middle + 1;
          if end < begin {
            return false;
          }
        } else {
          return true;
        }
        middle := (begin + end) / 2;
      }
    }

    /** search is membership. */
    method Search(x: nat) returns (r: bool)
      requires Valid() && x < MAX_SIZE
      ensures r <==> x in Members()
    {
      if card == 0 {
        return false;
      }
      if card == 1 {
        assert values[..card] == [values[0]];
        return values[0] == x;
      }
      if card < SMALL_SIZE {
        r := SearchSmall(x);
        return;
      }
      return Bit(bits[x / WORD], x % WORD);
    }

    /** The values of a small set, inserted one by one. */
    method JoinSmall(other: FastSet)
      requires Valid() && other.Valid() && other.card < SMALL_SIZE && Apart(other)
      modifies this`card, values, bits
      ensures Valid() && other.Valid() && other.Members() == old(other.Members())
      ensures Members() == old(Members()) + other.Members()
    {
      for i := 0 to other.card
        invariant Valid() && other.Valid() && other.values[..] == old(other.values[..]) && other.card == old(other.card)
        invariant Members() == old(Members()) + Elements(other.values[..i])
      {
        assert other.values[..i + 1] == other.values[..i] + [other.values[i]];
        Insert(other.values[i]);
      }
    }

    ghost predicate Apart(other: FastSet) {
      this != other && values != other.values && values != other.bits && bits != other.values && bits != other.bits
    }

    /**
      join: the union, where a large other set is only read up to the word that holds bit `n`.
      A bound of 512 or more would read past the words.
     */
    method Join(other: FastSet, n: nat)
      requires Valid() && other.Valid() && Apart(other) && n < MAX_SIZE
      modifies this`card, values, bits
      ensures Valid() && other.Valid() && other.Members() == old(other.Members())
      ensures Members() == old(Members()) + if other.card < SMALL_SIZE then other.Members()
                                            else set x | x in other.Members() && x < (n / WORD + 1) * WORD
      ensures Members() == old(Members()) + other.Members()
              <==> other.card < SMALL_SIZE || forall x :: x in other.Members() && x !in old(Members()) ==> x < (n / WORD + 1) * WORD
    {
      JoinIsUnionIff(Members(), other.Members(), n);
      if other.card == 0 {
        return;
      }
      if other.card < SMALL_SIZE {
        JoinSmall(other);
        return;
      }
      if card < SMALL_SIZE {
        SmallToBit(card);
        card := SMALL_SIZE;
      }
      var lim := (n / WORD * WORD + (WORD - 1) + 1) / WORD;
      assert lim == n / WORD + 1;
      OrWords(other, lim);
    }

    /** The words of another set below `lim` are merged into this one's. */
    method OrWords(other: FastSet, lim: nat)
      requires Valid() && other.Valid() && card == other.card == SMALL_SIZE && Apart(other) && lim <= MAX_SIZE / WORD
      modifies bits
      ensures Valid() && other.Valid() && other.bits[..] == old(other.bits[..])
      ensures BitsOf(bits[..]) == BitsOf(old(bits[..])) + set x | x in BitsOf(other.bits[..]) && x < lim * WORD
    {
      ghost var before := bits[..];
      for i := 0 to lim
        invariant bits.Length == |before| && forall k :: 0 <= k < bits.Length ==>
                    bits[k] == if k < i then Or(before[k], other.bits[k]) else before[k]
      {
        bits[i] := Or(bits[i], other.bits[i]);
      }
      forall k | 0 <= k < bits.Length ensures bits[k] < Pow2(WORD) {
        OrBound(before[k], other.bits[k], WORD);
      }
      forall x: nat | x < MAX_SIZE
        ensures Bit(bits[x / WORD], x % WORD) <==>
                  Bit(before[x / WORD], x % WORD) || (x < lim * WORD && Bit(other.bits[x / WORD], x % WORD))
      {
        OrBit(before[x / WORD], other.bits[x / WORD], x % WORD);
      }
    }

    /** One word of the set, listed in order as far as it is below `n`. */
    method ExpandWord(i: nat, n: nat, v: seq<nat>) returns (r: seq<nat>)
      requires Valid() && card == SMALL_SIZE && i % WORD == 0 && i < n <= MAX_SIZE && v == Ascending(BitsOf(bits[..]), i)
      ensures r == Ascending(BitsOf(bits[..]), Min(i + WORD, n))
    {
      hide Ascending, Bit, AreWords, Ordered;
      r := v;
      var j := 0;
      while j < WORD && i + j < n
        invariant j <= WORD && i + j <= n && r == Ascending(BitsOf(bits[..]), i + j)
      {
        InWord(i, j);
        AscendingNext(BitsOf(bits[..]), i + j);
        if Bit(bits[(i + j) / WORD], (i + j) % WORD) {
          r := r + [i + j];
        }
        j := j + 1;
      }
    }

    /** The word at `i` is looked into only if it is not zero. */
    method ExpandFrom(i: nat, n: nat, v: seq<nat>) returns (r: seq<nat>)
      requires Valid() && card == SMALL_SIZE && i % WORD == 0 && i < n <= MAX_SIZE && v == Ascending(BitsOf(bits[..]), i)
      ensures r == Ascending(BitsOf(bits[..]), Min(i + WORD, n))
    {
      hide Ascending, AreWords, Ordered, BitsOf, Bit;
      WordInside(i);
      if bits[i / WORD] != 0 {
        r := ExpandWord(i, n, v);
      } else {
        SkipEmptyWord(bits[..], i, Min(i + WORD, n));
        r := v;
      }
    }

    /** The members of a large set, word by word. */
    method ExpandBits(n: nat) returns (v: seq<nat>)
      requires Valid() && card == SMALL_SIZE && n <= MAX_SIZE
      ensures v == Ascending(BitsOf(bits[..]), n)
    {
      v := [];
      assert v == Ascending(BitsOf(bits[..]), 0);
      hide Ascending, AreWords, Ordered, BitsOf, Bit;
      var i := 0;
      while i < n
        invariant i % WORD == 0 && v == Ascending(BitsOf(bits[..]), Min(i, n))
      {
        v := ExpandFrom(i, n, v);
        NextWord(i);
        i := i + WORD;
      }
    }

    /**
      expand: the members in ascending order; those below `n` of a large set, all of a small
      one.
     */
    method Expand(n: nat) returns (v: seq<nat>)
      requires Valid() && n <= MAX_SIZE
      ensures v == Ascending(Members(), if card < SMALL_SIZE then MAX_SIZE else n)
      ensures v == Ascending(Members(), n) <==> card == SMALL_SIZE || forall x :: x in Members() ==> x < n
    {
      MembersBelowMax();
      ExpandIsBelowIff(Members(), n);
      if card == 0 {
        AscendingIsUnique([], Members(), MAX_SIZE);
        return [];
      }
      if card < SMALL_SIZE {
        v := [];
        for i := 0 to card
          invariant v == values[..i]
        {
          v := v + [values[i]];
        }
        assert forall i :: 0 <= i < |v| ==> v[i] < MAX_SIZE;
        AscendingIsUnique(v, Members(), MAX_SIZE);
      } else {
        v := ExpandBits(n);
      }
    }
  }

  function Min(a: nat, b: nat): nat { if a < b then a else b }

  lemma WordInside(i: nat)
    requires i < MAX_SIZE
    ensures i / WORD < MAX_SIZE / WORD
  {
  }

  lemma NextWord(i: nat)
    requires i % WORD == 0
    ensures (i + WORD) % WORD == 0
  {
  }

  lemma InWord(i: nat, j: nat)
    requires i % WORD == 0 && j < WORD
    ensures (i + j) / WORD == i / WORD && (i + j) % WORD == j
  {
  }

  /** An empty word has no members to list. */
  lemma {:induction false} SkipEmptyWord(words: seq<nat>, i: nat, n: nat)
    requires i % WORD == 0 && i < |words| * WORD && words[i / WORD] == 0 && i <= n <= i + WORD && n <= |words| * WORD
    ensures Ascending(BitsOf(words), n) == Ascending(BitsOf(words), i)
    decreases n
  {
    if i < n {
      SkipEmptyWord(words, i, n - 1);
      assert (n - 1) / WORD == i / WORD;
      NoBit((n - 1) % WORD);
    }
  }

  /** A small set has as many members as its counter says. */
  lemma CardCounts(q: seq<nat>)
    requires Ordered(q)
    ensures |Elements(q)| == |q|
  {
    assert Distinct(q);
    SeqAsSet(q);
    assert Elements(q) == Members(q);
  }

  lemma NoBitsAreSet(words: seq<nat>)
    requires forall i :: 0 <= i < |words| ==> words[i] == 0
    ensures AreWords(words) && BitsOf(words) == {}
  {
    forall x: nat | x < |words| * WORD ensures !Bit(words[x / WORD], x % WORD) {
      NoBit(x % WORD);
    }
  }

  // ---- When join is union and expand stays below its bound ----

  /** A join with a large set is the union exactly when no member it lacks is past the word of bit `n`. */
  lemma JoinIsUnionIff(a: set<nat>, b: set<nat>, n: nat)
    ensures a + (set x | x in b && x < (n / WORD + 1) * WORD) == a + b
            <==> forall x :: x in b && x !in a ==> x < (n / WORD + 1) * WORD
  {
    var part := set x | x in b && x < (n / WORD + 1) * WORD;
    if a + part == a + b {
      forall x | x in b && x !in a ensures x < (n / WORD + 1) * WORD {
        assert x in a + part;
      }
    } else {
      assert exists x :: x in b && x !in a + part;
    }
  }

  /** A small set of number 5 is listed below 3, where nothing is to be listed. */
  method ExpandOverruns() returns (s: FastSet, v: seq<nat>)
    ensures s.Valid() && s.Members() == {5} && v == [5] && Ascending(s.Members(), 3) == []
  {
    s := new FastSet();
    s.Insert(5);
    v := s.Expand(3);
    AscendingIsUnique([5], s.Members(), MAX_SIZE);
    AscendingIsUnique([], s.Members(), 3);
  }

  /** A join with the numbers from 100 to 112, bounded by 9, takes none of them. */
  method JoinFallsShort() returns (a: FastSet, b: FastSet)
    ensures a.Valid() && b.Valid() && a.Members() == {} && 100 in b.Members()
  {
    a := new FastSet();
    b := new FastSet();
    for x := 100 to 113
      invariant fresh(a) && fresh(b) && fresh(a.values) && fresh(a.bits) && fresh(b.values) && fresh(b.bits)
      invariant a.Valid() && b.Valid() && a.Apart(b) && a.Members() == {}
      invariant (forall y :: y in b.Members() <==> 100 <= y < x) && b.card == x - 100
    {
      b.Insert(x);
    }
    a.Join(b, 9);
  }

  /** A small set is listed below `n` exactly when it has no larger members; a large one always is. */
  lemma ExpandIsBelowIff(s: set<nat>, n: nat)
    requires n <= MAX_SIZE && forall x :: x in s ==> x < MAX_SIZE
    ensures Ascending(s, MAX_SIZE) == Ascending(s, n) <==> forall x :: x in s ==> x < n
  {
    if forall x :: x in s ==> x < n {
      AscendingIsUnique(Ascending(s, n), s, MAX_SIZE);
    } else {
      var x :| x in s && x >= n;
      assert x in Ascending(s, MAX_SIZE) && x !in Ascending(s, n);
    }
  }
}
