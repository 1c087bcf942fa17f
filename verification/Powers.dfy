/** Powers of two, the simulator's lg2, which rounds down, and bits of numbers. */
module Powers {
  function Pow2(k: nat): (r: nat)
    ensures r > 0
  {
    if k == 0 then 1 else 2 * Pow2(k - 1)
  }

  /** How often a number can be halved before it is 1; there is no answer for 0. */
  function Lg2(n: nat): (r: int)
    ensures n == 0 ==> r == -1
    ensures n > 0 ==> r >= 0 && Pow2(r) <= n < 2 * Pow2(r)
  {
    if n == 0 then -1 else 1 + Lg2(n / 2)
  }

  /** lg2 as the simulator computes it. */
  method Lg2Loop(n: nat) returns (c: int)
    ensures c == Lg2(n)
  {
    var m := n;
    c := -1;
    while m > 0
      invariant Lg2(n) == c + 1 + Lg2(m)
    {
      m := m / 2;
      c := c + 1;
    }
  }

  lemma {:induction false} Pow2Adds(a: nat, b: nat)
    ensures Pow2(a + b) == Pow2(a) * Pow2(b)
  {
    if a > 0 {
      Pow2Adds(a - 1, b);
    }
  }

  /** lg2 is exact on powers of two. */
  lemma {:induction false} Lg2Exact(k: nat)
    ensures Lg2(Pow2(k)) == k
  {
    if k > 0 {
      Lg2Exact(k - 1);
    }
  }

  /** Bitwise exclusive or. */
  function Xor(a: nat, b: nat): nat
    decreases a + b
  {
    if a == 0 && b == 0 then 0 else 2 * Xor(a / 2, b / 2) + if a % 2 == b % 2 then 0 else 1
  }

  lemma {:induction false} XorBound(a: nat, b: nat, k: nat)
    requires a < Pow2(k) && b < Pow2(k)
    ensures Xor(a, b) < Pow2(k)
    decreases k
  {
    if k > 0 {
      XorBound(a / 2, b / 2, k - 1);
    }
  }

  lemma {:induction false} XorInjective(a: nat, b: nat, c: nat)
    requires Xor(a, b) == Xor(a, c)
    ensures b == c
    decreases a + b + c
  {
    if a + b + c > 0 {
      XorInjective(a / 2, b / 2, c / 2);
    }
  }

  lemma {:induction false} XorSelf(a: nat)
    ensures Xor(a, a) == 0
  {
    if a > 0 {
      XorSelf(a / 2);
    }
  }

  lemma {:induction false} XorZero(a: nat)
    ensures Xor(a, 0) == a && Xor(0, a) == a
  {
    if a > 0 {
      XorZero(a / 2);
    }
  }

  /** Bit `c` of a number. */
  predicate Bit(w: nat, c: nat) { if c == 0 then w % 2 == 1 else Bit(w / 2, c - 1) }

  /** Bitwise or. */
  function Or(a: nat, b: nat): nat
    decreases a + b
  {
    if a == 0 && b == 0 then 0 else 2 * Or(a / 2, b / 2) + if a % 2 == 1 || b % 2 == 1 then 1 else 0
  }

  lemma XorHalves(a: nat, b: nat)
    ensures Xor(a, b) / 2 == Xor(a / 2, b / 2)
    ensures Xor(a, b) % 2 == 1 <==> a % 2 != b % 2
  {
  }

  lemma {:induction false} XorBit(a: nat, b: nat, c: nat)
    ensures Bit(Xor(a, b), c) <==> Bit(a, c) != Bit(b, c)
    decreases c
  {
    XorHalves(a, b);
    if c > 0 {
      XorBit(a / 2, b / 2, c - 1);
    }
  }

  lemma OrHalves(a: nat, b: nat)
    ensures Or(a, b) / 2 == Or(a / 2, b / 2)
    ensures Or(a, b) % 2 == 1 <==> a % 2 == 1 || b % 2 == 1
  {
  }

  lemma {:induction false} OrBit(a: nat, b: nat, c: nat)
    ensures Bit(Or(a, b), c) <==> Bit(a, c) || Bit(b, c)
    decreases c
  {
    OrHalves(a, b);
    if c > 0 {
      OrBit(a / 2, b / 2, c - 1);
    }
  }

  lemma {:induction false} NoBit(c: nat)
    ensures !Bit(0, c)
  {
    if c > 0 {
      NoBit(c - 1);
    }
  }

  /** A power of two has a single bit. */
  lemma {:induction false} OneBit(b: nat, c: nat)
    ensures Bit(Pow2(b), c) <==> b == c
  {
    if b > 0 && c > 0 {
      OneBit(b - 1, c - 1);
    } else if b == 0 && c > 0 {
      NoBit(c - 1);
    }
  }

  lemma {:induction false} OrBound(a: nat, b: nat, k: nat)
    requires a < Pow2(k) && b < Pow2(k)
    ensures Or(a, b) < Pow2(k)
    decreases k
  {
    if k > 0 {
      OrBound(a / 2, b / 2, k - 1);
    }
  }

  lemma {:induction false} Pow2Grows(a: nat, b: nat)
    requires a < b
    ensures Pow2(a) < Pow2(b)
  {
    if a + 1 < b {
      Pow2Grows(a, b - 1);
    }
  }

  lemma Multiples(d: nat, a: int, q: int)
    requires d > 0
    ensures a < q ==> d * a + d <= d * q
    ensures a == q ==> d * a == d * q
  {
    var k := q - a - 1;
    assert d * q == d * (a + 1 + k);
    assert d * (a + 1 + k) == d * a + d + d * k;
    if k >= 0 {
      assert d * k >= 0;
    }
  }

  lemma Remainder(d: nat, q: nat, r: nat)
    requires r < d
    ensures (d * q + r) % d == r
  {
    var x := d * q + r;
    var a, b := x / d, x % d;
    assert x == d * a + b && 0 <= b < d;
    Multiples(d, a, q);
    Multiples(d, q, a);
  }

  lemma HalfOfRemainder(x: nat, p: nat)
    requires p > 0
    ensures x % (2 * p) / 2 == x / 2 % p && x % (2 * p) % 2 == x % 2
  {
    var y, r := x / 2, x % 2;
    var q, s := y / p, y % p;
    assert x == 2 * y + r && y == p * q + s;
    assert x == 2 * p * q + (2 * s + r);
    Remainder(2 * p, q, 2 * s + r);
  }

  /** The low bits of a number are those of its remainder. */
  lemma {:induction false} LowBits(x: nat, k: nat, i: nat)
    requires i < k
    ensures Bit(x % Pow2(k), i) == Bit(x, i)
  {
    var p := Pow2(k - 1);
    HalfOfRemainder(x, p);
    if i > 0 {
      LowBits(x / 2, k - 1, i - 1);
    }
  }

  /** Of the low `k` bits, every one that `b` has `a` has too. */
  ghost predicate Covers(a: nat, b: nat, k: nat) { forall i: nat :: i < k && Bit(b, i) ==> Bit(a, i) }

  lemma CoversHalves(a: nat, b: nat, k: nat)
    requires k > 0
    ensures Covers(a, b, k) <==> (b % 2 == 1 ==> a % 2 == 1) && Covers(a / 2, b / 2, k - 1)
  {
    if Covers(a, b, k) {
      assert Bit(b, 0) ==> Bit(a, 0);
      forall i: nat | i < k - 1 && Bit(b / 2, i) ensures Bit(a / 2, i) {
        assert Bit(b, i + 1);
      }
    }
    if (b % 2 == 1 ==> a % 2 == 1) && Covers(a / 2, b / 2, k - 1) {
      forall i: nat | i < k && Bit(b, i) ensures Bit(a, i) {
        if i > 0 {
          assert Bit(b / 2, i - 1);
        }
      }
    }
  }

  /** The low `k` bits stay as they are exactly when every bit that is added there is set already. */
  lemma {:induction false} LowBitsStayIff(a: nat, b: nat, k: nat)
    ensures Or(a, b) % Pow2(k) == a % Pow2(k) <==> Covers(a, b, k)
    decreases k
  {
    if k > 0 {
      OrHalves(a, b);
      HalfOfRemainder(Or(a, b), Pow2(k - 1));
      HalfOfRemainder(a, Pow2(k - 1));
      CoversHalves(a, b, k);
      LowBitsStayIff(a / 2, b / 2, k - 1);
    }
  }

  /** A multiple of a power of two has no lower bits. */
  lemma {:induction false} ShiftedBit(c: nat, m: nat, i: nat)
    requires i < m
    ensures !Bit(c * Pow2(m), i)
  {
    var b := c * Pow2(m - 1);
    assert c * Pow2(m) == 2 * b;
    if i > 0 {
      ShiftedBit(c, m - 1, i - 1);
      assert 2 * b / 2 == b;
    }
  }
}
