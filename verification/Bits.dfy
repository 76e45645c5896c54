/** Options and the unsigned arithmetic of the C program.

    A machine word is a `nat`; every width limit is written out.  The bitwise operators are
    defined digit by digit, so that each fact about them is an induction on the digits. */
module Bits {
  datatype Option<+T> = None | Some(value: T)

  const TWO_64: nat := 0x1_0000_0000_0000_0000
  const UINT64_MAX: nat := TWO_64 - 1

  function Pow2(n: nat): (p: nat)
    ensures p > 0
  {
    if n == 0 then 1 else 2 * Pow2(n - 1)
  }

  function And(x: nat, y: nat): nat {
    if x == 0 || y == 0 then 0 else 2 * And(x / 2, y / 2) + (x % 2) * (y % 2)
  }

  function Or(x: nat, y: nat): nat {
    if x == 0 then y else if y == 0 then x
    else 2 * Or(x / 2, y / 2) + (if x % 2 == 1 || y % 2 == 1 then 1 else 0)
  }

  function Xor(x: nat, y: nat): nat {
    if x == 0 then y else if y == 0 then x
    else 2 * Xor(x / 2, y / 2) + (if x % 2 != y % 2 then 1 else 0)
  }

  /** `x & ~y`. */
  function AndNot(x: nat, y: nat): (r: nat)
    ensures r <= x
  {
    if x == 0 then 0 else if y == 0 then x
    else 2 * AndNot(x / 2, y / 2) + (if x % 2 == 1 && y % 2 == 0 then 1 else 0)
  }

  /** Bit `i` of `x`. */
  predicate Bit(x: nat, i: nat) {
    if i == 0 then x % 2 == 1 else Bit(x / 2, i - 1)
  }

  lemma {:induction false} ZeroHasNoBits(i: nat)
    ensures !Bit(0, i)
  {
    if i > 0 { ZeroHasNoBits(i - 1); }
  }

  lemma {:induction false} AndBits(x: nat, y: nat, i: nat)
    ensures Bit(And(x, y), i) <==> Bit(x, i) && Bit(y, i)
  {
    if x == 0 || y == 0 {
      ZeroHasNoBits(i);
    } else if i > 0 {
      assert And(x, y) / 2 == And(x / 2, y / 2);
      AndBits(x / 2, y / 2, i - 1);
    }
  }

  lemma {:induction false} OrBits(x: nat, y: nat, i: nat)
    ensures Bit(Or(x, y), i) <==> Bit(x, i) || Bit(y, i)
  {
    if x == 0 || y == 0 {
      ZeroHasNoBits(i);
    } else if i > 0 {
      assert Or(x, y) / 2 == Or(x / 2, y / 2);
      OrBits(x / 2, y / 2, i - 1);
    }
  }

  lemma {:induction false} AndNotBits(x: nat, y: nat, i: nat)
    ensures Bit(AndNot(x, y), i) <==> Bit(x, i) && !Bit(y, i)
  {
    if x == 0 || y == 0 {
      ZeroHasNoBits(i);
    } else if i > 0 {
      assert AndNot(x, y) / 2 == AndNot(x / 2, y / 2);
      AndNotBits(x / 2, y / 2, i - 1);
    }
  }

  lemma {:induction false} Pow2Bits(n: nat, i: nat)
    ensures Bit(Pow2(n), i) <==> i == n
  {
    if n == 0 {
      if i > 0 { ZeroHasNoBits(i - 1); }
    } else if i > 0 {
      assert Pow2(n) / 2 == Pow2(n - 1);
      Pow2Bits(n - 1, i - 1);
    }
  }

  lemma {:induction false} NonzeroHasBit(x: nat) returns (i: nat)
    requires x != 0
    ensures Bit(x, i) && Pow2(i) <= x
  {
    if x % 2 == 1 {
      i := 0;
    } else {
      var j := NonzeroHasBit(x / 2);
      i := j + 1;
    }
  }

  /** Equal bits, equal numbers. */
  lemma {:induction false} SameBits(x: nat, y: nat)
    requires forall i: nat :: Bit(x, i) == Bit(y, i)
    ensures x == y
    decreases x + y
  {
    assert Bit(x, 0) == Bit(y, 0);
    if x != 0 || y != 0 {
      forall i: nat ensures Bit(x / 2, i) == Bit(y / 2, i) {
        assert Bit(x, i + 1) == Bit(y, i + 1);
      }
      SameBits(x / 2, y / 2);
    }
  }

  lemma {:induction false} Pow2Sum(a: nat, b: nat)
    ensures Pow2(a + b) == Pow2(a) * Pow2(b)
  {
    if a > 0 {
      Pow2Sum(a - 1, b);
      TwiceProduct(Pow2(a - 1), Pow2(b));
      assert Pow2(a + b) == 2 * Pow2(a - 1 + b) && Pow2(a) == 2 * Pow2(a - 1);
    }
  }

  lemma TwiceProduct(x: nat, y: nat)
    ensures 2 * (x * y) == (2 * x) * y
  {
  }

  lemma {:induction false} Pow2Monotone(a: nat, b: nat)
    requires a <= b
    ensures Pow2(a) <= Pow2(b)
  {
    if a < b { Pow2Monotone(a, b - 1); }
  }

  lemma Pow2Of64()
    ensures Pow2(64) == TWO_64
  {
    assert Pow2(8) == 256 by { assert Pow2(4) == 16; Pow2Sum(4, 4); }
    assert Pow2(16) == 0x1_0000 by { Pow2Sum(8, 8); }
    assert Pow2(32) == 0x1_0000_0000 by { Pow2Sum(16, 16); }
    assert Pow2(64) == 0x1_0000_0000 * 0x1_0000_0000 by { Pow2Sum(32, 32); }
  }

  /** Masking with `2^k - 1` keeps what is below `2^k` and wraps `2^k` itself to zero. */
  lemma {:induction false} MaskKeeps(x: nat, k: nat)
    requires x < Pow2(k)
    ensures And(x, Pow2(k) - 1) == x
  {
    if x > 0 {
      assert (Pow2(k) - 1) / 2 == Pow2(k - 1) - 1;
      MaskKeeps(x / 2, k - 1);
    }
  }

  lemma {:induction false} MaskWraps(k: nat)
    ensures And(Pow2(k), Pow2(k) - 1) == 0
  {
    if k > 0 {
      assert (Pow2(k) - 1) / 2 == Pow2(k - 1) - 1;
      MaskWraps(k - 1);
    }
  }

  lemma {:induction false} AndBound(x: nat, y: nat)
    ensures And(x, y) <= x && And(x, y) <= y
  {
    if x != 0 && y != 0 { AndBound(x / 2, y / 2); }
  }

  lemma {:induction false} OrBound(x: nat, y: nat, n: nat)
    requires x < Pow2(n) && y < Pow2(n)
    ensures Or(x, y) < Pow2(n)
  {
    if x != 0 && y != 0 { OrBound(x / 2, y / 2, n - 1); }
  }

  lemma {:induction false} XorBound(x: nat, y: nat, n: nat)
    requires x < Pow2(n) && y < Pow2(n)
    ensures Xor(x, y) < Pow2(n)
  {
    if x != 0 && y != 0 { XorBound(x / 2, y / 2, n - 1); }
  }

  /** All ones. */
  lemma {:induction false} OnesBits(n: nat, i: nat)
    ensures Bit(Pow2(n) - 1, i) <==> i < n
  {
    if n == 0 {
      ZeroHasNoBits(i);
    } else if i > 0 {
      assert (Pow2(n) - 1) / 2 == Pow2(n - 1) - 1;
      OnesBits(n - 1, i - 1);
    }
  }

  /** Testing one bit with a shifted mask. */
  lemma TestBit(x: nat, i: nat)
    ensures And(x, Pow2(i)) != 0 <==> Bit(x, i)
  {
    AndBits(x, Pow2(i), i);
    Pow2Bits(i, i);
    if And(x, Pow2(i)) != 0 {
      var j := NonzeroHasBit(And(x, Pow2(i)));
      AndBits(x, Pow2(i), j);
      Pow2Bits(i, j);
    } else {
      ZeroHasNoBits(i);
    }
  }

  /** The number of one bits. */
  function Popcount(x: nat): nat {
    if x == 0 then 0 else x % 2 + Popcount(x / 2)
  }

  lemma {:induction false} AndSelf(x: nat)
    ensures And(x, x) == x
  {
    if x != 0 { AndSelf(x / 2); }
  }

  /** `x & (x - 1)` clears exactly one bit. */
  lemma {:induction false} ClearLowest(x: nat)
    requires x != 0
    ensures And(x, x - 1) < x && Popcount(And(x, x - 1)) == Popcount(x) - 1
  {
    if x % 2 == 1 {
      AndSelf(x / 2);
      assert (x - 1) / 2 == x / 2;
      assert And(x, x - 1) == 2 * (x / 2);
      assert Popcount(2 * (x / 2)) == Popcount(x / 2);
    } else {
      ClearLowest(x / 2);
      assert (x - 1) / 2 == x / 2 - 1;
      assert And(x, x - 1) == 2 * And(x / 2, x / 2 - 1);
    }
  }

  /** The positions of the one bits below `n`. */
  ghost function Positions(x: nat, n: nat): set<int> {
    set i | 0 <= i < n && Bit(x, i)
  }

  /** The popcount is the number of positions. */
  lemma {:induction false} PopcountIsCardinality(x: nat, n: nat)
    requires x < Pow2(n)
    ensures Popcount(x) == |Positions(x, n)|
  {
    if n == 0 {
      assert Positions(x, n) == {};
    } else {
      PopcountIsCardinality(x / 2, n - 1);
      var low := Positions(x / 2, n - 1);
      var up := set i | i in low :: i + 1;
      ShiftedCardinality(low, up, n - 1, 1);
      var first := if x % 2 == 1 then {0} else {};
      assert Positions(x, n) == first + up by {
        forall i | i in Positions(x, n) ensures i in first + up {
          if i > 0 { assert i - 1 in low; }
        }
      }
      assert first !! up by { assert forall i | i in low :: i >= 0; }
    }
  }

  lemma {:induction false} ShiftedCardinality(low: set<int>, up: set<int>, n: nat, c: int)
    requires up == (set i | i in low :: i + c)
    requires forall i | i in low :: 0 <= i < n
    ensures |up| == |low|
  {
    if n == 0 {
      assert forall i :: i !in low;
      assert low == {} && up == {};
    } else {
      var rest := low - {n - 1};
      var shifted := set j | j in rest :: j + c;
      ShiftedCardinality(rest, shifted, n - 1, c);
      if n - 1 in low {
        assert n - 1 + c !in shifted;
        forall j | j in up ensures j in shifted + {n - 1 + c} {
          var m :| m in low && j == m + c;
          assert m == n - 1 || m in rest;
        }
        assert up == shifted + {n - 1 + c};
      } else {
        assert rest == low;
      }
    }
  }
}
