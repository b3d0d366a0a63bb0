/** Unsigned fixed-width integers as natural numbers, with the shift and
    bitwise operators of the source written out bit by bit. */
module Bits {

  type Byte = x: nat | x < 0x100
  type Word16 = x: nat | x < 0x1_0000
  type Word32 = x: nat | x < 0x1_0000_0000

  /** x >> k */
  function Shr(x: nat, k: nat): nat
    decreases k
  {
    if k == 0 then x else Shr(x / 2, k - 1)
  }

  /** The bit of weight 2^k. */
  predicate BitAt(x: nat, k: nat) {
    Shr(x, k) % 2 == 1
  }

  /** x ^ y */
  function Xor(x: nat, y: nat): nat
    decreases x + y
  {
    if x == 0 && y == 0 then 0 else 2 * Xor(x / 2, y / 2) + (x % 2 + y % 2) % 2
  }

  /** x | y */
  function Or(x: nat, y: nat): nat
    decreases x + y
  {
    if x == 0 && y == 0 then 0
    else 2 * Or(x / 2, y / 2) + (if x % 2 == 1 || y % 2 == 1 then 1 else 0)
  }

  function Pow2(n: nat): (p: nat)
    ensures p >= 1
  {
    if n == 0 then 1 else 2 * Pow2(n - 1)
  }

  /** The value whose lowest n bits are set. */
  function Ones(n: nat): nat {
    Pow2(n) - 1
  }

  lemma XorHalves(x: nat, y: nat)
    ensures Xor(x, y) / 2 == Xor(x / 2, y / 2)
    ensures Xor(x, y) % 2 == 1 <==> (x % 2 == 1) != (y % 2 == 1)
  {
    var half, low := Xor(x / 2, y / 2), (x % 2 + y % 2) % 2;
    assert low == if (x % 2 == 1) != (y % 2 == 1) then 1 else 0;
    assert Xor(x, y) == 2 * half + low;
    hide Xor;
    HalfAndLow(half, low);
  }

  lemma HalfAndLow(half: nat, low: nat)
    requires low < 2
    ensures (2 * half + low) / 2 == half && (2 * half + low) % 2 == low
  {
  }

  lemma OrHalves(x: nat, y: nat)
    ensures Or(x, y) / 2 == Or(x / 2, y / 2)
    ensures Or(x, y) % 2 == 1 <==> x % 2 == 1 || y % 2 == 1
  {
    var half, low := Or(x / 2, y / 2), if x % 2 == 1 || y % 2 == 1 then 1 else 0;
    assert Or(x, y) == 2 * half + low;
    hide Or;
    HalfAndLow(half, low);
  }

  lemma {:induction false} XorBit(x: nat, y: nat, k: nat)
    ensures BitAt(Xor(x, y), k) <==> BitAt(x, k) != BitAt(y, k)
    decreases k
  {
    hide Xor;
    XorHalves(x, y);
    if k > 0 {
      XorBit(x / 2, y / 2, k - 1);
    }
  }

  lemma {:induction false} OrBit(x: nat, y: nat, k: nat)
    ensures BitAt(Or(x, y), k) <==> BitAt(x, k) || BitAt(y, k)
    decreases k
  {
    hide Or;
    OrHalves(x, y);
    if k > 0 {
      OrBit(x / 2, y / 2, k - 1);
    }
  }

  lemma {:induction false} ShrPow2(n: nat, k: nat)
    requires k <= n
    ensures Shr(Pow2(n), k) == Pow2(n - k)
    decreases k
  {
    if k > 0 {
      assert Pow2(n) / 2 == Pow2(n - 1);
      ShrPow2(n - 1, k - 1);
    }
  }

  lemma {:induction false} ShrOnes(n: nat, k: nat)
    requires k <= n
    ensures Shr(Ones(n), k) == Ones(n - k)
    decreases k
  {
    if k > 0 {
      assert Ones(n) / 2 == Ones(n - 1);
      ShrOnes(n - 1, k - 1);
    }
  }

  lemma {:induction false} Pow2Bit(n: nat, k: nat)
    ensures BitAt(Pow2(n), k) <==> k == n
    decreases k
  {
    if k > 0 {
      if n == 0 {
        ZeroBit(k - 1);
      } else {
        Pow2Bit(n - 1, k - 1);
      }
    }
  }

  lemma {:induction false} ZeroBit(k: nat)
    ensures Shr(0, k) == 0 && !BitAt(0, k)
  {
    if k > 0 {
      ZeroBit(k - 1);
    }
  }

  lemma {:induction false} OnesBit(n: nat, k: nat)
    ensures BitAt(Ones(n), k) <==> k < n
    decreases k
  {
    if n == 0 {
      ZeroBit(k);
    } else if k > 0 {
      assert Ones(n) / 2 == Ones(n - 1);
      OnesBit(n - 1, k - 1);
    }
  }

  /** x <= y when every bit of x is a bit of y. */
  lemma {:induction false} BitsMonotone(x: nat, y: nat, w: nat)
    requires x < Pow2(w)
    requires forall k :: 0 <= k < w && BitAt(x, k) ==> BitAt(y, k)
    ensures x <= y
    decreases w
  {
    if w > 0 {
      assert BitAt(x, 0) ==> BitAt(y, 0);
      forall k | 0 <= k < w - 1 && BitAt(x / 2, k)
        ensures BitAt(y / 2, k)
      {
        assert BitAt(x, k + 1);
      }
      BitsMonotone(x / 2, y / 2, w - 1);
    }
  }

  /** A value is zero above position j exactly when none of those bits is set. */
  lemma {:induction false} ShrZero(x: nat, j: nat, w: nat)
    requires x < Pow2(w) && j <= w
    ensures Shr(x, j) == 0 <==> forall k :: j <= k < w ==> !BitAt(x, k)
    decreases j
  {
    if j == 0 {
      if x == 0 {
        forall k | 0 <= k < w ensures !BitAt(x, k) {
          ZeroBit(k);
        }
      } else if forall k :: 0 <= k < w ==> !BitAt(x, k) {
        BitsMonotone(x, 0, w);
      }
    } else {
      ShrZero(x / 2, j - 1, w - 1);
      forall k | j <= k < w ensures BitAt(x, k) <==> BitAt(x / 2, k - 1) {
      }
      forall k | j - 1 <= k < w - 1 ensures BitAt(x / 2, k) <==> BitAt(x, k + 1) {
      }
    }
  }

  /** Xor and Or stay within the width of their operands. */
  lemma {:induction false} BitwiseBound(x: nat, y: nat, w: nat)
    requires x < Pow2(w) && y < Pow2(w)
    ensures Xor(x, y) < Pow2(w) && Or(x, y) < Pow2(w)
    decreases w
  {
    if w > 0 {
      BitwiseBound(x / 2, y / 2, w - 1);
    }
  }

  lemma ByteWidth()
    ensures Pow2(8) == 0x100 && Pow2(7) == 0x80 && Ones(8) == 0xFF
  {
  }

  lemma WordWidth()
    ensures Pow2(32) == 0x1_0000_0000 && Pow2(31) == 0x8000_0000 && Ones(32) == 0xFFFF_FFFF
  {
    assert Pow2(8) == 256;
    assert Pow2(16) == 65536;
    assert Pow2(24) == 16777216;
    assert Pow2(31) == 2147483648;
  }
}
