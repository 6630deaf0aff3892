/** Numbers as rows of bits. */
module Bits {

  function Pow2(n: nat): (p: nat)
    ensures p >= 1
  {
    if n == 0 then 1 else 2 * Pow2(n - 1)
  }

  /** Bit `k` of `v`, the least significant being bit 0. */
  predicate Bit(v: nat, k: nat) { if k == 0 then v % 2 == 1 else Bit(v / 2, k - 1) }

  datatype Gate = AndGate | OrGate | XorGate

  predicate Apply(g: Gate, x: bool, y: bool) {
    match g
    case AndGate => x && y
    case OrGate => x || y
    case XorGate => x != y
  }

  /** The gate applied to the `n` low bits of both numbers. */
  function Bitwise(g: Gate, a: nat, b: nat, n: nat): (r: nat)
    ensures r < Pow2(n)
  {
    if n == 0 then 0
    else (if Apply(g, a % 2 == 1, b % 2 == 1) then 1 else 0) + 2 * Bitwise(g, a / 2, b / 2, n - 1)
  }

  lemma {:induction false} BitwiseBit(g: Gate, a: nat, b: nat, n: nat, k: nat)
    requires k < n
    ensures Bit(Bitwise(g, a, b, n), k) <==> Apply(g, Bit(a, k), Bit(b, k))
    decreases n
  {
    hide Apply;
    var r := Bitwise(g, a, b, n);
    assert r / 2 == Bitwise(g, a / 2, b / 2, n - 1);
    if k > 0 {
      BitwiseBit(g, a / 2, b / 2, n - 1, k - 1);
    }
  }

  /** The bits determine the number. */
  lemma {:induction false} SameBits(a: nat, b: nat, n: nat)
    requires a < Pow2(n) && b < Pow2(n) && forall k :: 0 <= k < n ==> (Bit(a, k) <==> Bit(b, k))
    ensures a == b
    decreases n
  {
    if n > 0 {
      assert Bit(a, 0) <==> Bit(b, 0);
      forall k | 0 <= k < n - 1 ensures Bit(a / 2, k) <==> Bit(b / 2, k) {
        assert Bit(a, k + 1) <==> Bit(b, k + 1);
      }
      SameBits(a / 2, b / 2, n - 1);
    }
  }

  lemma {:induction false} NoHighBits(v: nat, n: nat, k: nat)
    requires v < Pow2(n) && n <= k
    ensures !Bit(v, k)
    decreases k
  {
    if k > 0 {
      if n == 0 {
        NoHighBits(v / 2, 0, k - 1);
      } else {
        NoHighBits(v / 2, n - 1, k - 1);
      }
    }
  }

  /** Adding 2^n changes no bit below bit n, and sets bit n if it was clear and nothing stood above. */
  lemma {:induction false} AddPower(v: nat, n: nat, k: nat)
    requires k <= n && (k == n ==> v < Pow2(n))
    ensures Bit(v + Pow2(n), k) <==> (k == n || Bit(v, k))
    decreases n
  {
    if n > 0 {
      assert (v + Pow2(n)) / 2 == v / 2 + Pow2(n - 1);
      if k > 0 {
        AddPower(v / 2, n - 1, k - 1);
      }
    }
  }

  lemma Powers()
    ensures Pow2(8) == 0x100 && Pow2(31) == 0x8000_0000 && Pow2(32) == 0x1_0000_0000
    ensures Pow2(64) == 0x1_0000_0000_0000_0000
  {
    assert Pow2(4) == 16 && Pow2(8) == 0x100 && Pow2(12) == 0x1000 && Pow2(16) == 0x1_0000;
    assert Pow2(20) == 0x10_0000 && Pow2(24) == 0x100_0000 && Pow2(28) == 0x1000_0000 && Pow2(32) == 0x1_0000_0000;
    assert Pow2(36) == 0x10_0000_0000 && Pow2(40) == 0x100_0000_0000 && Pow2(44) == 0x1000_0000_0000;
    assert Pow2(48) == 0x1_0000_0000_0000 && Pow2(52) == 0x10_0000_0000_0000 && Pow2(56) == 0x100_0000_0000_0000;
    assert Pow2(60) == 0x1000_0000_0000_0000;
  }

  // ----- shifts of 32 bits -----

  type Word = n: nat | n < 0x1_0000_0000

  function ShiftLeft(v: Word, n: nat): Word
    decreases n
  {
    if n == 0 then v else ShiftLeft(v * 2 % 0x1_0000_0000, n - 1)
  }

  function ShiftRight(v: Word, n: nat): Word
    decreases n
  {
    if n == 0 then v else ShiftRight(v / 2, n - 1)
  }

  /** The sign bit is shifted in. */
  function ShiftSigned(v: Word, n: nat): Word
    decreases n
  {
    if n == 0 then v else ShiftSigned(v / 2 + (if v >= 0x8000_0000 then 0x8000_0000 else 0), n - 1)
  }

  lemma DoubleBit(v: Word, k: nat)
    requires k < 32
    ensures Bit(v * 2 % 0x1_0000_0000, k) <==> k >= 1 && Bit(v, k - 1)
  {
    hide Pow2;
    Powers();
    TopBitLost(v);
    var low := if v < 0x8000_0000 then v else v - 0x8000_0000;
    assert 2 * low / 2 == low;
    if k > 0 && v >= 0x8000_0000 {
      AddPower(low, 31, k - 1);
    }
  }

  lemma TopBitLost(v: Word)
    ensures v * 2 % 0x1_0000_0000 == 2 * (if v < 0x8000_0000 then v else v - 0x8000_0000)
  {
  }

  /** Bit `k` moves to bit `k + n`, and zeros come in below. */
  lemma {:induction false} LeftBit(v: Word, n: nat, k: nat)
    requires k < 32
    ensures Bit(ShiftLeft(v, n), k) <==> n <= k && Bit(v, k - n)
    decreases n
  {
    hide Bit;
    if n > 0 {
      LeftBit(v * 2 % 0x1_0000_0000, n - 1, k);
      if n - 1 <= k {
        DoubleBit(v, k - (n - 1));
      }
    }
  }

  /** Bit `k + n` moves to bit `k`, and zeros come in above. */
  lemma {:induction false} RightBit(v: Word, n: nat, k: nat)
    ensures Bit(ShiftRight(v, n), k) <==> Bit(v, k + n)
    decreases n
  {
    if n > 0 {
      RightBit(v / 2, n - 1, k);
    }
  }

  lemma HalfSigned(v: Word, k: nat)
    requires k < 32
    ensures Bit(v / 2 + (if v >= 0x8000_0000 then 0x8000_0000 else 0), k) <==> Bit(v, if k < 31 then k + 1 else 31)
  {
    Powers();
    SignBit(v);
    if v >= 0x8000_0000 {
      AddPower(v / 2, 31, k);
    } else if k == 31 {
      NoHighBits(v / 2, 31, 31);
    }
  }

  lemma SignBit(v: Word)
    ensures Bit(v, 31) <==> v >= 0x8000_0000
  {
    Powers();
    if v >= 0x8000_0000 {
      AddPower(v - 0x8000_0000, 31, 31);
    } else {
      NoHighBits(v, 31, 31);
    }
  }

  /** Bit `k + n` moves to bit `k`, and copies of bit 31 come in above. */
  lemma {:induction false} SignedBit(v: Word, n: nat, k: nat)
    requires k < 32
    ensures Bit(ShiftSigned(v, n), k) <==> Bit(v, if k + n < 31 then k + n else 31)
    decreases n
  {
    hide Bit;
    if n > 0 {
      var half := v / 2 + (if v >= 0x8000_0000 then 0x8000_0000 else 0);
      SignedBit(half, n - 1, k);
      HalfSigned(v, if k + (n - 1) < 31 then k + (n - 1) else 31);
    }
  }
}
