/** CRC-8 with polynomial x^8 + x^2 + x + 1, initial value 0, most significant bit first. */
module Crc8 {
  import opened Prelude

  // ----- a byte and its bits -----

  function Pack(b7: bool, b6: bool, b5: bool, b4: bool, b3: bool, b2: bool, b1: bool, b0: bool): bv8 {
    (if b7 then 0x80 else 0) | (if b6 then 0x40 else 0) | (if b5 then 0x20 else 0) | (if b4 then 0x10 else 0) |
    (if b3 then 0x08 else 0) | (if b2 then 0x04 else 0) | (if b1 then 0x02 else 0) | (if b0 then 0x01 else 0)
  }

  /** The bit pattern of a number. */
  function Bits(n: byte): bv8 {
    var n1 := n / 2;
    var n2 := n1 / 2;
    var n3 := n2 / 2;
    var n4 := n3 / 2;
    var n5 := n4 / 2;
    var n6 := n5 / 2;
    Pack(n6 / 2 == 1, n6 % 2 == 1, n5 % 2 == 1, n4 % 2 == 1, n3 % 2 == 1, n2 % 2 == 1, n1 % 2 == 1, n % 2 == 1)
  }

  type Digit = n: nat | n < 2

  function DigitAt(x: bv8, mask: bv8): Digit { if x & mask != 0 then 1 else 0 }

  function FromDigits(d7: Digit, d6: Digit, d5: Digit, d4: Digit, d3: Digit, d2: Digit, d1: Digit, d0: Digit): byte {
    ((((((d7 * 2 + d6) * 2 + d5) * 2 + d4) * 2 + d3) * 2 + d2) * 2 + d1) * 2 + d0
  }

  /** The number a bit pattern denotes. */
  function Number(x: bv8): byte {
    FromDigits(DigitAt(x, 0x80), DigitAt(x, 0x40), DigitAt(x, 0x20), DigitAt(x, 0x10),
               DigitAt(x, 0x08), DigitAt(x, 0x04), DigitAt(x, 0x02), DigitAt(x, 0x01))
  }

  // ----- the shift register -----

  function Xor(x: bv8, y: bv8): bv8 { x ^ y }

  /** One step of the register; `feedback` is its top bit XOR the message bit. */
  function Clock(c: bv8, feedback: bool): bv8 {
    if feedback then (c << 1) ^ 0x07 else c << 1
  }

  /** A byte with its `n` top bits shifted out. */
  function Drop(m: bv8, n: nat): bv8 {
    if n == 0 then m else Drop(m, n - 1) << 1
  }

  /** The register clocked through the `n` most significant bits of `m`. */
  function ClockBits(c: bv8, m: bv8, n: nat): bv8
    requires n <= 8
  {
    if n == 0 then c else
    var c' := ClockBits(c, m, n - 1);
    Clock(c', (c' ^ Drop(m, n - 1)) & 0x80 != 0)
  }

  function Update(crc: byte, b: byte): byte {
    Number(ClockBits(Bits(crc), Bits(b), 8))
  }

  /** `bytes` folded into a running value. */
  function Fold(crc: byte, bytes: seq<byte>): byte
    decreases |bytes|
  {
    if bytes == [] then crc else Fold(Update(crc, bytes[0]), bytes[1..])
  }

  function Crc8(bytes: seq<byte>): byte { Fold(0, bytes) }

  /** The bit loop of `crc8_update`, from bit 7 down to bit 0. */
  method UpdateLoop(crc: byte, b: byte) returns (r: byte)
    ensures r == Update(crc, b)
  {
    hide Bits, Number, Clock;
    var c, m := Bits(crc), Bits(b);
    var i := 8;
    while i > 0
      invariant 0 <= i <= 8
      invariant c == ClockBits(Bits(crc), m, 8 - i)
    {
      i := i - 1;
      var feedback := ((c >> 7) & 1) ^ ((m >> i) & 1);
      FeedbackBit(c, m, i);
      Clocked(c, feedback == 1);
      c := c << 1;
      if feedback == 1 {
        c := c ^ 0x07;
      }
    }
    r := Number(c);
  }

  lemma Clocked(c: bv8, feedback: bool)
    ensures Clock(c, feedback) == if feedback then (c << 1) ^ 0x07 else c << 1
  {
  }

  lemma BitFromTheTop(m: bv8, n: nat)
    requires n < 8
    ensures Drop(m, n) & 0x80 != 0 <==> (m >> (7 - n)) & 1 == 1
  {
    var d1 := m << 1;
    var d2 := d1 << 1;
    var d3 := d2 << 1;
    assert Drop(m, 1) == d1 && Drop(m, 2) == d2 && Drop(m, 3) == d3;
    assert Drop(m, 4) == d3 << 1 && Drop(m, 5) == d3 << 1 << 1;
    assert Drop(m, 6) == d3 << 1 << 1 << 1 && Drop(m, 7) == d3 << 1 << 1 << 1 << 1;
  }

  lemma TopOfXor(c: bv8, d: bv8, low: bv8)
    requires low <= 1 && (d & 0x80 != 0 <==> low == 1)
    ensures ((c >> 7) & 1) ^ low == 1 <==> (c ^ d) & 0x80 != 0
  {
  }

  lemma LowBit(x: bv8)
    ensures x & 1 <= 1
  {
  }

  lemma FeedbackBit(c: bv8, m: bv8, i: nat)
    requires i < 8
    ensures ((c >> 7) & 1) ^ ((m >> i) & 1) == 1 <==> (c ^ Drop(m, 7 - i)) & 0x80 != 0
  {
    BitFromTheTop(m, 7 - i);
    LowBit(m >> i);
    TopOfXor(c, Drop(m, 7 - i), (m >> i) & 1);
  }

  // ----- numbers and patterns determine each other -----

  lemma PackedBits(b7: bool, b6: bool, b5: bool, b4: bool, b3: bool, b2: bool, b1: bool, b0: bool)
    ensures var x := Pack(b7, b6, b5, b4, b3, b2, b1, b0);
            && (x & 0x80 != 0 <==> b7) && (x & 0x40 != 0 <==> b6) && (x & 0x20 != 0 <==> b5)
            && (x & 0x10 != 0 <==> b4) && (x & 0x08 != 0 <==> b3) && (x & 0x04 != 0 <==> b2)
            && (x & 0x02 != 0 <==> b1) && (x & 0x01 != 0 <==> b0)
  {
  }

  lemma Repacked(x: bv8)
    ensures Pack(x & 0x80 != 0, x & 0x40 != 0, x & 0x20 != 0, x & 0x10 != 0,
                 x & 0x08 != 0, x & 0x04 != 0, x & 0x02 != 0, x & 0x01 != 0) == x
  {
  }

  lemma DigitsOf(n: byte)
    ensures var n1 := n / 2; var n2 := n1 / 2; var n3 := n2 / 2; var n4 := n3 / 2; var n5 := n4 / 2; var n6 := n5 / 2;
            n6 / 2 < 2 && FromDigits(n6 / 2, n6 % 2, n5 % 2, n4 % 2, n3 % 2, n2 % 2, n1 % 2, n % 2) == n
  {
  }

  lemma NumberOfPacked(d7: Digit, d6: Digit, d5: Digit, d4: Digit, d3: Digit, d2: Digit, d1: Digit, d0: Digit)
    ensures Number(Pack(d7 == 1, d6 == 1, d5 == 1, d4 == 1, d3 == 1, d2 == 1, d1 == 1, d0 == 1))
         == FromDigits(d7, d6, d5, d4, d3, d2, d1, d0)
  {
    hide Pack, FromDigits;
    PackedBits(d7 == 1, d6 == 1, d5 == 1, d4 == 1, d3 == 1, d2 == 1, d1 == 1, d0 == 1);
  }

  lemma NumberOfBits(n: byte)
    ensures Number(Bits(n)) == n
  {
    hide Pack, FromDigits, Number;
    var n1 := n / 2;
    var n2 := n1 / 2;
    var n3 := n2 / 2;
    var n4 := n3 / 2;
    var n5 := n4 / 2;
    var n6 := n5 / 2;
    DigitsOf(n);
    NumberOfPacked(n6 / 2, n6 % 2, n5 % 2, n4 % 2, n3 % 2, n2 % 2, n1 % 2, n % 2);
  }

  lemma HalvesOf(d7: Digit, d6: Digit, d5: Digit, d4: Digit, d3: Digit, d2: Digit, d1: Digit, d0: Digit)
    ensures var n := FromDigits(d7, d6, d5, d4, d3, d2, d1, d0);
            var n1 := n / 2; var n2 := n1 / 2; var n3 := n2 / 2; var n4 := n3 / 2; var n5 := n4 / 2; var n6 := n5 / 2;
            && n6 / 2 == d7 && n6 % 2 == d6 && n5 % 2 == d5 && n4 % 2 == d4
            && n3 % 2 == d3 && n2 % 2 == d2 && n1 % 2 == d1 && n % 2 == d0
  {
    var m6 := d7 * 2 + d6;
    var m5 := m6 * 2 + d5;
    var m4 := m5 * 2 + d4;
    var m3 := m4 * 2 + d3;
    var m2 := m3 * 2 + d2;
    var m1 := m2 * 2 + d1;
    Peel(2, m1, d0);
    Peel(2, m2, d1);
    Peel(2, m3, d2);
    Peel(2, m4, d3);
    Peel(2, m5, d4);
    Peel(2, m6, d5);
    Peel(2, d7, d6);
  }

  lemma BitsOfNumber(x: bv8)
    ensures Bits(Number(x)) == x
  {
    hide Pack, FromDigits;
    HalvesOf(DigitAt(x, 0x80), DigitAt(x, 0x40), DigitAt(x, 0x20), DigitAt(x, 0x10),
             DigitAt(x, 0x08), DigitAt(x, 0x04), DigitAt(x, 0x02), DigitAt(x, 0x01));
    Repacked(x);
  }

  lemma SameBits(a: byte, b: byte)
    ensures Bits(a) == Bits(b) <==> a == b
  {
    hide Bits, Number;
    NumberOfBits(a);
    NumberOfBits(b);
  }

  lemma ZeroBits()
    ensures Bits(0) == 0
  {
  }

  // ----- the update is one bijection of crc XOR byte -----

  /** Multiplication by x^n modulo the polynomial. */
  function Times(x: bv8, n: nat): bv8 {
    if n == 0 then x else
    var y := Times(x, n - 1);
    Clock(y, y & 0x80 != 0)
  }

  lemma DropAll(m: bv8)
    ensures Drop(m, 8) == 0
  {
    var d4 := m << 1 << 1 << 1 << 1;
    assert Drop(m, 1) == m << 1 && Drop(m, 2) == m << 1 << 1 && Drop(m, 3) == m << 1 << 1 << 1 && Drop(m, 4) == d4;
    assert Drop(m, 5) == d4 << 1 && Drop(m, 6) == d4 << 1 << 1 && Drop(m, 7) == d4 << 1 << 1 << 1;
  }

  lemma ClockXor(c: bv8, d: bv8, mix: bv8)
    requires c ^ d == mix
    ensures Clock(c, (c ^ d) & 0x80 != 0) ^ (d << 1) == Clock(mix, mix & 0x80 != 0)
  {
  }

  lemma ClockBitsStep(c: bv8, m: bv8, mix: bv8, n: nat, x: bv8, d: bv8, y: bv8)
    requires 1 <= n <= 8
    requires x == ClockBits(c, m, n - 1) && d == Drop(m, n - 1) && y == Times(mix, n - 1)
    requires x ^ d == y
    ensures ClockBits(c, m, n) ^ Drop(m, n) == Times(mix, n)
  {
    hide Clock;
    ClockXor(x, d, y);
  }

  lemma {:induction false} ClockBitsIsTimes(c: bv8, m: bv8, mix: bv8, n: nat)
    requires n <= 8 && mix == c ^ m
    ensures ClockBits(c, m, n) ^ Drop(m, n) == Times(mix, n)
  {
    if n > 0 {
      ClockBitsIsTimes(c, m, mix, n - 1);
      ClockBitsStep(c, m, mix, n, ClockBits(c, m, n - 1), Drop(m, n - 1), Times(mix, n - 1));
    }
  }

  lemma ClockedThrough(c: bv8, m: bv8)
    ensures ClockBits(c, m, 8) == Times(Xor(c, m), 8)
  {
    hide Clock, ClockBits, Times, Drop;
    ClockBitsIsTimes(c, m, Xor(c, m), 8);
    DropAll(m);
    XorFacts(ClockBits(c, m, 8));
  }

  lemma XorFacts(x: bv8)
    ensures Xor(x, 0) == x ^ 0 == x && Xor(x, x) == 0
  {
  }

  lemma UpdateIsTimes(crc: byte, b: byte)
    ensures Bits(Update(crc, b)) == Times(Xor(Bits(crc), Bits(b)), 8)
  {
    hide Bits, Number, ClockBits, Times, Xor;
    BitsOfNumber(ClockBits(Bits(crc), Bits(b), 8));
    ClockedThrough(Bits(crc), Bits(b));
  }

  lemma ClockInjective(x: bv8, y: bv8)
    requires Clock(x, x & 0x80 != 0) == Clock(y, y & 0x80 != 0)
    ensures x == y
  {
  }

  lemma {:induction false} TimesInjective(x: bv8, y: bv8, n: nat)
    requires Times(x, n) == Times(y, n)
    ensures x == y
  {
    hide Clock;
    if n > 0 {
      ClockInjective(Times(x, n - 1), Times(y, n - 1));
      TimesInjective(x, y, n - 1);
    }
  }

  lemma ClockZero()
    ensures Clock(0, (0 as bv8) & 0x80 != 0) == 0
  {
  }

  lemma {:induction false} TimesZero(n: nat)
    ensures Times(0, n) == 0
  {
    hide Clock;
    if n > 0 {
      TimesZero(n - 1);
      ClockZero();
    }
  }

  lemma SameXor(x1: bv8, x2: bv8, y1: bv8, y2: bv8)
    requires x1 ^ y1 == x2 ^ y2
    ensures x1 == x2 <==> y1 == y2
  {
  }

  lemma XorCancels(x1: bv8, x2: bv8, y1: bv8, y2: bv8)
    requires Xor(x1, y1) == Xor(x2, y2)
    ensures x1 == x2 <==> y1 == y2
  {
    SameXor(x1, x2, y1, y2);
  }

  /** Two updates agree only if neither or both of their arguments changed. */
  lemma UpdateInjective(c1: byte, c2: byte, b1: byte, b2: byte)
    requires Update(c1, b1) == Update(c2, b2)
    ensures c1 == c2 <==> b1 == b2
  {
    hide Bits, Update, Times, Xor;
    UpdateIsTimes(c1, b1);
    UpdateIsTimes(c2, b2);
    TimesInjective(Xor(Bits(c1), Bits(b1)), Xor(Bits(c2), Bits(b2)), 8);
    XorCancels(Bits(c1), Bits(c2), Bits(b1), Bits(b2));
    SameBits(c1, c2);
    SameBits(b1, b2);
  }

  /** The register empties exactly on a byte equal to itself. */
  lemma UpdateZero(crc: byte, b: byte)
    ensures Update(crc, b) == 0 <==> b == crc
  {
    hide Bits, Update, Times, Xor;
    UpdateIsTimes(crc, crc);
    XorFacts(Bits(crc));
    TimesZero(8);
    ZeroBits();
    SameBits(Update(crc, crc), 0);
    if Update(crc, b) == 0 {
      UpdateInjective(crc, crc, b, crc);
    }
  }

  // ----- properties of whole messages -----

  lemma {:induction false} FoldAppend(crc: byte, a: seq<byte>, b: seq<byte>)
    ensures Fold(crc, a + b) == Fold(Fold(crc, a), b)
    decreases |a|
  {
    hide Update;
    if a == [] {
      assert a + b == b;
    } else {
      assert (a + b)[1..] == a[1..] + b;
      FoldAppend(Update(crc, a[0]), a[1..], b);
    }
  }

  lemma FoldOne(crc: byte, b: byte)
    ensures Fold(crc, [b]) == Update(crc, b)
  {
    hide Update;
    assert [b][1..] == [];
  }

  /** The residue of a message followed by `c` is zero exactly when `c` is its CRC. */
  lemma Residue(msg: seq<byte>, c: byte)
    ensures Crc8(msg + [c]) == 0 <==> c == Crc8(msg)
  {
    hide Update;
    FoldAppend(0, msg, [c]);
    FoldOne(Crc8(msg), c);
    UpdateZero(Crc8(msg), c);
  }

  lemma {:induction false} FoldInjective(c1: byte, c2: byte, tail: seq<byte>)
    ensures Fold(c1, tail) == Fold(c2, tail) <==> c1 == c2
    decreases |tail|
  {
    hide Update;
    if tail != [] {
      FoldInjective(Update(c1, tail[0]), Update(c2, tail[0]), tail[1..]);
      if Update(c1, tail[0]) == Update(c2, tail[0]) {
        UpdateInjective(c1, c2, tail[0], tail[0]);
      }
    }
  }

  /** Changing any one byte of a message changes its CRC. */
  lemma OneByteChange(msg: seq<byte>, i: nat, b: byte)
    requires i < |msg|
    ensures Crc8(msg[i := b]) == Crc8(msg) <==> b == msg[i]
  {
    hide Update;
    var head, tail := msg[..i], msg[i + 1..];
    assert msg == head + ([msg[i]] + tail);
    assert msg[i := b] == head + ([b] + tail);
    FoldAppend(0, head, [msg[i]] + tail);
    FoldAppend(0, head, [b] + tail);
    var c := Fold(0, head);
    assert ([b] + tail)[1..] == tail && ([msg[i]] + tail)[1..] == tail;
    FoldInjective(Update(c, b), Update(c, msg[i]), tail);
    if Update(c, b) == Update(c, msg[i]) {
      UpdateInjective(c, c, b, msg[i]);
    }
  }

  /** The polynomial and its bit order, pinned: the CRC of the TRIGGER opcode. */
  lemma TriggerCrc()
    ensures Crc8([0x02]) == 0x0E
  {
    var x: bv8 := 2;
    assert Bits(2) == x && Xor(0, x) == x;
    TimesSix();
    assert Times(x, 7) == 0x07;
    assert Times(x, 8) == 0x0E;
    ZeroBits();
    UpdateIsTimes(0, 2);
    assert Bits(0x0E) == 0x0E;
    SameBits(Update(0, 2), 0x0E);
    FoldOne(0, 2);
  }

  lemma TimesSix()
    ensures Times(2, 6) == 0x80
  {
    var x: bv8 := 2;
    assert Times(x, 1) == 0x04;
    assert Times(x, 2) == 0x08;
    assert Times(x, 3) == 0x10;
    assert Times(x, 4) == 0x20;
    assert Times(x, 5) == 0x40;
  }
}
