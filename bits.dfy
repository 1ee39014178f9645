// Bytes, words and the bit-level helpers of the CPU file (cpu.c): the C
// operators `>>`, `&`, `|`, `^`, `~` on `unsigned char` are modelled on
// unbounded integers, one bit at a time.

module Bits {

  /** An `unsigned char` of the emulator (`byte`). */
  type Byte = x: int | 0 <= x < 0x100

  /** An `unsigned short` of the emulator (`word`). */
  type Word = x: int | 0 <= x < 0x1_0000

  function Pow2(n: nat): (p: nat)
    ensures 0 < p
  {
    if n == 0 then 1 else 2 * Pow2(n - 1)
  }

  /** Bit i of x, that is `(x >> i) & 1`. */
  function Bit(x: nat, i: nat): (b: nat)
    ensures b < 2
  {
    if i == 0 then x % 2 else Bit(x / 2, i - 1)
  }

  datatype BitOp = AndOp | OrOp | XorOp

  /** The effect of a bitwise operator on one pair of bits. */
  function Combine(op: BitOp, a: nat, b: nat): (r: nat)
    requires a < 2 && b < 2
  {
    match op
    case AndOp => a * b
    case OrOp => if a == 1 || b == 1 then 1 else 0
    case XorOp => if a == b then 0 else 1
  }

  /**
   * A bitwise operator on two numbers, lowest bit first. All three operators
   * map two 0 bits to 0, so no width is needed.
   */
  function Bitwise(op: BitOp, x: nat, y: nat): (r: nat)
    decreases x + y
  {
    if x == 0 && y == 0 then 0
    else 2 * Bitwise(op, x / 2, y / 2) + Combine(op, x % 2, y % 2)
  }

  lemma Pow2Byte()
    ensures Pow2(8) == 0x100
  {
  }

  /** `x & y` on bytes. */
  function And8(x: Byte, y: Byte): (r: Byte)
  {
    Pow2Byte();
    BitwiseBound(AndOp, x, y, 8);
    Bitwise(AndOp, x, y)
  }

  /** `x | y` on bytes. */
  function Or8(x: Byte, y: Byte): (r: Byte)
  {
    Pow2Byte();
    BitwiseBound(OrOp, x, y, 8);
    Bitwise(OrOp, x, y)
  }

  /** `x ^ y` on bytes. */
  function Xor8(x: Byte, y: Byte): (r: Byte)
  {
    Pow2Byte();
    BitwiseBound(XorOp, x, y, 8);
    Bitwise(XorOp, x, y)
  }

  /** `~x` stored back into a byte. */
  function Not8(x: Byte): (r: Byte)
  {
    0xFF - x
  }

  /** `x |= 1 << bit` on a byte (cpu.c, CPU_set); `1 << bit` is defined up to bit 30. */
  function SetBitValue(x: Byte, bit: nat): (r: Byte)
    requires bit <= 30
  {
    Or8(x, Pow2(bit) % 0x100)
  }

  /** `x &= ~(1 << bit)` on a byte (cpu.c, CPU_res). */
  function ResBitValue(x: Byte, bit: nat): (r: Byte)
    requires bit <= 30
  {
    And8(x, Not8(Pow2(bit) % 0x100))
  }

  /** bitset: `(reg >> bit) & 0x01` with every intermediate kept in a byte; the shift needs bit < 32. */
  function BitTest(reg: Byte, bit: nat): (b: Byte)
    requires bit < 32
    ensures b == Bit(reg, bit)
    ensures 8 <= bit ==> b == 0
  {
    var shifted := (reg / Pow2(bit)) % 0x100;
    AndOne(shifted);
    BitIsDiv(reg, bit);
    assert 8 <= bit ==> Bit(reg, bit) == 0 by {
      if 8 <= bit {
        BitOfByteAbove7(reg, bit);
      }
    }
    And8(shifted, 0x01)
  }

  // ---- words and byte pairs (cpu.c, convert_to_pair / convert_to_bytes / swap_byte_order)

  /** `(high << 8) + low`. */
  function ToPair(high: Byte, low: Byte): (r: Word)
  {
    high * 0x100 + low
  }

  function HighByte(w: Word): (r: Byte) { w / 0x100 }

  function LowByte(w: Word): (r: Byte) { w % 0x100 }

  /** `((w << 8) & 0xFFFF) + (w >> 8)`. */
  function SwapByteOrder(w: Word): (r: Word)
  {
    (w * 0x100) % 0x1_0000 + w / 0x100
  }

  /** The value of a byte read through a signed `char` (two's complement). */
  function Signed(x: Byte): (r: int)
  {
    if x < 0x80 then x else x - 0x100
  }

  // ---- properties

  /** A bitwise operator on two numbers below 2^n gives a number below 2^n. */
  lemma {:induction false} BitwiseBound(op: BitOp, x: nat, y: nat, n: nat)
    requires x < Pow2(n) && y < Pow2(n)
    ensures Bitwise(op, x, y) < Pow2(n)
    decreases n
  {
    if n > 0 && !(x == 0 && y == 0) {
      BitwiseBound(op, x / 2, y / 2, n - 1);
    }
  }

  /** Every bit of zero is 0. */
  lemma {:induction false} BitOfZero(i: nat)
    ensures Bit(0, i) == 0
  {
    if i > 0 {
      BitOfZero(i - 1);
    }
  }

  /** Reading a result bit by bit: every bit of a bitwise result is the operator applied to the bits. */
  lemma {:induction false} BitwiseBit(op: BitOp, x: nat, y: nat, i: nat)
    ensures Bit(Bitwise(op, x, y), i) == Combine(op, Bit(x, i), Bit(y, i))
    decreases x + y
  {
    if x == 0 && y == 0 {
      BitOfZero(i);
    } else {
      var r := Bitwise(op, x / 2, y / 2);
      var c := Combine(op, x % 2, y % 2);
      assert Bitwise(op, x, y) == 2 * r + c;
      if i > 0 {
        assert (2 * r + c) / 2 == r;
        BitwiseBit(op, x / 2, y / 2, i - 1);
      }
    }
  }

  /** Bits at and above n of a number below 2^n are zero. */
  lemma {:induction false} BitAboveWidth(x: nat, n: nat, i: nat)
    requires x < Pow2(n) && n <= i
    ensures Bit(x, i) == 0
    decreases i
  {
    if n == 0 {
      assert x == 0;
      if i > 0 {
        BitAboveWidth(x / 2, 0, i - 1);
      }
    } else {
      BitAboveWidth(x / 2, n - 1, i - 1);
    }
  }

  /** `bitset` of a byte at a position of 8 or more is always 0. */
  lemma BitOfByteAbove7(x: Byte, i: nat)
    requires 8 <= i
    ensures Bit(x, i) == 0
  {
    Pow2Byte();
    BitAboveWidth(x, 8, i);
  }

  /** Two numbers below 2^n with the same n low bits are equal. */
  lemma {:induction false} BitsDetermine(x: nat, y: nat, n: nat)
    requires x < Pow2(n) && y < Pow2(n)
    requires forall i :: 0 <= i < n ==> Bit(x, i) == Bit(y, i)
    ensures x == y
    decreases n
  {
    if n > 0 {
      assert Bit(x, 0) == Bit(y, 0);
      forall i | 0 <= i < n - 1
        ensures Bit(x / 2, i) == Bit(y / 2, i)
      {
        assert Bit(x, i + 1) == Bit(y, i + 1);
      }
      BitsDetermine(x / 2, y / 2, n - 1);
    }
  }

  /** The single bit of 2^k is bit k. */
  lemma {:induction false} BitOfPow2(k: nat, i: nat)
    ensures Bit(Pow2(k), i) == if i == k then 1 else 0
    decreases k
  {
    if k == 0 {
      if i > 0 {
        BitAboveWidth(1, 1, i);
      }
    } else if i > 0 {
      assert Pow2(k) / 2 == Pow2(k - 1);
      BitOfPow2(k - 1, i - 1);
    } else {
      assert Pow2(k) % 2 == 0;
    }
  }

  /** `x | 1` sets the lowest bit: the arithmetic form of `|= 0x01`. */
  lemma OrOne(x: Byte)
    ensures Or8(x, 1) == x + 1 - x % 2
  {
    Pow2Byte();
    forall i | 0 <= i < 8
      ensures Bit(Or8(x, 1), i) == Bit(x + 1 - x % 2, i)
    {
      BitwiseBit(OrOp, x, 1, i);
      BitOfPow2(0, i);
      var y := x + 1 - x % 2;
      if i > 0 {
        assert y / 2 == x / 2;
        assert Bit(y, i) == Bit(y / 2, i - 1);
        assert Bit(x, i) == Bit(x / 2, i - 1);
      } else {
        assert Bit(y, 0) == 1;
      }
    }
    assert x + 1 - x % 2 < Pow2(8);
    BitsDetermine(Or8(x, 1), x + 1 - x % 2, 8);
  }

  /** CPU_set sets exactly the named bit and leaves the seven others alone. */
  lemma SetBitValueBits(x: Byte, bit: nat, i: nat)
    requires bit < 8 && i < 8
    ensures Bit(SetBitValue(x, bit), i) == if i == bit then 1 else Bit(x, i)
  {
    Pow2Byte();
    var p := Pow2(bit);
    assert p <= Pow2(7) by { Pow2Monotone(bit, 7); }
    assert p % 0x100 == p;
    BitwiseBit(OrOp, x, p, i);
    BitOfPow2(bit, i);
  }

  /** CPU_res clears exactly the named bit and leaves the seven others alone. */
  lemma ResBitValueBits(x: Byte, bit: nat, i: nat)
    requires bit < 8 && i < 8
    ensures Bit(ResBitValue(x, bit), i) == if i == bit then 0 else Bit(x, i)
  {
    Pow2Byte();
    var mask := MaskBits(bit, i);
    BitwiseBit(AndOp, x, mask, i);
    var bx := Bit(x, i);
    if i == bit {
      assert Combine(AndOp, bx, 0) == 0;
    } else {
      assert Combine(AndOp, bx, 1) == bx;
    }
  }

  /** The mask `~(1 << bit)` of CPU_res, as a byte, has every bit but one set. */
  lemma MaskBits(bit: nat, i: nat) returns (mask: Byte)
    requires bit < 8 && i < 8
    ensures mask == Not8(Pow2(bit) % 0x100)
    ensures Bit(mask, i) == if i == bit then 0 else 1
  {
    Pow2Byte();
    var p := Pow2(bit);
    assert p <= Pow2(7) by { Pow2Monotone(bit, 7); }
    mask := Not8(p);
    NotBit(p, 8, i);
    BitOfPow2(bit, i);
  }

  lemma {:induction false} Pow2Monotone(a: nat, b: nat)
    requires a <= b
    ensures Pow2(a) <= Pow2(b)
    decreases b
  {
    if a < b {
      Pow2Monotone(a, b - 1);
    }
  }

  /** `1 << bit` fits a byte for bits 0 to 7. */
  lemma Pow2Small(bit: nat)
    requires bit < 8
    ensures Pow2(bit) < 0x100
  {
    Pow2Monotone(bit, 7);
    assert Pow2(7) == 0x80;
  }

  /** Every one of the eight bits of 0xFF is set. */
  lemma AllOnes(i: nat)
    requires i < 8
    ensures Bit(0xFF, i) == 1
  {
    Pow2Byte();
    NotBit(0, 8, i);
    assert Bit(0, i) == 0 by { BitAboveWidth(0, 0, i); }
  }

  /** `~x` on a byte flips every bit, as `x ^ 0xFF` does. */
  lemma NotIsXor(x: Byte)
    ensures Not8(x) == Xor8(x, 0xFF)
  {
    Pow2Byte();
    forall i | 0 <= i < 8
      ensures Bit(Not8(x), i) == Bit(Xor8(x, 0xFF), i)
    {
      BitwiseBit(XorOp, x, 0xFF, i);
      AllOnes(i);
      NotBit(x, 8, i);
    }
    BitsDetermine(Not8(x), Xor8(x, 0xFF), 8);
  }

  /** Bit i of (2^n - 1 - x) is the complement of bit i of x. */
  lemma {:induction false} NotBit(x: nat, n: nat, i: nat)
    requires x < Pow2(n) && i < n
    ensures Bit(Pow2(n) - 1 - x, i) == 1 - Bit(x, i)
    decreases n
  {
    if i > 0 {
      assert (Pow2(n) - 1 - x) / 2 == Pow2(n - 1) - 1 - x / 2;
      NotBit(x / 2, n - 1, i - 1);
    }
  }

  /** Setting a bit twice is setting it once. */
  lemma SetBitIdempotent(x: Byte, bit: nat)
    requires bit < 8
    ensures SetBitValue(SetBitValue(x, bit), bit) == SetBitValue(x, bit)
  {
    Pow2Byte();
    var y := SetBitValue(x, bit);
    forall i | 0 <= i < 8
      ensures Bit(SetBitValue(y, bit), i) == Bit(y, i)
    {
      SetBitValueBits(y, bit, i);
      SetBitValueBits(x, bit, i);
    }
    BitsDetermine(SetBitValue(y, bit), y, 8);
  }

  /** Clearing a bit twice is clearing it once. */
  lemma ResBitIdempotent(x: Byte, bit: nat)
    requires bit < 8
    ensures ResBitValue(ResBitValue(x, bit), bit) == ResBitValue(x, bit)
  {
    Pow2Byte();
    var y := ResBitValue(x, bit);
    forall i | 0 <= i < 8
      ensures Bit(ResBitValue(y, bit), i) == Bit(y, i)
    {
      ResBitValueBits(y, bit, i);
      ResBitValueBits(x, bit, i);
    }
    BitsDetermine(ResBitValue(y, bit), y, 8);
  }

  /** `x ^ x` is zero: XOR A clears the accumulator. */
  lemma {:induction false} XorSelf(x: nat)
    ensures Bitwise(XorOp, x, x) == 0
  {
    if x > 0 {
      XorSelf(x / 2);
    }
  }

  /** Splitting a word into its two bytes and joining them back gives the word. */
  lemma PairRoundTrip(w: Word)
    ensures ToPair(HighByte(w), LowByte(w)) == w
  {
  }

  /** Joining two bytes and splitting the word gives the bytes back. */
  lemma BytesRoundTrip(high: Byte, low: Byte)
    ensures HighByte(ToPair(high, low)) == high && LowByte(ToPair(high, low)) == low
  {
  }

  /** swap_byte_order exchanges the two bytes, so applying it twice is the identity. */
  lemma SwapByteOrderSwaps(w: Word)
    ensures SwapByteOrder(w) == ToPair(LowByte(w), HighByte(w))
    ensures SwapByteOrder(SwapByteOrder(w)) == w
  {
    ShiftOutHigh(w);
    var s := SwapByteOrder(w);
    BytesRoundTrip(LowByte(w), HighByte(w));
    ShiftOutHigh(s);
    PairRoundTrip(w);
  }

  /** `(w << 8) & 0xFFFF` keeps only the low byte, moved up. */
  lemma ShiftOutHigh(w: Word)
    ensures (w * 0x100) % 0x1_0000 == LowByte(w) * 0x100
  {
    var h: int, l: int := HighByte(w), LowByte(w);
    assert w * 0x100 == l * 0x100 + 0x1_0000 * h;
    ModShift16(l * 0x100, h);
  }

  /** Adding a multiple of 0x10000 does not change the low 16 bits. */
  lemma ModShift16(x: int, k: int)
    ensures (x + 0x1_0000 * k) % 0x1_0000 == x % 0x1_0000
  {
    DivUnique(x + 0x1_0000 * k, 0x1_0000, x / 0x1_0000 + k, x % 0x1_0000);
  }

  /** `x & 0` is 0 and `x | 0` is x. */
  lemma {:induction false} BitwiseWithZero(x: nat)
    ensures Bitwise(AndOp, x, 0) == 0
    ensures Bitwise(OrOp, x, 0) == x
  {
    if x > 0 {
      BitwiseWithZero(x / 2);
    }
  }

  /** `x & 1` is the low bit. */
  lemma AndOne(x: Byte)
    ensures And8(x, 1) == x % 2
  {
    BitwiseWithZero(x / 2);
    assert And8(x, 1) == 2 * Bitwise(AndOp, x / 2, 0) + Combine(AndOp, x % 2, 1);
  }

  /** `x & 0x80` is 0 or 0x80. */
  lemma AndHigh(x: Byte)
    ensures And8(x, 0x80) == if x >= 0x80 then 0x80 else 0
  {
    Pow2Byte();
    assert Pow2(7) == 0x80;
    var y := if x >= 0x80 then 0x80 else 0;
    BitIsDiv(x, 7);
    forall i | 0 <= i < 8
      ensures Bit(And8(x, 0x80), i) == Bit(y, i)
    {
      BitwiseBit(AndOp, x, 0x80, i);
      BitOfPow2(7, i);
      BitOfZero(i);
    }
    BitsDetermine(And8(x, 0x80), y, 8);
  }

  /** `x & (3 << k)` keeps bits k and k+1: it is `((x >> k) & 3) << k`. */
  lemma {:induction false} AndTwoBits(x: nat, k: nat)
    ensures Bitwise(AndOp, x, 3 * Pow2(k)) == Pow2(k) * ((x / Pow2(k)) % 4)
    decreases k
  {
    if k == 0 {
      AndThree(x);
    } else {
      var p := Pow2(k - 1);
      var y := 3 * p;
      assert 3 * Pow2(k) == 2 * y;
      var q := ((x / 2) / p) % 4;
      calc {
        Bitwise(AndOp, x, 2 * y);
        2 * Bitwise(AndOp, x / 2, y) + Combine(AndOp, x % 2, 0);
        { AndTwoBits(x / 2, k - 1); }
        2 * (p * q);
        (2 * p) * q;
      }
      DivHalf(x, p);
    }
  }

  /** `x & 3` is the value of the two low bits. */
  lemma AndThree(x: nat)
    ensures Bitwise(AndOp, x, 3) == x % 4
  {
    BitwiseWithZero(x / 4);
    assert Bitwise(AndOp, x / 2, 1) == 2 * Bitwise(AndOp, x / 4, 0) + Combine(AndOp, (x / 2) % 2, 1);
    assert Bitwise(AndOp, x, 3) == 2 * Bitwise(AndOp, x / 2, 1) + Combine(AndOp, x % 2, 1);
    LowTwoBits(x);
  }

  /** The two low bits of x, one at a time. */
  lemma LowTwoBits(x: nat)
    ensures x % 4 == 2 * ((x / 2) % 2) + x % 2
  {
  }

  /** `y | 0x80` on a byte below 0x80 adds 0x80. */
  lemma OrHigh(y: Byte)
    requires y < 0x80
    ensures Or8(y, 0x80) == y + 0x80
  {
    Pow2Byte();
    assert Pow2(7) == 0x80;
    BitAboveWidth(y, 7, 7);
    forall i | 0 <= i < 8
      ensures Bit(Or8(y, 0x80), i) == Bit(y + 0x80, i)
    {
      BitwiseBit(OrOp, y, 0x80, i);
      BitOfPow2(7, i);
      AddPow2Bits(y, 7, i);
    }
    BitsDetermine(Or8(y, 0x80), y + 0x80, 8);
  }

  /** Division with a remainder in range determines quotient and remainder. */
  lemma DivUnique(x: int, d: int, q: int, r: int)
    requires 0 < d && 0 <= r < d && x == d * q + r
    ensures x / d == q && x % d == r
  {
    var q0 := x / d;
    Distribute(d, q0, q);
    if q0 > q {
      MulMonotone(d, 1, q0 - q);
    } else if q0 < q {
      MulMonotone(d, 1, q - q0);
      Distribute(d, q, q0);
    }
  }

  lemma Distribute(d: int, a: int, b: int)
    ensures d * (a - b) == d * a - d * b
  {
  }

  lemma MulMonotone(d: nat, a: int, b: int)
    requires a <= b
    ensures d * a <= d * b
  {
    Distribute(d, b, a);
  }

  /** Adding a multiple of 0x100 does not change the low byte. */
  lemma ModShift(x: int, k: int)
    ensures (x + 0x100 * k) % 0x100 == x % 0x100
  {
    DivUnique(x + 0x100 * k, 0x100, x / 0x100 + k, x % 0x100);
  }

  /** Shifting left by a then by b is shifting left by a + b. */
  lemma {:induction false} Pow2Add(a: nat, b: nat)
    ensures Pow2(a) * Pow2(b) == Pow2(a + b)
    decreases a
  {
    if a > 0 {
      Pow2Add(a - 1, b);
      assert Pow2(a) * Pow2(b) == 2 * (Pow2(a - 1) * Pow2(b));
    }
  }

  /** Halving and then dividing by p is dividing by 2p. */
  lemma DivHalf(x: nat, p: nat)
    requires 0 < p
    ensures (x / 2) / p == x / (2 * p)
  {
    var h := x / 2;
    var q, r := h / p, h % p;
    assert h == p * q + r;
    assert x == 2 * h + x % 2;
    assert x == (2 * p) * q + (2 * r + x % 2);
    DivUnique(x, 2 * p, q, 2 * r + x % 2);
  }

  /** Bit i of x is `(x / 2^i) % 2`, the value of `(x >> i) & 1`. */
  lemma {:induction false} BitIsDiv(x: nat, i: nat)
    ensures Bit(x, i) == (x / Pow2(i)) % 2
    decreases i
  {
    if i > 0 {
      BitIsDiv(x / 2, i - 1);
      DivHalf(x, Pow2(i - 1));
    }
  }

  /** Adding 2^b to a number whose bit b is clear sets bit b and no other. */
  lemma {:induction false} AddPow2Bits(x: nat, b: nat, i: nat)
    requires Bit(x, b) == 0
    ensures Bit(x + Pow2(b), i) == if i == b then 1 else Bit(x, i)
    decreases b
  {
    if b == 0 {
      if i > 0 {
        assert (x + 1) / 2 == x / 2;
      }
    } else {
      assert (x + Pow2(b)) % 2 == x % 2 && (x + Pow2(b)) / 2 == x / 2 + Pow2(b - 1);
      if i > 0 {
        AddPow2Bits(x / 2, b - 1, i - 1);
      }
    }
  }

  /** `x | (1 << b)` adds 2^b exactly when bit b is clear. */
  lemma OrPow2(x: Byte, b: nat)
    requires b < 8
    ensures Pow2(b) < 0x100
    ensures Or8(x, Pow2(b)) == if Bit(x, b) == 1 then x else x + Pow2(b)
  {
    Pow2Byte();
    Pow2Monotone(b, 7);
    var y := if Bit(x, b) == 1 then x else x + Pow2(b);
    if Bit(x, b) == 0 {
      assert Bit(x + Pow2(b), b) == 1 by { AddPow2Bits(x, b, b); }
      assert x + Pow2(b) < 0x100 by {
        if x + Pow2(b) >= 0x100 {
          ByteSumOverflow(x, b);
        }
      }
    }
    forall i | 0 <= i < 8
      ensures Bit(Or8(x, Pow2(b)), i) == Bit(y, i)
    {
      BitwiseBit(OrOp, x, Pow2(b), i);
      BitOfPow2(b, i);
      if Bit(x, b) == 0 {
        AddPow2Bits(x, b, i);
      }
    }
    BitsDetermine(Or8(x, Pow2(b)), y, 8);
  }

  /** A byte with bit b clear has room for 2^b. */
  lemma ByteSumOverflow(x: Byte, b: nat)
    requires b < 8 && Bit(x, b) == 0
    ensures x + Pow2(b) < 0x100
  {
    BitIsDiv(x, b);
    if b == 0 {} else if b == 1 {} else if b == 2 {} else if b == 3 {}
    else if b == 4 {} else if b == 5 {} else if b == 6 {} else {}
  }

}
