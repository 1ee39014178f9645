// What the helper routines of cpu.c compute, stated against independent
// definitions: sums with their carry, per-bit meanings, stack round trips.

module CpuProperties {
  import opened Bits
  import opened State
  import opened MemorySpec
  import opened CpuSpec

  // ---- 8-bit arithmetic

  /**
   * ADD/ADC with any operand other than A: A and C together hold the 9-bit sum
   * of A and the operand plus carry; H is the carry out of the low nibbles;
   * the operand register (if any) keeps `operand + carry`.
   */
  lemma AddIsNineBitSum(s: Machine, o: Operand, carry: Byte)
    requires o != OpReg(RA)
    ensures var r := AluAdd(s, o, carry);
            var v := (Deref(s, o) + carry) % 0x100;
            r.A + 0x100 * r.F.C == s.A + v
            && r.F == Flags(Flag(r.A == 0), 0, Flag(s.A % 0x10 + v % 0x10 > 0xF), r.F.C, 0)
            && r == Assign(s, o, v).(A := r.A, F := r.F)
  {
    var v := (Deref(s, o) + carry) % 0x100;
    OperandParts(s, o, carry);
    NineBitSum(s.A, v);
  }

  /**
   * The common start of CPU_add_8 and CPU_subtract_8 for an operand other than
   * A: after the flags are cleared and `*o += carry`, A is unchanged and the
   * operand reads back the updated value.
   */
  lemma OperandParts(s: Machine, o: Operand, carry: Byte)
    requires o != OpReg(RA)
    ensures var v := (Deref(s, o) + carry) % 0x100;
            var s2 := Assign(ClearFlags(s), o, v);
            s2.A == s.A && Deref(s2, Assigned(o, v)) == v && s2 == Assign(s, o, v).(F := NoFlags)
  {
    match o
    case OpValue(_) =>
    case OpReg(r) =>
  }

  /** A byte sum is its low byte plus 0x100 for the carry. */
  lemma NineBitSum(a: Byte, v: Byte)
    ensures (a + v) % 0x100 + 0x100 * Flag(a + v > 0xFF) == a + v
  {
  }

  /** A byte difference is its low byte minus 0x100 for the borrow. */
  lemma NineBitDifference(a: Byte, v: Byte)
    ensures (a - v) % 0x100 - 0x100 * Flag(a - v < 0) == a - v
    ensures (a % 0x10 - v % 0x10) % 0x100 >= 0
  {
  }

  /**
   * ADD A,A and ADC A,A: `*toAdd += Carry` writes A first, so A ends as twice
   * (A + carry), and the half-carry test adds the low nibble of the old A to
   * the low nibble of the NEW A.
   */
  lemma AddToItself(s: Machine, carry: Byte)
    ensures var r := AluAdd(s, OpReg(RA), carry);
            var v := (s.A + carry) % 0x100;
            r.A + 0x100 * r.F.C == 2 * v
            && r.F.H == Flag(s.A % 0x10 + r.A % 0x10 > 0xF)
            && r == s.(A := r.A, F := r.F)
  {
    var v := (s.A + carry) % 0x100;
    assert AluAdd(s, OpReg(RA), carry) == AddStored(s.(A := v, F := NoFlags), OpReg(RA), s.A);
    NineBitSum(v, v);
  }

  /** ADD A,A with A = 0x08 leaves H clear although the low nibbles carry. */
  lemma AddToItselfHalfCarry(s: Machine)
    requires s.A == 0x08
    ensures AluAdd(s, OpReg(RA), 0).A == 0x10
    ensures AluAdd(s, OpReg(RA), 0).F.H == 0
  {
  }

  /**
   * SUB/SBC with any operand other than A: A - 0x100 * C is the difference,
   * N is set and H is never set.
   */
  lemma SubtractIsDifference(s: Machine, o: Operand, carry: Byte)
    requires o != OpReg(RA)
    ensures var r := AluSubtract(s, o, carry);
            var v := (Deref(s, o) + carry) % 0x100;
            r.A - 0x100 * r.F.C == s.A - v
            && r.F == Flags(Flag(r.A == 0), 1, 0, Flag(s.A < v), 0)
            && r == Assign(s, o, v).(A := r.A, F := r.F)
  {
    var v := (Deref(s, o) + carry) % 0x100;
    OperandParts(s, o, carry);
    NineBitDifference(s.A, v);
  }

  /** SUB A and SBC A: the operand is A itself, so A always ends 0 with Z set and C clear. */
  lemma SubtractFromItself(s: Machine, carry: Byte)
    ensures AluSubtract(s, OpReg(RA), carry) == s.(A := 0, F := Flags(1, 1, 0, 0, 0))
  {
  }

  /** CP: only the flags change; Z says A equals the operand, C says A is below it. */
  lemma CompareOnlyFlags(s: Machine, o: Operand)
    ensures AluCompare(s, o) ==
            s.(F := Flags(Flag(s.A == Deref(s, o)), 1, 0, Flag(s.A < Deref(s, o)), 0))
  {
    if o == OpReg(RA) {
      SubtractFromItself(s, 0);
    } else {
      CompareOther(s, o);
    }
  }

  lemma CompareOther(s: Machine, o: Operand)
    requires o != OpReg(RA)
    ensures AluCompare(s, o) ==
            s.(F := Flags(Flag(s.A == Deref(s, o)), 1, 0, Flag(s.A < Deref(s, o)), 0))
  {
    var v := Deref(s, o);
    assert Assign(s, o, v) == s by {
      match o
      case OpValue(_) =>
      case OpReg(r) =>
        assert s.Set(r, s.Get(r)) == s by { match r { case _ => } }
    }
    SubtractIsDifference(s, o, 0);
    var r := AluSubtract(s, o, 0);
    assert (v + 0) % 0x100 == v;
    assert r == s.(A := r.A, F := Flags(Flag(r.A == 0), 1, 0, Flag(s.A < v), 0));
    assert Deref(r, o) == v;
  }

  /** AND, OR, XOR: every bit of the new A is the operator applied to the bits of A and the operand. */
  lemma LogicBits(s: Machine, value: Byte, i: nat)
    requires i < 8
    ensures Bit(AluAnd(s, value).A, i) == Combine(AndOp, Bit(s.A, i), Bit(value, i))
    ensures Bit(AluOr(s, value).A, i) == Combine(OrOp, Bit(s.A, i), Bit(value, i))
    ensures Bit(AluXor(s, value).A, i) == Combine(XorOp, Bit(s.A, i), Bit(value, i))
  {
    Pow2Byte();
    BitwiseBit(AndOp, s.A, value, i);
    BitwiseBit(OrOp, s.A, value, i);
    BitwiseBit(XorOp, s.A, value, i);
  }

  /** XOR A clears A and sets Z. */
  lemma XorItselfClears(s: Machine)
    ensures AluXor(s, s.A) == s.(A := 0, F := Flags(1, 0, 0, 0, 0))
  {
    Pow2Byte();
    XorSelf(s.A);
  }

  /** INC then DEC of the same byte gives the byte back; both clear C. */
  lemma IncDecRoundTrip(s: Machine, x: Byte)
    ensures var (s1, y) := IncDec8(s, x, 0);
            var (s2, z) := IncDec8(s1, y, 1);
            z == x && s1.F.C == 0 && s2.F.C == 0 && s2 == s.(F := s2.F)
  {
  }

  /**
   * INC sets H exactly when the low nibble carries and Z exactly when the byte
   * wraps to 0; N and C are cleared and nothing but the flags changes.
   */
  lemma IncFlags(s: Machine, x: Byte)
    ensures var (s1, y) := IncDec8(s, x, 0);
            y == (x + 1) % 0x100
            && (s1.F.H == 1 <==> (x % 0x10) + 1 > 0xF)
            && (s1.F.Z == 1 <==> x == 0xFF)
            && s1.F.N == 0 && s1.F.C == 0 && s1.F.F == 0 && s1 == s.(F := s1.F)
  {
  }

  /**
   * DEC (any nonzero direction) sets N, sets H exactly when the low nibble
   * borrows and Z exactly when the byte was 1; C is cleared, 0 wraps to 0xFF.
   */
  lemma DecFlags(s: Machine, x: Byte, direction: Byte)
    requires direction != 0
    ensures var (s1, y) := IncDec8(s, x, direction);
            (if x == 0 then y == 0xFF else y + 1 == x)
            && s1.F.N == 1
            && (s1.F.H == 1 <==> (x % 0x10) - 1 < 0)
            && (s1.F.Z == 1 <==> x == 1)
            && s1.F.C == 0 && s1.F.F == 0 && s1 == s.(F := s1.F)
  {
  }

  // ---- 16-bit arithmetic

  /**
   * ADD HL,rr: the pair and C hold the 17-bit sum; H is set exactly when the
   * low 12 bits of the pair plus the WHOLE addend pass 0xFFF, so any addend
   * above 0xFFF sets it.
   */
  lemma Add16IsSum(s: Machine, p: Pair, value: Word)
    ensures var r := Add16(s, p, value);
            r.GetPair(p) + 0x1_0000 * r.F.C == s.GetPair(p) + value
            && (r.F.H == 1 <==> s.GetPair(p) % 0x1000 + value > 0xFFF)
            && (value > 0xFFF ==> r.F.H == 1)
            && r.F.Z == 0 && r.F.N == 0
            && r.SP == s.SP && r.PC == s.PC && r.mem == s.mem && r.A == s.A
  {
    var w := s.GetPair(p);
    var f := Add16Flags(w, value);
    var low := (w + value) % 0x1_0000;
    Add16Stores(s, p, value);
    SetPairKeeps(s.(F := f), p, low);
    SeventeenBitSum(w + value);
  }

  /** The flags CPU_add_16 leaves for a pair holding w and an addend. */
  function Add16Flags(w: Word, value: Word): (f: Flags)
    ensures f.Z == 0 && f.N == 0 && f.F == 0
  {
    Flags(0, 0, Flag(w % 0x1000 + value > 0xFFF), Flag(w + value > 0xFFFF), 0)
  }

  /** CPU_add_16 stores its flags, then the truncated sum into the pair. */
  lemma Add16Stores(s: Machine, p: Pair, value: Word)
    ensures Add16(s, p, value) == s.(F := Add16Flags(s.GetPair(p), value)).SetPair(p, (s.GetPair(p) + value) % 0x1_0000)
  {
    assert ClearFlags(s).GetPair(p) == s.GetPair(p);
  }

  /** Writing a register pair changes no flag, pointer, memory byte or A. */
  lemma SetPairKeeps(s: Machine, p: Pair, w: Word)
    ensures var r := s.SetPair(p, w);
            r.GetPair(p) == w && r.F == s.F && r.SP == s.SP && r.PC == s.PC && r.mem == s.mem && r.A == s.A
  {
    match p
    case BC =>
    case DE =>
    case HL =>
  }

  /** A sum of two words is its low word plus 0x10000 for the carry. */
  lemma SeventeenBitSum(sum: nat)
    requires sum < 0x2_0000
    ensures sum % 0x1_0000 + 0x1_0000 * Flag(sum > 0xFFFF) == sum
  {
  }

  /** INC rr then DEC rr restores the pair. */
  lemma IncDec16RoundTrip(w: Word)
    ensures IncDec16(IncDec16(w, 0), 1) == w
    ensures IncDec16(IncDec16(w, 1), 0) == w
  {
  }

  /**
   * ADD SP,n treats n as unsigned and takes both carries from the NEW SP:
   * from SP = 0x00FF adding 1 gives 0x0100 with C and H clear.
   */
  lemma AddSpNFlags(s: Machine, n: Byte)
    ensures var r := AddSpN(s, n);
            r.SP == (s.SP + n) % 0x1_0000
            && r.F.C == Flag((s.SP + n) % 0x100 + n > 0xFF)
            && (s.SP == 0x00FF && n == 1 ==> r.SP == 0x0100 && r.F.C == 0 && r.F.H == 0)
  {
  }

  // ---- stack

  /** Stepping SP down and back up, with wrap-around, returns to where it was. */
  lemma DecrementIncrement(w: Word)
    ensures ((w - 1) % 0x1_0000 + 1) % 0x1_0000 == w
  {
  }

  /** The byte a push stores is the byte the next pop reads, and SP comes back. */
  lemma PushPopRoundTrip(s: Machine, b: Byte)
    ensures Top(Push(s, b)) == b
    ensures Pop(Push(s, b)).SP == s.SP
  {
  }

  /** Two pushes followed by two pops give the bytes back in reverse order. */
  lemma PushTwicePopTwice(s: Machine, a: Byte, b: Byte)
    ensures var t := LoadSp16(s, a, b);
            Top(t) == b && Top(Pop(t)) == a && Pop(Pop(t)).SP == s.SP
  {
    var t1 := Push(s, a);
    var t := Push(t1, b);
    WriteFrame(t1.mem, t.SP, b, t1.SP);
  }

  /** RET on any state whose SP and memory are those of two pushes: the second byte pushed is the high byte. */
  lemma ReturnAfterTwoPushes(s: Machine, a: Byte, b: Byte, c: Machine)
    requires c.SP == LoadSp16(s, a, b).SP && c.mem == LoadSp16(s, a, b).mem
    ensures Return(c).SP == s.SP && Return(c).PC == ToPair(b, a)
  {
    PushTwicePopTwice(s, a, b);
  }

  /**
   * CALL then RET: SP comes back, but PC becomes the BYTE-SWAPPED return
   * address, because CPU_call pushes the high byte first and CPU_return pops
   * the first byte as the high byte.
   */
  lemma CallReturn(s: Machine)
    ensures Return(Call(s)).SP == s.SP
    ensures Return(Call(s)).PC == SwapByteOrder(s.PCPlus(3))
  {
    var address := s.PCPlus(3);
    var t := LoadSp16(s, HighByte(address), LowByte(address));
    var c := Call(s);
    assert c.SP == t.SP && c.mem == t.mem;
    ReturnAfterTwoPushes(s, HighByte(address), LowByte(address), c);
    SwapByteOrderSwaps(address);
  }

  /** RST then RET: PC becomes the byte-swapped PC+1, for the same reason. */
  lemma RestartReturn(s: Machine, offset: Byte)
    ensures Return(Restart(s, offset)).SP == s.SP
    ensures Return(Restart(s, offset)).PC == SwapByteOrder(s.PCPlus(1))
  {
    var address := s.PCPlus(1);
    var t := LoadSp16(s, HighByte(address), LowByte(address));
    var c := Restart(s, offset);
    assert c.SP == t.SP && c.mem == t.mem;
    ReturnAfterTwoPushes(s, HighByte(address), LowByte(address), c);
    SwapByteOrderSwaps(address);
  }

  /**
   * An interrupt pushes PC low byte first, so RET comes back to the
   * interrupted PC, unless one of the two stack bytes is IF (0xFF0F), which
   * the service routine modifies after the push.
   */
  lemma ServiceReturn(s: Machine, bit: Byte)
    requires bit <= 30
    requires s.SP != 0xFF10 && s.SP != 0xFF11
    ensures Return(ServiceInterrupt(s, bit)).PC == s.PC
    ensures Return(ServiceInterrupt(s, bit)).SP == s.SP
  {
    var s1 := s.(ie := 0, interruptStep := 0);
    var u := LoadSp16(s1, LowByte(s.PC), HighByte(s.PC));
    var c := ServiceInterrupt(s, bit);
    PushTwicePopTwice(s1, LowByte(s.PC), HighByte(s.PC));
    assert c.SP == u.SP && c.mem == u.mem[0xFF0F := c.mem[0xFF0F]];
    ReturnSkipsFired(u, c);
    PairRoundTrip(s.PC);
  }

  /** Two pops read the same bytes when only IF (0xFF0F), away from the stack top, differs. */
  lemma ReturnSkipsFired(u: Machine, c: Machine)
    requires u.SP != 0xFF0F && Pop(u).SP != 0xFF0F
    requires c.SP == u.SP && c.mem == u.mem[0xFF0F := c.mem[0xFF0F]]
    ensures Top(c) == Top(u) && Top(Pop(c)) == Top(Pop(u)) && Pop(Pop(c)).SP == Pop(Pop(u)).SP
  {
  }

  // ---- rotates and swap

  /** RRCA is a true rotation right: bit 0 goes to bit 7 and to C. */
  lemma RotateRightValue(s: Machine, x: Byte)
    ensures Rotate(s, x, 1).1 == x / 2 + (x % 2) * 0x80
    ensures Rotate(s, x, 1).0.F.C == x % 2
  {
    AndOne(x);
    if x % 2 == 1 {
      OrHigh(x / 2);
    }
  }

  /** The byte after n RRCAs, each moving bit 0 to bit 7. */
  function RotateRightTimes(x: Byte, n: nat): (r: Byte)
    decreases n
  {
    if n == 0 then x else RotateRightTimes(x / 2 + (x % 2) * 0x80, n - 1)
  }

  /** One RRCA moves every bit down by one place, bit 0 to bit 7. */
  lemma RotateRightBits(x: Byte, i: nat)
    requires i < 8
    ensures Bit(x / 2 + (x % 2) * 0x80, i) == Bit(x, (i + 1) % 8)
  {
    if i == 7 {
      RotateRightTop(x);
    } else {
      RotateRightLow(x, i);
    }
  }

  /** After RRCA, bit 7 is the old bit 0. */
  lemma RotateRightTop(x: Byte)
    ensures Bit(x / 2 + (x % 2) * 0x80, 7) == Bit(x, 0)
  {
    var y := x / 2 + (x % 2) * 0x80;
    assert Pow2(7) == 0x80;
    BitIsDiv(y, 7);
    DivUnique(y, 0x80, x % 2, x / 2);
  }

  /** After RRCA, bits 0 to 6 are the old bits 1 to 7. */
  lemma RotateRightLow(x: Byte, i: nat)
    requires i < 7
    ensures Bit(x / 2 + (x % 2) * 0x80, i) == Bit(x, i + 1)
  {
    assert Bit(x, i + 1) == Bit(x / 2, i);
    if x % 2 == 1 {
      assert Pow2(7) == 0x80;
      assert Bit(x / 2, 7) == 0 by {
        BitAboveWidth(x / 2, 7, 7);
      }
      AddPow2Bits(x / 2, 7, i);
    } else {
      assert x / 2 + (x % 2) * 0x80 == x / 2;
    }
  }

  /** After n RRCAs, bit i holds what was bit i + n, counted around the byte. */
  lemma {:induction false} RotateRightTimesBits(x: Byte, n: nat, i: nat)
    requires i < 8
    ensures Bit(RotateRightTimes(x, n), i) == Bit(x, (i + n) % 8)
    decreases n
  {
    if n > 0 {
      var y := x / 2 + (x % 2) * 0x80;
      assert RotateRightTimes(x, n) == RotateRightTimes(y, n - 1);
      RotateRightTimesBits(y, n - 1, i);
      var j := (i + n - 1) % 8;
      RotateRightBits(x, j);
      NextPosition(i + n - 1);
    }
  }

  /** Counting one place further around the byte. */
  lemma NextPosition(a: nat)
    ensures (a % 8 + 1) % 8 == (a + 1) % 8
  {
    DivUnique(a + 1, 8, a / 8 + (a % 8 + 1) / 8, (a % 8 + 1) % 8);
  }

  /** Any multiple of eight RRCAs in a row gives the original byte back. */
  lemma FullTurnsRight(x: Byte, n: nat)
    requires n % 8 == 0
    ensures RotateRightTimes(x, n) == x
  {
    forall i | 0 <= i < 8
      ensures Bit(RotateRightTimes(x, n), i) == Bit(x, i)
    {
      RotateRightTimesBits(x, n, i);
      assert n == 8 * (n / 8) + n % 8;
      DivUnique(i + n, 8, n / 8, i);
    }
    Pow2Byte();
    BitsDetermine(RotateRightTimes(x, n), x, 8);
  }

  /**
   * RLCA keeps `x & 0x80` in C, so C is 0 or 0x80, and adds it back to the
   * shifted byte: bit 7 goes to bit 7, not to bit 0.
   */
  lemma RotateLeftValue(s: Machine, x: Byte)
    ensures Rotate(s, x, 0).0.F.C == (if x >= 0x80 then 0x80 else 0)
    ensures Rotate(s, x, 0).1 == ((x * 2) % 0x100 + (if x >= 0x80 then 0x80 else 0)) % 0x100
  {
    AndHigh(x);
  }

  /**
   * RLA: C takes `x & 0x80` (0 or 0x80) and the old C is added to the shifted
   * byte as a whole byte, so an old C of 0x80 left by RLCA lands in bit 7.
   * Z is set exactly for a zero result; N and H are cleared.
   */
  lemma RotateThroughLeft(s: Machine, x: Byte)
    ensures var (r, y) := RotateThrough(s, x, 0);
            y == (2 * x + s.F.C) % 0x100
            && r.F.C == (if x >= 0x80 then 0x80 else 0)
            && (r.F.Z == 1 <==> y == 0) && r.F.N == 0 && r.F.H == 0 && r.F.F == s.F.F
            && r == s.(F := r.F)
  {
    AndHigh(x);
    ModShift(2 * x % 0x100 + s.F.C, 2 * x / 0x100);
  }

  /**
   * RRA: C takes bit 0; bit 0 of the shifted byte is set when the old C is
   * exactly 1 (an old C of 0x80 is dropped, and bit 1 of x stays in bit 0
   * otherwise); bit 7 is never filled. Z is set exactly for a zero result.
   */
  lemma RotateThroughRight(s: Machine, x: Byte)
    ensures var (r, y) := RotateThrough(s, x, 1);
            y < 0x80 && y / 2 == x / 4
            && y % 2 == (if s.F.C == 1 then 1 else (x / 2) % 2)
            && r.F.C == x % 2
            && (r.F.Z == 1 <==> y == 0) && r.F.N == 0 && r.F.H == 0 && r.F.F == s.F.F
            && r == s.(F := r.F)
  {
    AndOne(x);
    if s.F.C == 1 {
      OrOne(x / 2);
    }
  }

  /** The nibble exchange puts the low nibble on top and the high nibble below. */
  lemma SwapNibblesParts(x: Byte)
    ensures SwapNibbles(x) == 0x10 * (x % 0x10) + x / 0x10
  {
    DivUnique(x * 0x10, 0x100, x / 0x10, 0x10 * (x % 0x10));
  }

  /** SWAP twice gives the byte back; Z is set exactly for 0. */
  lemma SwapInvolution(s: Machine, x: Byte)
    ensures SwapNibbles(SwapNibbles(x)) == x
    ensures Swap(s, x).0.F == Flags(Flag(x == 0), 0, 0, 0, 0)
  {
    var y := SwapNibbles(x);
    SwapNibblesParts(x);
    SwapNibblesParts(y);
    DivUnique(y, 0x10, x % 0x10, x / 0x10);
  }

  // ---- the packed flag byte

  /** One step of compiler_F(0) on an accumulator reduced to a byte: only the total is truncated. */
  lemma ShiftInReduced(a: int, b: Byte, m: nat)
    requires m == 2 || m == 0x10
    ensures ShiftIn(a % 0x100, b, m) == ((a + b) * m) % 0x100
  {
    var r, q := a % 0x100, a / 0x100;
    var r2, q2 := (r + b) % 0x100, (r + b) / 0x100;
    assert r2 * m == (r + b) * m + 0x100 * -(q2 * m);
    ModShift((r + b) * m, -(q2 * m));
    assert (a + b) * m == (r + b) * m + 0x100 * (q * m);
    ModShift((r + b) * m, q * m);
  }

  /** The first step of compiler_F(0), where F.F is already a byte. */
  lemma ShiftInFirst(f: Flags)
    ensures ShiftIn(f.F, f.Z, 2) == ((f.F + f.Z) * 2) % 0x100
  {
    ShiftInReduced(f.F, f.Z, 2);
  }

  /** compiler_F(0)'s byte-by-byte shifts truncate only the total, a 7-bit shift of F.F plus the flags. */
  lemma PackedShifts(f: Flags)
    ensures PackedF(f) == ((((f.F + f.Z) * 2 + f.N) * 2 + f.H) * 2 * 0x10 + f.C * 0x10) % 0x100
  {
    var x1 := (f.F + f.Z) * 2;
    var x2 := (x1 + f.N) * 2;
    var x3 := (x2 + f.H) * 2;
    ShiftInFirst(f);
    ShiftInReduced(x1, f.N, 2);
    ShiftInReduced(x2, f.H, 2);
    ShiftInReduced(x3, f.C, 0x10);
    assert (x3 + f.C) * 0x10 == x3 * 0x10 + f.C * 0x10;
  }

  /** compiler_F(0) with flags of 0 or 1 and an even F: the packed byte is Z N H C 0 0 0 0. */
  lemma PackedValue(f: Flags)
    requires f.Z <= 1 && f.N <= 1 && f.H <= 1 && f.C <= 1 && f.F % 2 == 0
    ensures PackedF(f) == f.Z * 0x80 + f.N * 0x40 + f.H * 0x20 + f.C * 0x10
  {
    PackedShifts(f);
    var low := f.Z * 0x80 + f.N * 0x40 + f.H * 0x20 + f.C * 0x10;
    var k := f.F / 2;
    var total := ((((f.F + f.Z) * 2 + f.N) * 2 + f.H) * 2 * 0x10 + f.C * 0x10);
    PackedTotal(f.F, f.Z, f.N, f.H, f.C, k);
    LowByteOf(total, low, k);
  }

  /** A total of a byte plus a multiple of 0x100 truncates to that byte. */
  lemma LowByteOf(total: int, low: int, k: int)
    requires total == low + 0x100 * k && 0 <= low < 0x100
    ensures total % 0x100 == low
  {
    ModShift(low, k);
  }

  /** The untruncated total of compiler_F(0): the flags land in bits 7 to 4, F.F moves up 7 bits. */
  lemma PackedTotal(x: int, z: int, n: int, h: int, c: int, k: int)
    requires x == 2 * k
    ensures (((x + z) * 2 + n) * 2 + h) * 2 * 0x10 + c * 0x10 == z * 0x80 + n * 0x40 + h * 0x20 + c * 0x10 + 0x100 * k
  {
  }

  /** compiler_F(1) reads the four flags back out of bits 7 to 4. */
  lemma UnpackedBits(z: nat, n: nat, h: nat, c: nat)
    requires z <= 1 && n <= 1 && h <= 1 && c <= 1
    ensures var p := z * 0x80 + n * 0x40 + h * 0x20 + c * 0x10;
            Bit(p, 7) == z && Bit(p, 6) == n && Bit(p, 5) == h && Bit(p, 4) == c
  {
    var p := z * 0x80 + n * 0x40 + h * 0x20 + c * 0x10;
    assert Pow2(4) == 0x10 && Pow2(5) == 0x20 && Pow2(6) == 0x40 && Pow2(7) == 0x80;
    BitFromParts(p, 7, 0x80, 0, z, n * 0x40 + h * 0x20 + c * 0x10);
    BitFromParts(p, 6, 0x40, z, n, h * 0x20 + c * 0x10);
    BitFromParts(p, 5, 0x20, 2 * z + n, h, c * 0x10);
    BitFromParts(p, 4, 0x10, 4 * z + 2 * n + h, c, 0);
  }

  /** Bit i of `above * 2^(i+1) + b * 2^i + below`, with below under 2^i, is b. */
  lemma BitFromParts(p: nat, i: nat, pw: nat, above: nat, b: nat, below: nat)
    requires pw == Pow2(i) && b <= 1 && below < pw
    requires p == above * 2 * pw + b * pw + below
    ensures Bit(p, i) == b
  {
    var d := 2 * above + b;
    assert p == pw * d + below by {
      assert above * 2 * pw == pw * (2 * above);
      assert b * pw == pw * b;
      assert pw * d == pw * (2 * above) + pw * b;
    }
    assert (p / pw) % 2 == b by {
      DivUnique(p, pw, d, below);
    }
    BitIsDiv(p, i);
  }

  /**
   * With flags of 0 or 1 and an even packed byte, PUSH AF's packing puts
   * Z, N, H, C in bits 7 to 4 and POP AF's unpacking reads them back.
   */
  lemma PackUnpack(s: Machine)
    requires s.F.Z <= 1 && s.F.N <= 1 && s.F.H <= 1 && s.F.C <= 1 && s.F.F % 2 == 0
    ensures PackedF(s.F) == s.F.Z * 0x80 + s.F.N * 0x40 + s.F.H * 0x20 + s.F.C * 0x10
    ensures CompileF(CompileF(s, 0), 1).F == s.F.(F := PackedF(s.F))
  {
    PackedValue(s.F);
    UnpackedBits(s.F.Z, s.F.N, s.F.H, s.F.C);
  }

  // ---- interrupts

  /** Shifting a byte left by k and back right keeps its low 8 - k bits (q = 2^k, p = 2^(8-k)). */
  lemma ShiftOutAndBack(reg: Byte, p: nat, q: nat)
    requires 0 < p && 0 < q && p * q == 0x100
    ensures (((reg * q) % 0x100) / q) % 0x100 == reg % p
  {
    var hi, lo := reg / p, reg % p;
    ShiftProduct(p, q, hi, lo);
    MulMonotone(q, lo, p - 1);
    DivUnique(reg * q, 0x100, hi, lo * q);
    DivUnique(lo * q, q, lo, 0);
  }

  /** With p * q = 0x100, `(p * hi + lo) * q` is `0x100 * hi + lo * q`. */
  lemma ShiftProduct(p: nat, q: nat, hi: nat, lo: nat)
    requires p * q == 0x100
    ensures (p * hi + lo) * q == 0x100 * hi + lo * q
  {
    calc {
      (p * hi + lo) * q;
      p * hi * q + lo * q;
      (p * q) * hi + lo * q;
    }
  }

  /** Multiplying `reg / p` (plus one) back by p gives reg with its low bits cut (and p added). */
  lemma MultiplyBack(reg: Byte, p: nat, extra: nat)
    requires 0 < p && extra <= 1 && reg - reg % p + extra * p < 0x100
    ensures ((reg / p + extra) * p) % 0x100 == reg - reg % p + extra * p
  {
    var hi := reg / p;
    assert (hi + extra) * p == reg - reg % p + extra * p;
    DivUnique((hi + extra) * p, 0x100, 0, reg - reg % p + extra * p);
  }

  /** The shift right, `| 0x01` and shift left of setbit: the bits from p up, with bit p set. */
  lemma SetTopPart(reg: Byte, p: nat)
    requires 0 < p
    requires (reg / p) % 2 == 1 || reg + p < 0x100
    ensures (Or8((reg / p) % 0x100, 1) * p) % 0x100 ==
            if (reg / p) % 2 == 1 then reg - reg % p else reg - reg % p + p
  {
    var hi := reg / p;
    MulMonotone(hi, 1, p);
    assert hi % 0x100 == hi;
    OrOne(hi);
    if hi % 2 == 1 {
      assert Or8(hi % 0x100, 1) == hi;
      MultiplyBack(reg, p, 0);
    } else {
      assert Or8(hi % 0x100, 1) == hi + 1;
      MultiplyBack(reg, p, 1);
    }
  }

  /** setbit's arithmetic for `p = 1 << bit` and `q = 1 << (8 - bit)`, with p and q kept symbolic. */
  lemma SetBitArith(reg: Byte, p: nat, q: nat)
    requires 0 < p && 0 < q && p * q == 0x100
    requires (reg / p) % 2 == 1 || reg + p < 0x100
    ensures ((Or8((reg / p) % 0x100, 1) * p) % 0x100 + (((reg * q) % 0x100) / q) % 0x100) % 0x100
            == if (reg / p) % 2 == 1 then reg else reg + p
  {
    var top := (Or8((reg / p) % 0x100, 1) * p) % 0x100;
    var kept := (((reg * q) % 0x100) / q) % 0x100;
    ShiftOutAndBack(reg, p, q);
    SetTopPart(reg, p);
    SumInByte(top, kept);
  }

  lemma SumInByte(x: int, y: int)
    requires 0 <= x && 0 <= y && x + y < 0x100
    ensures (x + y) % 0x100 == x + y
  {
  }

  /** For bits 1 to 7, setbit's shifts keep the bits below `bit` and the part above it. */
  lemma SetBitShiftsAt(reg: Byte, bit: nat)
    requires 0 < bit < 8
    ensures SetBitShifts(reg, bit) == if Bit(reg, bit) == 1 then reg else reg + Pow2(bit)
  {
    var p, q := Pow2(bit), Pow2(8 - bit);
    assert p * q == 0x100 by {
      Pow2Add(bit, 8 - bit);
      Pow2Byte();
    }
    assert Bit(reg, bit) == (reg / p) % 2 by {
      BitIsDiv(reg, bit);
    }
    assert (reg / p) % 2 == 1 || reg + p < 0x100 by {
      if Bit(reg, bit) == 0 {
        ByteSumOverflow(reg, bit);
      }
    }
    SetBitArith(reg, p, q);
  }

  /** `1 << bit` of CPU_set fits the byte for bits 0 to 7, so `x | (1 << bit)` is Or8 with 2^bit. */
  lemma SetBitValueIsOr(x: Byte, bit: nat)
    requires bit < 8
    ensures Pow2(bit) < 0x100 && SetBitValue(x, bit) == Or8(x, Pow2(bit))
  {
    Pow2Small(bit);
    var p := Pow2(bit);
    var y: Byte := p % 0x100;
    assert y == p;
    assert SetBitValue(x, bit) == Or8(x, y);
  }

  /** setbit computes `reg | (1 << bit)`; bit 8 leaves the byte alone. */
  lemma SetBitShiftsIsOr(reg: Byte, bit: nat)
    requires bit <= 8
    ensures bit < 8 ==> SetBitShifts(reg, bit) == SetBitValue(reg, bit)
    ensures bit == 8 ==> SetBitShifts(reg, bit) == reg
  {
    if bit == 0 {
      SetBitShiftsBitZero(reg);
      SetBitValueIsOr(reg, 0);
    } else if bit < 8 {
      SetBitShiftsAt(reg, bit);
      OrPow2(reg, bit);
      SetBitValueIsOr(reg, bit);
    } else {
      SetBitShiftsBitEight(reg);
    }
  }

  /** setbit at bit 0 has no low part to keep: it is `reg | 1`. */
  lemma SetBitShiftsBitZero(reg: Byte)
    ensures SetBitShifts(reg, 0) == Or8(reg, 1)
  {
    assert Pow2(0) == 1;
    assert (reg / 1) % 0x100 == reg;
    assert (Or8(reg, 1) * 1) % 0x100 == Or8(reg, 1);
  }

  /** setbit at bit 8 shifts the set bit out of the byte and keeps all eight bits of reg. */
  lemma SetBitShiftsBitEight(reg: Byte)
    ensures SetBitShifts(reg, 8) == reg
  {
    Pow2Byte();
    var top: int := Or8((reg / Pow2(8)) % 0x100, 0x01);
    assert (top * 0x100) % 0x100 == 0 by {
      ModShift(0, top);
    }
    assert Pow2(0) == 1;
    assert ((reg * 1) % 0x100 / 1) % 0x100 == reg;
  }

  /** Requesting an interrupt sets its bit of IF and changes nothing else. */
  lemma RequestSetsBit(s: Machine, interrupt: Byte)
    requires interrupt < 8
    ensures var r := RequestInterrupt(s, interrupt);
            r.mem == s.mem[0xFF0F := SetBitValue(s.mem[0xFF0F], interrupt)]
            && r == s.(mem := r.mem)
  {
    SetBitShiftsIsOr(s.mem[0xFF0F], interrupt);
  }

  /** With interrupts off after the countdown, CPU_check_interrupts only counts down. */
  lemma CheckWhileDisabled(s: Machine)
    requires InterruptCountdown(s).ie == 0
    ensures CheckInterrupts(s) == InterruptCountdown(s)
  {
  }

  /**
   * EI: the master flag turns on at the second interrupt check after the
   * instruction, not at the first.
   */
  lemma EnableTakesTwoChecks(s: Machine)
    requires s.ie == 0
    ensures var e := InterruptSwitch(s).(interruptDirection := 1);
            CheckInterrupts(e).ie == 0
            && InterruptCountdown(InterruptCountdown(e)).ie == 1
  {
  }

  /**
   * V-blank: with the master flag on, IF = IE = 0x01 and the stack away from
   * IF, one check pushes PC, clears the request and jumps to 0x40.
   */
  lemma VBlankServiced(s: Machine)
    requires s.ie == 1 && s.interruptStep == 0
    requires s.mem[0xFF0F] == 0x01 && s.mem[0xFFFF] == 0x01
    requires s.SP != 0xFF10 && s.SP != 0xFF11
    ensures var r := CheckInterrupts(s);
            r.PC == 0x40 && r.ie == 0 && r.mem[0xFF0F] == 0
            && r.SP == (s.SP - 2) % 0x1_0000 && Return(r).PC == s.PC
  {
    VBlankOnly(s);
    ServiceKeepsFired(s, 0);
    ClearOnlyRequest();
    ServiceRegisters(s, 0);
    ServiceReturn(s, 0);
  }

  /** With only V-blank fired and enabled, the check services bit 0 and nothing more. */
  lemma VBlankOnly(s: Machine)
    requires s.ie == 1 && s.interruptStep == 0
    requires s.mem[0xFF0F] == 0x01 && s.mem[0xFFFF] == 0x01
    ensures CheckInterrupts(s) == ServiceInterrupt(s, 0)
  {
    var serviced := ServiceInterrupt(s, 0);
    assert CheckInterrupts(s) == ServiceFrom(s, 0x01, 0x01, 0);
    assert Bit(0x01, 0) == 1;
    assert ServiceFrom(s, 0x01, 0x01, 0) == ServiceFrom(serviced, 0x01, 0x01, 1);
    forall k | 1 <= k <= 4
      ensures Bit(0x01, k) == 0
    {
      BitAboveWidth(0x01, 1, k);
    }
    NothingFiredFrom(serviced, 0x01, 0x01, 1);
  }

  /** When no bit from `bit` to 4 is fired, the rest of the loop changes nothing. */
  lemma {:induction false} NothingFiredFrom(s: Machine, fired: Byte, enabled: Byte, bit: nat)
    requires forall k :: bit <= k <= 4 ==> Bit(fired, k) == 0
    ensures ServiceFrom(s, fired, enabled, bit) == s
    decreases 5 - bit
  {
    if bit <= 4 {
      NothingFiredFrom(s, fired, enabled, bit + 1);
    }
  }

  /** Two decrements of a 16-bit register are one decrement by two. */
  lemma DecrementTwice(w: Word)
    ensures ((w - 1) % 0x1_0000 - 1) % 0x1_0000 == (w - 2) % 0x1_0000
  {
  }

  /** Servicing an interrupt turns the master flag off, pushes two bytes and jumps to the vector. */
  lemma ServiceRegisters(s: Machine, bit: Byte)
    requires bit <= 30
    ensures var r := ServiceInterrupt(s, bit);
            r.SP == (s.SP - 2) % 0x1_0000 && r.PC == Vector(bit, s.PC)
            && r.ie == 0 && r.interruptStep == 0
    ensures var pc := ServiceInterrupt(s, bit).PC;
            (bit == 0 ==> pc == 0x40) && (bit == 1 ==> pc == 0x48) && (bit == 2 ==> pc == 0x50)
            && (bit == 4 ==> pc == 0x60) && (bit == 3 || bit > 4 ==> pc == s.PC)
  {
    DecrementTwice(s.SP);
  }

  /** Clearing bit 0 of a byte whose only set bit is bit 0 leaves nothing. */
  lemma ClearOnlyRequest()
    ensures ResBitValue(0x01, 0) == 0
  {
    var m := ResBitValue(0x01, 0);
    forall i | 0 <= i < 8
      ensures Bit(m, i) == Bit(0, i)
    {
      ResBitValueBits(0x01, 0, i);
      BitOfZero(i);
      if i > 0 {
        Pow2Byte();
        BitAboveWidth(0x01, 1, i);
      }
    }
    Pow2Byte();
    BitsDetermine(m, 0, 8);
  }

  /** Servicing an interrupt writes IF as its old value with the serviced bit cleared, away from the stack. */
  lemma ServiceKeepsFired(s: Machine, bit: Byte)
    requires bit <= 30
    requires s.SP != 0xFF10 && s.SP != 0xFF11
    ensures ServiceInterrupt(s, bit).mem[0xFF0F] == ResBitValue(s.mem[0xFF0F], bit)
  {
    var s1 := s.(ie := 0, interruptStep := 0);
    var t1 := Push(s1, LowByte(s.PC));
    var t2 := Push(t1, HighByte(s.PC));
    assert t2.SP != 0xFF0F && t1.SP != 0xFF0F;
    WriteFrame(s1.mem, t1.SP, LowByte(s.PC), 0xFF0F);
    WriteFrame(t1.mem, t2.SP, HighByte(s.PC), 0xFF0F);
  }

  /**
   * Every fired and enabled interrupt is serviced in the same check: with
   * V-blank and timer both pending, PC ends at the timer handler with two
   * return addresses pushed.
   */
  lemma AllPendingServiced(s: Machine)
    requires s.ie == 1 && s.interruptStep == 0
    requires s.mem[0xFF0F] == 0x05 && s.mem[0xFFFF] == 0x05
    ensures CheckInterrupts(s).PC == 0x50
    ensures CheckInterrupts(s).SP == (s.SP - 4) % 0x1_0000
  {
    var s1 := ServiceInterrupt(s, 0);
    VBlankAndTimer(s);
    ServiceRegisters(s, 0);
    ServiceRegisters(s1, 2);
    ReduceThenSubtract(s.SP - 2, 2);
  }

  /** With V-blank and timer fired and enabled, the check services bit 0, then bit 2. */
  lemma VBlankAndTimer(s: Machine)
    requires s.ie == 1 && s.interruptStep == 0
    requires s.mem[0xFF0F] == 0x05 && s.mem[0xFFFF] == 0x05
    ensures CheckInterrupts(s) == ServiceInterrupt(ServiceInterrupt(s, 0), 2)
  {
    var s1 := ServiceInterrupt(s, 0);
    var s2 := ServiceInterrupt(s1, 2);
    assert Bit(0x05, 0) == 1 && Bit(0x05, 1) == 0 && Bit(0x05, 2) == 1 && Bit(0x05, 4) == 0;
    assert CheckInterrupts(s) == ServiceFrom(s, 0x05, 0x05, 0);
    assert ServiceFrom(s, 0x05, 0x05, 0) == ServiceFrom(s1, 0x05, 0x05, 1) == ServiceFrom(s1, 0x05, 0x05, 2);
    assert ServiceFrom(s1, 0x05, 0x05, 2) == ServiceFrom(s2, 0x05, 0x05, 3) == ServiceFrom(s2, 0x05, 0x05, 4);
  }

  /** Reducing a 16-bit value before a subtraction does not change the reduced difference. */
  lemma ReduceThenSubtract(x: int, a: int)
    ensures (x % 0x1_0000 - a) % 0x1_0000 == (x - a) % 0x1_0000
  {
    var q := x / 0x1_0000;
    assert x - a == (x % 0x1_0000 - a) + 0x1_0000 * q;
    ModShift16(x % 0x1_0000 - a, q);
  }

  // ---- CPU_check_interrupts for every IF, IE and stack pointer

  /** A bit the loop of CPU_check_interrupts services: 0 to 4 but not the serial bit 3, fired and enabled. */
  predicate Serviced(fired: Byte, enabled: Byte, k: nat)
  {
    k <= 4 && k != 3 && Bit(fired, k) == 1 && Bit(enabled, k) == 1
  }

  /** How many bits from `bit` on are serviced. */
  function ServicedCount(fired: Byte, enabled: Byte, bit: nat): (n: nat)
    decreases 5 - bit
  {
    if bit > 4 then 0
    else (if Serviced(fired, enabled, bit) then 1 else 0) + ServicedCount(fired, enabled, bit + 1)
  }

  /** The count is 0 exactly when no bit from `bit` on is serviced. */
  lemma {:induction false} NoneServiced(fired: Byte, enabled: Byte, bit: nat)
    ensures ServicedCount(fired, enabled, bit) == 0 <==> forall k :: bit <= k ==> !Serviced(fired, enabled, k)
    decreases 5 - bit
  {
    if bit <= 4 {
      NoneServiced(fired, enabled, bit + 1);
    }
  }

  /** When no bit from `bit` on is serviced, the rest of the loop changes nothing. */
  lemma {:induction false} NothingServicedFrom(s: Machine, fired: Byte, enabled: Byte, bit: nat)
    requires forall k :: bit <= k ==> !Serviced(fired, enabled, k)
    ensures ServiceFrom(s, fired, enabled, bit) == s
    decreases 5 - bit
  {
    if bit <= 4 {
      assert !Serviced(fired, enabled, bit);
      NothingServicedFrom(s, fired, enabled, bit + 1);
    }
  }

  /** The last serviced bit from `bit` on: every later bit is not serviced. */
  predicate LastServiced(fired: Byte, enabled: Byte, k: nat)
  {
    Serviced(fired, enabled, k) && forall j: nat :: k < j <= 4 ==> !Serviced(fired, enabled, j)
  }

  /** The loop from `bit` on leaves PC at the handler of the last serviced bit. */
  lemma {:induction false} ServiceFromTarget(s: Machine, fired: Byte, enabled: Byte, bit: nat)
    ensures forall k: nat :: bit <= k && LastServiced(fired, enabled, k) ==>
              ServiceFrom(s, fired, enabled, bit).PC == Vector(k, 0)
    decreases 5 - bit
  {
    if bit <= 4 {
      if Serviced(fired, enabled, bit) {
        var t := ServiceInterrupt(s, bit);
        ServiceFromTarget(t, fired, enabled, bit + 1);
        if LastServiced(fired, enabled, bit) {
          NothingServicedFrom(t, fired, enabled, bit + 1);
        }
      } else {
        ServiceFromTarget(s, fired, enabled, bit + 1);
      }
    }
  }

  /** The loop from `bit` on pushes two bytes per serviced bit. */
  lemma {:induction false} ServiceFromStack(s: Machine, fired: Byte, enabled: Byte, bit: nat)
    ensures ServiceFrom(s, fired, enabled, bit).SP == (s.SP - 2 * ServicedCount(fired, enabled, bit)) % 0x1_0000
    decreases 5 - bit, 1
  {
    if bit <= 4 {
      if Serviced(fired, enabled, bit) {
        ServicedStack(s, fired, enabled, bit);
      } else {
        ServiceFromStack(s, fired, enabled, bit + 1);
      }
    }
  }

  /** The step of ServiceFromStack at a serviced bit. */
  lemma {:induction false} ServicedStack(s: Machine, fired: Byte, enabled: Byte, bit: nat)
    requires Serviced(fired, enabled, bit)
    ensures ServiceFrom(s, fired, enabled, bit).SP == (s.SP - 2 * ServicedCount(fired, enabled, bit)) % 0x1_0000
    decreases 5 - bit, 0
  {
    var t := ServiceStep(s, fired, enabled, bit);
    var n := ServicedCount(fired, enabled, bit + 1);
    ServiceFromStack(t, fired, enabled, bit + 1);
    StackAfterService(s.SP, t.SP, ServiceFrom(t, fired, enabled, bit + 1).SP, n);
  }

  /** A loop that services a bit from `bit` on ends with the master flag off. */
  lemma {:induction false} ServiceFromDisables(s: Machine, fired: Byte, enabled: Byte, bit: nat)
    requires ServicedCount(fired, enabled, bit) > 0
    ensures ServiceFrom(s, fired, enabled, bit).ie == 0
    decreases 5 - bit
  {
    if Serviced(fired, enabled, bit) {
      var t := ServiceInterrupt(s, bit);
      if ServicedCount(fired, enabled, bit + 1) == 0 {
        NoneServiced(fired, enabled, bit + 1);
        NothingServicedFrom(t, fired, enabled, bit + 1);
      } else {
        ServiceFromDisables(t, fired, enabled, bit + 1);
      }
    } else {
      ServiceFromDisables(s, fired, enabled, bit + 1);
    }
  }

  /** A serviced bit: the loop services it, then goes on from the next bit with one fewer to service. */
  lemma ServiceStep(s: Machine, fired: Byte, enabled: Byte, bit: nat) returns (t: Machine)
    requires Serviced(fired, enabled, bit)
    ensures t.SP == (s.SP - 2) % 0x1_0000
    ensures ServiceFrom(s, fired, enabled, bit) == ServiceFrom(t, fired, enabled, bit + 1)
    ensures ServicedCount(fired, enabled, bit) == ServicedCount(fired, enabled, bit + 1) + 1
  {
    t := ServiceInterrupt(s, bit);
    ServiceRegisters(s, bit);
  }

  /** One service pushes two bytes, the rest of the loop 2n more: 2(n + 1) in all, modulo 0x10000. */
  lemma StackAfterService(sp: int, next: int, last: int, n: nat)
    requires next == (sp - 2) % 0x1_0000 && last == (next - 2 * n) % 0x1_0000
    ensures last == (sp - 2 * (n + 1)) % 0x1_0000
  {
    ReduceThenSubtract(sp - 2, 2 * n);
  }

  /** One service with the stack clear of IF: only the serviced bit of IF is cleared, and the stack stays clear. */
  lemma ServiceClearsOne(s: Machine, bit: nat, k: nat)
    requires bit <= 4 && k < 8
    requires s.SP <= 0xFF0F || s.SP >= 0xFF10 + 2 * (5 - bit)
    ensures var t := ServiceInterrupt(s, bit);
            (t.SP <= 0xFF0F || t.SP >= 0xFF10 + 2 * (4 - bit))
            && Bit(t.mem[0xFF0F], k) == if k == bit then 0 else Bit(s.mem[0xFF0F], k)
  {
    ServiceRegisters(s, bit);
    StackStaysClear(s.SP, ServiceInterrupt(s, bit).SP, bit);
    ServiceKeepsFired(s, bit);
    ResBitValueBits(s.mem[0xFF0F], bit, k);
  }

  /** Two bytes further down, a stack clear of IF for 5 - bit services is clear of it for the remaining 4 - bit. */
  lemma StackStaysClear(sp: Word, next: Word, bit: nat)
    requires bit <= 4 && next == (sp - 2) % 0x1_0000
    requires sp <= 0xFF0F || sp >= 0xFF10 + 2 * (5 - bit)
    ensures next <= 0xFF0F || next >= 0xFF10 + 2 * (4 - bit)
    ensures sp != 0xFF10 && sp != 0xFF11
  {
    if sp < 2 {
      assert next == sp + 0x1_0000 - 2;
    }
  }

  /**
   * With the stack far enough from IF (0xFF0F) that no pushed byte lands on
   * it, the loop from `bit` on clears each serviced bit of IF and keeps the others.
   */
  lemma {:induction false} ServiceFromFired(s: Machine, fired: Byte, enabled: Byte, bit: nat, k: nat)
    requires bit <= 5 && k < 8
    requires s.SP <= 0xFF0F || s.SP >= 0xFF10 + 2 * (5 - bit)
    ensures Bit(ServiceFrom(s, fired, enabled, bit).mem[0xFF0F], k) ==
              if bit <= k && Serviced(fired, enabled, k) then 0 else Bit(s.mem[0xFF0F], k)
    decreases 5 - bit
  {
    if bit <= 4 {
      if Serviced(fired, enabled, bit) {
        var t := ServiceInterrupt(s, bit);
        ServiceClearsOne(s, bit, k);
        ServiceFromFired(t, fired, enabled, bit + 1, k);
      } else {
        ServiceFromFired(s, fired, enabled, bit + 1, k);
      }
    }
  }

  /**
   * CPU_check_interrupts with the master flag on after the countdown:
   * nothing changes but the countdown when no bit is serviced (in particular
   * a fired serial bit 3 is ignored); otherwise PC ends at the handler of the
   * last serviced bit in priority order, two bytes are pushed per serviced
   * bit and the master flag ends off; with the stack away from IF, every
   * serviced bit of IF is cleared and the others kept.
   */
  lemma CheckInterruptsEffect(s: Machine)
    requires InterruptCountdown(s).ie != 0
    ensures var fired, enabled := s.mem[0xFF0F], s.mem[0xFFFF];
            var r := CheckInterrupts(s);
            (ServicedCount(fired, enabled, 0) == 0 ==> r == InterruptCountdown(s))
            && (forall k: nat :: LastServiced(fired, enabled, k) ==> r.PC == Vector(k, 0))
            && r.SP == (s.SP - 2 * ServicedCount(fired, enabled, 0)) % 0x1_0000
            && (ServicedCount(fired, enabled, 0) > 0 ==> r.ie == 0)
    ensures s.SP <= 0xFF0F || s.SP >= 0xFF1A ==>
              var r, fired := CheckInterrupts(s), s.mem[0xFF0F];
              forall k: nat :: k < 8 ==>
                Bit(r.mem[0xFF0F], k) == (if Serviced(fired, s.mem[0xFFFF], k) then 0 else Bit(fired, k))
  {
    var t := InterruptCountdown(s);
    var fired, enabled := s.mem[0xFF0F], s.mem[0xFFFF];
    assert t.mem == s.mem && t.SP == s.SP;
    if fired == 0 {
      forall k: nat
        ensures Bit(fired, k) == 0
      {
        BitOfZero(k);
      }
      NoneServiced(fired, enabled, 0);
    } else {
      if ServicedCount(fired, enabled, 0) == 0 {
        NoneServiced(fired, enabled, 0);
        NothingServicedFrom(t, fired, enabled, 0);
      }
      ServiceFromTarget(t, fired, enabled, 0);
      ServiceFromStack(t, fired, enabled, 0);
      if ServicedCount(fired, enabled, 0) > 0 {
        ServiceFromDisables(t, fired, enabled, 0);
      }
      if s.SP <= 0xFF0F || s.SP >= 0xFF1A {
        forall k: nat | k < 8
          ensures Bit(CheckInterrupts(s).mem[0xFF0F], k) ==
                    (if Serviced(fired, enabled, k) then 0 else Bit(fired, k))
        {
          ServiceFromFired(t, fired, enabled, 0, k);
        }
      }
    }
  }

  /** A fired serial interrupt (bit 3) alone is never serviced, whatever IE holds. */
  lemma SerialIgnored(s: Machine)
    requires forall k: nat :: k != 3 ==> Bit(s.mem[0xFF0F], k) == 0
    ensures CheckInterrupts(s) == InterruptCountdown(s)
  {
    var t := InterruptCountdown(s);
    assert forall k: nat :: !Serviced(s.mem[0xFF0F], s.mem[0xFFFF], k);
    NothingServicedFrom(t, s.mem[0xFF0F], s.mem[0xFFFF], 0);
  }

  // ---- reset

  /**
   * After CPU_reset the register pairs hold the values of the commented-out
   * 16-bit assignments (AF 0x01B0, BC 0x0013, DE 0x00D8, HL 0x014D), and F.F
   * agrees with the four flags: packing gives F.F back and unpacking gives
   * the flags back, so PUSH AF right after reset pushes 0xB0.
   */
  lemma ResetPairs(s: Machine)
    ensures var r := Reset(s);
            ToPair(r.A, r.F.F) == 0x01B0 && r.GetPair(BC) == 0x0013
            && r.GetPair(DE) == 0x00D8 && r.GetPair(HL) == 0x014D
    ensures PackedF(Reset(s).F) == Reset(s).F.F
    ensures CompileF(Reset(s), 1) == Reset(s)
  {
    assert ShiftIn(0xB0, 1, 2) == 0x62 && ShiftIn(0x62, 0, 2) == 0xC4;
    assert ShiftIn(0xC4, 1, 2) == 0x8A && ShiftIn(0x8A, 1, 0x10) == 0xB0;
    assert Bit(0xB0, 7) == 1 && Bit(0xB0, 6) == 0 && Bit(0xB0, 5) == 1 && Bit(0xB0, 4) == 1;
  }

  /**
   * CPU_reset writes only the thirteen I/O registers it names: everything
   * below 0xFF05 (the ROM banks, video RAM, OAM) keeps its value, as do
   * interrupt_direction and scanline_cycles; resetting twice is resetting once.
   */
  lemma ResetFrame(s: Machine, a: Word)
    requires a !in {0xFF05, 0xFF06, 0xFF07, 0xFF40, 0xFF42, 0xFF43, 0xFF45,
                    0xFF47, 0xFF48, 0xFF49, 0xFF4A, 0xFF4B, 0xFFFF}
    ensures Reset(s).mem[a] == s.mem[a]
    ensures Reset(s).interruptDirection == s.interruptDirection
    ensures Reset(s).scanlineCycles == s.scanlineCycles
    ensures Reset(Reset(s)) == Reset(s)
  {
  }
}
