// Properties of the opcode dispatcher: which opcodes it handles, how far each
// family moves PC, round trips between opcodes (PUSH/POP, INC/DEC, SWAP twice,
// eight RRCAs), the conditional forms against their flags, and the places where
// the dispatcher departs from the documented instruction set.

module CpuCoreProperties {
  import opened Bits
  import opened State
  import opened MemorySpec
  import opened CpuSpec
  import opened CpuProperties
  import opened CpuCoreSpec

  /** The base opcodes the switch of `CPU` has no case for. */
  const Unhandled: set<int> :=
    {0x27, 0x37, 0x76, 0xD3, 0xDB, 0xDD, 0xE3, 0xE4, 0xEB, 0xEC, 0xED, 0xF4, 0xFC, 0xFD}

  /** The 0xCB-prefixed opcodes `CPU_EXTENDED` handles: SWAP r, SWAP (HL) and RES b,A. */
  const ExtendedHandled: set<int> :=
    {0x30, 0x31, 0x32, 0x33, 0x34, 0x35, 0x36, 0x37,
     0x87, 0x8F, 0x97, 0x9F, 0xA7, 0xAF, 0xB7, 0xBF}

  // ---- which opcodes are handled

  /** A byte opcode decodes exactly when it is not one of the fourteen missing cases. */
  lemma DecodeHandled(op: Word)
    ensures Decode(op).None? <==> op >= 0x100 || op in Unhandled
  {
    if op < 0x40 {
      DecodeLowQuarter(op);
    } else if op < 0xC0 {
      DecodeMiddle(op);
    } else if op < 0x100 {
      DecodeHighQuarter(op);
    }
  }

  lemma DecodeLowQuarter(op: Word)
    requires op < 0x40
    ensures Decode(op).None? <==> op in {0x27, 0x37}
  {
  }

  lemma DecodeMiddle(op: Word)
    requires 0x40 <= op < 0xC0
    ensures Decode(op).None? <==> op == 0x76
  {
  }

  lemma DecodeHighQuarter(op: Word)
    requires 0xC0 <= op < 0x100
    ensures Decode(op).None? <==> op in Unhandled - {0x27, 0x37, 0x76}
  {
  }

  /** Extended handles an opcode (result 0) exactly when it is in `ExtendedHandled`; otherwise nothing changes. */
  lemma ExtendedResult(s: Machine, op: Word)
    ensures Extended(s, op).1 == 0 <==> op in ExtendedHandled
    ensures Extended(s, op).1 == -1 <==> op !in ExtendedHandled
    ensures op !in ExtendedHandled ==> Extended(s, op).0 == s
  {
  }

  /**
   * The result code of `CPU`: 0 for a handled opcode, -1 for an unhandled one, in
   * which case nothing changes except the PC step an unknown 0xCB opcode has made.
   */
  lemma ExecResult(s: Machine, op: Word)
    requires ExecDefined(s, op)
    ensures var (r, code) := Exec(s, op);
            (code == 0 || code == -1)
            && (op != 0xCB ==> (code == -1 <==> op >= 0x100 || op in Unhandled))
            && (op == 0xCB ==> (code == -1 <==> s.mem[s.PCPlus(1)] !in ExtendedHandled))
            && (op != 0xCB && code == -1 ==> r == s)
            && (op == 0xCB && code == -1 ==> r == s.(PC := s.PCPlus(1)))
  {
    DecodeHandled(op);
    if op == 0xCB {
      var s1 := Advance(s, 1);
      ExtendedResult(s1, s1.mem[s1.PC]);
    }
  }

  // ---- how far PC moves

  /** The length in bytes of a load, as the instruction set defines it. */
  function LoadLength(l: LoadOp): (r: nat)
  {
    match l
    case LdImm(_) | LdHLImm | LdAImm | LdIoFromA | LdAFromIo | LdHLSpN => 2
    case LdAFromAbs | LdAbsFromA | LdImm16(_) | LdSpImm16 | LdSpAbs => 3
    case _ => 1
  }

  /** The length in bytes of an arithmetic instruction. */
  function ArithLength(a: ArithOp): (r: nat)
  {
    match a
    case Alu(_, src) => if src.FromImmediate? then 2 else 1
    case AddSPImm => 2
    case _ => 1
  }

  /** The length in bytes of the remaining instructions. */
  function MiscLength(m: MiscOp): (r: nat)
  {
    if m.Stop? then 2 else 1
  }

  lemma AdvanceTwice(pc: Word, a: nat, b: nat)
    ensures ((pc + a) % 0x1_0000 + b) % 0x1_0000 == (pc + a + b) % 0x1_0000
  {
    var q := (pc + a) / 0x1_0000;
    ModShift16((pc + a) % 0x1_0000 + b, q);
  }

  lemma AdvanceSigned(pc: Word, n: int, b: nat)
    ensures ((pc + n) % 0x1_0000 + b) % 0x1_0000 == (pc + n + b) % 0x1_0000
  {
    var q := (pc + n) / 0x1_0000;
    ModShift16((pc + n) % 0x1_0000 + b, q);
  }

  /** Every load leaves PC at the next instruction. */
  lemma LoadAdvances(s: Machine, l: LoadOp)
    requires LoadDefined(s, l)
    ensures ExecuteLoad(s, l).PC == s.PCPlus(LoadLength(l))
  {
    if l.LdImm? || l.LdReg? || l.LdFromPair? || l.LdToPair? || l.LdAFromIoC? || l.LdIoCFromA? || l.LdImm16? {
      RegisterLoadsAdvance(s, l);
    } else {
      match l
      case LdHLImm | LdAImm | LdIoFromA | LdAFromIo => AdvanceTwice(s.PC, 1, 1);
      case LdAFromAbs | LdAbsFromA => AdvanceTwice(s.PC, 1, 2);
      case LdAFromHLDec | LdHLDecFromA | LdAFromHLInc | LdHLIncFromA => HLLoadsAdvance(s);
      case LdHLSpN =>
        var s1 := AddSpN(s, s.mem[s.PCPlus(1)]);
        SetPairKeeps(s1, HL, s1.SP);
      case LdSpImm16 =>
      case LdSpHL =>
      case LdSpAbs =>
    }
  }

  /** The loads between registers, through a pair or through 0xFF00+C, and the immediate loads of one register or pair. */
  lemma RegisterLoadsAdvance(s: Machine, l: LoadOp)
    requires l.LdImm? || l.LdReg? || l.LdFromPair? || l.LdToPair? || l.LdAFromIoC? || l.LdIoCFromA? || l.LdImm16?
    ensures ExecuteLoad(s, l).PC == s.PCPlus(LoadLength(l))
  {
  }

  /** The four loads through HL that then move HL are one byte long. */
  lemma HLLoadsAdvance(s: Machine)
    ensures ExecuteLoad(s, LdAFromHLDec).PC == s.PCPlus(1) && ExecuteLoad(s, LdHLDecFromA).PC == s.PCPlus(1)
    ensures ExecuteLoad(s, LdAFromHLInc).PC == s.PCPlus(1) && ExecuteLoad(s, LdHLIncFromA).PC == s.PCPlus(1)
  {
    PairWritesKeepPC();
  }

  /** Writing a register pair never moves PC. */
  lemma PairWritesKeepPC()
    ensures forall x: Machine, p: Pair, w: Word :: x.SetPair(p, w).PC == x.PC
  {
    forall x: Machine, p: Pair, w: Word
      ensures x.SetPair(p, w).PC == x.PC
    {
      SetPairKeeps(x, p, w);
    }
  }

  /** PUSH and POP are one byte long. */
  lemma StackAdvances(s: Machine, k: StackOp)
    ensures ExecuteStack(s, k).PC == s.PCPlus(1)
  {
  }

  /** Every arithmetic instruction leaves PC at the next instruction. */
  lemma ArithmeticAdvances(s: Machine, a: ArithOp)
    ensures ExecuteArithmetic(s, a).PC == s.PCPlus(ArithLength(a))
  {
    match a
    case Alu(op, src) => AluAdvances(s, op, src);
    case IncDecReg(r, direction) => IncDecRegAdvances(s, r, direction);
    case IncDecHL(_) =>
    case AddHL(p) => AddHLAdvances(s, p);
    case AddHLSP =>
      Add16IsSum(s, HL, s.SP);
      assert ExecuteArithmetic(s, a).PC == Add16(s, HL, s.SP).PCPlus(1);
    case AddSPImm =>
    case IncDecPair(p, direction) => IncDecPairAdvances(s, p, direction);
    case IncDecSP(_) =>
  }

  lemma AluAdvances(s: Machine, op: AluOp, src: Source)
    ensures ExecuteArithmetic(s, Alu(op, src)).PC == s.PCPlus(ArithLength(Alu(op, src)))
  {
    var x := RunAlu(s, op, OperandOf(s, src));
    AluKeepsPC(s, op, OperandOf(s, src));
    assert ExecuteArithmetic(s, Alu(op, src)).PC == x.PCPlus(ArithLength(Alu(op, src)));
  }

  lemma IncDecRegAdvances(s: Machine, r: Reg, direction: Byte)
    ensures ExecuteArithmetic(s, IncDecReg(r, direction)).PC == s.PCPlus(1)
  {
    var (s1, v) := IncDec8(s, s.Get(r), direction);
    SetKeepsPC(s1, r, v);
    assert ExecuteArithmetic(s, IncDecReg(r, direction)).PC == s1.Set(r, v).PCPlus(1);
  }

  lemma AddHLAdvances(s: Machine, p: Pair)
    ensures ExecuteArithmetic(s, AddHL(p)).PC == s.PCPlus(1)
  {
    Add16IsSum(s, HL, s.GetPair(p));
    assert ExecuteArithmetic(s, AddHL(p)).PC == Add16(s, HL, s.GetPair(p)).PCPlus(1);
  }

  lemma IncDecPairAdvances(s: Machine, p: Pair, direction: Byte)
    ensures ExecuteArithmetic(s, IncDecPair(p, direction)).PC == s.PCPlus(1)
  {
    var w := IncDec16(s.GetPair(p), direction);
    SetPairKeeps(s, p, w);
    assert ExecuteArithmetic(s, IncDecPair(p, direction)).PC == s.SetPair(p, w).PCPlus(1);
  }

  /** Writing a register leaves PC alone. */
  lemma SetKeepsPC(s: Machine, r: Reg, v: Byte)
    ensures s.Set(r, v).PC == s.PC
  {
    match r
    case RA =>
    case RB =>
    case RC =>
    case RD =>
    case RE =>
    case RH =>
    case RL =>
  }

  /** No ALU helper moves PC. */
  lemma AluKeepsPC(s: Machine, op: AluOp, o: Operand)
    ensures RunAlu(s, op, o).PC == s.PC
  {
    match op
    case Add(carry) =>
      if o.OpReg? {
        SetKeepsPC(ClearFlags(s), o.r, (Deref(s, o) + carry) % 0x100);
      }
    case Subtract(carry) =>
      if o.OpReg? {
        SetKeepsPC(ClearFlags(s), o.r, (Deref(s, o) + carry) % 0x100);
      }
    case Compare =>
      if o.OpReg? {
        SetKeepsPC(ClearFlags(s), o.r, Deref(s, o) % 0x100);
      }
    case _ =>
  }

  /** NOP, the rotates, STOP, DI/EI, CPL and CCF leave PC at the next instruction. */
  lemma MiscAdvances(s: Machine, m: MiscOp)
    ensures ExecuteMisc(s, m).PC == s.PCPlus(MiscLength(m))
  {
  }

  /**
   * A conditional branch whose condition fails moves PC past itself, and a
   * taken JR cc lands two bytes beyond its target offset.
   */
  lemma ConditionalNotTaken(s: Machine, c: ControlOp)
    requires c.CallIf? || c.RetIf? || c.JpIf? || c.JrIf?
    ensures c.CallIf? && !Holds(s, c.flag, c.whenSet) ==> ExecuteControl(s, c).PC == s.PCPlus(3)
    ensures c.RetIf? && !Holds(s, c.flag, c.whenSet) ==> ExecuteControl(s, c).PC == s.PCPlus(1)
    ensures c.JpIf? && FlagValue(s, c.flag) != c.condition ==> ExecuteControl(s, c).PC == s.PCPlus(3)
    ensures c.JrIf? && FlagValue(s, c.flag) != c.condition ==> ExecuteControl(s, c).PC == s.PCPlus(2)
    ensures c.JrIf? && FlagValue(s, c.flag) == c.condition ==>
              ExecuteControl(s, c).PC == (s.PC + Signed(s.mem[s.PCPlus(1)]) + 2) % 0x1_0000
  {
    if c.JrIf? {
      AdvanceSigned(s.PC, Signed(s.mem[s.PCPlus(1)]), 2);
    }
  }

  /**
   * A conditional branch whose condition holds does what its unconditional
   * form does: JP cc jumps to the little-endian address after the opcode,
   * CALL cc calls and RET cc returns. The cycle count a conditional branch
   * sets is the same whether it is taken or not.
   */
  lemma ConditionalTaken(s: Machine, c: ControlOp)
    requires c.CallIf? || c.RetIf? || c.JpIf? || c.JrIf?
    ensures c.CallIf? && Holds(s, c.flag, c.whenSet) ==> ExecuteControl(s, c) == Call(s).(cycles := 12)
    ensures c.RetIf? && Holds(s, c.flag, c.whenSet) ==> ExecuteControl(s, c) == Return(s).(cycles := 8)
    ensures c.JpIf? && FlagValue(s, c.flag) == c.condition ==>
              ExecuteControl(s, c) == s.(PC := ToPair(s.mem[s.PCPlus(2)], s.mem[s.PCPlus(1)]), cycles := 12)
    ensures ExecuteControl(s, c).cycles == if c.RetIf? || c.JrIf? then 8 else 12
  {
  }

  /** The length in bytes of a branch instruction. */
  function ControlLength(c: ControlOp): (r: nat)
  {
    match c
    case CallImm | CallIf(_, _) | JpImm | JpIf(_, _) => 3
    case Jr | JrIf(_, _) => 2
    case _ => 1
  }

  /** The length in bytes of an instruction; a 0xCB opcode is two bytes with its prefix. */
  function Length(i: Instr): (r: nat)
  {
    match i
    case Prefix => 2
    case Load(l) => LoadLength(l)
    case Stack(_) => 1
    case Arith(a) => ArithLength(a)
    case Control(c) => ControlLength(c)
    case Misc(m) => MiscLength(m)
  }

  /** Every handled opcode outside the branches leaves PC at the next instruction and returns 0. */
  lemma ExecAdvances(s: Machine, op: Word)
    requires ExecDefined(s, op) && Decode(op).Some?
    requires !Decode(op).value.Prefix? && !Decode(op).value.Control?
    ensures Exec(s, op).0.PC == s.PCPlus(Length(Decode(op).value))
    ensures Exec(s, op).1 == 0
  {
    match Decode(op).value
    case Load(l) => DecodeReadWord(op); LoadAdvances(s, l);
    case Stack(k) => StackAdvances(s, k);
    case Arith(a) => ArithmeticAdvances(s, a);
    case Misc(m) => MiscAdvances(s, m);
  }

  /** `CPU(op)` runs the case its opcode decodes to and returns 0. */
  lemma ExecIs(s: Machine, op: Word, i: Instr)
    requires ExecDefined(s, op) && Decode(op) == Some(i) && !i.Prefix?
    ensures Defined(s, i) && Exec(s, op) == (Execute(s, i), 0)
  {
    DecodeReadWord(op);
  }

  // ---- loads

  /** LD r,r' (0x40-0x7F outside the (HL) row and column): the destination takes the source, nothing else but PC and cycles changes. */
  lemma LoadRegisterCopies(s: Machine, op: Word)
    requires 0x40 <= op < 0x80 && op % 8 != 6 && (op - 0x40) / 8 != 6
    ensures var (r, code) := Exec(s, op);
            var dst, src := RegOf((op - 0x40) / 8), RegOf(op % 8);
            code == 0 && r.Get(dst) == s.Get(src)
            && (forall q :: q != dst ==> r.Get(q) == s.Get(q))
            && r.F == s.F && r.SP == s.SP && r.mem == s.mem
            && r.PC == s.PCPlus(1) && r.cycles == 4
  {
    var dst, src := RegOf((op - 0x40) / 8), RegOf(op % 8);
    assert Decode(op) == Some(Load(LdReg(dst, src)));
    ExecIs(s, op, Load(LdReg(dst, src)));
    var r := Execute(s, Load(LdReg(dst, src)));
    assert r == Advance(s.Set(dst, s.Get(src)), 1).(cycles := 4);
  }

  /** LD (HL+),A stores A at the byte-swapped HL, then increments HL; LD A,(HL+) reads at HL itself. */
  lemma IncrementLoads(s: Machine)
    ensures var r := ExecuteLoad(s, LdHLIncFromA);
            r.mem[SwapByteOrder(s.GetPair(HL))] == s.A && r.GetPair(HL) == (s.GetPair(HL) + 1) % 0x1_0000
    ensures var r := ExecuteLoad(s, LdAFromHLInc);
            r.A == s.mem[s.GetPair(HL)] && r.GetPair(HL) == (s.GetPair(HL) + 1) % 0x1_0000
  {
    var hl := s.GetPair(HL);
    SwapByteOrderSwaps(hl);
    ReadAfterWrite(s.mem, SwapByteOrder(hl), s.A);
  }

  /** The same for the opcodes 0x22 and 0x2A. */
  lemma LoadIncrementAddresses(s: Machine)
    ensures var r := Exec(s, 0x22).0;
            r.mem[SwapByteOrder(s.GetPair(HL))] == s.A && r.GetPair(HL) == (s.GetPair(HL) + 1) % 0x1_0000
    ensures var r := Exec(s, 0x2A).0;
            r.A == s.mem[s.GetPair(HL)] && r.GetPair(HL) == (s.GetPair(HL) + 1) % 0x1_0000
  {
    ExecIs(s, 0x22, Load(LdHLIncFromA));
    ExecIs(s, 0x2A, Load(LdAFromHLInc));
    IncrementLoads(s);
  }

  /** LD (HL-),A stores A at HL and decrements HL; LD A,(HL-) reads at HL. */
  lemma DecrementLoads(s: Machine)
    ensures var r := ExecuteLoad(s, LdHLDecFromA);
            r.mem[s.GetPair(HL)] == s.A && r.GetPair(HL) == (s.GetPair(HL) - 1) % 0x1_0000
    ensures var r := ExecuteLoad(s, LdAFromHLDec);
            r.A == s.mem[s.GetPair(HL)] && r.GetPair(HL) == (s.GetPair(HL) - 1) % 0x1_0000
  {
    ReadAfterWrite(s.mem, s.GetPair(HL), s.A);
  }

  /** The same for the opcodes 0x32 and 0x3A. */
  lemma LoadDecrementAddresses(s: Machine)
    ensures var r := Exec(s, 0x32).0;
            r.mem[s.GetPair(HL)] == s.A && r.GetPair(HL) == (s.GetPair(HL) - 1) % 0x1_0000
    ensures var r := Exec(s, 0x3A).0;
            r.A == s.mem[s.GetPair(HL)] && r.GetPair(HL) == (s.GetPair(HL) - 1) % 0x1_0000
  {
    ExecIs(s, 0x32, Load(LdHLDecFromA));
    ExecIs(s, 0x3A, Load(LdAFromHLDec));
    DecrementLoads(s);
  }

  /** LDH (n),A followed by LDH A,(n) with the same n gives back A. */
  lemma HighPageLoads(s: Machine)
    ensures var t := ExecuteLoad(s, LdIoFromA);
            t.mem[t.PCPlus(1)] == s.mem[s.PCPlus(1)] ==>
              ExecuteLoad(t, LdAFromIo).A == s.A && ExecuteLoad(t, LdAFromIo).PC == s.PCPlus(4)
  {
    var address := IoAddress(s.mem[s.PCPlus(1)]);
    ReadAfterWrite(s.mem, address, s.A);
    LoadAdvances(s, LdIoFromA);
    LoadAdvances(ExecuteLoad(s, LdIoFromA), LdAFromIo);
    AdvanceTwice(s.PC, 2, 2);
  }

  /** The same for the opcodes 0xE0 and 0xF0. */
  lemma HighPageRoundTrip(s: Machine)
    ensures var t := Exec(s, 0xE0).0;
            t.mem[t.PCPlus(1)] == s.mem[s.PCPlus(1)] ==>
              Exec(t, 0xF0).0.A == s.A && Exec(t, 0xF0).0.PC == s.PCPlus(4)
  {
    ExecIs(s, 0xE0, Load(LdIoFromA));
    var t := Exec(s, 0xE0).0;
    ExecIs(t, 0xF0, Load(LdAFromIo));
    HighPageLoads(s);
  }

  // ---- the stack

  /** The PUSH and POP opcodes of a register pair. */
  function PushOpcode(p: Pair): (r: Word)
  {
    match p
    case BC => 0xC5
    case DE => 0xD5
    case HL => 0xE5
  }

  function PopOpcode(p: Pair): (r: Word)
  {
    match p
    case BC => 0xC1
    case DE => 0xD1
    case HL => 0xE1
  }

  lemma DecodeStack(p: Pair)
    ensures Decode(PushOpcode(p)) == Some(Stack(PushPair(p)))
    ensures Decode(PopOpcode(p)) == Some(Stack(PopPair(p)))
  {
  }

  /** PUSH rr followed by POP rr gives back the pair and SP, with every other register as it was. */
  lemma PushPopPairs(s: Machine, p: Pair)
    ensures var t := ExecuteStack(s, PushPair(p));
            var r := ExecuteStack(t, PopPair(p));
            r.GetPair(p) == s.GetPair(p) && r.SP == s.SP && r.PC == s.PCPlus(2)
            && (forall q :: r.Get(q) == s.Get(q)) && r.F == s.F
  {
    var high, low := s.Get(s.High(p)), s.Get(s.Low(p));
    PushTwicePopTwice(s, high, low);
    AdvanceTwice(s.PC, 1, 1);
    var t := ExecuteStack(s, PushPair(p));
    var r := ExecuteStack(t, PopPair(p));
    assert r.Get(s.Low(p)) == low && r.Get(s.High(p)) == high;
  }

  /** The same for the opcodes 0xC5/0xC1, 0xD5/0xD1 and 0xE5/0xE1. */
  lemma PushPopPair(s: Machine, p: Pair)
    ensures var t := Exec(s, PushOpcode(p)).0;
            var r := Exec(t, PopOpcode(p)).0;
            r.GetPair(p) == s.GetPair(p) && r.SP == s.SP && r.PC == s.PCPlus(2)
            && (forall q :: r.Get(q) == s.Get(q)) && r.F == s.F
  {
    DecodeStack(p);
    ExecIs(s, PushOpcode(p), Stack(PushPair(p)));
    var t := ExecuteStack(s, PushPair(p));
    ExecIs(t, PopOpcode(p), Stack(PopPair(p)));
    PushPopPairs(s, p);
  }

  /**
   * PUSH AF followed by POP AF gives back A and the four flags, as long as each
   * flag is 0 or 1 and the packed byte F.F is even; F.F then holds the packed flags.
   */
  lemma PushPopAccumulator(s: Machine)
    requires s.F.Z <= 1 && s.F.N <= 1 && s.F.H <= 1 && s.F.C <= 1 && s.F.F % 2 == 0
    ensures var r := ExecuteStack(ExecuteStack(s, PushAF), PopAF);
            r.A == s.A && r.F == s.F.(F := PackedF(s.F)) && r.SP == s.SP && r.PC == s.PCPlus(2)
  {
    var t := ExecuteStack(s, PushAF);
    PushAFStep(s);
    var r := ExecuteStack(t, PopAF);
    PopAFStep(t);
    assert r.A == s.A && r.SP == s.SP;
    var u := t.(F := t.F.(F := Top(t)));
    assert u.F == CompileF(s, 0).F;
    UnpackReadsF(u, CompileF(s, 0));
    PackUnpack(s);
    assert r.F == s.F.(F := PackedF(s.F));
    AdvanceTwice(s.PC, 1, 1);
  }

  /** Unpacking reads nothing but F. */
  lemma UnpackReadsF(x: Machine, y: Machine)
    requires x.F == y.F
    ensures CompileF(x, 1).F == CompileF(y, 1).F
  {
  }

  /** PUSH AF: the flag byte compiler_F(0) packs on top of the stack, A under it, PC one on. */
  lemma PushAFStep(s: Machine)
    ensures var t := ExecuteStack(s, PushAF);
            Top(t) == PackedF(s.F) && Top(Pop(t)) == s.A && Pop(Pop(t)).SP == s.SP
            && t.F == CompileF(s, 0).F && t.PC == (s.PC + 1) % 0x1_0000
  {
    var s1 := CompileF(s, 0);
    var u := LoadSp16(s1, s1.A, s1.F.F);
    PushTwicePopTwice(s1, s1.A, s1.F.F);
    var t := ExecuteStack(s, PushAF);
    assert t == Advance(u.(cycles := 16), 1);
    assert t.mem == u.mem && t.SP == u.SP;
  }

  /** POP AF: F.F from the top byte, then unpacked; A from the byte under it. */
  lemma PopAFStep(t: Machine)
    ensures var r := ExecuteStack(t, PopAF);
            r.A == Top(Pop(t)) && r.SP == Pop(Pop(t)).SP && r.PC == (t.PC + 1) % 0x1_0000
            && r.F == CompileF(t.(F := t.F.(F := Top(t))), 1).F
  {
  }

  /** The same for the opcodes 0xF5 and 0xF1. */
  lemma PushPopAF(s: Machine)
    requires s.F.Z <= 1 && s.F.N <= 1 && s.F.H <= 1 && s.F.C <= 1 && s.F.F % 2 == 0
    ensures var r := Exec(Exec(s, 0xF5).0, 0xF1).0;
            r.A == s.A && r.F == s.F.(F := PackedF(s.F)) && r.SP == s.SP && r.PC == s.PCPlus(2)
  {
    ExecIs(s, 0xF5, Stack(PushAF));
    ExecIs(ExecuteStack(s, PushAF), 0xF1, Stack(PopAF));
    PushPopAccumulator(s);
  }

  /**
   * compiler_F(0) shifts the flags into F.F without clearing it first, so an odd
   * F.F left by POP AF spills into bit 7: popping 0x81 sets Z, and the next
   * PUSH AF pushes a flag byte of 0, with Z lost.
   */
  lemma PopPushLosesZero(s: Machine)
    requires s.mem[s.SP] == 0x81
    ensures var t := Exec(s, 0xF1).0;
            t.F.Z == 1 && t.F.F == 0x81 && Top(Exec(t, 0xF5).0) == 0
  {
    PopStale(s);
    var t := Exec(s, 0xF1).0;
    PushAFByOpcode(t);
    StalePacksToZero();
  }

  lemma PopStale(s: Machine)
    requires s.mem[s.SP] == 0x81
    ensures Exec(s, 0xF1).0.F == Flags(1, 0, 0, 0, 0x81)
  {
    ExecIs(s, 0xF1, Stack(PopAF));
    BitIsDiv(0x81, 7);
    BitIsDiv(0x81, 6);
    BitIsDiv(0x81, 5);
    BitIsDiv(0x81, 4);
    assert Pow2(4) == 0x10 && Pow2(5) == 0x20 && Pow2(6) == 0x40 && Pow2(7) == 0x80;
  }

  /** PUSH AF run through `CPU`: the byte on top of the stack is the packed F. */
  lemma PushAFByOpcode(t: Machine)
    ensures Top(Exec(t, 0xF5).0) == PackedF(t.F)
  {
    PushAFStep(t);
    ExecIs(t, 0xF5, Stack(PushAF));
  }

  /** Z = 1 shifted in on top of the stale 0x81 overflows bit 7 and leaves 0. */
  lemma StalePacksToZero()
    ensures PackedF(Flags(1, 0, 0, 0, 0x81)) == 0
  {
    assert ShiftIn(0x81, 1, 2) == 4;
    assert ShiftIn(4, 0, 2) == 8;
    assert ShiftIn(8, 0, 2) == 0x10;
    assert ShiftIn(0x10, 0, 0x10) == 0;
  }

  // ---- conditions

  /**
   * CALL cc and RET cc test a flag for being nonzero, JP cc and JR cc compare
   * it with 0 or 1: the two agree exactly when the flag byte is 0 or 1.
   */
  lemma ConditionsAgree(s: Machine, f: FlagSel)
    ensures FlagValue(s, f) <= 1 ==> (Holds(s, f, true) <==> FlagValue(s, f) == 1)
    ensures FlagValue(s, f) <= 1 ==> (Holds(s, f, false) <==> FlagValue(s, f) == 0)
    ensures FlagValue(s, f) > 1 ==> Holds(s, f, true) && FlagValue(s, f) != 1
  {
  }

  /**
   * RLCA of a byte with bit 7 set leaves C = 0x80 (the masked bit, not 1);
   * after it JP C does not jump while CALL C does.
   */
  lemma RotatedCarryQuirk(s: Machine)
    requires s.A >= 0x80
    ensures var t := Exec(s, 0x07).0;
            t.F.C == 0x80
            && Exec(t, 0xDA).0.PC == t.PCPlus(3)
            && Exec(t, 0xDC).0 == Call(t).(cycles := 12)
  {
    DecodeCarryOpcodes();
    ExecIs(s, 0x07, Misc(RotateA(false, 0)));
    RotateCarrySet(s);
    var t := ExecuteMisc(s, RotateA(false, 0));
    ExecIs(t, 0xDA, Control(JpIf(CarryFlag, 1)));
    ExecIs(t, 0xDC, Control(CallIf(CarryFlag, true)));
    CarryByteTests(t);
  }

  lemma DecodeCarryOpcodes()
    ensures Decode(0x07) == Some(Misc(RotateA(false, 0)))
    ensures Decode(0xDA) == Some(Control(JpIf(CarryFlag, 1)))
    ensures Decode(0xDC) == Some(Control(CallIf(CarryFlag, true)))
  {
  }

  lemma RotateCarrySet(s: Machine)
    requires s.A >= 0x80
    ensures ExecuteMisc(s, RotateA(false, 0)).F.C == 0x80
  {
    RotateLeftValue(s, s.A);
  }

  lemma CarryByteTests(t: Machine)
    requires t.F.C == 0x80
    ensures ExecuteControl(t, JpIf(CarryFlag, 1)).PC == t.PCPlus(3)
    ensures ExecuteControl(t, CallIf(CarryFlag, true)) == Call(t).(cycles := 12)
  {
  }

  // ---- accumulator rotates

  lemma DecodeAccumulatorRotates()
    ensures Decode(0x07) == Some(Misc(RotateA(false, 0)))
    ensures Decode(0x0F) == Some(Misc(RotateA(false, 1)))
    ensures Decode(0x17) == Some(Misc(RotateA(true, 0)))
    ensures Decode(0x1F) == Some(Misc(RotateA(true, 1)))
  {
  }

  /**
   * RLCA, RRCA, RLA and RRA (0x07, 0x0F, 0x17, 0x1F) clear N and H, set Z
   * exactly when the new A is 0, keep F.F and step PC over the opcode.
   */
  lemma AccumulatorRotateFlags(s: Machine, op: Word)
    requires op == 0x07 || op == 0x0F || op == 0x17 || op == 0x1F
    ensures var (r, code) := Exec(s, op);
            code == 0 && r.F.N == 0 && r.F.H == 0 && (r.F.Z == 1 <==> r.A == 0)
            && r.F.F == s.F.F && r.PC == s.PCPlus(1) && r.cycles == 4
  {
    DecodeAccumulatorRotates();
    var i := Decode(op).value;
    ExecIs(s, op, i);
  }

  /**
   * JR n jumps to PC + n, counted from the JR opcode itself; a taken JR cc
   * adds the two bytes of the instruction, so the same offset lands two bytes further.
   */
  lemma RelativeJumps(s: Machine)
    ensures Exec(s, 0x18).0.PC == (s.PC + Signed(s.mem[s.PCPlus(1)])) % 0x1_0000
    ensures s.F.Z == 0 ==> Exec(s, 0x20).0.PC == (Exec(s, 0x18).0.PC + 2) % 0x1_0000
    ensures s.F.Z != 0 ==> Exec(s, 0x20).0.PC == s.PCPlus(2)
  {
    ExecIs(s, 0x18, Control(Jr));
    ExecIs(s, 0x20, Control(JrIf(ZeroFlag, 0)));
    ConditionalNotTaken(s, JrIf(ZeroFlag, 0));
    AdvanceSigned(s.PC, Signed(s.mem[s.PCPlus(1)]), 2);
  }

  lemma DecodeCallReturn()
    ensures Decode(0xCD) == Some(Control(CallImm))
    ensures Decode(0xC9) == Some(Control(Ret))
  {
  }

  /**
   * CALL nn followed by RET restores SP but lands on the byte-swapped return
   * address: CALL pushes the high byte first and RET takes the first byte it
   * pops as the high byte.
   */
  lemma CallThenRet(s: Machine)
    ensures var t := Exec(s, 0xCD).0;
            Exec(t, 0xC9).0.SP == s.SP && Exec(t, 0xC9).0.PC == SwapByteOrder(s.PCPlus(3))
  {
    DecodeCallReturn();
    ExecIs(s, 0xCD, Control(CallImm));
    ExecIs(ExecuteControl(s, CallImm), 0xC9, Control(Ret));
    CallThenReturn(s);
  }

  lemma CallThenReturn(s: Machine)
    ensures var r := ExecuteControl(ExecuteControl(s, CallImm), Ret);
            r.SP == s.SP && r.PC == SwapByteOrder(s.PCPlus(3))
  {
    var c := Call(s);
    assert Return(c.(cycles := 12)) == Return(c).(cycles := 12);
    CallReturn(s);
  }

  // ---- interrupts

  /**
   * EI takes effect only at the second interrupt check after it: the first
   * still sees the master flag off, two countdown steps turn it on.
   */
  lemma EnableDelay(s: Machine)
    requires s.ie == 0
    ensures var e := Exec(s, 0xFB).0;
            e.ie == 0 && e.PC == s.PCPlus(1) && e.cycles == 4
            && CheckInterrupts(e).ie == 0
            && InterruptCountdown(InterruptCountdown(e)).ie == 1
  {
    ExecIs(s, 0xFB, Misc(Ei));
    EnableTakesTwoChecks(s);
  }

  /** DI leaves the master flag as it is until two countdown steps have turned it off. */
  lemma DisableDelay(s: Machine)
    ensures var e := Exec(s, 0xF3).0;
            e.ie == s.ie && e.interruptStep == 2
            && InterruptCountdown(e).ie == s.ie
            && InterruptCountdown(InterruptCountdown(e)).ie == 0
  {
    ExecIs(s, 0xF3, Misc(Di));
  }

  /** RETI returns like RET and re-enables interrupts with the same two-step delay as EI. */
  lemma ReturnFromInterrupt(s: Machine)
    ensures var r := Exec(s, 0xD9).0;
            r.PC == Return(s).PC && r.SP == Return(s).SP && r.ie == s.ie
            && InterruptCountdown(InterruptCountdown(r)).ie == 1
  {
    ExecIs(s, 0xD9, Control(Reti));
  }

  // ---- accumulator operations

  /** The state after `n` runs of the same opcode from PC onwards. */
  function Repeat(s: Machine, op: Word, n: nat): (r: Machine)
    requires op != 0xFA && op != 0x08
    decreases n
  {
    if n == 0 then s else Repeat(Exec(s, op).0, op, n - 1)
  }

  /** The RRCA opcode. */
  const Rrca: Word := 0x0F

  lemma DecodeRrca()
    ensures Decode(Rrca) == Some(Misc(RotateA(false, 1)))
  {
  }

  /** n RRCAs rotate A right n places. */
  lemma RrcaRotates(s: Machine, n: nat)
    ensures Repeat(s, Rrca, n).A == RotateRightTimes(s.A, n)
  {
    RepeatRrca(s, n);
    RotationsRotate(s, n);
  }

  /** n RRCAs move PC n bytes on. */
  lemma RrcaAdvances(s: Machine, n: nat)
    ensures Repeat(s, Rrca, n).PC == s.PCPlus(n)
  {
    RepeatRrca(s, n);
    RotationsAdvance(s, n);
  }

  /** n RRCAs run as decoded instructions, without the dispatcher. */
  function Rotations(s: Machine, n: nat): (r: Machine)
    decreases n
  {
    if n == 0 then s else Rotations(ExecuteMisc(s, RotateA(false, 1)), n - 1)
  }

  /** Running 0x0F through `CPU` n times is running the decoded RRCA n times. */
  lemma {:induction false} RepeatRrca(s: Machine, n: nat)
    ensures Repeat(s, Rrca, n) == Rotations(s, n)
    decreases n
  {
    if n > 0 {
      DecodeRrca();
      ExecIs(s, Rrca, Misc(RotateA(false, 1)));
      RepeatRrca(ExecuteMisc(s, RotateA(false, 1)), n - 1);
    }
  }

  lemma {:induction false} RotationsRotate(s: Machine, n: nat)
    ensures Rotations(s, n).A == RotateRightTimes(s.A, n)
    decreases n
  {
    if n > 0 {
      var t := ExecuteMisc(s, RotateA(false, 1));
      RotateRightValue(s, s.A);
      assert t.A == s.A / 2 + (s.A % 2) * 0x80;
      RotationsRotate(t, n - 1);
    }
  }

  lemma {:induction false} RotationsAdvance(s: Machine, n: nat)
    ensures Rotations(s, n).PC == s.PCPlus(n)
    decreases n
  {
    if n > 0 {
      var t := ExecuteMisc(s, RotateA(false, 1));
      assert t.PC == (s.PC + 1) % 0x1_0000;
      NextAddress(s.PC, t.PC, n);
      RotationsAdvance(t, n - 1);
    }
  }

  /** Counting n bytes on from pc is counting n - 1 bytes on from pc + 1. */
  lemma NextAddress(pc: Word, next: Word, n: nat)
    requires 0 < n && next == (pc + 1) % 0x1_0000
    ensures (next + (n - 1)) % 0x1_0000 == (pc + n) % 0x1_0000
  {
    AdvanceTwice(pc, 1, n - 1);
  }

  /** Any multiple of eight RRCAs gives back A. */
  lemma EightRrcas(s: Machine, n: nat)
    requires n % 8 == 0
    ensures Repeat(s, Rrca, n).A == s.A
    ensures Repeat(s, Rrca, n).PC == s.PCPlus(n)
  {
    RrcaRotates(s, n);
    RrcaAdvances(s, n);
    FullTurnsRight(s.A, n);
  }

  lemma DecodeComplements()
    ensures Decode(0x2F) == Some(Misc(Cpl))
    ensures Decode(0x3F) == Some(Misc(Ccf))
  {
  }

  /** CPL flips every bit of A and sets N and H; CPL twice gives back A. */
  lemma ComplementA(s: Machine, i: nat)
    requires i < 8
    ensures var r := Exec(s, 0x2F).0;
            Bit(r.A, i) == 1 - Bit(s.A, i) && r.F == s.F.(N := 1, H := 1)
            && Exec(r, 0x2F).0.A == s.A
  {
    DecodeComplements();
    ExecIs(s, 0x2F, Misc(Cpl));
    var r := ExecuteMisc(s, Cpl);
    ExecIs(r, 0x2F, Misc(Cpl));
    assert Pow2(8) == 0x100 by { Pow2Byte(); }
    NotBit(s.A, 8, i);
  }

  /** CCF flips a carry of 0 or 1 and clears N and H; any other nonzero carry becomes 0. */
  lemma ComplementCarry(s: Machine)
    ensures var r := Exec(s, 0x3F).0;
            r.F.N == 0 && r.F.H == 0 && r.F.Z == s.F.Z
            && (s.F.C <= 1 ==> r.F.C == 1 - s.F.C && Exec(r, 0x3F).0.F.C == s.F.C)
            && (s.F.C > 1 ==> r.F.C == 0)
  {
    DecodeComplements();
    ExecIs(s, 0x3F, Misc(Ccf));
    ExecIs(ExecuteMisc(s, Ccf), 0x3F, Misc(Ccf));
  }

  // ---- arithmetic

  lemma DecodeIncDecA()
    ensures Decode(0x3C) == Some(Arith(IncDecReg(RA, 0)))
    ensures Decode(0x3D) == Some(Arith(IncDecReg(RA, 1)))
  {
  }

  /** INC A then DEC A gives back A, with C cleared; INC A wraps 0xFF to 0 and sets Z. */
  lemma IncDecAccumulator(s: Machine)
    ensures var t := Exec(s, 0x3C).0;
            t.A == (s.A + 1) % 0x100 && (t.F.Z == 1 <==> s.A == 0xFF)
            && Exec(t, 0x3D).0.A == s.A && Exec(t, 0x3D).0.F.C == 0
            && Exec(t, 0x3D).0.PC == s.PCPlus(2)
  {
    var t := Exec(s, 0x3C).0;
    var u := Exec(t, 0x3D).0;
    IncAccumulator(s);
    DecAccumulator(t);
    StepBack(s, t, u);
  }

  /** A byte incremented and then decremented, with PC moved on twice. */
  lemma StepBack(s: Machine, t: Machine, u: Machine)
    requires t.A == (s.A + 1) % 0x100 && u.A == (t.A - 1) % 0x100
    requires t.PC == (s.PC + 1) % 0x1_0000 && u.PC == (t.PC + 1) % 0x1_0000
    ensures u.A == s.A && u.PC == s.PCPlus(2)
  {
    AdvanceTwice(s.PC, 1, 1);
  }

  /** INC A on its own. */
  lemma IncAccumulator(s: Machine)
    ensures var t := Exec(s, 0x3C).0;
            t.A == (s.A + 1) % 0x100 && (t.F.Z == 1 <==> s.A == 0xFF) && t.PC == (s.PC + 1) % 0x1_0000
  {
    DecodeIncDecA();
    ExecIs(s, 0x3C, Arith(IncDecReg(RA, 0)));
    IncFlags(s, s.A);
  }

  /** DEC A on its own. */
  lemma DecAccumulator(s: Machine)
    ensures var t := Exec(s, 0x3D).0;
            t.A == (s.A - 1) % 0x100 && t.F.C == 0 && t.PC == (s.PC + 1) % 0x1_0000
  {
    DecodeIncDecA();
    ExecIs(s, 0x3D, Arith(IncDecReg(RA, 1)));
  }

  /** A register column of the ALU rows decodes to the row's operation on that register. */
  lemma DecodeAluRow(op: Word, row: nat)
    requires 0x80 <= row < 0xC0 && row % 8 == 0 && row <= op < row + 8 && op % 8 != 6
    ensures Decode(op) == Some(Arith(Alu(AluOpOf((row - 0x80) / 8), FromReg(RegOf(op - row)))))
  {
    assert (op - 0x80) / 8 == (row - 0x80) / 8 && op % 8 == op - row;
  }

  /** ADD A,r for r other than A (0x80-0x85): A and C together hold the 9-bit sum, N is clear, Z tells a zero A. */
  lemma AddRegister(s: Machine, op: Word)
    requires 0x80 <= op <= 0x85
    ensures var r := Exec(s, op).0;
            var x := s.Get(RegOf(op - 0x80));
            r.A + 0x100 * r.F.C == s.A + x && r.F.N == 0 && (r.F.Z == 1 <==> r.A == 0)
            && r.PC == s.PCPlus(1) && r.cycles == 4
  {
    var reg := RegOf(op - 0x80);
    DecodeAluRow(op, 0x80);
    ExecIs(s, op, Arith(Alu(Add(0), FromReg(reg))));
    AddRegisterStep(s, reg);
  }

  /** ADD A,r at the level of the arithmetic section. */
  lemma AddRegisterStep(s: Machine, reg: Reg)
    requires reg != RA
    ensures var r := ExecuteArithmetic(s, Alu(Add(0), FromReg(reg)));
            var x := s.Get(reg);
            r.A + 0x100 * r.F.C == s.A + x && r.F.N == 0 && (r.F.Z == 1 <==> r.A == 0)
            && r.PC == s.PCPlus(1) && r.cycles == 4
  {
    var t := AluAdd(s, OpReg(reg), 0);
    assert ExecuteArithmetic(s, Alu(Add(0), FromReg(reg))) == Advance(t, 1).(cycles := 4);
    AddIsNineBitSum(s, OpReg(reg), 0);
    AluKeepsPC(s, Add(0), OpReg(reg));
    assert s.Get(reg) % 0x100 == s.Get(reg);
  }

  /** SUB A (0x97) and XOR A (0xAF) both clear A; SUB sets Z and N, XOR only Z. */
  lemma ClearAccumulator(s: Machine)
    ensures Exec(s, 0x97).0 == s.(A := 0, F := Flags(1, 1, 0, 0, 0), PC := s.PCPlus(1), cycles := 4)
    ensures Exec(s, 0xAF).0 == s.(A := 0, F := Flags(1, 0, 0, 0, 0), PC := s.PCPlus(1), cycles := 4)
  {
    assert Decode(0x97) == Some(Arith(Alu(Subtract(0), FromReg(RA))));
    assert Decode(0xAF) == Some(Arith(Alu(Xor, FromReg(RA))));
    ExecIs(s, 0x97, Arith(Alu(Subtract(0), FromReg(RA))));
    ExecIs(s, 0xAF, Arith(Alu(Xor, FromReg(RA))));
    SubtractFromItself(s, 0);
    XorItselfClears(s);
  }

  /** CP r (0xB8-0xBD) changes only the flags: Z says A equals r, C says A is below r. */
  lemma CompareRegister(s: Machine, op: Word)
    requires 0xB8 <= op <= 0xBD
    ensures var r := Exec(s, op).0;
            var x := s.Get(RegOf(op - 0xB8));
            r == s.(F := Flags(Flag(s.A == x), 1, 0, Flag(s.A < x), 0), PC := s.PCPlus(1), cycles := 4)
  {
    var reg := RegOf(op - 0xB8);
    DecodeAluRow(op, 0xB8);
    ExecIs(s, op, Arith(Alu(Compare, FromReg(reg))));
    CompareOnlyFlags(s, OpReg(reg));
  }

  /** The INC rr and DEC rr opcodes of a register pair. */
  function IncPairOpcode(p: Pair): (r: Word)
  {
    match p
    case BC => 0x03
    case DE => 0x13
    case HL => 0x23
  }

  function DecPairOpcode(p: Pair): (r: Word)
  {
    match p
    case BC => 0x0B
    case DE => 0x1B
    case HL => 0x2B
  }

  lemma DecodeIncDecPair(p: Pair)
    ensures Decode(IncPairOpcode(p)) == Some(Arith(IncDecPair(p, 0)))
    ensures Decode(DecPairOpcode(p)) == Some(Arith(IncDecPair(p, 1)))
  {
  }

  /** INC rr then DEC rr gives back the pair, leaving the flags alone. */
  lemma IncDecPairRoundTrip(s: Machine, p: Pair)
    ensures var t := Exec(s, IncPairOpcode(p)).0;
            var r := Exec(t, DecPairOpcode(p)).0;
            t.GetPair(p) == (s.GetPair(p) + 1) % 0x1_0000
            && r.GetPair(p) == s.GetPair(p) && r.F == s.F && r.PC == s.PCPlus(2)
  {
    DecodeIncDecPair(p);
    ExecIs(s, IncPairOpcode(p), Arith(IncDecPair(p, 0)));
    var t := ExecuteArithmetic(s, IncDecPair(p, 0));
    ExecIs(t, DecPairOpcode(p), Arith(IncDecPair(p, 1)));
    IncDecPairSteps(s, p);
  }

  /** The same on the decoded instructions. */
  lemma IncDecPairSteps(s: Machine, p: Pair)
    ensures var t := ExecuteArithmetic(s, IncDecPair(p, 0));
            var r := ExecuteArithmetic(t, IncDecPair(p, 1));
            t.GetPair(p) == (s.GetPair(p) + 1) % 0x1_0000
            && r.GetPair(p) == s.GetPair(p) && r.F == s.F && r.PC == s.PCPlus(2)
  {
    var w := s.GetPair(p);
    var up := IncDec16(w, 0);
    IncDec16RoundTrip(w);
    AdvanceTwice(s.PC, 1, 1);
    SetPairKeeps(s, p, up);
    var t := ExecuteArithmetic(s, IncDecPair(p, 0));
    assert t == Advance(s.SetPair(p, up), 1).(cycles := 8);
    assert t.GetPair(p) == up && t.F == s.F && t.PC == (s.PC + 1) % 0x1_0000;
    var down := IncDec16(up, 1);
    assert down == w;
    SetPairKeeps(t, p, down);
    var r := ExecuteArithmetic(t, IncDecPair(p, 1));
    assert r == Advance(t.SetPair(p, down), 1).(cycles := 8);
    assert r.PC == (t.PC + 1) % 0x1_0000;
  }

  // ---- the 0xCB page

  /** `CPU(0xCB)` steps over the prefix and runs the extended opcode in the next byte. */
  lemma ExecPrefix(s: Machine)
    ensures Exec(s, 0xCB) == Extended(Advance(s, 1), s.mem[s.PCPlus(1)])
  {
    assert Decode(0xCB) == Some(Prefix);
  }

  /** SWAP r exchanges the register's nibbles and clears every flag but Z; PC moves past two bytes after the prefix. */
  lemma ExtendedSwap(s: Machine, op: Word)
    requires 0x30 <= op <= 0x37 && op != 0x36
    ensures var (r, code) := Extended(s, op);
            var reg := RegOf(op - 0x30);
            code == 0 && r.Get(reg) == SwapNibbles(s.Get(reg))
            && (forall q :: q != reg ==> r.Get(q) == s.Get(q))
            && r.F == Flags(Flag(s.Get(reg) == 0), 0, 0, 0, 0)
            && r.mem == s.mem && r.PC == s.PCPlus(2) && r.cycles == 8
  {
    var reg := RegOf(op - 0x30);
    var (s1, v) := Swap(s, s.Get(reg));
    var t := s1.Set(reg, v);
    assert Extended(s, op) == (Advance(t, 2).(cycles := 8), 0);
    SwapSets(s, reg);
    AdvanceKeepsRegisters(t, 2, 8);
  }

  /** Moving PC and setting the cycle count leave every register alone. */
  lemma AdvanceKeepsRegisters(t: Machine, k: nat, time: int)
    ensures forall q :: Advance(t, k).(cycles := time).Get(q) == t.Get(q)
  {
    forall q
      ensures Advance(t, k).(cycles := time).Get(q) == t.Get(q)
    {
      match q
      case RA =>
      case RB =>
      case RC =>
      case RD =>
      case RE =>
      case RH =>
      case RL =>
    }
  }

  /** The state SWAP r leaves, before PC and the cycle count are set. */
  lemma SwapSets(s: Machine, reg: Reg)
    ensures var (s1, v) := Swap(s, s.Get(reg));
            var r := s1.Set(reg, v);
            r.Get(reg) == SwapNibbles(s.Get(reg))
            && (forall q :: q != reg ==> r.Get(q) == s.Get(q))
            && r.F == Flags(Flag(s.Get(reg) == 0), 0, 0, 0, 0)
            && r.mem == s.mem && r.PC == s.PC
  {
    var (s1, v) := Swap(s, s.Get(reg));
    SwapInvolution(s, s.Get(reg));
    SetKeepsPC(s1, reg, v);
    assert forall q :: s1.Get(q) == s.Get(q);
    SetKeepsOthers(s1, reg, v);
  }

  /** Writing a register leaves the flags and memory alone. */
  lemma SetKeepsOthers(s: Machine, r: Reg, v: Byte)
    ensures s.Set(r, v).F == s.F && s.Set(r, v).mem == s.mem
  {
    match r
    case RA =>
    case RB =>
    case RC =>
    case RD =>
    case RE =>
    case RH =>
    case RL =>
  }

  /** SWAP r (CB 0x30-0x35, 0x37): with the prefix's own step PC moves three bytes, one more than the instruction's length. */
  lemma SwapRegister(s: Machine, op: Word)
    requires 0x30 <= op <= 0x37 && op != 0x36 && s.mem[s.PCPlus(1)] == op
    ensures var (r, code) := Exec(s, 0xCB);
            var reg := RegOf(op - 0x30);
            code == 0 && r.Get(reg) == SwapNibbles(s.Get(reg))
            && (forall q :: q != reg ==> r.Get(q) == s.Get(q))
            && r.F == Flags(Flag(s.Get(reg) == 0), 0, 0, 0, 0)
            && r.mem == s.mem && r.PC == s.PCPlus(3) && r.cycles == 8
  {
    AdvanceTwice(s.PC, 1, 2);
    var t := Advance(s, 1);
    assert t.mem == s.mem && t.F == s.F && t.PCPlus(2) == s.PCPlus(3);
    assert forall q :: t.Get(q) == s.Get(q);
    ExecPrefix(s);
    ExtendedSwap(t, op);
  }

  /** SWAP A twice gives back A. */
  lemma SwapTwice(s: Machine)
    requires s.mem[s.PCPlus(1)] == 0x37 && s.mem[s.PCPlus(4)] == 0x37
    ensures var t := Exec(s, 0xCB).0;
            Exec(t, 0xCB).0.A == s.A && Exec(t, 0xCB).0.PC == s.PCPlus(6)
  {
    SwapRegister(s, 0x37);
    var t := Exec(s, 0xCB).0;
    AdvanceTwice(s.PC, 3, 1);
    SwapRegister(t, 0x37);
    SwapInvolution(s, s.A);
    AdvanceTwice(s.PC, 3, 3);
  }

  /**
   * SWAP (HL) (CB 0x36) writes the swapped byte back through the memory
   * write; every register, SP and the interrupt state are kept.
   */
  lemma SwapMemory(s: Machine)
    requires s.mem[s.PCPlus(1)] == 0x36
    ensures var (r, code) := Exec(s, 0xCB);
            var address := s.GetPair(HL);
            code == 0 && r.mem[address] == SwapNibbles(s.mem[address])
            && r.mem == WriteByte(s.mem, address, SwapNibbles(s.mem[address]))
            && r.F == Flags(Flag(s.mem[address] == 0), 0, 0, 0, 0)
            && r.PC == s.PCPlus(3) && r.cycles == 8
            && r == s.(mem := r.mem, F := r.F, PC := s.PCPlus(3), cycles := 8)
  {
    ExecPrefix(s);
    var s1 := Advance(s, 1);
    SwapInvolution(s1, s.mem[s.GetPair(HL)]);
    ReadAfterWrite(s1.mem, s.GetPair(HL), SwapNibbles(s.mem[s.GetPair(HL)]));
    AdvanceTwice(s.PC, 1, 2);
  }

  /** RES b,A clears bit b of A and keeps the others; doing it again changes nothing; nothing but A, PC and the cycle count changes. */
  lemma ExtendedReset(s: Machine, b: nat, i: nat)
    requires b < 8 && i < 8
    ensures var (r, code) := Extended(s, 0x87 + 8 * b);
            code == 0 && Bit(r.A, i) == (if i == b then 0 else Bit(s.A, i))
            && ResBitValue(r.A, b) == r.A
            && r.F == s.F && r.PC == s.PCPlus(1) && r.cycles == 8
            && r == s.(A := r.A, PC := s.PCPlus(1), cycles := 8)
  {
    assert (0x87 + 8 * b - 0x87) / 8 == b;
    ResBitValueBits(s.A, b, i);
    ResBitIdempotent(s.A, b);
  }

  /** RES b,A (CB 0x87 + 8b) as an opcode: PC moves past both bytes; nothing else but A and the cycle count changes. */
  lemma ResetBit(s: Machine, b: nat, i: nat)
    requires b < 8 && i < 8 && s.mem[s.PCPlus(1)] == 0x87 + 8 * b
    ensures var (r, code) := Exec(s, 0xCB);
            code == 0 && Bit(r.A, i) == (if i == b then 0 else Bit(s.A, i))
            && ResBitValue(r.A, b) == r.A
            && r.F == s.F && r.PC == s.PCPlus(2) && r.cycles == 8
            && r == s.(A := r.A, PC := s.PCPlus(2), cycles := 8)
  {
    ExecPrefix(s);
    ExtendedReset(Advance(s, 1), b, i);
    AdvanceTwice(s.PC, 1, 1);
  }
}
