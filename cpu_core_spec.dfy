// The opcode dispatchers of cpu_core.c (`CPU`) and cpu_core_extended.c
// (`CPU_EXTENDED`) as functions on the machine state. The roughly 240 cases of
// the base switch fall into the families of `Instr`; `Decode` maps an opcode to
// its family and `Execute` runs one family the way its cases do, helper call
// by helper call, including the PC and cycle updates the cases add.

module CpuCoreSpec {
  import opened Bits
  import opened State
  import opened MemorySpec
  import opened CpuSpec

  datatype Option<T> = None | Some(value: T)

  /** The operation of an 8-bit ALU opcode; ADC and SBC pass a literal carry of 1. */
  datatype AluOp = Add(carry: Byte) | Subtract(carry: Byte) | And | Xor | Or | Compare

  /** Where an ALU opcode takes its operand: a register, the byte at HL, or the byte after the opcode. */
  datatype Source = FromReg(r: Reg) | FromHL | FromImmediate

  /** The flag a conditional opcode tests. */
  datatype FlagSel = ZeroFlag | CarryFlag

  /** An opcode of the base switch, by the section of the switch it belongs to. */
  datatype Instr =
    | Prefix                                   // 0xCB
    | Load(load: LoadOp)
    | Stack(stack: StackOp)
    | Arith(arith: ArithOp)
    | Control(control: ControlOp)
    | Misc(misc: MiscOp)

  /** 8-bit and 16-bit loads. */
  datatype LoadOp =
    | LdImm(r: Reg)                            // LD r,n
    | LdReg(to: Reg, from: Reg)                // LD r,r'
    | LdFromPair(r: Reg, p: Pair)              // LD r,(BC/DE/HL)
    | LdToPair(r: Reg, p: Pair)                // LD (BC/DE/HL),r
    | LdHLImm                                  // 0x36 LD (HL),n
    | LdAFromAbs                               // 0xFA LD A,(nn)
    | LdAImm                                   // 0x3E LD A,#
    | LdAbsFromA                               // 0xEA LD (nn),A
    | LdAFromIoC | LdIoCFromA                  // 0xF2, 0xE2
    | LdAFromHLDec | LdHLDecFromA              // 0x3A, 0x32
    | LdAFromHLInc | LdHLIncFromA              // 0x2A, 0x22
    | LdIoFromA | LdAFromIo                    // 0xE0, 0xF0
    | LdImm16(p: Pair)                         // LD BC/DE/HL,nn
    | LdSpImm16                                // 0x31
    | LdSpHL                                   // 0xF9
    | LdHLSpN                                  // 0xF8
    | LdSpAbs                                  // 0x08

  /** PUSH and POP. */
  datatype StackOp =
    | PushAF | PushPair(p: Pair)               // 0xF5, 0xC5/0xD5/0xE5
    | PopAF | PopPair(p: Pair)                 // 0xF1, 0xC1/0xD1/0xE1

  /** The 8-bit ALU, INC/DEC and the 16-bit arithmetic. */
  datatype ArithOp =
    | Alu(op: AluOp, src: Source)              // 0x80-0xBF, 0xC6-0xFE
    | IncDecReg(r: Reg, direction: Byte)       // INC r / DEC r
    | IncDecHL(direction: Byte)                // 0x34, 0x35
    | AddHL(p: Pair)                           // 0x09, 0x19, 0x29
    | AddHLSP                                  // 0x39
    | AddSPImm                                 // 0xE8
    | IncDecPair(p: Pair, direction: Byte)     // INC/DEC BC, DE, HL
    | IncDecSP(direction: Byte)                // 0x33, 0x3B

  /** Calls, restarts, returns and jumps. */
  datatype ControlOp =
    | CallImm                                  // 0xCD
    | CallIf(flag: FlagSel, whenSet: bool)     // 0xC4, 0xCC, 0xD4, 0xDC
    | Rst(offset: Byte)                        // 0xC7 ... 0xFF
    | Ret                                      // 0xC9
    | RetIf(flag: FlagSel, whenSet: bool)      // 0xC0, 0xC8, 0xD0, 0xD8
    | Reti                                     // 0xD9
    | JpImm                                    // 0xC3
    | JpIf(flag: FlagSel, condition: Byte)     // 0xC2, 0xCA, 0xD2, 0xDA
    | JpHL                                     // 0xE9
    | Jr                                       // 0x18
    | JrIf(flag: FlagSel, condition: Byte)     // 0x20, 0x28, 0x30, 0x38

  /** The rest: NOP, the accumulator rotates, STOP, DI/EI, CPL and CCF. */
  datatype MiscOp =
    | Nop                                      // 0x00
    | RotateA(through: bool, direction: Byte)  // 0x07, 0x17, 0x0F, 0x1F
    | Stop                                     // 0x10
    | Di | Ei                                  // 0xF3, 0xFB
    | Cpl                                      // 0x2F
    | Ccf                                      // 0x3F

  /** The register a 3-bit field of an opcode names; code 6 is (HL) and has no register. */
  function RegOf(k: nat): (r: Reg)
    requires k < 8 && k != 6
  {
    match k
    case 0 => RB
    case 1 => RC
    case 2 => RD
    case 3 => RE
    case 4 => RH
    case 5 => RL
    case _ => RA
  }

  /** The operation of the ALU rows 0x80-0xBF and of the immediate forms, row by row. */
  function AluOpOf(k: nat): (r: AluOp)
    requires k < 8
  {
    match k
    case 0 => Add(0)
    case 1 => Add(1)
    case 2 => Subtract(0)
    case 3 => Subtract(1)
    case 4 => And
    case 5 => Xor
    case 6 => Or
    case _ => Compare
  }

  /** The family of the base opcode `op`, or None when the switch has no case for it. */
  function Decode(op: Word): (r: Option<Instr>)
  {
    if op >= 0x100 then None
    else if 0x40 <= op < 0x80 then
      var dst, src := (op - 0x40) / 8, op % 8;
      if dst == 6 && src == 6 then None
      else if dst == 6 then Some(Load(LdToPair(RegOf(src), HL)))
      else if src == 6 then Some(Load(LdFromPair(RegOf(dst), HL)))
      else Some(Load(LdReg(RegOf(dst), RegOf(src))))
    else if 0x80 <= op < 0xC0 then
      var k, src := (op - 0x80) / 8, op % 8;
      Some(Arith(Alu(AluOpOf(k), if src == 6 then FromHL else FromReg(RegOf(src)))))
    else if op < 0x40 && op % 8 == 4 then
      Some(if op / 8 == 6 then Arith(IncDecHL(0)) else Arith(IncDecReg(RegOf(op / 8), 0)))
    else if op < 0x40 && op % 8 == 5 then
      Some(if op / 8 == 6 then Arith(IncDecHL(1)) else Arith(IncDecReg(RegOf(op / 8), 1)))
    else if op < 0x40 && op % 8 == 6 then
      Some(if op == 0x36 then Load(LdHLImm) else if op == 0x3E then Load(LdAImm) else Load(LdImm(RegOf(op / 8))))
    else if op >= 0xC0 && op % 8 == 6 then
      Some(Arith(Alu(AluOpOf((op - 0xC6) / 8), FromImmediate)))
    else if op >= 0xC0 && op % 8 == 7 then
      Some(Control(Rst(op - 0xC7)))
    else
      match op
      case 0x00 => Some(Misc(Nop))
      case 0x01 => Some(Load(LdImm16(BC)))
      case 0x11 => Some(Load(LdImm16(DE)))
      case 0x21 => Some(Load(LdImm16(HL)))
      case 0x31 => Some(Load(LdSpImm16))
      case 0x02 => Some(Load(LdToPair(RA, BC)))
      case 0x12 => Some(Load(LdToPair(RA, DE)))
      case 0x22 => Some(Load(LdHLIncFromA))
      case 0x32 => Some(Load(LdHLDecFromA))
      case 0x03 => Some(Arith(IncDecPair(BC, 0)))
      case 0x13 => Some(Arith(IncDecPair(DE, 0)))
      case 0x23 => Some(Arith(IncDecPair(HL, 0)))
      case 0x33 => Some(Arith(IncDecSP(0)))
      case 0x07 => Some(Misc(RotateA(false, 0)))
      case 0x17 => Some(Misc(RotateA(true, 0)))
      case 0x0F => Some(Misc(RotateA(false, 1)))
      case 0x1F => Some(Misc(RotateA(true, 1)))
      case 0x08 => Some(Load(LdSpAbs))
      case 0x09 => Some(Arith(AddHL(BC)))
      case 0x19 => Some(Arith(AddHL(DE)))
      case 0x29 => Some(Arith(AddHL(HL)))
      case 0x39 => Some(Arith(AddHLSP))
      case 0x0A => Some(Load(LdFromPair(RA, BC)))
      case 0x1A => Some(Load(LdFromPair(RA, DE)))
      case 0x2A => Some(Load(LdAFromHLInc))
      case 0x3A => Some(Load(LdAFromHLDec))
      case 0x0B => Some(Arith(IncDecPair(BC, 1)))
      case 0x1B => Some(Arith(IncDecPair(DE, 1)))
      case 0x2B => Some(Arith(IncDecPair(HL, 1)))
      case 0x3B => Some(Arith(IncDecSP(1)))
      case 0x10 => Some(Misc(Stop))
      case 0x18 => Some(Control(Jr))
      case 0x20 => Some(Control(JrIf(ZeroFlag, 0)))
      case 0x28 => Some(Control(JrIf(ZeroFlag, 1)))
      case 0x30 => Some(Control(JrIf(CarryFlag, 0)))
      case 0x38 => Some(Control(JrIf(CarryFlag, 1)))
      case 0x2F => Some(Misc(Cpl))
      case 0x3F => Some(Misc(Ccf))
      case 0xC0 => Some(Control(RetIf(ZeroFlag, false)))
      case 0xC8 => Some(Control(RetIf(ZeroFlag, true)))
      case 0xD0 => Some(Control(RetIf(CarryFlag, false)))
      case 0xD8 => Some(Control(RetIf(CarryFlag, true)))
      case 0xC1 => Some(Stack(PopPair(BC)))
      case 0xD1 => Some(Stack(PopPair(DE)))
      case 0xE1 => Some(Stack(PopPair(HL)))
      case 0xF1 => Some(Stack(PopAF))
      case 0xC2 => Some(Control(JpIf(ZeroFlag, 0)))
      case 0xCA => Some(Control(JpIf(ZeroFlag, 1)))
      case 0xD2 => Some(Control(JpIf(CarryFlag, 0)))
      case 0xDA => Some(Control(JpIf(CarryFlag, 1)))
      case 0xC3 => Some(Control(JpImm))
      case 0xC4 => Some(Control(CallIf(ZeroFlag, false)))
      case 0xCC => Some(Control(CallIf(ZeroFlag, true)))
      case 0xD4 => Some(Control(CallIf(CarryFlag, false)))
      case 0xDC => Some(Control(CallIf(CarryFlag, true)))
      case 0xC5 => Some(Stack(PushPair(BC)))
      case 0xD5 => Some(Stack(PushPair(DE)))
      case 0xE5 => Some(Stack(PushPair(HL)))
      case 0xF5 => Some(Stack(PushAF))
      case 0xC9 => Some(Control(Ret))
      case 0xCB => Some(Prefix)
      case 0xCD => Some(Control(CallImm))
      case 0xD9 => Some(Control(Reti))
      case 0xE0 => Some(Load(LdIoFromA))
      case 0xE2 => Some(Load(LdIoCFromA))
      case 0xE8 => Some(Arith(AddSPImm))
      case 0xE9 => Some(Control(JpHL))
      case 0xEA => Some(Load(LdAbsFromA))
      case 0xF0 => Some(Load(LdAFromIo))
      case 0xF2 => Some(Load(LdAFromIoC))
      case 0xF3 => Some(Misc(Di))
      case 0xF8 => Some(Load(LdHLSpN))
      case 0xF9 => Some(Load(LdSpHL))
      case 0xFA => Some(Load(LdAFromAbs))
      case 0xFB => Some(Misc(Ei))
      case _ => None
  }

  /** The value a conditional opcode tests: the whole flag byte. */
  function FlagValue(s: Machine, f: FlagSel): (r: Byte)
  {
    match f
    case ZeroFlag => s.F.Z
    case CarryFlag => s.F.C
  }

  /** `if(F.x)` / `if(!F.x)` of CALL cc and RET cc: any nonzero flag byte counts as set. */
  function Holds(s: Machine, f: FlagSel, whenSet: bool): (r: bool)
  {
    if whenSet then FlagValue(s, f) != 0 else FlagValue(s, f) == 0
  }

  /** memory_readw indexes `address + 1`, so the two opcodes that call it at PC+1 need PC != 0xFFFE. */
  predicate Defined(s: Machine, i: Instr)
  {
    (i == Load(LdAFromAbs) || i == Load(LdSpAbs)) ==> s.PC != 0xFFFE
  }

  /** The high-page address `0xFF00 + offset` of LDH and LD (C). */
  function IoAddress(offset: Byte): (r: Word)
  {
    0xFF00 + offset
  }

  /** PC += k on the 16-bit PC. */
  function Advance(s: Machine, k: nat): (r: Machine)
  {
    s.(PC := s.PCPlus(k))
  }

  /** The operand of an ALU opcode: a register, or a local copy of a memory byte. */
  function OperandOf(s: Machine, src: Source): (r: Operand)
  {
    match src
    case FromReg(r) => OpReg(r)
    case FromHL => OpValue(s.mem[s.GetPair(HL)])
    case FromImmediate => OpValue(s.mem[s.PCPlus(1)])
  }

  /** The ALU helper an opcode calls. */
  function RunAlu(s: Machine, op: AluOp, o: Operand): (r: Machine)
  {
    match op
    case Add(carry) => AluAdd(s, o, carry)
    case Subtract(carry) => AluSubtract(s, o, carry)
    case And => AluAnd(s, Deref(s, o))
    case Xor => AluXor(s, Deref(s, o))
    case Or => AluOr(s, Deref(s, o))
    case Compare => AluCompare(s, o)
  }

  /** CPU_load_16_sp: pop into the first destination, then into the second. */
  function PopTwo(s: Machine): (r: (Machine, Byte, Byte))
  {
    var first := Top(s);
    var s1 := Pop(s);
    (Pop(s1), first, Top(s1))
  }

  /** One case of the base switch (other than 0xCB), as the case's statements do it. */
  function Execute(s: Machine, i: Instr): (r: Machine)
    requires !i.Prefix? && Defined(s, i)
  {
    match i
    case Load(l) => ExecuteLoad(s, l)
    case Stack(k) => ExecuteStack(s, k)
    case Arith(a) => ExecuteArithmetic(s, a)
    case Control(c) => ExecuteControl(s, c)
    case Misc(m) => ExecuteMisc(s, m)
  }

  /** memory_readw indexes `address + 1`, so LD A,(nn) and LD (nn),SP need PC != 0xFFFE. */
  predicate LoadDefined(s: Machine, l: LoadOp)
  {
    (l.LdAFromAbs? || l.LdSpAbs?) ==> s.PC != 0xFFFE
  }

  function ExecuteLoad(s: Machine, i: LoadOp): (r: Machine)
    requires LoadDefined(s, i)
  {
    match i
    case LdImm(r) => LoadImmediate(s, r).(cycles := 8)
    case LdReg(to, from) => LoadRegister(s, to, s.Get(from)).(cycles := 4)
    case LdFromPair(r, p) => LoadAddress(s, r, s.GetPair(p), 0).(cycles := 8)
    case LdToPair(r, p) => LoadAddress(s, r, s.GetPair(p), 1).(cycles := 8)
    case LdHLImm =>
      // the immediate is read but B is what gets stored
      Advance(LoadAddress(s, RB, s.GetPair(HL), 1).(cycles := 12), 1)
    case LdAFromAbs =>
      var address := SwapByteOrder(ReadWord(s.mem, s.PCPlus(1)));
      Advance(LoadAddress(s, RA, address, 0), 2).(cycles := 16)
    case LdAImm =>
      Advance(LoadRegister(s, RA, s.mem[s.PCPlus(1)]), 1).(cycles := 8)
    case LdAbsFromA =>
      var address := Convert16m(s.mem, s.PCPlus(1), s.PCPlus(2));
      Advance(LoadAddress(s, RA, address, 1), 2).(cycles := 16)
    case LdAFromIoC => LoadAddress(s, RA, IoAddress(s.C), 0).(cycles := 8)
    case LdIoCFromA => LoadAddress(s, RA, IoAddress(s.C), 1).(cycles := 8)
    case LdAFromHLDec =>
      var address := s.GetPair(HL);
      LoadAddress(s, RA, address, 0).SetPair(HL, (address - 1) % 0x1_0000).(cycles := 8)
    case LdHLDecFromA =>
      var address := s.GetPair(HL);
      LoadAddress(s, RA, address, 1).SetPair(HL, (address - 1) % 0x1_0000).(cycles := 8)
    case LdAFromHLInc =>
      var address := s.GetPair(HL);
      LoadAddress(s, RA, address, 0).SetPair(HL, (address + 1) % 0x1_0000).(cycles := 8)
    case LdHLIncFromA =>
      // the store goes to the byte-swapped HL; swapping back restores HL before the increment
      var swapped := SwapByteOrder(s.GetPair(HL));
      var address := SwapByteOrder(swapped);
      LoadAddress(s, RA, swapped, 1).SetPair(HL, (address + 1) % 0x1_0000).(cycles := 8)
    case LdIoFromA =>
      Advance(LoadAddress(s, RA, IoAddress(s.mem[s.PCPlus(1)]), 1), 1).(cycles := 12)
    case LdAFromIo =>
      Advance(LoadAddress(s, RA, IoAddress(s.mem[s.PCPlus(1)]), 0), 1).(cycles := 12)
    case LdImm16(p) => LoadImmediate16(s, s.High(p), s.Low(p)).(cycles := 12)
    case LdSpImm16 =>
      Advance(s.(SP := ToPair(s.mem[s.PCPlus(2)], s.mem[s.PCPlus(1)])), 3).(cycles := 12)
    case LdSpHL =>
      // pushes H and L rather than loading SP
      Advance(LoadSp16(s, s.H, s.L), 1).(cycles := 8)
    case LdHLSpN =>
      var s1 := AddSpN(s, s.mem[s.PCPlus(1)]);
      Advance(s1.SetPair(HL, s1.SP).(SP := s.SP), 2).(cycles := 12)
    case LdSpAbs =>
      Advance(s.(SP := ReadWord(s.mem, s.PCPlus(1))), 3).(cycles := 20)
  }

  function ExecuteStack(s: Machine, i: StackOp): (r: Machine)
  {
    match i
    case PushAF =>
      var s1 := CompileF(s, 0);
      Advance(LoadSp16(s1, s1.A, s1.F.F).(cycles := 16), 1)
    case PushPair(p) =>
      Advance(LoadSp16(s, s.Get(s.High(p)), s.Get(s.Low(p))).(cycles := 16), 1)
    case PopAF =>
      var (s1, f, a) := PopTwo(s);
      Advance(CompileF(s1.(F := s1.F.(F := f), A := a), 1), 1).(cycles := 12)
    case PopPair(p) =>
      var (s1, low, high) := PopTwo(s);
      Advance(s1.Set(s.Low(p), low).Set(s.High(p), high), 1).(cycles := 12)
  }

  function ExecuteArithmetic(s: Machine, i: ArithOp): (r: Machine)
  {
    match i
    case Alu(op, src) =>
      var length, time := if src.FromImmediate? then 2 else 1, if src.FromReg? then 4 else 8;
      Advance(RunAlu(s, op, OperandOf(s, src)), length).(cycles := time)
    case IncDecReg(r, direction) =>
      var (s1, v) := IncDec8(s, s.Get(r), direction);
      Advance(s1.Set(r, v), 1).(cycles := 4)
    case IncDecHL(direction) =>
      var address := s.GetPair(HL);
      var (s1, v) := IncDec8(s, s.mem[address], direction);
      Advance(s1.(mem := WriteByte(s1.mem, address, v)), 1).(cycles := 12)
    case AddHL(p) => Advance(Add16(s, HL, s.GetPair(p)).(cycles := 8), 1)
    case AddHLSP => Advance(Add16(s, HL, s.SP).(cycles := 8), 1)
    case AddSPImm => Advance(AddSpN(s, s.mem[s.PCPlus(1)]), 2).(cycles := 16)
    case IncDecPair(p, direction) =>
      Advance(s.SetPair(p, IncDec16(s.GetPair(p), direction)), 1).(cycles := 8)
    case IncDecSP(direction) =>
      Advance(s.(SP := IncDec16(s.SP, direction)), 1).(cycles := 8)
  }

  function ExecuteControl(s: Machine, i: ControlOp): (r: Machine)
  {
    match i
    case CallImm => Call(s).(cycles := 12)
    case CallIf(f, whenSet) =>
      (if Holds(s, f, whenSet) then Call(s) else Advance(s, 3)).(cycles := 12)
    case Rst(offset) => Restart(s, offset).(cycles := 32)
    case Ret => Return(s).(cycles := 8)
    case RetIf(f, whenSet) =>
      (if Holds(s, f, whenSet) then Return(s) else Advance(s, 1)).(cycles := 8)
    case Reti => Return(s).(interruptDirection := 1, interruptStep := 2, cycles := 8)
    case JpImm =>
      Jump(s, 0, Convert16m(s.mem, s.PCPlus(1), s.PCPlus(2)), 0).(cycles := 12)
    case JpIf(f, condition) =>
      var address := Convert16m(s.mem, s.PCPlus(1), s.PCPlus(2));
      (if FlagValue(s, f) == condition then Jump(s, FlagValue(s, f), address, condition)
       else Advance(s, 3)).(cycles := 12)
    case JpHL => Jump(s, 0, s.GetPair(HL), 0).(cycles := 4)
    case Jr =>
      // PC + n with no allowance for the instruction's own two bytes
      Jump(s, 0, (s.PC + Signed(s.mem[s.PCPlus(1)])) % 0x1_0000, 0).(cycles := 8)
    case JrIf(f, condition) =>
      var target := (s.PC + Signed(s.mem[s.PCPlus(1)])) % 0x1_0000;
      Advance(Jump(s, FlagValue(s, f), target, condition), 2).(cycles := 8)
  }

  function ExecuteMisc(s: Machine, i: MiscOp): (r: Machine)
  {
    match i
    case Nop => Advance(s, 1).(cycles := 4)
    case RotateA(through, direction) =>
      var (s1, v) := if through then RotateThrough(s, s.A, direction) else Rotate(s, s.A, direction);
      Advance(s1.(A := v), 1).(cycles := 4)
    case Stop => Advance(s, 2).(cycles := 4)
    case Di => InterruptSwitch(s).(interruptDirection := 0)
    case Ei => InterruptSwitch(s).(interruptDirection := 1)
    case Cpl => Advance(s.(A := Not8(s.A), F := s.F.(N := 1, H := 1)), 1).(cycles := 4)
    case Ccf =>
      Advance(s.(F := s.F.(N := 0, H := 0, C := if s.F.C != 0 then 0 else 1)), 1).(cycles := 4)
  }

  /** CPU_EXTENDED: the 0xCB-prefixed opcode at the already incremented PC; 0 if handled, -1 if not. */
  function Extended(s: Machine, op: Word): (r: (Machine, int))
  {
    if 0x30 <= op <= 0x37 then
      if op == 0x36 then
        var address := s.GetPair(HL);
        var (s1, v) := Swap(s, s.mem[address]);
        (Advance(s1.(mem := WriteByte(s1.mem, address, v)), 2).(cycles := 8), 0)
      else
        var r := RegOf(op - 0x30);
        var (s1, v) := Swap(s, s.Get(r));
        (Advance(s1.Set(r, v), 2).(cycles := 8), 0)
    else if 0x87 <= op <= 0xBF && op % 8 == 7 then
      (Advance(s.(A := ResBitValue(s.A, (op - 0x87) / 8)), 1).(cycles := 8), 0)
    else (s, -1)
  }

  /** CPU_EXTENDED and `CPU` need PC != 0xFFFE for the two memory_readw opcodes. */
  predicate ExecDefined(s: Machine, op: Word)
  {
    (op == 0xFA || op == 0x08) ==> s.PC != 0xFFFE
  }

  /** CPU(op): the new state and the result code, 0 for a handled opcode and -1 otherwise. */
  function Exec(s: Machine, op: Word): (r: (Machine, int))
    requires ExecDefined(s, op)
  {
    match Decode(op)
    case None => (s, -1)
    case Some(i) =>
      if i.Prefix? then
        var s1 := Advance(s, 1);
        Extended(s1, s1.mem[s1.PC])
      else
        assert Defined(s, i) by { DecodeReadWord(op); }
        (Execute(s, i), 0)
  }

  /** Only 0xFA and 0x08 decode to the two families that read a word at PC+1. */
  lemma DecodeReadWord(op: Word)
    ensures Decode(op) == Some(Load(LdAFromAbs)) ==> op == 0xFA
    ensures Decode(op) == Some(Load(LdSpAbs)) ==> op == 0x08
  {
  }
}
