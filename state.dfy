// The emulator's global state (cpu.h, memory.h, lcd.h) as one value, for the
// specification functions. The class `Emulator.GameBoy` holds the same state in
// mutable fields and `GameBoy.Snap` reads it back into this value.

module State {
  import opened Bits

  /** The whole 64 KiB address space (`memory[0xFFFF+1]`). */
  type Memory = m: seq<Byte> | |m| == 0x1_0000 witness seq(0x1_0000, _ => 0)

  /**
   * The flag struct `fREG`: four flags Z, N, H, C kept as whole bytes (the code
   * stores 0x80 in C after a rotate), and F, the packed flag byte that PUSH AF
   * and POP AF exchange with the stack.
   */
  datatype Flags = Flags(Z: Byte, N: Byte, H: Byte, C: Byte, F: Byte)

  const NoFlags := Flags(0, 0, 0, 0, 0)

  /** The seven 8-bit registers a `byte *` of the CPU routines can point to. */
  datatype Reg = RA | RB | RC | RD | RE | RH | RL

  /** The register pairs BC, DE and HL. */
  datatype Pair = BC | DE | HL

  datatype Machine = Machine(
    A: Byte, B: Byte, C: Byte, D: Byte, E: Byte, H: Byte, L: Byte,
    F: Flags,
    SP: Word, PC: Word,
    cycles: int, maxCycles: int,
    ie: Byte, interruptStep: Byte, interruptDirection: Byte,
    scanlineCycles: int,
    mem: Memory)
  {
    function Get(r: Reg): (res: Byte)
    {
      match r
      case RA => A
      case RB => B
      case RC => C
      case RD => D
      case RE => E
      case RH => H
      case RL => L
    }

    function Set(r: Reg, v: Byte): (s: Machine)
      ensures s.Get(r) == v
      ensures forall q :: q != r ==> s.Get(q) == Get(q)
    {
      match r
      case RA => this.(A := v)
      case RB => this.(B := v)
      case RC => this.(C := v)
      case RD => this.(D := v)
      case RE => this.(E := v)
      case RH => this.(H := v)
      case RL => this.(L := v)
    }

    function High(p: Pair): (r: Reg)
    {
      match p
      case BC => RB
      case DE => RD
      case HL => RH
    }

    function Low(p: Pair): (r: Reg)
    {
      match p
      case BC => RC
      case DE => RE
      case HL => RL
    }

    /** `(high << 8) + low` of a register pair (convert_to_pair). */
    function GetPair(p: Pair): (r: Word)
    {
      ToPair(Get(High(p)), Get(Low(p)))
    }

    /** Splits a word into a register pair (convert_to_bytes). */
    function SetPair(p: Pair, w: Word): (s: Machine)
      ensures s.GetPair(p) == w
    {
      Set(High(p), HighByte(w)).Set(Low(p), LowByte(w))
    }

    /** The address `PC + k` as the `word` parameter of memory_readb receives it. */
    function PCPlus(k: nat): (r: Word)
    {
      (PC + k) % 0x1_0000
    }
  }

  /** Every global zero, as C leaves static storage before any initialisation. */
  const Zero := Machine(0, 0, 0, 0, 0, 0, 0, NoFlags, 0, 0, 0, 0, 0, 0, 0, 0,
                        seq(0x1_0000, _ => 0))
}
