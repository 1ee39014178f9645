// The emulator's globals as one object: the registers and counters of cpu.h,
// the 64 KiB `memory` array of memory.h, the `scanline_cycles` budget of
// lcd.h and the `video_buffer[144][160]` of gl.h. Each routine of memory.c,
// cpu.c, lcd.c and gl.c that changes them is a method that changes the fields
// in place, statement by statement as the C does, and is proved to leave the
// object in the state the matching specification function computes from the
// state before the call.

module Emulator {
  import opened Bits
  import opened State
  import opened MemorySpec
  import opened CpuSpec
  import opened GlSpec
  import opened CpuCoreSpec
  import LcdSpec
  import CpuProperties
  import MainLoop

  class GameBoy {
    var A: Byte
    var B: Byte
    var C: Byte
    var D: Byte
    var E: Byte
    var H: Byte
    var L: Byte
    var F: Flags
    var SP: Word
    var PC: Word
    var cycles: int
    var maxCycles: int
    var ie: Byte
    var interruptStep: Byte
    var interruptDirection: Byte
    var scanlineCycles: int
    const memory: array<Byte>
    const video: array2<Byte>

    ghost predicate Valid()
    {
      memory.Length == 0x1_0000 && video.Length0 == Height && video.Length1 == Width
    }

    /** The machine state the specification functions work on. */
    ghost function Snap(): (r: Machine)
      reads this, memory
      requires Valid()
    {
      Machine(A, B, C, D, E, H, L, F, SP, PC, cycles, maxCycles, ie, interruptStep,
              interruptDirection, scanlineCycles, memory[..])
    }

    /** The video buffer, line by line. */
    ghost function Screen(): (r: Video)
      reads video
      requires Valid()
    {
      seq(Height, y requires 0 <= y < Height reads video =>
        seq(Width, x requires 0 <= x < Width reads video => video[y, x]))
    }

    /** The globals as static storage leaves them: every byte zero. */
    constructor ()
      ensures Valid() && fresh(memory) && fresh(video)
      ensures Snap() == Zero && Screen() == BlankScreen
    {
      A, B, C, D, E, H, L := 0, 0, 0, 0, 0, 0, 0;
      F := NoFlags;
      SP, PC := 0, 0;
      cycles, maxCycles := 0, 0;
      ie, interruptStep, interruptDirection := 0, 0, 0;
      scanlineCycles := 0;
      memory := new Byte[0x1_0000](_ => 0);
      video := new Byte[Height, Width]((_, _) => 0);
      new;
      assert memory[..] == Zero.mem;
      forall y | 0 <= y < Height
        ensures Screen()[y] == BlankRow
      {
        assert forall x | 0 <= x < Width :: Screen()[y][x] == video[y, x] == 0;
      }
    }

    // ---- memory.c

    /** memory_readb. */
    function ReadB(address: Word): (b: Byte)
      reads memory
      requires Valid()
      ensures b == ReadByte(memory[..], address)
    {
      memory[address]
    }

    /** memory_readw: the byte at `address` is the high byte; `address + 1` must be inside the array. */
    function ReadW(address: Word): (w: Word)
      reads memory
      requires Valid() && address < 0xFFFF
      ensures w == ReadWord(memory[..], address)
    {
      ToPair(memory[address], memory[address + 1])
    }

    /** memory_writeb: store, and start the OAM DMA on a store to 0xFF46. */
    method WriteB(address: Word, data: Byte)
      requires Valid()
      modifies memory
      ensures memory[..] == WriteByte(old(memory[..]), address, data)
      decreases if address == DmaRegister then 2 else 0
    {
      memory[address] := data;
      if address == DmaRegister {
        Dma(data);
      }
    }

    /**
     * GL_dma: 0xA0 bytes from `source * 100` are copied to OAM, each read with
     * memory_readb and stored with memory_writeb (a store to OAM starts no
     * further transfer).
     */
    method Dma(source: Byte)
      requires Valid()
      modifies memory
      ensures memory[..] == DmaTransfer(old(memory[..]), source)
      decreases 1
    {
      var address: Word := source * 100;
      for x := 0 to OamLength
        invariant forall i :: 0 <= i < 0x1_0000 ==>
          memory[i] == if OamStart <= i < OamStart + x then old(memory[address + (i - OamStart)]) else old(memory[i])
      {
        var b := ReadB(address + x);
        WriteB(OamStart + x, b);
      }
    }

    /**
     * memory_init: memset clears the first 0xFFFF bytes, then two memmoves of
     * 0x3FFF bytes copy the first two ROM banks. The ROM is a separate buffer
     * that must hold both banks.
     */
    method MemoryInit(rom: array<Byte>)
      requires Valid() && rom != memory && rom.Length >= 0x7FFE
      modifies memory
      ensures memory[..] == InitMemory(old(memory[..]), rom[..])
    {
      for i := 0 to 0xFFFF
        invariant forall j :: 0 <= j < 0x1_0000 ==> memory[j] == if j < i then 0 else old(memory[j])
      {
        memory[i] := 0;
      }
      for i := 0 to 0x3FFF
        invariant forall j :: 0 <= j < 0x1_0000 ==>
          memory[j] == if j < i then rom[j] else if j < 0xFFFF then 0 else old(memory[j])
      {
        memory[i] := rom[i];
      }
      for i := 0x3FFF to 0x7FFE
        invariant forall j :: 0 <= j < 0x1_0000 ==>
          memory[j] == if j < i then rom[j] else if j < 0xFFFF then 0 else old(memory[j])
      {
        memory[i] := rom[i];
      }
      assert memory[..] == InitMemory(old(memory[..]), rom[..]);
    }

    // ---- cpu.c: reset

    /** CPU_reset: the registers the boot ROM leaves and some I/O registers, stored directly. */
    method Reset()
      requires Valid()
      modifies this, memory
      ensures Snap() == CpuSpec.Reset(old(Snap()))
    {
      LoadBootRegisters();
      PC := 0x0100;
      SP := 0xFFFE;
      ResetIoRegisters();
      cycles := 0;
      maxCycles := 69905;
      ie := 0;
      interruptStep := 0;
    }

    /** The first statements of CPU_reset: A to L and the flags. */
    method LoadBootRegisters()
      requires Valid()
      modifies this
      ensures Snap() == old(Snap()).(A := 0x01, B := 0, C := 0x13, D := 0, E := 0xD8, H := 0x01, L := 0x4D,
                                     F := Flags(1, 0, 1, 1, 0xB0))
    {
      ghost var s := Snap();
      A, B, C, D := 0x01, 0, 0x13, 0;
      assert Snap() == s.(A := 0x01, B := 0, C := 0x13, D := 0);
      E, H, L := 0xD8, 0x01, 0x4D;
      F := Flags(1, 0, 1, 1, 0xB0);
    }

    /** The stores of CPU_reset into the timer, LCD and interrupt-enable registers. */
    method ResetIoRegisters()
      requires Valid()
      modifies memory
      ensures memory[..] == ResetRegisters(old(memory[..]))
    {
      ghost var m := memory[..];
      memory[0xFF05] := 0x00;
      m := m[0xFF05 := 0x00];
      assert memory[..] == m;
      memory[0xFF06] := 0x00;
      m := m[0xFF06 := 0x00];
      assert memory[..] == m;
      memory[0xFF07] := 0x00;
      m := m[0xFF07 := 0x00];
      assert memory[..] == m;
      memory[0xFF40] := 0x91;
      m := m[0xFF40 := 0x91];
      assert memory[..] == m;
      memory[0xFF42] := 0x00;
      m := m[0xFF42 := 0x00];
      assert memory[..] == m;
      memory[0xFF43] := 0x00;
      m := m[0xFF43 := 0x00];
      assert memory[..] == m;
      memory[0xFF45] := 0x00;
      m := m[0xFF45 := 0x00];
      assert memory[..] == m;
      memory[0xFF47] := 0xFC;
      m := m[0xFF47 := 0xFC];
      assert memory[..] == m;
      memory[0xFF48] := 0xFF;
      m := m[0xFF48 := 0xFF];
      assert memory[..] == m;
      memory[0xFF49] := 0xFF;
      m := m[0xFF49 := 0xFF];
      assert memory[..] == m;
      memory[0xFF4A] := 0x00;
      m := m[0xFF4A := 0x00];
      assert memory[..] == m;
      memory[0xFF4B] := 0x00;
      m := m[0xFF4B := 0x00];
      assert memory[..] == m;
      memory[0xFFFF] := 0x00;
      m := m[0xFFFF := 0x00];
      assert memory[..] == m;
    }

    // ---- cpu.c: the registers behind a `byte *`

    /** The register a `byte *` into the register file points to. */
    function Get(r: Reg): (v: Byte)
      reads this, memory
      requires Valid()
      ensures v == Snap().Get(r)
    {
      match r
      case RA => A
      case RB => B
      case RC => C
      case RD => D
      case RE => E
      case RH => H
      case RL => L
    }

    /** `*reg = v` through a pointer to a register. */
    method Set(r: Reg, v: Byte)
      requires Valid()
      modifies this
      ensures Snap() == old(Snap()).Set(r, v)
    {
      match r
      case RA => A := v;
      case RB => B := v;
      case RC => C := v;
      case RD => D := v;
      case RE => E := v;
      case RH => H := v;
      case RL => L := v;
    }

    /** convert_to_pair on a register pair. */
    function GetPair(p: Pair): (w: Word)
      reads this, memory
      requires Valid()
      ensures w == Snap().GetPair(p)
    {
      match p
      case BC => ToPair(B, C)
      case DE => ToPair(D, E)
      case HL => ToPair(H, L)
    }

    /** convert_to_bytes into a register pair: the high byte to the first register. */
    method SetPair(p: Pair, w: Word)
      requires Valid()
      modifies this
      ensures Snap() == old(Snap()).SetPair(p, w)
    {
      match p
      case BC => B := HighByte(w); C := LowByte(w);
      case DE => D := HighByte(w); E := LowByte(w);
      case HL => H := HighByte(w); L := LowByte(w);
    }

    /** `*o` for an operand: a register, or the caller's local copy. */
    function Deref(o: Operand): (v: Byte)
      reads this, memory
      requires Valid()
      ensures v == CpuSpec.Deref(Snap(), o)
    {
      match o
      case OpReg(r) => Get(r)
      case OpValue(v) => v
    }

    /** `*o = v`: a register operand is written; a local copy is returned updated. */
    method Store(o: Operand, v: Byte) returns (o': Operand)
      requires Valid()
      modifies this
      ensures Snap() == Assign(old(Snap()), o, v) && o' == Assigned(o, v)
    {
      match o
      case OpReg(r) =>
        Set(r, v);
        o' := o;
      case OpValue(_) =>
        o' := OpValue(v);
    }

    // ---- cpu.c: flags, jumps and loads

    /** CPU_clear_flags. */
    method ClearFlags()
      requires Valid()
      modifies this
      ensures Snap() == CpuSpec.ClearFlags(old(Snap()))
    {
      F := F.(Z := 0, N := 0, C := 0, H := 0);
      F := F.(F := 0);
    }

    /** CPU_jump: returns 1 when it jumped and 0 when it did not. */
    method Jump(flag: Byte, address: Word, condition: Byte) returns (ret: Byte)
      requires Valid()
      modifies this
      ensures Snap() == CpuSpec.Jump(old(Snap()), flag, address, condition)
      ensures ret == Flag(flag == condition)
    {
      ret := 1;
      if flag == condition {
        PC := address;
      } else {
        ret := 0;
      }
    }

    /** CPU_load_immediate. */
    method LoadImmediate(r: Reg)
      requires Valid()
      modifies this
      ensures Snap() == CpuSpec.LoadImmediate(old(Snap()), r)
    {
      var b := ReadB((PC + 1) % 0x1_0000);
      Set(r, b);
      PC := (PC + 2) % 0x1_0000;
    }

    /** CPU_load_register: the source is passed by value. */
    method LoadRegister(to: Reg, from: Byte)
      requires Valid()
      modifies this
      ensures Snap() == CpuSpec.LoadRegister(old(Snap()), to, from)
    {
      Set(to, from);
      PC := (PC + 1) % 0x1_0000;
    }

    /** CPU_load_address: direction 0 loads the register, any other stores it. */
    method LoadAddress(r: Reg, address: Word, direction: Byte)
      requires Valid()
      modifies this, memory
      ensures Snap() == CpuSpec.LoadAddress(old(Snap()), r, address, direction)
    {
      if direction == 0 {
        var b := ReadB(address);
        Set(r, b);
      } else {
        WriteB(address, Get(r));
      }
      PC := (PC + 1) % 0x1_0000;
    }

    /** CPU_load_immediate16: the first register takes the byte at PC+2. */
    method LoadImmediate16(a: Reg, b: Reg)
      requires Valid()
      modifies this
      ensures Snap() == CpuSpec.LoadImmediate16(old(Snap()), a, b)
    {
      ghost var s := Snap();
      var x := ReadB((PC + 2) % 0x1_0000);
      assert x == s.mem[s.PCPlus(2)];
      Set(a, x);
      var y := ReadB((PC + 1) % 0x1_0000);
      assert y == s.mem[s.PCPlus(1)];
      Set(b, y);
      PC := (PC + 3) % 0x1_0000;
    }

    // ---- cpu.c: the stack

    /** SP_push. */
    method PushByte(b: Byte)
      requires Valid()
      modifies this, memory
      ensures Snap() == Push(old(Snap()), b)
    {
      SP := (SP - 1) % 0x1_0000;
      WriteB(SP, b);
    }

    /** SP_pop: returns the byte the C stores through its pointer. */
    method PopByte() returns (b: Byte)
      requires Valid()
      modifies this
      ensures b == Top(old(Snap())) && Snap() == Pop(old(Snap()))
    {
      b := ReadB(SP);
      SP := (SP + 1) % 0x1_0000;
    }

    /** CPU_load_sp_16. */
    method LoadSp16(a: Byte, b: Byte)
      requires Valid()
      modifies this, memory
      ensures Snap() == CpuSpec.LoadSp16(old(Snap()), a, b)
    {
      PushByte(a);
      PushByte(b);
    }

    /** CPU_load_16_sp: the two popped bytes, in the order popped. */
    method Load16Sp() returns (first: Byte, second: Byte)
      requires Valid()
      modifies this
      ensures (Snap(), first, second) == PopTwo(old(Snap()))
    {
      first := PopByte();
      second := PopByte();
    }

    // ---- cpu.c: the 8-bit ALU (`x & 0xF` is written `x % 0x10`)

    /** CPU_add_8: the operand is incremented by the carry first, in place. */
    method Add8(toAdd: Operand, carry: Byte)
      requires Valid()
      modifies this
      ensures Snap() == AluAdd(old(Snap()), toAdd, carry)
    {
      var half := A;
      ClearFlags();
      var o := Store(toAdd, (Deref(toAdd) + carry) % 0x100);
      AddStored(o, half);
    }

    /** The statements of CPU_add_8 after `*toAdd += Carry`. */
    method AddStored(o: Operand, half: Byte)
      requires Valid() && F == NoFlags
      modifies this
      ensures Snap() == CpuSpec.AddStored(old(Snap()), o, half)
    {
      var h := half;
      var v := Deref(o);
      if A + v > 0xFF {
        F := F.(C := 1);
      }
      A := (A + v) % 0x100;
      if A == 0 {
        F := F.(Z := 1);
      }
      h := h % 0x10;
      // *toAdd is read again here: when it points to A it sees the sum
      h := h + Deref(o) % 0x10;
      if h > 0xF {
        F := F.(H := 1);
      }
    }

    /** CPU_subtract_8. */
    method Subtract8(toSub: Operand, carry: Byte)
      requires Valid()
      modifies this
      ensures Snap() == AluSubtract(old(Snap()), toSub, carry)
    {
      var half := A;
      ClearFlags();
      var o := Store(toSub, (Deref(toSub) + carry) % 0x100);
      SubtractStored(o, half);
    }

    /**
     * The statements of CPU_subtract_8 after `*toSub += Carry`. `half` is a
     * byte, so the borrow test `half < 0` never holds.
     */
    method SubtractStored(o: Operand, half: Byte)
      requires Valid() && F == NoFlags
      modifies this
      ensures Snap() == CpuSpec.SubtractStored(old(Snap()), o, half)
    {
      var h := half;
      var v := Deref(o);
      F := F.(N := 1);
      if A - v < 0 {
        F := F.(C := 1);
      }
      A := (A - v) % 0x100;
      if A == 0 {
        F := F.(Z := 1);
      }
      h := h % 0x10;
      h := (h - Deref(o) % 0x10) % 0x100;
      F := F.(H := Flag(h < 0));
    }

    /** CPU_and_8. */
    method And8Op(value: Byte)
      requires Valid()
      modifies this
      ensures Snap() == AluAnd(old(Snap()), value)
    {
      ClearFlags();
      A := And8(A, value);
      if A == 0 {
        F := F.(Z := 1);
      }
      F := F.(H := 1);
    }

    /** CPU_or_8. */
    method Or8Op(value: Byte)
      requires Valid()
      modifies this
      ensures Snap() == AluOr(old(Snap()), value)
    {
      ClearFlags();
      A := Or8(A, value);
      if A == 0 {
        F := F.(Z := 1);
      }
    }

    /** CPU_xor_8. */
    method Xor8Op(value: Byte)
      requires Valid()
      modifies this
      ensures Snap() == AluXor(old(Snap()), value)
    {
      ClearFlags();
      A := Xor8(A, value);
      if A == 0 {
        F := F.(Z := 1);
      }
    }

    /** CPU_compare_8: subtract, fix Z and C against the saved A, then restore A. */
    method Compare8(toCompare: Operand)
      requires Valid()
      modifies this
      ensures Snap() == AluCompare(old(Snap()), toCompare)
    {
      var before := A;
      Subtract8(toCompare, 0);
      if before == Deref(toCompare) {
        F := F.(Z := 1);
      }
      if before < Deref(toCompare) {
        F := F.(C := 1);
      }
      A := before;
    }

    /** CPU_incdec_8 on a byte passed by value: returns the new byte. */
    method IncDec8(x: Byte, direction: Byte) returns (r: Byte)
      requires Valid()
      modifies this
      ensures (Snap(), r) == CpuSpec.IncDec8(old(Snap()), x, direction)
    {
      ClearFlags();
      r := x;
      if direction == 0 {
        if r % 0x10 == 0xF {
          F := F.(H := 1);
        }
        r := (r + 1) % 0x100;
      } else {
        F := F.(N := 1);
        if r % 0x10 == 0 {
          F := F.(H := 1);
        }
        r := (r - 1) % 0x100;
      }
      if r == 0 {
        F := F.(Z := 1);
      }
    }

    // ---- cpu.c: the 16-bit ALU

    /** CPU_add_16: the second pair is passed as its value. */
    method Add16(p: Pair, value: Word)
      requires Valid()
      modifies this
      ensures Snap() == CpuSpec.Add16(old(Snap()), p, value)
    {
      ClearFlags();
      var pair1: int := GetPair(p);
      var pair2: int := value;
      if pair1 + pair2 > 0xFFFF {
        F := F.(C := 1);
      }
      if pair1 % 0x1000 + pair2 > 0xFFF {
        F := F.(H := 1);
      }
      pair1 := (pair1 + pair2) % 0x1_0000;
      SetPair(p, pair1);
    }

    /** CPU_add_sp_n. */
    method AddSpN(immediate: Byte)
      requires Valid()
      modifies this
      ensures Snap() == CpuSpec.AddSpN(old(Snap()), immediate)
    {
      ClearFlags();
      SP := (SP + immediate) % 0x1_0000;
      if SP % 0x100 + immediate > 0xFF {
        F := F.(C := 1);
      }
      if SP % 0x10 + immediate % 0x10 > 0xF {
        F := F.(H := 1);
      }
    }

    /** CPU_incdec_16 on a register pair. */
    method IncDec16(p: Pair, direction: Byte)
      requires Valid()
      modifies this
      ensures Snap() == old(Snap()).SetPair(p, CpuSpec.IncDec16(old(Snap()).GetPair(p), direction))
    {
      var pair: int := GetPair(p);
      assert pair == old(Snap()).GetPair(p);
      if direction == 0 {
        pair := (pair + 1) % 0x1_0000;
      } else {
        pair := (pair - 1) % 0x1_0000;
      }
      assert pair == CpuSpec.IncDec16(old(Snap()).GetPair(p), direction);
      SetPair(p, pair);
    }

    // ---- cpu.c: calls

    /** CPU_call. */
    method Call()
      requires Valid()
      modifies this, memory
      ensures Snap() == CpuSpec.Call(old(Snap()))
    {
      var address := (PC + 3) % 0x1_0000;
      PushWord(address);
      ghost var s1 := Snap();
      var high := ReadB((PC + 1) % 0x1_0000);
      var low := ReadB((PC + 2) % 0x1_0000);
      PC := ToPair(low, high);
      assert Snap() == s1.(PC := PC);
    }

    /** CPU_restart. */
    method Restart(offset: Byte)
      requires Valid()
      modifies this, memory
      ensures Snap() == CpuSpec.Restart(old(Snap()), offset)
    {
      var address := (PC + 1) % 0x1_0000;
      PushWord(address);
      PC := offset;
    }

    /** The two SP_push calls of CPU_call and CPU_restart: the high byte goes first. */
    method PushWord(address: Word)
      requires Valid()
      modifies this, memory
      ensures Snap() == CpuSpec.Push(CpuSpec.Push(old(Snap()), HighByte(address)), LowByte(address))
    {
      PushByte(HighByte(address));
      PushByte(LowByte(address));
    }

    /** CPU_return: the first byte popped is shifted into the high byte. */
    method Return()
      requires Valid()
      modifies this
      ensures Snap() == CpuSpec.Return(old(Snap()))
    {
      var temp := PopByte();
      var address: Word := temp;
      address := (address * 0x100) % 0x1_0000;
      assert address == (temp as int) * 0x100;
      ghost var first := temp;
      temp := PopByte();
      address := (address + temp) % 0x1_0000;
      assert address == ToPair(first, temp);
      PC := address;
    }

    // ---- cpu.c: rotates, bits, swap, complement

    /** CPU_rotate on a byte passed by value: returns the rotated byte. */
    method Rotate(x: Byte, direction: Byte) returns (r: Byte)
      requires Valid()
      modifies this
      ensures (Snap(), r) == CpuSpec.Rotate(old(Snap()), x, direction)
    {
      r := x;
      if direction == 0 {
        F := F.(C := And8(r, 0x80));
        r := (r * 2) % 0x100;
        r := (r + F.C) % 0x100;
      } else {
        F := F.(C := And8(r, 0x01));
        r := r / 2;
        if F.C == 1 {
          r := Or8(r, 0x80);
        }
      }
      if r == 0 {
        F := F.(Z := 1);
      } else {
        F := F.(Z := 0);
      }
      F := F.(N := 0, H := 0);
    }

    /** CPU_rotate_through on a byte passed by value: returns the rotated byte. */
    method RotateThrough(x: Byte, direction: Byte) returns (r: Byte)
      requires Valid()
      modifies this
      ensures (Snap(), r) == CpuSpec.RotateThrough(old(Snap()), x, direction)
    {
      var temp := F.C;
      r := x;
      if direction == 0 {
        F := F.(C := And8(r, 0x80));
        r := (r * 2) % 0x100;
        r := (r + temp) % 0x100;
      } else {
        F := F.(C := And8(r, 0x01));
        r := r / 2;
        if temp == 1 {
          r := Or8(r, temp);
        }
      }
      if r == 0 {
        F := F.(Z := 1);
      } else {
        F := F.(Z := 0);
      }
      F := F.(N := 0, H := 0);
    }

    /** CPU_set on a register. */
    method SetBit(bit: nat, r: Reg)
      requires Valid() && bit <= 30
      modifies this
      ensures Snap() == old(Snap()).Set(r, SetBitValue(old(Snap()).Get(r), bit))
    {
      Set(r, SetBitValue(Get(r), bit));
    }

    /** CPU_res on a register. */
    method ResBit(bit: nat, r: Reg)
      requires Valid() && bit <= 30
      modifies this
      ensures Snap() == old(Snap()).Set(r, ResBitValue(old(Snap()).Get(r), bit))
    {
      Set(r, ResBitValue(Get(r), bit));
    }

    /** CPU_swap on a byte passed by value: returns the swapped byte. */
    method Swap(x: Byte) returns (r: Byte)
      requires Valid()
      modifies this
      ensures (Snap(), r) == CpuSpec.Swap(old(Snap()), x)
    {
      r := x;
      var upper := r / 0x10;
      r := (r * 0x10) % 0x100;
      r := (r + upper) % 0x100;
      ClearFlags();
      if r == 0 {
        F := F.(Z := 1);
      }
    }

    /** CPU_complement on a register. */
    method Complement(r: Reg)
      requires Valid()
      modifies this
      ensures Snap() == old(Snap()).Set(r, Not8(old(Snap()).Get(r)))
    {
      Set(r, Not8(Get(r)));
    }

    // ---- cpu.c: interrupts

    /** CPU_interrupt_switch. */
    method InterruptSwitch()
      requires Valid()
      modifies this
      ensures Snap() == CpuSpec.InterruptSwitch(old(Snap()))
    {
      interruptStep := 2;
      PC := (PC + 1) % 0x1_0000;
      cycles := 4;
    }

    /** CPU_service_interrupt: the IF bit is cleared by a direct store, not memory_writeb. */
    method ServiceInterrupt(bit: Byte)
      requires Valid() && bit <= 30
      modifies this, memory
      ensures Snap() == CpuSpec.ServiceInterrupt(old(Snap()), bit)
    {
      ghost var s := Snap();
      ie := 0;
      interruptStep := 0;
      var address := PC;
      var high, low := HighByte(address), LowByte(address);
      PushByte(low);
      PushByte(high);
      assert Snap() == Push(Push(s.(ie := 0, interruptStep := 0), low), high);
      memory[0xFF0F] := ResBitValue(memory[0xFF0F], bit);
      assert CpuSpec.ServiceInterrupt(s, bit) == Snap().(PC := Vector(bit, PC));
      if bit == 0 {
        PC := 0x40;
      } else if bit == 1 {
        PC := 0x48;
      } else if bit == 2 {
        PC := 0x50;
      } else if bit == 4 {
        PC := 0x60;
      }
    }

    /**
     * CPU_check_interrupts: the EI/DI countdown, then, with interrupts enabled
     * and something fired, a pass over bits 0 to 4 that services every bit but
     * 3 set in both IF and IE as they were read before the loop.
     */
    method CheckInterrupts()
      requires Valid()
      modifies this, memory
      ensures Snap() == CpuSpec.CheckInterrupts(old(Snap()))
    {
      if interruptStep > 0 {
        interruptStep := interruptStep - 1;
        if interruptStep == 0 {
          if interruptDirection == 1 {
            ie := 1;
          } else {
            ie := 0;
          }
        }
      }
      assert Snap() == InterruptCountdown(old(Snap()));
      if ie != 0 {
        var fired := ReadB(0xFF0F);
        var enabled := ReadB(0xFFFF);
        if fired == 0 {
          return;
        }
        for bit := 0 to 5
          invariant ServiceFrom(Snap(), fired, enabled, bit) == CpuSpec.CheckInterrupts(old(Snap()))
        {
          if bit == 3 {
            continue;
          }
          if BitTest(fired, bit) != 0 {
            if BitTest(enabled, bit) != 0 {
              ServiceInterrupt(bit);
            }
          }
        }
      }
    }

    /** setbit on a byte passed by value: returns the byte with the bit set. */
    method SetBitInByte(x: Byte, bit: nat) returns (r: Byte)
      requires bit <= 8
      ensures r == SetBitShifts(x, bit)
      ensures bit < 8 ==> r == SetBitValue(x, bit)
      ensures bit == 8 ==> r == x
    {
      var temp := (x / Pow2(bit)) % 0x100;
      temp := Or8(temp, 0x01);
      temp := (temp * Pow2(bit)) % 0x100;
      if bit == 0 {
        r := temp;
      } else {
        var bitshift := 8 - bit;
        r := (x * Pow2(bitshift)) % 0x100;
        r := (r / Pow2(bitshift)) % 0x100;
        temp := (temp + r) % 0x100;
        r := temp;
      }
      CpuProperties.SetBitShiftsIsOr(x, bit);
    }

    /** CPU_request_interrupt: set the bit in a copy of IF and store it with memory_writeb. */
    method RequestInterrupt(interrupt: Byte)
      requires Valid() && interrupt <= 8
      modifies memory
      ensures Snap() == CpuSpec.RequestInterrupt(old(Snap()), interrupt)
    {
      var flagreg := ReadB(0xFF0F);
      flagreg := SetBitInByte(flagreg, interrupt);
      WriteB(0xFF0F, flagreg);
    }

    /** compiler_F: direction 0 packs Z, N, H, C into F.F, any other unpacks bits 7 to 4. */
    method CompileF(direction: Byte)
      requires Valid()
      modifies this
      ensures Snap() == CpuSpec.CompileF(old(Snap()), direction)
    {
      if direction == 0 {
        PackF();
      } else {
        F := F.(Z := BitTest(F.F, 7), N := BitTest(F.F, 6));
        F := F.(H := BitTest(F.F, 5), C := BitTest(F.F, 4));
      }
    }

    /** The packing half of compiler_F: add a flag to F.F and shift, four times over. */
    method PackF()
      requires Valid()
      modifies this
      ensures Snap() == old(Snap()).(F := old(F).(F := PackedF(old(F))))
    {
      ShiftFlagIn(F.Z, 2);
      ShiftFlagIn(F.N, 2);
      ShiftFlagIn(F.H, 2);
      ShiftFlagIn(F.C, 0x10);
    }

    /** `F.F += flag; F.F = F.F << k`, with factor 2^k. */
    method ShiftFlagIn(flag: Byte, factor: nat)
      requires Valid()
      modifies this
      ensures Snap() == old(Snap()).(F := old(F).(F := ShiftIn(old(F.F), flag, factor)))
    {
      F := F.(F := (F.F + flag) % 0x100);
      F := F.(F := (F.F * factor) % 0x100);
    }

    // ---- cpu_core.c: the base switch, one method per family of cases

    /** `PC + k` as the `word` argument of memory_readb receives it. */
    function PCPlus(k: nat): (w: Word)
      reads this, memory
      requires Valid()
      ensures w == Snap().PCPlus(k)
    {
      (PC + k) % 0x1_0000
    }

    /** convert_to16m: the byte at location2 is the high byte. */
    function Convert16m(location1: Word, location2: Word): (w: Word)
      reads memory
      requires Valid()
      ensures w == CpuSpec.Convert16m(memory[..], location1, location2)
    {
      var least := ReadB(location1);
      var most := ReadB(location2);
      ToPair(most, least)
    }

    /** The flag byte a conditional case tests. */
    function FlagValue(f: FlagSel): (v: Byte)
      reads this, memory
      requires Valid()
      ensures v == CpuCoreSpec.FlagValue(Snap(), f)
    {
      match f
      case ZeroFlag => F.Z
      case CarryFlag => F.C
    }

    /** The load cases of the switch. */
    method RunLoad(i: LoadOp)
      requires Valid() && LoadDefined(Snap(), i)
      modifies this, memory
      ensures Snap() == ExecuteLoad(old(Snap()), i)
    {
      match i
      case LdImm(_) => RunLoadBasic(i);
      case LdReg(_, _) => RunLoadBasic(i);
      case LdFromPair(_, _) => RunLoadBasic(i);
      case LdToPair(_, _) => RunLoadBasic(i);
      case LdAFromIoC => RunLoadBasic(i);
      case LdIoCFromA => RunLoadBasic(i);
      case LdImm16(_) => RunLoadBasic(i);
      case LdHLImm => RunLdHLImm();
      case LdAFromAbs => RunLdAFromAbs();
      case LdAImm => RunLdAImm();
      case LdAbsFromA => RunLdAbsFromA();
      case LdIoFromA => RunLoadHigh(i);
      case LdAFromIo => RunLoadHigh(i);
      case LdAFromHLDec => RunLoadHLStep(i);
      case LdHLDecFromA => RunLoadHLStep(i);
      case LdAFromHLInc => RunLoadHLStep(i);
      case LdHLIncFromA => RunLdHLIncFromA();
      case LdSpImm16 => RunLdSpImm16();
      case LdSpHL => RunLdSpHL();
      case LdHLSpN => RunLdHLSpN();
      case LdSpAbs => RunLdSpAbs();
    }

    /** The loads that are one helper call: LD r,n, LD r,r', LD r,(rr), LD (rr),r, LD A,(C), LD (C),A and LD rr,nn. */
    method RunLoadBasic(i: LoadOp)
      requires Valid()
      requires i.LdImm? || i.LdReg? || i.LdFromPair? || i.LdToPair? || i.LdAFromIoC? || i.LdIoCFromA? || i.LdImm16?
      modifies this, memory
      ensures Snap() == ExecuteLoad(old(Snap()), i)
    {
      match i
      case LdImm(r) =>
        LoadImmediate(r);
        cycles := 8;
      case LdReg(to, from) =>
        LoadRegister(to, Get(from));
        cycles := 4;
      case LdFromPair(r, p) =>
        LoadAddress(r, GetPair(p), 0);
        cycles := 8;
      case LdToPair(r, p) =>
        LoadAddress(r, GetPair(p), 1);
        cycles := 8;
      case LdAFromIoC =>
        LoadAddress(RA, 0xFF00 + C, 0);
        cycles := 8;
      case LdIoCFromA =>
        LoadAddress(RA, 0xFF00 + C, 1);
        cycles := 8;
      case LdImm16(p) =>
        match p {
          case BC => LoadImmediate16(RB, RC);
          case DE => LoadImmediate16(RD, RE);
          case HL => LoadImmediate16(RH, RL);
        }
        cycles := 12;
    }

    /** 0x36 LD (HL),n: the immediate is read, but B is what CPU_load_address stores. */
    method RunLdHLImm()
      requires Valid()
      modifies this, memory
      ensures Snap() == ExecuteLoad(old(Snap()), LdHLImm)
    {
      var immediate := ReadB(PCPlus(1));
      var address := GetPair(HL);
      LoadAddress(RB, address, 1);
      cycles := 12;
      PC := (PC + 1) % 0x1_0000;
    }

    /** 0xFA LD A,(nn): the word read by memory_readw is byte-swapped. */
    method RunLdAFromAbs()
      requires Valid() && PC != 0xFFFE
      modifies this, memory
      ensures Snap() == ExecuteLoad(old(Snap()), LdAFromAbs)
    {
      ghost var s := Snap();
      var address := ReadW(PCPlus(1));
      address := SwapByteOrder(address);
      assert address == SwapByteOrder(ReadWord(s.mem, s.PCPlus(1)));
      LoadAddress(RA, address, 0);
      ghost var s1 := Snap();
      assert ExecuteLoad(s, LdAFromAbs) == Advance(s1, 2).(cycles := 16);
      PC := (PC + 2) % 0x1_0000;
      cycles := 16;
    }

    /** 0x3E LD A,#. */
    method RunLdAImm()
      requires Valid()
      modifies this
      ensures Snap() == ExecuteLoad(old(Snap()), LdAImm)
    {
      var immediate := ReadB(PCPlus(1));
      LoadRegister(RA, immediate);
      PC := (PC + 1) % 0x1_0000;
      cycles := 8;
    }

    /** 0xEA LD (nn),A. */
    method RunLdAbsFromA()
      requires Valid()
      modifies this, memory
      ensures Snap() == ExecuteLoad(old(Snap()), LdAbsFromA)
    {
      var address := Convert16m(PCPlus(1), PCPlus(2));
      LoadAddress(RA, address, 1);
      PC := (PC + 2) % 0x1_0000;
      cycles := 16;
    }

    /** 0xE0 LDH (n),A and 0xF0 LDH A,(n). */
    method RunLoadHigh(i: LoadOp)
      requires Valid() && (i.LdIoFromA? || i.LdAFromIo?)
      modifies this, memory
      ensures Snap() == ExecuteLoad(old(Snap()), i)
    {
      ghost var s := Snap();
      var address: Word := 0xFF00;
      address := address + ReadB(PCPlus(1));
      assert address == IoAddress(s.mem[s.PCPlus(1)]);
      var direction: Byte := if i.LdIoFromA? then 1 else 0;
      LoadAddress(RA, address, direction);
      assert ExecuteLoad(s, i) == Advance(Snap(), 1).(cycles := 12);
      PC := (PC + 1) % 0x1_0000;
      cycles := 12;
    }

    /** 0x3A LD A,(HL-), 0x32 LD (HL-),A and 0x2A LD A,(HL+). */
    method RunLoadHLStep(i: LoadOp)
      requires Valid() && (i.LdAFromHLDec? || i.LdHLDecFromA? || i.LdAFromHLInc?)
      modifies this, memory
      ensures Snap() == ExecuteLoad(old(Snap()), i)
    {
      ghost var s := Snap();
      var direction: Byte := if i.LdHLDecFromA? then 1 else 0;
      var step := if i.LdAFromHLInc? then 1 else -1;
      assert ExecuteLoad(s, i) == CpuSpec.LoadAddress(s, RA, s.GetPair(HL), direction)
                                    .SetPair(HL, (s.GetPair(HL) + step) % 0x1_0000).(cycles := 8);
      LoadThroughHL(direction, step);
    }

    /** Moves A through (HL) in `direction`, then steps HL by `step`. */
    method LoadThroughHL(direction: Byte, step: int)
      requires Valid()
      modifies this, memory
      ensures var s := old(Snap());
        Snap() == CpuSpec.LoadAddress(s, RA, s.GetPair(HL), direction)
                    .SetPair(HL, (s.GetPair(HL) + step) % 0x1_0000).(cycles := 8)
    {
      var address: int := GetPair(HL);
      LoadAddress(RA, address, direction);
      ghost var s1 := Snap();
      assert s1.GetPair(HL) == address;
      address := (address + step) % 0x1_0000;
      SetPair(HL, address);
      cycles := 8;
    }

    /** 0x22 LD (HL+),A: the store goes to the byte-swapped HL. */
    method RunLdHLIncFromA()
      requires Valid()
      modifies this, memory
      ensures Snap() == ExecuteLoad(old(Snap()), LdHLIncFromA)
    {
      ghost var s0 := Snap();
      var address: int := GetPair(HL);
      address := SwapByteOrder(address);
      LoadAddress(RA, address, 1);
      ghost var s1 := Snap();
      assert s1 == CpuSpec.LoadAddress(s0, RA, SwapByteOrder(s0.GetPair(HL)), 1);
      address := SwapByteOrder(address);
      address := (address + 1) % 0x1_0000;
      SetPair(HL, address);
      cycles := 8;
    }

    /** 0x31 LD SP,nn. */
    method RunLdSpImm16()
      requires Valid()
      modifies this
      ensures Snap() == ExecuteLoad(old(Snap()), LdSpImm16)
    {
      ghost var s := Snap();
      var low := ReadB(PCPlus(1));
      var high := ReadB(PCPlus(2));
      SP := ToPair(high, low);
      assert ExecuteLoad(s, LdSpImm16) == Advance(Snap(), 3).(cycles := 12);
      PC := (PC + 3) % 0x1_0000;
      cycles := 12;
    }

    /** 0xF9 LD SP,HL: pushes H and L instead of loading SP. */
    method RunLdSpHL()
      requires Valid()
      modifies this, memory
      ensures Snap() == ExecuteLoad(old(Snap()), LdSpHL)
    {
      LoadSp16(H, L);
      PC := (PC + 1) % 0x1_0000;
      cycles := 8;
    }

    /** 0xF8 LD HL,SP+n: CPU_add_sp_n on SP, HL takes the sum, SP is put back. */
    method RunLdHLSpN()
      requires Valid()
      modifies this
      ensures Snap() == ExecuteLoad(old(Snap()), LdHLSpN)
    {
      ghost var s0 := Snap();
      var original := SP;
      var n := ReadB(PCPlus(1));
      assert n == s0.mem[s0.PCPlus(1)];
      AddSpNIntoHL(n);
      ghost var s2 := Snap();
      SP := original;
      PC := (PC + 2) % 0x1_0000;
      cycles := 12;
      assert Snap() == Advance(s2.(SP := s0.SP), 2).(cycles := 12);
    }

    /** The first half of 0xF8: SP+n computed by CPU_add_sp_n, then copied into HL. */
    method AddSpNIntoHL(n: Byte)
      requires Valid()
      modifies this
      ensures Snap() == CpuSpec.AddSpN(old(Snap()), n).SetPair(HL, CpuSpec.AddSpN(old(Snap()), n).SP)
    {
      AddSpN(n);
      SetPair(HL, SP);
    }

    /** 0x08 LD (nn),SP: SP is loaded from the word at PC+1. */
    method RunLdSpAbs()
      requires Valid() && PC != 0xFFFE
      modifies this
      ensures Snap() == ExecuteLoad(old(Snap()), LdSpAbs)
    {
      ghost var s0 := Snap();
      SP := ReadW(PCPlus(1));
      PC := (PC + 3) % 0x1_0000;
      cycles := 20;
      assert Snap() == s0.(SP := Snap().SP, PC := Snap().PC, cycles := 20);
    }

    /** The PUSH and POP cases. */
    method RunStack(i: StackOp)
      requires Valid()
      modifies this, memory
      ensures Snap() == ExecuteStack(old(Snap()), i)
    {
      match i
      case PushAF => RunPushAF();
      case PushPair(p) => RunPushPair(p);
      case PopAF => RunPopAF();
      case PopPair(p) => RunPopPair(p);
    }

    /** 0xF5 PUSH AF: pack the flags, then push A and F.F. */
    method RunPushAF()
      requires Valid()
      modifies this, memory
      ensures Snap() == ExecuteStack(old(Snap()), PushAF)
    {
      CompileF(0);
      LoadSp16(A, F.F);
      cycles := 16;
      PC := (PC + 1) % 0x1_0000;
    }

    /** PUSH BC, DE, HL: the high register first. */
    method RunPushPair(p: Pair)
      requires Valid()
      modifies this, memory
      ensures Snap() == ExecuteStack(old(Snap()), PushPair(p))
    {
      ghost var s := Snap();
      match p {
        case BC => LoadSp16(B, C);
        case DE => LoadSp16(D, E);
        case HL => LoadSp16(H, L);
      }
      assert ExecuteStack(s, PushPair(p)) == Advance(Snap().(cycles := 16), 1);
      cycles := 16;
      PC := (PC + 1) % 0x1_0000;
    }

    /** 0xF1 POP AF: the first byte popped goes to F.F, the second to A, then the flags are unpacked. */
    method RunPopAF()
      requires Valid()
      modifies this
      ensures Snap() == ExecuteStack(old(Snap()), PopAF)
    {
      var f, a := Load16Sp();
      F := F.(F := f);
      A := a;
      CompileF(1);
      PC := (PC + 1) % 0x1_0000;
      cycles := 12;
    }

    /** POP BC, DE, HL: the first byte popped goes to the low register. */
    method RunPopPair(p: Pair)
      requires Valid()
      modifies this
      ensures Snap() == ExecuteStack(old(Snap()), PopPair(p))
    {
      ghost var s := Snap();
      PopIntoPair(p);
      assert ExecuteStack(s, PopPair(p)) == Advance(Snap(), 1).(cycles := 12);
      PC := (PC + 1) % 0x1_0000;
      cycles := 12;
    }

    /** CPU_load_16_sp(&low, &high) on the registers of a pair: the first pop goes to the low register. */
    method PopIntoPair(p: Pair)
      requires Valid()
      modifies this
      ensures var (s1, low, high) := PopTwo(old(Snap()));
              Snap() == s1.Set(old(Snap()).Low(p), low).Set(old(Snap()).High(p), high)
    {
      var low, high := Load16Sp();
      match p {
        case BC => Set(RC, low); Set(RB, high);
        case DE => Set(RE, low); Set(RD, high);
        case HL => Set(RL, low); Set(RH, high);
      }
    }

    /** The ALU helper an ALU case calls; AND, XOR and OR read their operand once. */
    method RunAlu(op: AluOp, o: Operand)
      requires Valid()
      modifies this
      ensures Snap() == CpuCoreSpec.RunAlu(old(Snap()), op, o)
    {
      match op
      case Add(carry) => Add8(o, carry);
      case Subtract(carry) => Subtract8(o, carry);
      case And => And8Op(Deref(o));
      case Xor => Xor8Op(Deref(o));
      case Or => Or8Op(Deref(o));
      case Compare => Compare8(o);
    }

    /** The cases of the 8-bit ALU, INC/DEC and the 16-bit arithmetic. */
    method RunArithmetic(i: ArithOp)
      requires Valid()
      modifies this, memory
      ensures Snap() == ExecuteArithmetic(old(Snap()), i)
    {
      match i
      case Alu(op, src) => RunAluCase(op, src);
      case IncDecReg(r, direction) => RunIncDecReg(r, direction);
      case IncDecHL(direction) => RunIncDecHL(direction);
      case AddHL(_) => RunAddHL(i);
      case AddHLSP => RunAddHL(i);
      case AddSPImm => RunAddSPImm();
      case IncDecPair(_, _) => RunIncDecWord(i);
      case IncDecSP(_) => RunIncDecWord(i);
    }

    /** 0x80-0xBF and the immediate forms: the operand is a register or a local copy of a byte. */
    method RunAluCase(op: AluOp, src: Source)
      requires Valid()
      modifies this
      ensures Snap() == ExecuteArithmetic(old(Snap()), Alu(op, src))
    {
      var o: Operand;
      match src {
        case FromReg(r) =>
          o := OpReg(r);
        case FromHL =>
          var address := GetPair(HL);
          var b := ReadB(address);
          o := OpValue(b);
        case FromImmediate =>
          var b := ReadB(PCPlus(1));
          o := OpValue(b);
      }
      RunAlu(op, o);
      PC := (PC + (if src.FromImmediate? then 2 else 1)) % 0x1_0000;
      cycles := if src.FromReg? then 4 else 8;
    }

    /** INC r and DEC r. */
    method RunIncDecReg(r: Reg, direction: Byte)
      requires Valid()
      modifies this
      ensures Snap() == ExecuteArithmetic(old(Snap()), IncDecReg(r, direction))
    {
      var v := IncDec8(Get(r), direction);
      Set(r, v);
      PC := (PC + 1) % 0x1_0000;
      cycles := 4;
    }

    /** 0x34 INC (HL) and 0x35 DEC (HL): a local copy is changed and stored with memory_writeb. */
    method RunIncDecHL(direction: Byte)
      requires Valid()
      modifies this, memory
      ensures Snap() == ExecuteArithmetic(old(Snap()), IncDecHL(direction))
    {
      var address := GetPair(HL);
      var b := ReadB(address);
      b := IncDec8(b, direction);
      WriteB(address, b);
      PC := (PC + 1) % 0x1_0000;
      cycles := 12;
    }

    /** ADD HL,rr and 0x39 ADD HL,SP. */
    method RunAddHL(i: ArithOp)
      requires Valid() && (i.AddHL? || i.AddHLSP?)
      modifies this
      ensures Snap() == ExecuteArithmetic(old(Snap()), i)
    {
      ghost var s0 := Snap();
      var value := if i.AddHL? then GetPair(i.p) else SP;
      assert ExecuteArithmetic(s0, i) == Advance(CpuSpec.Add16(s0, HL, value).(cycles := 8), 1);
      Add16(HL, value);
      ghost var s1 := Snap();
      cycles := 8;
      PC := (PC + 1) % 0x1_0000;
      assert Snap() == Advance(s1.(cycles := 8), 1);
    }

    /** 0xE8 ADD SP,n. */
    method RunAddSPImm()
      requires Valid()
      modifies this
      ensures Snap() == ExecuteArithmetic(old(Snap()), AddSPImm)
    {
      AddSpN(ReadB(PCPlus(1)));
      PC := (PC + 2) % 0x1_0000;
      cycles := 16;
    }

    /** INC rr, DEC rr, 0x33 INC SP and 0x3B DEC SP. */
    method RunIncDecWord(i: ArithOp)
      requires Valid() && (i.IncDecPair? || i.IncDecSP?)
      modifies this
      ensures Snap() == ExecuteArithmetic(old(Snap()), i)
    {
      ghost var s := Snap();
      ghost var s1;
      if i.IncDecPair? {
        IncDec16(i.p, i.direction);
        s1 := s.SetPair(i.p, CpuSpec.IncDec16(s.GetPair(i.p), i.direction));
      } else {
        if i.direction == 0 {
          SP := (SP + 1) % 0x1_0000;
        } else {
          SP := (SP - 1) % 0x1_0000;
        }
        s1 := s.(SP := CpuSpec.IncDec16(s.SP, i.direction));
      }
      assert Snap() == s1;
      assert ExecuteArithmetic(s, i) == Advance(s1, 1).(cycles := 8);
      PC := (PC + 1) % 0x1_0000;
      cycles := 8;
    }

    /** The cases of calls, restarts, returns and jumps. */
    method RunControl(i: ControlOp)
      requires Valid()
      modifies this, memory
      ensures Snap() == ExecuteControl(old(Snap()), i)
    {
      match i
      case CallImm => RunCall(i);
      case CallIf(_, _) => RunCall(i);
      case Rst(offset) => RunRst(offset);
      case Ret => RunReturn(i);
      case RetIf(_, _) => RunReturn(i);
      case Reti => RunReturn(i);
      case JpImm => RunJump(i);
      case JpIf(_, _) => RunJump(i);
      case JpHL => RunJump(i);
      case Jr => RunRelativeJump(i);
      case JrIf(_, _) => RunRelativeJump(i);
    }

    /** 0xCD CALL nn and CALL cc,nn: the condition is the flag byte's truth value. */
    method RunCall(i: ControlOp)
      requires Valid() && (i.CallImm? || i.CallIf?)
      modifies this, memory
      ensures Snap() == ExecuteControl(old(Snap()), i)
    {
      if i.CallImm? || (if i.whenSet then FlagValue(i.flag) != 0 else FlagValue(i.flag) == 0) {
        Call();
      } else {
        PC := (PC + 3) % 0x1_0000;
      }
      cycles := 12;
    }

    /** RST n. */
    method RunRst(offset: Byte)
      requires Valid()
      modifies this, memory
      ensures Snap() == ExecuteControl(old(Snap()), Rst(offset))
    {
      Restart(offset);
      cycles := 32;
    }

    /** 0xC9 RET, RET cc and 0xD9 RETI (which schedules interrupts on, two checks later). */
    method RunReturn(i: ControlOp)
      requires Valid() && (i.Ret? || i.RetIf? || i.Reti?)
      modifies this
      ensures Snap() == ExecuteControl(old(Snap()), i)
    {
      ghost var s := Snap();
      match i {
        case Ret => Return();
        case RetIf(f, whenSet) =>
          var taken := if whenSet then FlagValue(f) != 0 else FlagValue(f) == 0;
          if taken {
            Return();
          } else {
            PC := (PC + 1) % 0x1_0000;
          }
        case Reti =>
          Return();
          interruptDirection := 1;
          interruptStep := 2;
      }
      assert ExecuteControl(s, i) == Snap().(cycles := 8);
      cycles := 8;
    }

    /** 0xC3 JP nn, JP cc,nn and 0xE9 JP (HL); JP cc steps over its operand when CPU_jump returns 0. */
    method RunJump(i: ControlOp)
      requires Valid() && (i.JpImm? || i.JpIf? || i.JpHL?)
      modifies this
      ensures Snap() == ExecuteControl(old(Snap()), i)
    {
      ghost var s := Snap();
      var address := if i.JpHL? then GetPair(HL) else Convert16m(PCPlus(1), PCPlus(2));
      if i.JpIf? {
        var jumped := Jump(FlagValue(i.flag), address, i.condition);
        if jumped == 0 {
          PC := (PC + 3) % 0x1_0000;
        }
      } else {
        var _ := Jump(0, address, 0);
      }
      assert ExecuteControl(s, i) == Snap().(cycles := if i.JpHL? then 4 else 12);
      cycles := if i.JpHL? then 4 else 12;
    }

    /** 0x18 JR n and JR cc,n: the signed offset is added to the PC of the opcode. */
    method RunRelativeJump(i: ControlOp)
      requires Valid() && (i.Jr? || i.JrIf?)
      modifies this
      ensures Snap() == ExecuteControl(old(Snap()), i)
    {
      ghost var s := Snap();
      var nextb := Signed(ReadB(PCPlus(1)));
      if i.Jr? {
        var _ := Jump(0, (PC + nextb) % 0x1_0000, 0);
      } else {
        var _ := Jump(FlagValue(i.flag), (PC + nextb) % 0x1_0000, i.condition);
        PC := (PC + 2) % 0x1_0000;
      }
      assert ExecuteControl(s, i) == Snap().(cycles := 8);
      cycles := 8;
    }

    /** NOP, the accumulator rotates, STOP, DI/EI, CPL and CCF. */
    method RunMisc(i: MiscOp)
      requires Valid()
      modifies this
      ensures Snap() == ExecuteMisc(old(Snap()), i)
    {
      match i
      case Nop =>
        PC := (PC + 1) % 0x1_0000;
        cycles := 4;
      case Stop =>
        PC := (PC + 2) % 0x1_0000;
        cycles := 4;
      case Di =>
        InterruptSwitch();
        interruptDirection := 0;
      case Ei =>
        InterruptSwitch();
        interruptDirection := 1;
      case RotateA(through, direction) => RunRotateA(through, direction);
      case Cpl => RunCpl();
      case Ccf => RunCcf();
    }

    /** 0x07 RLCA, 0x17 RLA, 0x0F RRCA and 0x1F RRA. */
    method RunRotateA(through: bool, direction: Byte)
      requires Valid()
      modifies this
      ensures Snap() == ExecuteMisc(old(Snap()), RotateA(through, direction))
    {
      ghost var s := Snap();
      var v;
      if through {
        v := RotateThrough(A, direction);
        assert (Snap(), v) == CpuSpec.RotateThrough(s, s.A, direction);
      } else {
        v := Rotate(A, direction);
        assert (Snap(), v) == CpuSpec.Rotate(s, s.A, direction);
      }
      ghost var s1 := Snap();
      assert ExecuteMisc(s, RotateA(through, direction)) == Advance(s1.(A := v), 1).(cycles := 4);
      A := v;
      PC := (PC + 1) % 0x1_0000;
      cycles := 4;
    }

    /** 0x2F CPL. */
    method RunCpl()
      requires Valid()
      modifies this
      ensures Snap() == ExecuteMisc(old(Snap()), Cpl)
    {
      Complement(RA);
      F := F.(N := 1);
      F := F.(H := 1);
      PC := (PC + 1) % 0x1_0000;
      cycles := 4;
    }

    /** 0x3F CCF. */
    method RunCcf()
      requires Valid()
      modifies this
      ensures Snap() == ExecuteMisc(old(Snap()), Ccf)
    {
      F := F.(N := 0);
      F := F.(H := 0);
      if F.C != 0 {
        F := F.(C := 0);
      } else {
        F := F.(C := 1);
      }
      PC := (PC + 1) % 0x1_0000;
      cycles := 4;
    }

    /** CPU_EXTENDED: SWAP r, SWAP (HL) and RES b,A; 0 if handled, -1 otherwise. */
    method CpuExtended(op: Word) returns (result: int)
      requires Valid()
      modifies this, memory
      ensures (Snap(), result) == Extended(old(Snap()), op)
    {
      if 0x30 <= op <= 0x37 {
        if op == 0x36 {
          var address := GetPair(HL);
          var temp := ReadB(address);
          temp := Swap(temp);
          WriteB(address, temp);
        } else {
          var r := RegOf(op - 0x30);
          var v := Swap(Get(r));
          Set(r, v);
        }
        PC := (PC + 2) % 0x1_0000;
        cycles := 8;
        result := 0;
      } else if 0x87 <= op <= 0xBF && op % 8 == 7 {
        ResBit((op - 0x87) / 8, RA);
        PC := (PC + 1) % 0x1_0000;
        cycles := 8;
        result := 0;
      } else {
        result := -1;
      }
    }

    /** CPU(op): run one opcode; 0 if the switch handled it, -1 otherwise. */
    method Cpu(op: Word) returns (result: int)
      requires Valid() && ExecDefined(Snap(), op)
      modifies this, memory
      ensures (Snap(), result) == Exec(old(Snap()), op)
    {
      result := 0;
      var decoded := Decode(op);
      match decoded
      case None =>
        result := result - 1;
      case Some(i) =>
        if i.Prefix? {
          PC := (PC + 1) % 0x1_0000;
          result := CpuExtended(ReadB(PC));
        } else {
          DecodeReadWord(op);
          Run(i);
        }
    }

    /** The body of one case of the CPU switch. */
    method Run(i: Instr)
      requires Valid() && !i.Prefix? && Defined(Snap(), i)
      modifies this, memory
      ensures Snap() == Execute(old(Snap()), i)
    {
      match i
      case Load(l) => RunLoad(l);
      case Stack(k) => RunStack(k);
      case Arith(a) => RunArithmetic(a);
      case Control(c) => RunControl(c);
      case Misc(m) => RunMisc(m);
    }

    // ---- main.c

    /** One pass of the loop in main: CPU on the opcode at PC, then LCD_update(cycles) and CPU_check_interrupts. */
    method Step() returns (running: bool)
      requires Valid() && ExecDefined(Snap(), memory[PC])
      modifies this, memory, video
      ensures (Snap(), Screen(), running) == MainLoop.Step(old(Snap()), old(Screen()))
    {
      var result := Cpu(ReadB(PC));
      if result < 0 {
        return false;
      }
      LcdUpdate(cycles);
      CheckInterrupts();
      running := true;
    }

    // ---- lcd.c

    /** LCD_init: a fresh line budget of 456 cycles. */
    method LcdInit()
      requires Valid()
      modifies this
      ensures Snap() == LcdSpec.Init(old(Snap()))
    {
      scanlineCycles := 456;
    }

    /** LCD_enabled: 1 iff bit 7 of LCDC is set. */
    function LcdEnabled(): (b: Byte)
      reads memory
      requires Valid()
      ensures b == LcdSpec.Enabled(memory[..]) && b == Bit(memory[Lcdc], 7)
    {
      LcdSpec.EnabledIsBitSeven(memory[..]);
      var control := ReadB(Lcdc);
      if And8(control, 0x80) != 0 then 1 else 0
    }

    /** LCD_get_mode: the two low bits of STAT. */
    function LcdMode(): (mode: Byte)
      reads memory
      requires Valid()
      ensures mode == LcdSpec.Mode(memory[..]) && mode == memory[LcdSpec.Status] % 4
    {
      LcdSpec.ModeIsLowBits(memory[..]);
      var status := ReadB(LcdSpec.Status);
      And8(status, 0x3)
    }

    /** LCD_update_status: choose the mode, request the STAT interrupt, and store the rebuilt STAT. */
    method LcdUpdateStatus()
      requires Valid()
      modifies memory
      ensures Snap() == LcdSpec.UpdateStatus(old(Snap()))
    {
      ghost var s0 := Snap();
      var status := ReadB(LcdSpec.Status);
      var line := ReadB(LineRegister);
      var offset: Byte := (456 - scanlineCycles) % 0x100;
      var current := LcdMode();
      var mode, requestint := ChooseMode(status, line, offset);
      assert offset == LcdSpec.ModeOffset(s0.scanlineCycles);
      assert current == LcdSpec.Mode(s0.mem);
      if mode != current && requestint > 0 {
        RequestInterrupt(1);
      }
      ghost var s1 := Snap();
      var bits := SetModeBits(current, mode);
      assert LcdSpec.UpdateStatus(s0) == LcdSpec.StoreStatus(s1, line, bits);
      StoreStatus(line, bits);
    }

    /**
     * The mode and `requestint` LCD_update_status picks from STAT, LY and the
     * byte `mode_offset`; the mode 2 branch needs an offset of 376 or more.
     */
    method ChooseMode(status: Byte, line: Byte, offset: Byte) returns (mode: Byte, requestint: Byte)
      ensures (mode, requestint) == LcdSpec.SelectMode(status, line, offset)
      ensures mode == 0 <==> offset <= 204
      ensures mode == 3 <==> offset > 204
    {
      requestint := 0;
      mode := 0;
      if line >= 144 {
        mode := 1;
        requestint := BitTest(status, 4);
      }
      if offset <= 204 {
        mode := 0;
        requestint := BitTest(status, 3);
      } else {
        // the branch for `mode_offset >= 376` (mode 2, STAT bit 5) is dead: the offset is a byte
        assert offset < 376;
        mode := 3;
      }
      LcdSpec.ModeZeroOrThree(status, line, offset);
    }

    /** The switch on the new mode in LCD_update_status, run only when the mode changes. */
    method SetModeBits(current: Byte, mode: Byte) returns (bits: Byte)
      ensures bits == LcdSpec.NewModeBits(current, mode)
      ensures current < 4 && (mode == 0 || mode == 3) ==> bits == if mode == 0 then 0 else current
    {
      bits := current;
      if mode != current {
        if mode == 0 {
          bits := ResBitValue(bits, 0);
          bits := ResBitValue(bits, 1);
        } else if mode == 1 {
          bits := SetBitValue(bits, 0);
          bits := ResBitValue(bits, 1);
        } else if mode == 2 {
          bits := ResBitValue(bits, 0);
          bits := SetBitValue(bits, 1);
        }
        if current < 4 && (mode == 0 || mode == 3) {
          LcdSpec.ModeBitsValue(current, mode);
        }
      }
    }

    /** The end of LCD_update_status: the coincidence bit against LYC, its interrupt test, and the store to STAT. */
    method StoreStatus(line: Byte, bits: Byte)
      requires Valid()
      modifies memory
      ensures Snap() == LcdSpec.StoreStatus(old(Snap()), line, bits)
    {
      var stat := bits;
      if line == ReadB(LcdSpec.Compare) {
        stat := SetBitValue(stat, 2);
        if BitTest(stat, 6) != 0 {
          RequestInterrupt(1);
        }
      } else {
        stat := ResBitValue(stat, 2);
      }
      WriteB(LcdSpec.Status, stat);
    }

    /** LCD_update(cycles): the status update, then the line budget and LY. */
    method LcdUpdate(cycles: int)
      requires Valid()
      modifies this, memory, video
      ensures (Snap(), Screen()) == LcdSpec.Update(old(Snap()), old(Screen()), cycles)
    {
      LcdUpdateStatus();
      LcdTick(cycles);
    }

    /** The part of LCD_update after LCD_update_status. */
    method LcdTick(cycles: int)
      requires Valid()
      modifies this, memory, video
      ensures (Snap(), Screen()) == LcdSpec.Tick(old(Snap()), old(Screen()), cycles)
    {
      if LcdEnabled() != 0 {
        scanlineCycles := scanlineCycles - cycles;
      } else {
        return;
      }
      if scanlineCycles <= 0 {
        NextLine();
      }
    }

    /** The end of a line: LY moves on in the array itself, and line 144, a wrap or a drawn line follows. */
    method NextLine()
      requires Valid()
      modifies this, memory, video
      ensures (Snap(), Screen()) == LcdSpec.NextLine(old(Snap()), old(Screen()))
    {
      var line: int := memory[LineRegister];
      memory[LineRegister] := (line + 1) % 0x100;
      var currentline := memory[LineRegister];
      scanlineCycles := 456;
      if currentline == 144 {
        RequestInterrupt(0);
      } else if currentline > 153 {
        memory[LineRegister] := 0;
      } else if currentline <= 144 {
        DrawScanline();
      }
    }

    // ---- gl.c

    /** GL_get_bit_color: the two-bit field of BGP selected by the colour number. */
    function GetBitColor(color: Byte): (c: Byte)
      reads memory
      requires Valid() && color <= 3
      ensures c == PaletteColor(memory[Palette], color)
      ensures c == (memory[Palette] / Pow2(2 * color)) % 4 && c < 4
    {
      PaletteLookup(memory[Palette], color);
      var palette := ReadB(Palette);
      if color == 0 then And8(palette, 0x3)
      else if color == 1 then And8(palette, 0xC) / 4
      else if color == 2 then And8(palette, 0x30) / 16
      else And8(palette, 0xC0) / 64
    }

    /** GL_draw_scanline: the background is drawn iff LCDC bit 0 is set; the SDL output is not modelled. */
    method DrawScanline()
      requires Valid() && (BitTest(memory[Lcdc], 0) != 0 ==> memory[LineRegister] < Height)
      modifies video
      ensures Screen() == GlSpec.DrawScanline(memory[..], old(Screen()))
    {
      var control := ReadB(Lcdc);
      if BitTest(control, 0) != 0 {
        DrawTiles();
      }
    }

    /** One pass of the loop of GL_draw_tiles: the shade of pixel i of line LY. */
    method TilePixel(i: nat, scrollX: Byte, scanline: Byte, mapBase: Word, tileBase: Word, tileY: Byte)
        returns (shade: Byte)
      requires Valid() && i < Width && scanline < Height
      requires scrollX == memory[ScrollX] && scanline == memory[LineRegister]
      requires mapBase == MapBase(memory[Lcdc]) && tileBase == TileBase(memory[Lcdc])
      requires tileY == (memory[ScrollY] + scanline) / 8
      ensures shade == Pixel(memory[..], i) && shade < 4
    {
      var tileX: Byte := (i + scrollX as int) / 8;
      assert mapBase + tileX + tileY * 32 == MapAddress(memory[..], i);
      var ident := ReadB(mapBase + tileX + tileY * 32);
      var location: Word := tileBase + ident as int * 16;
      assert location == TileAddress(memory[..], i);
      var tileLine: Byte := scanline % 8;
      var low := ReadB(location + tileLine);
      var high := ReadB(location + tileLine + 1);
      var offset: Byte := (i % 8) * 2;
      var color: Byte := BitTest(high, offset) * 2;
      color := color + BitTest(low, offset);
      assert color == ColorIndex(memory[..], i);
      shade := GetBitColor(color);
    }

    /** GL_draw_tiles: line LY of the video buffer is filled pixel by pixel. */
    method DrawTiles()
      requires Valid() && memory[LineRegister] < Height
      modifies video
      ensures Screen() == GlSpec.DrawTiles(memory[..], old(Screen()))
    {
      var scrollX := ReadB(ScrollX);
      var scrollY := ReadB(ScrollY);
      var scanline := ReadB(LineRegister);
      var control := ReadB(Lcdc);
      var mapBase: Word := if BitTest(control, 3) != 0 then 0x9C00 else 0x9800;
      var tileBase: Word := if BitTest(control, 4) != 0 then 0x8000 else 0x8800;
      var tileY: Byte := (scrollY as int + scanline) / 8;
      ghost var before := Screen();
      for i := 0 to Width
        invariant forall y, x :: 0 <= y < Height && 0 <= x < Width ==>
          video[y, x] == if y == scanline && x < i then Pixel(memory[..], x) else before[y][x]
      {
        var shade := TilePixel(i, scrollX, scanline, mapBase, tileBase, tileY);
        video[scanline, i] := shade;
      }
      RowStored(memory[..], before, scanline);
    }

    /** A buffer that differs from `before` only in line `line`, which holds TileRow(m), is the drawn one. */
    lemma RowStored(m: Memory, before: Video, line: nat)
      requires Valid() && line < Height
      requires forall y, x :: 0 <= y < Height && 0 <= x < Width ==>
        video[y, x] == if y == line then Pixel(m, x) else before[y][x]
      ensures Screen() == before[line := TileRow(m)]
    {
      var drawn := before[line := TileRow(m)];
      forall y | 0 <= y < Height
        ensures Screen()[y] == drawn[y]
      {
        assert forall x | 0 <= x < Width :: Screen()[y][x] == drawn[y][x];
      }
    }
  }
}
