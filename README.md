# termGB core in Dafny

termGB is a small Game Boy emulator written in C. Its core has four parts:

- the memory map (`memory.c`): a flat 64 KiB array with a ROM loader, byte and word reads and a byte write that starts an OAM DMA transfer when register 0xFF46 is written;
- the Sharp LR35902 CPU (`cpu.c`, `cpu_core.c`, `cpu_core_extended.c`): the helpers for loads, the 8-bit and 16-bit ALU, the stack, calls and returns, rotates, bit set/reset, swap, the packed flag byte and interrupts, plus the opcode dispatcher `CPU` and the 0xCB dispatcher `CPU_EXTENDED`;
- the LCD timing (`lcd.c`): scanline countdown, LY increment, the V-Blank request and the STAT mode and coincidence bits;
- the background renderer (`gl.c`): palette lookup and drawing of one background scanline into the frame buffer.

The driving loop in `main.c` fetches an opcode, executes it, updates the LCD and then checks interrupts.

The model has two layers.

- **A pure layer.** The `Machine` datatype (`State`) holds every C global the core touches: the registers `A`..`L`, the flag struct `F` (`Z`, `N`, `H`, `C` and the packed byte `F`), `SP`, `PC`, `cycles`, the interrupt master flag `ie` with its countdown (`interruptStep`, `interruptDirection`), `scanlineCycles`, and memory as a 0x10000-byte sequence. Each C function or opcode family has a specification function:
  - memory: `MemorySpec.ReadByte`, `MemorySpec.WriteByte`, `MemorySpec.DmaTransfer`;
  - CPU helpers: `CpuSpec.AluAdd`, `CpuSpec.ServiceInterrupt`, `CpuSpec.CheckInterrupts`, …;
  - opcodes: `CpuCoreSpec.Decode`/`CpuCoreSpec.Execute`/`CpuCoreSpec.Exec`;
  - LCD: `LcdSpec.UpdateStatus`/`LcdSpec.Update`;
  - renderer: `GlSpec.DrawScanline`;
  - main loop: `MainLoop.Step`.

  The lemmas in `CpuProperties`, `CpuCoreProperties`, `MemorySpec`, `LcdSpec` and `GlSpec` state what these functions mean: sums with their carries, round trips, frames, interrupt priority and the quirks of the C code.
- **An imperative layer.** Class `Emulator.GameBoy` has the C globals as fields, `memory` as an `array<Byte>` and the frame buffer as an `array2<Byte>`. Its methods follow the C statement by statement, operand pointers included: the pointed-to value is read, and the result is written back through `Store`. Each method ensures that the new snapshot `Snap()` (and `Screen()`) equals the specification function applied to the old one.

Bytes and words are the integer subset types `Byte` (0..0xFF) and `Word` (0..0xFFFF). The C code's `uint8_t`/`uint16_t` wrap-around is written out as `% 0x100` and `% 0x1_0000`. Bitwise AND, OR and XOR are a per-bit recursive function `Bits.Bitwise`.

The C code is modelled as written, including its quirks. Each quirk is stated as a lemma:

- `CALL cc` and `RET cc` test a flag for non-zero, while `JP cc` and `JR cc` compare it with 0 or 1. After `RLCA` sets `C` to 0x80, `JP C` does not jump but `CALL C` calls (`CpuCoreProperties.RotatedCarryQuirk`).
- `CALL` pushes the return address with its bytes swapped, so `RET` lands on the byte-swapped address (`CpuCoreProperties.CallThenRet`).
- `PUSH AF` after `POP AF` loses a set `Z` flag (`CpuCoreProperties.PopPushLosesZero`).
- The STAT mode is only ever 0 or 3, because `mode_offset` is a byte compared with 376 (`LcdSpec.ModeZeroOrThree`).

## Model

| member | source | states |
|---|---|---|
| MemorySpec.ReadAfterWrite | src/memory.c:73-101 | reading an address just written (other than through DMA) gives the written byte |
| MemorySpec.WriteFrame | src/memory.c:93-101 | a write changes only its own address, except that writing 0xFF46 copies 0xA0 bytes from `data*100` into OAM |
| MemorySpec.DmaCopiesBlock | src/gl.c:48-57 | DMA sets OAM byte `0xFE00+k` to `m[source*100+k]` and leaves every other address as it was; the source block never overlaps OAM or 0xFF46 |
| MemorySpec.DmaIdempotent | src/gl.c:48-57 | repeating a DMA from the same source changes nothing |
| MemorySpec.ReadWordBigEndian | src/memory.c:79-90 | `memory_readw` puts `m[a]` in the high byte and `m[a+1]` in the low byte, so swapping its bytes gives the little-endian word |
| MemorySpec.InitMemoryLayout | src/memory.c:60-70 | after init, addresses below 0x7FFE hold the ROM, 0x7FFE..0xFFFE hold zero, and 0xFFFF is untouched |
| Emulator.GameBoy.ReadB | src/memory.c:73-76 | returns the byte at the address of the memory array |
| Emulator.GameBoy.ReadW | src/memory.c:79-90 | returns the two bytes at the address as a big-endian word |
| Emulator.GameBoy.WriteB | src/memory.c:93-101 | the memory array becomes `WriteByte` of the old one, with the DMA when 0xFF46 is written |
| Emulator.GameBoy.Dma | src/gl.c:48-57 | the loop of 0xA0 copies leaves memory equal to `DmaTransfer` of the old memory |
| Emulator.GameBoy.MemoryInit | src/memory.c:60-70 | the two loops leave memory equal to `InitMemory` of the old memory and the ROM |
| Emulator.GameBoy.constructor | src/cpu.c:29-73 | a fresh machine has every register, flag and byte zero and a blank screen |
| Emulator.GameBoy.Reset | src/cpu.c:29-73 | the registers, SP, PC and I/O registers take their power-up values as in `CpuSpec.Reset` |
| Emulator.GameBoy.LoadBootRegisters | src/cpu.c:31-43 | AF=0x01B0, BC=0x0013, DE=0x00D8, HL=0x014D with flags Z,H,C set and nothing else changed |
| Emulator.GameBoy.ResetIoRegisters | src/cpu.c:53-66 | the timer, LCD, palette and IE registers get their power-up values and no other address changes |
| CpuProperties.ResetPairs | src/cpu.c:29-73 | after reset the pairs read AF=0x01B0, BC=0x0013, DE=0x00D8, HL=0x014D and the packed F byte agrees with the flags |
| CpuProperties.ResetFrame | src/cpu.c:29-73 | reset changes no memory address outside the 13 I/O registers it sets, keeps the interrupt countdown and scanline counter, and is idempotent |
| Emulator.GameBoy.Get | src/cpu_core.c:168-350 | reads a register of the snapshot |
| Emulator.GameBoy.Set | src/cpu_core.c:168-350 | writes one register and nothing else |
| Emulator.GameBoy.GetPair | src/cpu.c:1128-1147 | reads a register pair as high*0x100+low |
| Emulator.GameBoy.SetPair | src/cpu.c:1155-1170 | writes a pair's high and low bytes and nothing else |
| Emulator.GameBoy.Deref | src/cpu.c:189-237 | reads the operand, either a register or a value read from memory |
| Emulator.GameBoy.Store | src/cpu.c:189-237 | writes a value back through the operand pointer: to its register, or nowhere for a copy of a memory byte |
| Emulator.GameBoy.ClearFlags | src/cpu.c:1388-1396 | sets Z, N, H, C and the packed F.F to zero and leaves every other field |
| Emulator.GameBoy.Jump | src/cpu.c:94-104 | jumps to the address exactly when the flag equals the condition, and returns 1 exactly then |
| Emulator.GameBoy.LoadImmediate | src/cpu.c:112-116 | loads the byte after the opcode into the register |
| Emulator.GameBoy.LoadRegister | src/cpu.c:119-123 | copies the source value into the target register |
| Emulator.GameBoy.LoadAddress | src/cpu.c:130-138 | direction 0 loads the register from memory; otherwise it stores the register to memory |
| Emulator.GameBoy.LoadImmediate16 | src/cpu.c:145-152 | loads the two bytes after the opcode into the pair, high byte from PC+2 |
| Emulator.GameBoy.PushByte | src/cpu.c:1401-1408 | decrements SP and writes the byte there |
| Emulator.GameBoy.PopByte | src/cpu.c:1414-1422 | returns the byte at SP and increments SP |
| Emulator.GameBoy.LoadSp16 | src/cpu.c:158-162 | pushes the two bytes in order |
| Emulator.GameBoy.Load16Sp | src/cpu.c:168-172 | pops two bytes, returned in pop order |
| Emulator.GameBoy.PopIntoPair | src/cpu.c:168-172 | the two pops go to the low register of the pair and then to the high one, and nothing else but SP changes |
| CpuProperties.PushPopRoundTrip | src/cpu.c:1401-1422 | popping after a push returns the pushed byte and restores SP |
| CpuProperties.PushTwicePopTwice | src/cpu.c:158-172 | `load_sp_16` then two pops give the bytes back in reverse order and restore SP |
| Emulator.GameBoy.Add8 | src/cpu.c:189-237 | ADD/ADC: A and the flags become `AluAdd` of the old state |
| Emulator.GameBoy.AddStored | src/cpu.c:215-237 | the second half of `CPU_add_8`: stores the operand, adds it to A and sets Z, H and C |
| CpuProperties.AddIsNineBitSum | src/cpu.c:189-237 | for an operand other than A, the result A plus 0x100*C is the 9-bit sum of A and the (carry-adjusted) operand; Z iff A is 0; N is 0; H iff the low nibbles overflow; the carry-adjusted value is written back through the operand |
| CpuProperties.AddToItself | src/cpu.c:189-237 | for ADD A,A the sum is still the 9-bit double, but H is computed from the final A because the pointer aliases A |
| CpuProperties.AddToItselfHalfCarry | src/cpu.c:189-237 | with A=0x08, ADD A,A gives 0x10 with H=0 although the low nibbles overflow |
| Emulator.GameBoy.Subtract8 | src/cpu.c:251-307 | SUB/SBC: A and the flags become `AluSubtract` of the old state |
| Emulator.GameBoy.SubtractStored | src/cpu.c:275-307 | the second half of `CPU_subtract_8`: stores the operand and subtracts it |
| CpuProperties.SubtractIsDifference | src/cpu.c:251-307 | for an operand other than A, A minus 0x100*C is A minus the operand, with flags Z iff 0, N=1, H=0, C iff borrow |
| CpuProperties.SubtractFromItself | src/cpu.c:251-307 | SUB A,A and SBC A,A give A=0 with Z and N set |
| Emulator.GameBoy.And8Op | src/cpu.c:317-330 | AND: A and flags become `AluAnd` |
| Emulator.GameBoy.Or8Op | src/cpu.c:340-350 | OR: A and flags become `AluOr` |
| Emulator.GameBoy.Xor8Op | src/cpu.c:360-370 | XOR: A and flags become `AluXor` |
| CpuProperties.LogicBits | src/cpu.c:317-370 | every bit of the AND, OR and XOR result is the boolean combination of the same bits of A and the operand |
| CpuProperties.XorItselfClears | src/cpu.c:360-370 | XOR A,A clears A and sets only Z |
| Emulator.GameBoy.Compare8 | src/cpu.c:385-421 | CP: only the flags change, as `AluCompare` |
| CpuProperties.CompareOnlyFlags | src/cpu.c:385-421 | CP leaves everything except F unchanged, with Z iff A equals the operand, N=1, H=0 and C iff A is below the operand |
| CpuProperties.CompareOther | src/cpu.c:385-421 | the same for an operand other than A, through the operand pointer |
| Emulator.GameBoy.IncDec8 | src/cpu.c:436-471 | INC/DEC of a byte returns the new value with flags as `IncDec8` |
| CpuProperties.IncFlags | src/cpu.c:436-471 | increment gives (x+1) mod 0x100; H iff the low nibble overflows; Z iff x was 0xFF; N=0, C=0; nothing but F changes |
| CpuProperties.DecFlags | src/cpu.c:436-471 | decrement gives x-1 (0xFF from 0); N=1; H iff the low nibble borrows; Z iff x was 1; C=0; nothing but F changes |
| CpuProperties.IncDecRoundTrip | src/cpu.c:436-471 | decrementing an incremented byte gives it back and changes only the flags |
| Emulator.GameBoy.Add16 | src/cpu.c:485-518 | ADD HL,rr: the pair and flags become `Add16` |
| CpuProperties.Add16IsSum | src/cpu.c:485-518 | the new pair plus 0x10000*C is the 17-bit sum; H iff the low 12 bits overflow; Z=0 and N=0; SP, PC, A and memory unchanged |
| Emulator.GameBoy.AddSpN | src/cpu.c:528-573 | ADD SP,n: SP and flags become `AddSpN` |
| CpuProperties.AddSpNFlags | src/cpu.c:528-573 | SP becomes SP+n mod 0x10000 and C is the carry out of the low byte as the C code computes it; SP=0x00FF plus 1 gives 0x0100 with C=0 and H=0 |
| Emulator.GameBoy.IncDec16 | src/cpu.c:584-602 | INC/DEC rr: only the pair changes, by one with wrap-around |
| CpuProperties.IncDec16RoundTrip | src/cpu.c:584-602 | an increment and a decrement of a 16-bit value cancel in both orders |
| Emulator.GameBoy.Call | src/cpu.c:610-646 | CALL: pushes the return address and jumps, as `CpuSpec.Call` |
| Emulator.GameBoy.Restart | src/cpu.c:657-675 | RST: pushes PC+1 and jumps to the offset |
| Emulator.GameBoy.PushWord | src/cpu.c:1026-1075 | pushes a word's high byte, then its low byte |
| Emulator.GameBoy.Return | src/cpu.c:680-706 | RET: pops two bytes into PC and adds 2 to SP |
| CpuProperties.CallReturn | src/cpu.c:610-706 | RET after CALL restores SP and lands on the byte-swapped return address |
| CpuProperties.RestartReturn | src/cpu.c:657-706 | RET after RST restores SP and lands on the byte-swapped PC+1 |
| CpuProperties.ReturnAfterTwoPushes | src/cpu.c:680-706 | RET after pushing a then b restores SP and jumps to b*0x100+a |
| CpuProperties.ServiceReturn | src/cpu.c:1026-1075 | RET after an interrupt service returns to the interrupted PC and restores SP |
| CpuProperties.ReturnSkipsFired | src/cpu.c:1026-1075 | clearing the IF byte does not disturb two pushed bytes that lie elsewhere |
| Emulator.GameBoy.Rotate | src/cpu.c:717-756 | RLC/RRC: returns the rotated value with flags as `Rotate` |
| CpuProperties.RotateRightValue | src/cpu.c:717-756 | a right rotate moves bit 0 to bit 7 and sets C to the old bit 0 |
| CpuProperties.RotateRightBits | src/cpu.c:717-756 | bit i of the right-rotated byte is bit (i+1) mod 8 of the input |
| CpuProperties.RotateRightTimesBits | src/cpu.c:717-756 | bit i after n right rotates is bit (i+n) mod 8 of the input |
| CpuProperties.FullTurnsRight | src/cpu.c:717-756 | a multiple of 8 right rotates gives the byte back |
| CpuProperties.RotateLeftValue | src/cpu.c:717-756 | a left rotate doubles the byte mod 0x100 and adds 0x80 (not 1) when bit 7 was set; C becomes 0x80 or 0 |
| Emulator.GameBoy.RotateThrough | src/cpu.c:769-798 | RL/RR: returns the value rotated through the carry with flags as `RotateThrough` |
| CpuProperties.RotateThroughLeft | src/cpu.c:769-798 | RL gives 2x+C mod 0x100; C becomes 0x80 or 0 from bit 7; Z iff the result is 0; N=H=0; only F changes |
| CpuProperties.RotateThroughRight | src/cpu.c:769-798 | RR shifts right and, when the old C is 1, ORs it into bit 0 (not bit 7), so the result stays below 0x80; C becomes the old bit 0; Z iff the result is 0; N=H=0; only F changes |
| Emulator.GameBoy.SetBit | src/cpu.c:806-827 | SET b: the register gets bit b set and nothing else changes |
| Emulator.GameBoy.ResBit | src/cpu.c:832-855 | RES b: the register gets bit b cleared and nothing else changes |
| Bits.SetBitValueBits | src/cpu.c:806-827 | SET b turns bit b on and keeps every other bit |
| Bits.ResBitValueBits | src/cpu.c:832-855 | RES b turns bit b off and keeps every other bit |
| Bits.SetBitIdempotent | src/cpu.c:806-827 | setting the same bit twice equals setting it once |
| Bits.ResBitIdempotent | src/cpu.c:832-855 | clearing the same bit twice equals clearing it once |
| Emulator.GameBoy.Swap | src/cpu.c:870-896 | SWAP: returns the nibble-swapped value with flags as `Swap` |
| CpuProperties.SwapNibblesParts | src/cpu.c:870-896 | the swapped byte is low nibble*0x10 plus high nibble |
| CpuProperties.SwapInvolution | src/cpu.c:870-896 | swapping twice gives the byte back; Z iff the byte is 0 and N, H, C are 0 |
| Emulator.GameBoy.Complement | src/cpu.c:901-905 | CPL: the register becomes its bitwise complement |
| Bits.NotIsXor | src/cpu.c:901-905 | the complement is XOR with 0xFF |
| Emulator.GameBoy.InterruptSwitch | src/cpu.c:913-920 | EI/DI start the two-step countdown as `InterruptSwitch` |
| Emulator.GameBoy.ServiceInterrupt | src/cpu.c:1026-1075 | pushes PC, jumps to the vector, disables interrupts and clears the IF bit |
| CpuProperties.ServiceRegisters | src/cpu.c:1026-1075 | service lowers SP by 2, sets PC to 0x40, 0x48, 0x50 or 0x60 for bits 0, 1, 2 and 4, keeps PC for bit 3 (and any other bit), and clears `ie` and the countdown |
| CpuProperties.ServiceKeepsFired | src/cpu.c:1026-1075 | the IF byte after service is the old IF with that bit cleared, when the push does not land on 0xFF0F |
| Emulator.GameBoy.CheckInterrupts | src/cpu.c:923-1018 | runs the countdown and then services every enabled, fired interrupt in bit order |
| CpuProperties.CheckInterruptsEffect | src/cpu.c:923-1018 | for every IF, IE and SP: with nothing to service only the countdown changes; otherwise PC is the vector of the highest serviced bit, SP drops by 2 per serviced bit, `ie` is 0, and (when the pushes miss IF) each serviced IF bit is cleared and every other bit kept |
| CpuProperties.SerialIgnored | src/cpu.c:923-1018 | a pending serial interrupt (bit 3) alone is never serviced |
| CpuProperties.NoneServiced | src/cpu.c:923-1018 | no interrupt is serviced from a bit onwards iff the serviced count from there is 0 |
| CpuProperties.NothingServicedFrom | src/cpu.c:923-1018 | when nothing is serviced from a bit onwards, the remaining checks leave the machine unchanged |
| CpuProperties.ServiceFromTarget | src/cpu.c:923-1018 | after the checks from a bit, PC is the vector of the last serviced interrupt |
| CpuProperties.ServiceFromStack | src/cpu.c:923-1018 | after the checks from a bit, SP is lowered by 2 per serviced interrupt |
| CpuProperties.ServicedStack | src/cpu.c:923-1018 | the same when the first bit is itself serviced |
| CpuProperties.ServiceFromDisables | src/cpu.c:923-1018 | if anything is serviced, `ie` ends at 0 |
| CpuProperties.ServiceFromFired | src/cpu.c:923-1018 | each serviced IF bit is cleared and every other bit is kept, when the pushes miss 0xFF0F |
| CpuProperties.ServiceStep | src/cpu.c:923-1018 | servicing one bit lowers SP by 2 and the rest of the checks continue from the next bit |
| CpuProperties.CheckWhileDisabled | src/cpu.c:923-1018 | with `ie` off after the countdown, the check only runs the countdown |
| CpuProperties.EnableTakesTwoChecks | src/cpu.c:913-1018 | after EI, interrupts are still off at the first check and on after the second countdown step |
| CpuProperties.VBlankServiced | src/cpu.c:923-1075 | a lone V-Blank goes to 0x40, clears IF, disables interrupts and RET returns to the old PC |
| CpuProperties.VBlankOnly | src/cpu.c:923-1018 | a lone V-Blank check equals one service of bit 0 |
| CpuProperties.VBlankAndTimer | src/cpu.c:923-1018 | V-Blank and timer both pending: bit 0 is serviced, then bit 2 |
| CpuProperties.AllPendingServiced | src/cpu.c:923-1018 | with V-Blank and timer pending, PC ends at the timer vector 0x50 and SP is 4 lower |
| CpuProperties.NothingFiredFrom | src/cpu.c:923-1018 | with no fired bit from a given bit onwards, the checks change nothing |
| Emulator.GameBoy.SetBitInByte | src/cpu.c:1307-1381 | `setbit` sets bit b for b below 8 (equal to OR with 2^b) and leaves the byte unchanged for b = 8 |
| CpuProperties.SetBitShiftsIsOr | src/cpu.c:1307-1381 | the shift-based `setbit` equals setting the bit, and is the identity at bit 8 |
| CpuProperties.SetBitValueIsOr | src/cpu.c:1307-1381 | setting bit b equals OR with 2^b |
| Emulator.GameBoy.RequestInterrupt | src/cpu.c:1080-1093 | sets the bit in IF |
| CpuProperties.RequestSetsBit | src/cpu.c:1080-1093 | only IF changes, and it gains exactly the requested bit |
| Emulator.GameBoy.CompileF | src/cpu.c:1200-1276 | packs the flags into F (direction 0) or unpacks F into the flags (direction 1) |
| Emulator.GameBoy.PackF | src/cpu.c:1200-1240 | the packing half of `compiler_F` stores `PackedF` in F |
| Emulator.GameBoy.ShiftFlagIn | src/cpu.c:1200-1240 | one packing step: F becomes (F+flag)*factor mod 0x100 |
| CpuProperties.PackedValue | src/cpu.c:1200-1240 | for 0/1 flags and an even stale F, the packed byte is Z*0x80+N*0x40+H*0x20+C*0x10 |
| CpuProperties.PackUnpack | src/cpu.c:1200-1276 | unpacking a packed F gives the flags back |
| Emulator.GameBoy.PCPlus | src/cpu_core.c:76-91 | PC plus k with 16-bit wrap-around |
| Emulator.GameBoy.Convert16m | src/cpu.c:1098-1119 | combines two memory bytes into a word as `Convert16m` |
| Bits.PairRoundTrip | src/cpu.c:1128-1170 | splitting a word into high and low bytes and joining them gives the word back |
| Bits.BytesRoundTrip | src/cpu.c:1128-1170 | joining two bytes and splitting the word gives the bytes back |
| Bits.SwapByteOrderSwaps | src/cpu.c:1177-1187 | `swap_byte_order` exchanges the two bytes and is its own inverse |
| Bits.BitTest | src/cpu.c:1288-1302 | `bitset` returns bit b of the byte, 0 for b of 8 or more |
| CpuCoreProperties.DecodeHandled | src/cpu_core.c:38-4575 | an opcode is undecoded iff it is one of the opcodes the C switch has no case for |
| CpuCoreProperties.DecodeLowQuarter | src/cpu_core.c:38-4575 | among 0x00..0x3F only DAA (0x27) and SCF (0x37) are unhandled |
| CpuCoreProperties.DecodeMiddle | src/cpu_core.c:38-4575 | among 0x40..0xBF only HALT (0x76) is unhandled |
| CpuCoreProperties.DecodeHighQuarter | src/cpu_core.c:38-4575 | the unhandled opcodes from 0xC0 up are the listed ones |
| CpuCoreProperties.ExtendedResult | src/cpu_core_extended.c:28-333 | `CPU_EXTENDED` returns 0 iff the 0xCB opcode is handled, -1 otherwise, and an unhandled one changes nothing |
| CpuCoreProperties.ExecResult | src/cpu_core.c:38-4575 | `CPU` returns 0 or -1; -1 iff the opcode (or the 0xCB suffix) is unhandled; an unhandled opcode leaves the machine unchanged, except that 0xCB has already stepped PC |
| CpuCoreProperties.ExecAdvances | src/cpu_core.c:38-4575 | every handled non-jump, non-prefix opcode returns 0 and advances PC by its length |
| CpuCoreProperties.ExecIs | src/cpu_core.c:38-4575 | executing a decoded opcode is executing its instruction, with result 0 |
| CpuCoreProperties.ExecPrefix | src/cpu_core.c:43-57 | 0xCB steps PC and hands the next byte to the extended dispatcher |
| CpuCoreProperties.LoadAdvances | src/cpu_core.c:58-1467 | every load advances PC by its instruction length |
| CpuCoreProperties.StackAdvances | src/cpu_core.c:1469-1625 | every PUSH and POP advances PC by one |
| CpuCoreProperties.ArithmeticAdvances | src/cpu_core.c:1627-3813 | every ALU, INC, DEC and 16-bit add advances PC by its length |
| CpuCoreProperties.MiscAdvances | src/cpu_core.c:3815-3896 | the accumulator rotates, NOP, STOP, EI, DI, CPL and CCF advance PC by their length |
| CpuCoreProperties.ConditionalNotTaken | src/cpu_core.c:3915-4455 | a conditional CALL, RET, JP or JR whose condition fails only advances PC past its operands |
| CpuCoreProperties.ConditionalTaken | src/cpu_core.c:3915-4455 | a taken conditional CALL or RET is the unconditional one; a taken JP loads the immediate address; all charge 8 cycles (RET cc, JR cc) or 12 (CALL cc, JP cc) either way |
| CpuCoreProperties.ConditionsAgree | src/cpu_core.c:3915-4455 | truth tests and 0/1 comparisons agree for flags of 0 or 1, and disagree for a flag above 1 |
| CpuCoreProperties.LoadRegisterCopies | src/cpu_core.c:168-1045 | LD r,r' copies the source register into the target, changes nothing else and advances PC by 1 in 4 cycles |
| CpuCoreProperties.LoadIncrementAddresses | src/cpu_core.c:1216-1268 | LD A,(HL+) reads (HL) and increments HL; LD (HL+),A writes A at the byte-swapped HL and increments HL |
| CpuCoreProperties.LoadDecrementAddresses | src/cpu_core.c:1172-1214 | LD A,(HL-) and LD (HL-),A read or write (HL) and decrement HL |
| CpuCoreProperties.HighPageRoundTrip | src/cpu_core.c:1270-1311 | LDH (n),A then LDH A,(n) at the same offset reads A back |
| CpuCoreProperties.PushPopPair | src/cpu_core.c:1488-1625 | PUSH rr then POP rr gives the pair back, restores SP, keeps every register and F, and advances PC by 2 |
| CpuCoreProperties.PushPopAF | src/cpu_core.c:1469-1559 | PUSH AF then POP AF restores A, the flags and SP, with F holding the packed byte |
| CpuCoreProperties.PushAFStep | src/cpu_core.c:1469-1487 | PUSH AF pushes A, then the packed flags |
| CpuCoreProperties.PopAFStep | src/cpu_core.c:1536-1559 | POP AF takes F from the top, unpacks it into the flags, and takes A from the next byte |
| CpuCoreProperties.PopPushLosesZero | src/cpu_core.c:1469-1559 | POP AF of 0x81 sets Z, but a following PUSH AF packs the stale F with it and pushes 0 |
| CpuCoreProperties.RotatedCarryQuirk | src/cpu_core.c:3815-3834 | after RLCA of A of 0x80 or more, C=0x80, so JP C (0xDA) does not jump while CALL C (0xDC) calls |
| CpuCoreProperties.AccumulatorRotateFlags | src/cpu_core.c:3815-3896 | RLCA, RRCA, RLA and RRA clear N and H, set Z iff A becomes 0, keep the packed byte, step PC by 1 and take 4 cycles |
| CpuCoreProperties.RelativeJumps | src/cpu_core.c:4341-4393 | JR adds the signed offset to PC while a taken JR NZ adds 2 more |
| CpuCoreProperties.CallThenRet | src/cpu_core.c:3898-4123 | CALL nn then RET restores SP and continues at the byte-swapped return address |
| CpuCoreProperties.EnableDelay | src/cpu_core.c:4492-4511 | after EI the first interrupt check still sees interrupts off; two countdown steps turn them on |
| CpuCoreProperties.DisableDelay | src/cpu_core.c:4472-4491 | after DI interrupts stay as they were for one countdown step and are off after two |
| CpuCoreProperties.ReturnFromInterrupt | src/cpu_core.c:4192-4216 | RETI returns like RET and schedules interrupts to be enabled after two countdown steps |
| CpuCoreProperties.EightRrcas | src/cpu_core.c:3855-3874 | n RRCAs with n a multiple of 8 give A back and advance PC by n |
| CpuCoreProperties.RrcaRotates | src/cpu_core.c:3855-3874 | n RRCAs rotate A right n times |
| CpuCoreProperties.ComplementA | src/cpu_core.c:4513-4535 | CPL flips every bit of A, sets N and H, and is its own inverse |
| CpuCoreProperties.ComplementCarry | src/cpu_core.c:4536-4565 | CCF flips a 0/1 carry (twice gives it back), clears N and H, keeps Z, and turns a carry above 1 into 0 |
| CpuCoreProperties.IncDecAccumulator | src/cpu_core.c:3209-3406 | INC A adds one (Z iff A was 0xFF) and DEC A undoes it with C=0 |
| CpuCoreProperties.AddRegister | src/cpu_core.c:1648-1773 | ADD A,r: A plus 0x100*C is the 9-bit sum, N=0, Z iff A is 0, PC+1, 4 cycles |
| CpuCoreProperties.ClearAccumulator | src/cpu_core.c:2022-2042 | SUB A clears A with Z and N set; XOR A (2814) clears A with only Z set |
| CpuCoreProperties.CompareRegister | src/cpu_core.c:3033-3158 | CP r changes only the flags (Z iff equal, N=1, C iff A is below r), PC and cycles |
| CpuCoreProperties.IncDecPairRoundTrip | src/cpu_core.c:3676-3813 | INC rr then DEC rr gives the pair back, keeps F and advances PC by 2 |
| CpuCoreProperties.SwapRegister | src/cpu_core_extended.c:35-174 | CB SWAP r swaps the nibbles of r only, sets Z iff r was 0, advances PC by 3 and takes 8 cycles |
| CpuCoreProperties.SwapTwice | src/cpu_core_extended.c:35-54 | two CB SWAP A give A back and advance PC by 6 |
| CpuCoreProperties.SwapMemory | src/cpu_core_extended.c:175-210 | CB SWAP (HL) writes the swapped byte through `memory_writeb` and changes only memory, F, PC and cycles |
| CpuCoreProperties.ExtendedSwap | src/cpu_core_extended.c:35-174 | in the extended dispatcher SWAP r swaps only r and advances PC by 2 |
| CpuCoreProperties.ResetBit | src/cpu_core_extended.c:211-323 | CB RES b,A clears bit b of A and keeps the other bits, F and memory |
| CpuCoreProperties.ExtendedReset | src/cpu_core_extended.c:211-323 | the same inside the extended dispatcher |
| CpuCoreSpec.DecodeReadWord | src/cpu_core.c:303-321 | only LD A,(nn) and LD (nn),SP read a word from the operand |
| Emulator.GameBoy.FlagValue | src/cpu_core.c:3915-4455 | reads the Z or C flag that a conditional tests |
| Emulator.GameBoy.RunLoad | src/cpu_core.c:58-1467 | executes any load as `ExecuteLoad` |
| Emulator.GameBoy.RunLoadBasic | src/cpu_core.c:58-1345 | the register, pair, (C) and 16-bit immediate loads |
| Emulator.GameBoy.RunLdHLImm | src/cpu_core.c:1047-1073 | LD (HL),n |
| Emulator.GameBoy.RunLdAFromAbs | src/cpu_core.c:303-321 | LD A,(nn) |
| Emulator.GameBoy.RunLdAImm | src/cpu_core.c:322-337 | LD A,n |
| Emulator.GameBoy.RunLdAbsFromA | src/cpu_core.c:1125-1145 | LD (nn),A |
| Emulator.GameBoy.RunLoadHigh | src/cpu_core.c:1270-1311 | LDH (n),A and LDH A,(n) |
| Emulator.GameBoy.RunLoadHLStep | src/cpu_core.c:1172-1245 | LD A,(HL-), LD (HL-),A and LD A,(HL+) |
| Emulator.GameBoy.LoadThroughHL | src/cpu_core.c:1172-1245 | one load through HL, then HL moves by the step |
| Emulator.GameBoy.RunLdHLIncFromA | src/cpu_core.c:1246-1269 | LD (HL+),A |
| Emulator.GameBoy.RunLdSpImm16 | src/cpu_core.c:1361-1394 | LD SP,nn |
| Emulator.GameBoy.RunLdSpHL | src/cpu_core.c:1395-1409 | LD SP,HL |
| Emulator.GameBoy.RunLdHLSpN | src/cpu_core.c:1410-1450 | LD HL,SP+n |
| Emulator.GameBoy.AddSpNIntoHL | src/cpu_core.c:1410-1450 | HL gets SP+n with the flags of ADD SP,n, and SP is kept |
| Emulator.GameBoy.RunLdSpAbs | src/cpu_core.c:1451-1467 | LD (nn),SP |
| Emulator.GameBoy.RunStack | src/cpu_core.c:1469-1625 | executes any PUSH or POP as `ExecuteStack` |
| Emulator.GameBoy.RunPushAF | src/cpu_core.c:1469-1487 | PUSH AF |
| Emulator.GameBoy.RunPushPair | src/cpu_core.c:1488-1535 | PUSH BC, DE and HL |
| Emulator.GameBoy.RunPopAF | src/cpu_core.c:1536-1559 | POP AF |
| Emulator.GameBoy.RunPopPair | src/cpu_core.c:1560-1625 | POP BC, DE and HL |
| Emulator.GameBoy.RunAlu | src/cpu_core.c:1627-3208 | dispatches one ALU operation |
| Emulator.GameBoy.RunArithmetic | src/cpu_core.c:1627-3813 | executes any arithmetic opcode as `ExecuteArithmetic` |
| Emulator.GameBoy.RunAluCase | src/cpu_core.c:1627-3208 | ALU on a register, (HL) or an immediate |
| Emulator.GameBoy.RunIncDecReg | src/cpu_core.c:3209-3533 | INC r and DEC r |
| Emulator.GameBoy.RunIncDecHL | src/cpu_core.c:3356-3385 | INC (HL) and DEC (HL), written back to memory |
| Emulator.GameBoy.RunAddHL | src/cpu_core.c:3565-3649 | ADD HL,rr and ADD HL,SP |
| Emulator.GameBoy.RunAddSPImm | src/cpu_core.c:3650-3675 | ADD SP,n |
| Emulator.GameBoy.RunIncDecWord | src/cpu_core.c:3676-3813 | INC rr, DEC rr, INC SP and DEC SP |
| Emulator.GameBoy.RunControl | src/cpu_core.c:3898-4455 | executes any call, restart, return or jump as `ExecuteControl` |
| Emulator.GameBoy.RunCall | src/cpu_core.c:3898-3998 | CALL nn and CALL cc,nn |
| Emulator.GameBoy.RunRst | src/cpu_core.c:3999-4110 | RST n |
| Emulator.GameBoy.RunReturn | src/cpu_core.c:4111-4216 | RET, RET cc and RETI |
| Emulator.GameBoy.RunJump | src/cpu_core.c:4217-4340 | JP nn, JP cc,nn and JP (HL) |
| Emulator.GameBoy.RunRelativeJump | src/cpu_core.c:4341-4455 | JR n and JR cc,n |
| Emulator.GameBoy.RunMisc | src/cpu_core.c:3815-4565 | rotates, NOP, STOP, EI, DI, CPL and CCF as `ExecuteMisc` |
| Emulator.GameBoy.RunRotateA | src/cpu_core.c:3815-3896 | RLCA, RLA, RRCA and RRA |
| Emulator.GameBoy.RunCpl | src/cpu_core.c:4513-4535 | CPL |
| Emulator.GameBoy.RunCcf | src/cpu_core.c:4536-4565 | CCF |
| Emulator.GameBoy.CpuExtended | src/cpu_core_extended.c:28-333 | the 0xCB dispatcher: the new state and result are `Extended` of the old state |
| Emulator.GameBoy.Cpu | src/cpu_core.c:38-4575 | the opcode dispatcher: the new state and result are `Exec` of the old state |
| Emulator.GameBoy.Run | src/cpu_core.c:58-4565 | executes one decoded instruction as `Execute` |
| Emulator.GameBoy.Step | src/main.c:66-96 | one pass of the main loop: the state, screen and continue flag are `MainLoop.Step` of the old ones |
| MainLoop.StepStops | src/main.c:66-96 | the loop stops iff the opcode (or its 0xCB suffix) is unhandled; stopping leaves the screen and machine as they were, apart from the 0xCB PC step |
| Emulator.GameBoy.LcdInit | src/lcd.c:29-32 | sets the scanline counter to 456 |
| LcdSpec.Init | src/lcd.c:29-32 | the scanline counter starts at 456 cycles |
| Emulator.GameBoy.LcdEnabled | src/lcd.c:228-238 | returns bit 7 of LCDC |
| LcdSpec.EnabledIsBitSeven | src/lcd.c:228-238 | the LCD is enabled iff bit 7 of LCDC is set |
| Emulator.GameBoy.LcdMode | src/lcd.c:244-259 | returns the low two bits of STAT |
| LcdSpec.ModeIsLowBits | src/lcd.c:244-259 | the mode is STAT mod 4 |
| Emulator.GameBoy.LcdUpdateStatus | src/lcd.c:83-219 | STAT and IF become `UpdateStatus` of the old state |
| Emulator.GameBoy.ChooseMode | src/lcd.c:103-136 | picks mode 0 iff the byte offset is at most 204, otherwise mode 3, with the interrupt request of that branch |
| LcdSpec.ModeZeroOrThree | src/lcd.c:103-136 | the chosen mode is 0 iff the offset is at most 204 and 3 otherwise; the request is STAT bit 3 for mode 0, bit 4 in V-Blank lines, 0 otherwise |
| Emulator.GameBoy.SetModeBits | src/lcd.c:156-192 | mode 0 clears the mode bits, and mode 3 (no case) keeps them |
| LcdSpec.ModeBitsValue | src/lcd.c:156-192 | the new mode bits are 0 for mode 0 and the current bits for mode 3 |
| Emulator.GameBoy.StoreStatus | src/lcd.c:201-218 | sets or clears the coincidence bit and writes STAT |
| LcdSpec.StatusWritten | src/lcd.c:83-219 | STAT is written as the mode bits plus 4 iff LY equals LYC; it stays below 8; bit 2 is set iff LY equals LYC |
| LcdSpec.StatusStored | src/lcd.c:201-218 | the written STAT is the new mode bits with the coincidence bit set iff LY equals LYC |
| LcdSpec.StatusModeBits | src/lcd.c:103-192 | the stored mode bits are 0 when the offset is at most 204, else the old STAT mod 4 |
| LcdSpec.StatusInterrupt | src/lcd.c:146-150 | the LCD STAT interrupt is requested iff the mode changed and its STAT enable bit is set |
| LcdSpec.StatusNoLineInterrupt | src/lcd.c:201-212 | the LY=LYC check tests bit 6 of the new mode value, which is below 8, so the coincidence interrupt is never requested |
| LcdSpec.StatusFrame | src/lcd.c:83-219 | the status update changes only STAT and IF |
| LcdSpec.StatusKeeps | src/lcd.c:83-219 | the status update keeps the scanline counter, LCDC, LY and the V-Blank request bit |
| Emulator.GameBoy.LcdUpdate | src/lcd.c:42-75 | machine and screen become `Update` of the old ones |
| Emulator.GameBoy.LcdTick | src/lcd.c:46-75 | the enabled branch: count down, and at zero go to the next line |
| Emulator.GameBoy.NextLine | src/lcd.c:53-72 | reloads the counter, increments LY (wrapping after 153), requests V-Blank at line 144 and draws lines below 144 |
| LcdSpec.DisabledUpdate | src/lcd.c:42-75 | with the LCD off only the status is updated; the counter and LY are kept |
| LcdSpec.EnabledUpdate | src/lcd.c:42-75 | with the LCD on, the counter counts down while positive; at zero it reloads 456 and LY goes to the next line, 0 after 153 |
| LcdSpec.EnabledTick | src/lcd.c:46-75 | the same for the enabled branch, with the V-Blank request bit set when the new line is 144 |
| LcdSpec.NextLineEffect | src/lcd.c:53-72 | the next line reloads the counter, moves LY (0 after 153) and sets IF bit 0 exactly at line 144 |
| LcdSpec.LineStaysBelow154 | src/lcd.c:42-75 | LY never leaves 0..153 |
| LcdSpec.VBlankRequest | src/lcd.c:42-75 | IF bit 0 is set after an update iff the enabled LCD finished line 143, and is otherwise unchanged |
| LcdSpec.TickVBlank | src/lcd.c:46-75 | the same for the enabled branch |
| LcdSpec.DrawnLines | src/lcd.c:42-75 | a scanline is drawn iff the enabled LCD finished a line and the new LY is below 144; otherwise the screen is unchanged |
| LcdSpec.TickDraws | src/lcd.c:46-75 | the same for the enabled branch |
| LcdSpec.OneLine | src/lcd.c:42-75 | 456 cycles from the start of line 0 move LY to 1 and reload the counter |
| LcdSpec.ResetDisplay | src/cpu.c:29-73 | after reset the LCD is on, the background is on, the map is at 0x9800, tiles at 0x8000, the palette is 0xFC and LY is untouched |
| Emulator.GameBoy.GetBitColor | src/gl.c:62-123 | returns the palette shade of a colour index: bits 2c and 2c+1 of BGP |
| GlSpec.PaletteLookup | src/gl.c:62-123 | the shade of colour c is (BGP / 4^c) mod 4 and is below 4 |
| GlSpec.ColorIndex | src/gl.c:432-483 | every colour index is at most 3 |
| GlSpec.TileRow | src/gl.c:432-483 | the drawn row holds, at each x, that pixel's shade, always below 4 |
| GlSpec.PixelShade | src/gl.c:432-483 | each pixel is the palette shade of its colour index |
| GlSpec.BaseSelection | src/gl.c:432-483 | the map is at 0x9C00 iff LCDC bit 3 is set (else 0x9800), tiles at 0x8000 iff bit 4 is set (else 0x8800) |
| GlSpec.UnsignedTiles | src/gl.c:432-483 | the tile number is used unsigned: the tile address is base + 16*number, inside a 4 KiB block |
| GlSpec.LeftHalfBits | src/gl.c:432-483 | for the left four pixels of a tile, the colour index is made of bits 2*(x mod 8) of the two row bytes |
| GlSpec.RightHalfIsColorZero | src/gl.c:432-483 | the right four pixels of every tile have colour index 0, because the bit position runs past 7 |
| Emulator.GameBoy.DrawScanline | src/gl.c:125-154 | the screen becomes `DrawScanline` of the old screen and memory |
| GlSpec.DrawScanlineEffect | src/gl.c:125-154 | with the background off nothing is drawn; with it on, row LY becomes the tile row; every other row is kept |
| GlSpec.DrawTwice | src/gl.c:125-154 | drawing the same scanline twice equals drawing it once |
| Emulator.GameBoy.TilePixel | src/gl.c:440-481 | computes one background pixel's shade as `Pixel` |
| Emulator.GameBoy.DrawTiles | src/gl.c:432-483 | the loop over 160 pixels replaces row LY with the tile row and keeps the other rows |
| Emulator.GameBoy.RowStored | src/gl.c:432-483 | a frame buffer whose row LY holds the pixels and whose other rows are unchanged is the old screen with that row replaced |

## Left out

- Printing and tracing: the `printf` traces, `printROM`, `printMEMORY` and the bank dumps (src/memory.c:104-149) only write to the terminal and are not modelled.
- GL_SDL_draw_scanline (src/gl.c:153) hands the finished line to SDL. SDL drawing is I/O, so the model stops at the frame buffer.
- load_rom (src/memory.c:32-57) reads a file. `MemorySpec.InitMemory` and `Emulator.GameBoy.MemoryInit` take the ROM bytes as a parameter instead.
- MainLoop.Step: the `total_cycles`/`max_cycles` frame pacing, the debug printing and the `scanf` single-stepping of src/main.c:66-96 are left out. One `Step` is one fetch and execute, then the LCD update, then the interrupt check, in the loop's order.
- MemorySpec.ReadWord, Emulator.GameBoy.ReadW: require `address < 0xFFFF`, because `memory_readw(0xFFFF)` reads past the 64 KiB array, which is undefined behaviour in C.
- CpuCoreSpec.ExecDefined, Emulator.GameBoy.Cpu, Emulator.GameBoy.RunLdAFromAbs, Emulator.GameBoy.RunLdSpAbs: require `PC != 0xFFFE` for 0xFA and 0x08, because their word read would start at 0xFFFF (the undefined read above).
- MemorySpec.InitMemory, Emulator.GameBoy.MemoryInit: require a ROM of at least 0x7FFE bytes. `memory_init` copies that many bytes without checking the length.
- GlSpec.PaletteColor, Emulator.GameBoy.GetBitColor: require `color <= 3`. The C function has no case above 3 and returns an uninitialised value there.
- GlSpec.DrawTiles, Emulator.GameBoy.DrawTiles, Emulator.GameBoy.DrawScanline: require LY below 144 when the background is on, because a row of 144 or more would index past the frame buffer. `LCD_update` only draws lines below 144.
- CpuSpec.ServiceInterrupt, Emulator.GameBoy.ServiceInterrupt, Emulator.GameBoy.SetBit, Emulator.GameBoy.ResBit: require `bit <= 30`. A shift `1 << bit` of 31 or more is undefined for `int` in C, and the core only passes bits 0..7.
- Emulator.GameBoy.SetBitInByte, CpuSpec.SetBitShifts: require `bit <= 8`. The shifts in `setbit` are undefined beyond that, and the core passes at most 8.
- CpuProperties.ServiceReturn, CpuProperties.ServiceKeepsFired, CpuProperties.VBlankServiced: assume SP is not 0xFF10 or 0xFF11. There the pushed return address lands on IF (0xFF0F), and clearing the IF bit afterwards alters the pushed byte; the model computes that case as the C code does, but the round trip does not hold for it.
- CpuProperties.CheckInterruptsEffect, CpuProperties.ServiceFromFired: state the per-bit IF clearing only when the pushes miss 0xFF0F (SP at most 0xFF0F or at least 0xFF1A), for the same reason. The PC, SP and `ie` parts hold for every SP.
- GL_draw_scanline reads STAT into a local `LCD_status` that it never uses (src/gl.c:129); the model has no counterpart.
- Emulator.GameBoy.ChooseMode: the mode-2 branch of LCD_update_status is dead, because the byte offset is never 376 or more (`LcdSpec.ModeZeroOrThree`); the model has the branch but cannot reach it.
- Arithmetic on C `int` (cycle counters, `scanline_cycles`) is unbounded in the model. The C `int` cannot overflow at the values the core reaches.
- Operand pointers (`byte *reg`) are modelled by value with an explicit write-back (`CpuSpec.Assign`, `Emulator.GameBoy.Store`), so two pointers to the same register are handled case by case (`CpuProperties.AddToItself`), not by general aliasing.
- `& 0xF` and `& 0xFF` on values known to be non-negative are written as `% 0x10` and `% 0x100`.
- The timer, joypad, sound, sprites, the window layer and the memory bank controller are not part of the C core and are not modelled.
