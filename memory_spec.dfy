// The memory bus of memory.c, and the OAM DMA transfer of gl.c that every
// byte store to 0xFF46 starts, as functions on the address space.

module MemorySpec {
  import opened Bits
  import opened State

  const DmaRegister: Word := 0xFF46
  const OamStart: Word := 0xFE00
  const OamLength := 0xA0

  predicate InOam(address: int)
  {
    OamStart <= address < OamStart + OamLength
  }

  /** memory_readb. */
  function ReadByte(m: Memory, address: Word): (r: Byte)
  {
    m[address]
  }

  /**
   * memory_readw: the byte at `address` is the HIGH byte of the result. The C
   * indexes `memory[address+1]` with int arithmetic, so address 0xFFFF would
   * read past the array.
   */
  function ReadWord(m: Memory, address: Word): (w: Word)
    requires address < 0xFFFF
  {
    ToPair(m[address], m[address + 1])
  }

  /**
   * GL_dma(source): the 0xA0 bytes starting at `source * 100` (decimal) are
   * copied to OAM. The source block ends below 0x6500, so it never overlaps OAM.
   */
  function DmaTransfer(m: Memory, source: Byte): (r: Memory)
  {
    seq(0x1_0000, i requires 0 <= i < 0x1_0000 =>
      if InOam(i) then m[source * 100 + (i - OamStart)] else m[i])
  }

  /** memory_writeb: store the byte; a store to 0xFF46 then runs the DMA transfer. */
  function WriteByte(m: Memory, address: Word, data: Byte): (r: Memory)
  {
    var stored := m[address := data];
    if address == DmaRegister then DmaTransfer(stored, data) else stored
  }

  /**
   * memory_init: memset clears 0x0000-0xFFFE (0xFFFF bytes, so 0xFFFF keeps
   * its value), then two memmoves of 0x3FFF bytes copy ROM[0x0000-0x3FFE] and
   * ROM[0x3FFF-0x7FFD]; the 0x7FFE bytes from 0x0000 come from the ROM.
   */
  function InitMemory(m: Memory, rom: seq<Byte>): (r: Memory)
    requires |rom| >= 0x7FFE
  {
    seq(0x1_0000, i requires 0 <= i < 0x1_0000 =>
      if i < 0x7FFE then rom[i] else if i < 0xFFFF then 0 else m[i])
  }

  // ---- properties

  /** The stored byte reads back, DMA or not. */
  lemma ReadAfterWrite(m: Memory, address: Word, data: Byte)
    ensures ReadByte(WriteByte(m, address, data), address) == data
  {
  }

  /**
   * A store changes exactly the target byte, plus OAM when the target is the
   * DMA register; every OAM byte then holds the byte `source * 100` further down.
   */
  lemma WriteFrame(m: Memory, address: Word, data: Byte, other: Word)
    requires other != address
    ensures !(address == DmaRegister && InOam(other)) ==>
              WriteByte(m, address, data)[other] == m[other]
    ensures address == DmaRegister && InOam(other) ==>
              WriteByte(m, address, data)[other] == m[data * 100 + (other - OamStart)]
  {
  }

  /** The DMA transfer copies its source block to OAM and leaves everything else alone. */
  lemma DmaCopiesBlock(m: Memory, source: Byte, i: Word)
    ensures InOam(i) ==> DmaTransfer(m, source)[i] == m[source * 100 + (i - OamStart)]
    ensures !InOam(i) ==> DmaTransfer(m, source)[i] == m[i]
    ensures InOam(i) ==> !InOam(source * 100 + (i - OamStart)) && source * 100 + (i - OamStart) != DmaRegister
  {
  }

  /** Running the DMA transfer twice from the same block changes nothing more. */
  lemma DmaIdempotent(m: Memory, source: Byte)
    ensures DmaTransfer(DmaTransfer(m, source), source) == DmaTransfer(m, source)
  {
    var once := DmaTransfer(m, source);
    forall i | 0 <= i < 0x1_0000
      ensures DmaTransfer(once, source)[i] == once[i]
    {
      if InOam(i) {
        assert !InOam(source * 100 + (i - OamStart));
      }
    }
  }

  /** memory_readw is big-endian: swapping its bytes gives the little-endian word. */
  lemma ReadWordBigEndian(m: Memory, address: Word)
    requires address < 0xFFFF
    ensures HighByte(ReadWord(m, address)) == m[address]
    ensures LowByte(ReadWord(m, address)) == m[address + 1]
    ensures SwapByteOrder(ReadWord(m, address)) == ToPair(m[address + 1], m[address])
  {
    SwapByteOrderSwaps(ReadWord(m, address));
  }

  /** After memory_init the two ROM banks are mapped, the rest is clear and 0xFFFF is kept. */
  lemma InitMemoryLayout(m: Memory, rom: seq<Byte>, address: Word)
    requires |rom| >= 0x7FFE
    ensures address < 0x7FFE ==> InitMemory(m, rom)[address] == rom[address]
    ensures 0x7FFE <= address < 0xFFFF ==> InitMemory(m, rom)[address] == 0
    ensures InitMemory(m, rom)[0xFFFF] == m[0xFFFF]
  {
  }
}
