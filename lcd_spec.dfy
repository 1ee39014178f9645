// The LCD timing of lcd.c: the per-line cycle budget `scanline_cycles`, the
// line register LY (0xFF44), the status register STAT (0xFF41) and the
// V-blank and STAT interrupt requests, as functions of the machine state and
// the video buffer.

module LcdSpec {
  import opened Bits
  import opened State
  import opened MemorySpec
  import opened CpuSpec
  import opened GlSpec
  import CpuProperties

  /** The cycle budget of one line. */
  const LineCycles := 456

  const Status: Word := 0xFF41
  const Compare: Word := 0xFF45
  const InterruptFlags: Word := 0xFF0F

  /** LCD_init. */
  function Init(s: Machine): (r: Machine)
    ensures r.scanlineCycles == LineCycles
  {
    s.(scanlineCycles := LineCycles)
  }

  /** LCD_enabled: 1 when bit 7 of LCDC (0xFF40) is set, else 0. */
  function Enabled(m: Memory): (r: Byte)
  {
    if And8(m[Lcdc], 0x80) != 0 then 1 else 0
  }

  /** LCD_get_mode: the two low bits of STAT. */
  function Mode(m: Memory): (r: Byte)
  {
    And8(m[Status], 0x03)
  }

  /** `mode_offset`: 456 - scanline_cycles, stored in a byte. */
  function ModeOffset(scanlineCycles: int): (r: Byte)
  {
    (LineCycles - scanlineCycles) % 0x100
  }

  /**
   * The mode LCD_update_status chooses and its `requestint`. On a line of 144
   * or more the code first picks mode 1 with STAT bit 4, but one of the three
   * branches after it always overrides the mode; only mode 3 keeps that
   * `requestint`. The offset is a byte, so the mode 2 branch (offset >= 376)
   * is never taken.
   */
  function SelectMode(status: Byte, line: Byte, offset: Byte): (r: (Byte, Byte))
  {
    var hblank, vblank, search := BitTest(status, 3), BitTest(status, 4), BitTest(status, 5);
    var carried := if line >= 144 then vblank else 0;
    var hblankMode, searchMode, transferMode := (0, hblank), (2, search), (3, carried);
    if offset <= 204 then hblankMode
    else if offset >= 376 then searchMode
    else transferMode
  }

  /** The switch on the new mode: the mode bits of `current` are set with CPU_set / CPU_res; mode 3 has no case. */
  function ModeBits(current: Byte, mode: Byte): (r: Byte)
  {
    if mode == 0 then ResBitValue(ResBitValue(current, 0), 1)
    else if mode == 1 then ResBitValue(SetBitValue(current, 0), 1)
    else if mode == 2 then SetBitValue(ResBitValue(current, 0), 1)
    else current
  }

  /** The mode bits are rewritten only when the mode changes. */
  function NewModeBits(current: Byte, mode: Byte): (r: Byte)
  {
    if mode != current then ModeBits(current, mode) else current
  }

  /**
   * LCD_update_status. The new STAT is built from the old mode bits only
   * (`currentmode`), with the coincidence bit 2 set iff LY == LYC (0xFF45), and
   * stored with memory_writeb.
   */
  function UpdateStatus(s: Machine): (r: Machine)
  {
    var status := s.mem[Status];
    var line := s.mem[LineRegister];
    var current := Mode(s.mem);
    var selected := SelectMode(status, line, ModeOffset(s.scanlineCycles));
    var mode, request := selected.0, selected.1;
    var s1 := if mode != current && request > 0 then RequestInterrupt(s, 1) else s;
    StoreStatus(s1, line, NewModeBits(current, mode))
  }

  /** The end of LCD_update_status: bit 2 set iff LY == LYC, the bit-6 test, and the store to STAT. */
  function StoreStatus(s: Machine, line: Byte, bits: Byte): (r: Machine)
  {
    var coincide := line == s.mem[Compare];
    var stat := if coincide then SetBitValue(bits, 2) else ResBitValue(bits, 2);
    var s2 := if coincide && BitTest(stat, 6) != 0 then RequestInterrupt(s, 1) else s;
    s2.(mem := WriteByte(s2.mem, Status, stat))
  }

  /**
   * LCD_update(cycles). When the budget runs out, LY is incremented in the byte
   * array directly and the budget is reset to 456; line 144 requests the V-blank
   * interrupt, a line past 153 wraps to 0, and a line below 144 is drawn into
   * the video buffer by GL_draw_scanline.
   */
  function Update(s: Machine, v: Video, cycles: int): (r: (Machine, Video))
  {
    Tick(UpdateStatus(s), v, cycles)
  }

  /** The rest of LCD_update after the status update: nothing happens while the LCD is off. */
  function Tick(s: Machine, v: Video, cycles: int): (r: (Machine, Video))
  {
    if Enabled(s.mem) == 0 then (s, v)
    else
      var budget := s.scanlineCycles - cycles;
      if budget > 0 then (s.(scanlineCycles := budget), v)
      else NextLine(s, v)
  }

  /** The end of a line in LCD_update: LY moves on and the budget is reset. */
  function NextLine(s: Machine, v: Video): (r: (Machine, Video))
  {
    var line := (s.mem[LineRegister] as int + 1) % 0x100;
    var s1 := s.(mem := s.mem[LineRegister := line], scanlineCycles := LineCycles);
    if line == 144 then (RequestInterrupt(s1, 0), v)
    else if line > 153 then (s1.(mem := s1.mem[LineRegister := 0]), v)
    else if line <= 144 then (s1, DrawScanline(s1.mem, v))
    else (s1, v)
  }

  // ---- properties

  /** LCD_enabled reads bit 7 of LCDC. */
  lemma EnabledIsBitSeven(m: Memory)
    ensures Enabled(m) == Bit(m[Lcdc], 7)
  {
    var x := m[Lcdc];
    AndHigh(x);
    BitIsDiv(x, 7);
    assert Pow2(7) == 0x80;
    assert x / 0x80 == if x >= 0x80 then 1 else 0;
  }

  /** LCD_get_mode is STAT modulo 4. */
  lemma ModeIsLowBits(m: Memory)
    ensures Mode(m) == m[Status] % 4
  {
    AndThree(m[Status]);
  }

  /**
   * The chosen mode is 0 or 3, never 1 or 2: mode 0 iff the offset is at most
   * 204, with STAT bit 3 as `requestint`; otherwise mode 3 with STAT bit 4 on
   * lines 144 and above and 0 below.
   */
  lemma ModeZeroOrThree(status: Byte, line: Byte, offset: Byte)
    ensures SelectMode(status, line, offset).0 == 0 <==> offset <= 204
    ensures SelectMode(status, line, offset).0 == 3 <==> offset > 204
    ensures offset <= 204 ==> SelectMode(status, line, offset).1 == Bit(status, 3)
    ensures offset > 204 && line >= 144 ==> SelectMode(status, line, offset).1 == Bit(status, 4)
    ensures offset > 204 && line < 144 ==> SelectMode(status, line, offset).1 == 0
  {
  }

  /** With mode bits below 4, mode 0 clears them and mode 3 keeps them. */
  lemma ModeBitsValue(current: Byte, mode: Byte)
    requires current < 4 && (mode == 0 || mode == 3)
    ensures ModeBits(current, mode) == if mode == 0 then 0 else current
  {
    if mode == 0 {
      var once := ResBitValue(current, 0);
      var twice := ResBitValue(once, 1);
      Pow2Byte();
      forall i | 0 <= i < 8
        ensures Bit(twice, i) == Bit(0, i)
      {
        ResBitValueBits(once, 1, i);
        ResBitValueBits(current, 0, i);
        BitOfZero(i);
        if i >= 2 {
          BitAboveWidth(current, 2, i);
        }
      }
      BitsDetermine(twice, 0, 8);
    }
  }

  /** The coincidence bit 2 of a value below 4: setting adds 4, clearing changes nothing. */
  lemma CoincidenceBit(bits: Byte)
    requires bits < 4
    ensures SetBitValue(bits, 2) == bits + 4
    ensures ResBitValue(bits, 2) == bits
  {
    SetCoincidence(bits);
    ResCoincidence(bits);
  }

  lemma SetCoincidence(bits: Byte)
    requires bits < 4
    ensures SetBitValue(bits, 2) == bits + 4
  {
    var p := Pow2(2);
    assert p == 4 && p % 0x100 == p;
    assert SetBitValue(bits, 2) == Or8(bits, p);
    BitAboveWidth(bits, 2, 2);
    OrPow2(bits, 2);
  }

  lemma ResCoincidence(bits: Byte)
    requires bits < 4
    ensures ResBitValue(bits, 2) == bits
  {
    var cleared := ResBitValue(bits, 2);
    forall i | 0 <= i < 8
      ensures Bit(cleared, i) == Bit(bits, i)
    {
      ResSmallBit(bits, i);
    }
    Pow2Byte();
    BitsDetermine(cleared, bits, 8);
  }

  /** Bit i of a value below 4 survives clearing bit 2: bit 2 was clear already. */
  lemma ResSmallBit(bits: Byte, i: nat)
    requires bits < 4 && i < 8
    ensures Bit(ResBitValue(bits, 2), i) == Bit(bits, i)
  {
    ResBitValueBits(bits, 2, i);
    if i == 2 {
      Pow2Byte();
      BitAboveWidth(bits, 2, 2);
    }
  }

  /** A value below 8 has bit 6 clear. */
  lemma SmallBitSix(x: Byte)
    requires x < 8
    ensures Bit(x, 6) == 0
  {
    BitAboveWidth(x, 3, 6);
  }

  /**
   * The STAT byte LCD_update_status writes: mode bits 0 in H-blank (offset at
   * most 204), the old mode bits otherwise, plus 4 iff LY == LYC. Bits 3-7 are
   * always clear, so a set mode bit is never newly set, bit 2 is exactly the
   * coincidence, and the bit-6 interrupt test never fires.
   */
  lemma StatusWritten(s: Machine)
    ensures var stat := UpdateStatus(s).mem[Status];
            stat == (if ModeOffset(s.scanlineCycles) <= 204 then 0 else s.mem[Status] % 4)
                    + (if s.mem[LineRegister] == s.mem[Compare] then 4 else 0)
    ensures UpdateStatus(s).mem[Status] < 8
    ensures Bit(UpdateStatus(s).mem[Status], 2) == 1 <==> s.mem[LineRegister] == s.mem[Compare]
  {
    var offset := ModeOffset(s.scanlineCycles);
    var bits := NewModeBits(Mode(s.mem), SelectMode(s.mem[Status], s.mem[LineRegister], offset).0);
    var coincide := s.mem[LineRegister] == s.mem[Compare];
    StatusModeBits(s);
    assert bits == if offset <= 204 then 0 else s.mem[Status] % 4;
    CoincidenceBit(bits);
    StatusStored(s);
    var stat := UpdateStatus(s).mem[Status];
    assert stat == if coincide then bits + 4 else bits;
    BitTwoOfSmall(bits);
  }

  /** Below 4, bit 2 is clear; adding 4 sets it. */
  lemma BitTwoOfSmall(b: nat)
    requires b < 4
    ensures Bit(b, 2) == 0 && Bit(b + 4, 2) == 1
  {
    assert Bit(b, 2) == Bit(b / 2, 1) == Bit(b / 4, 0);
    assert Bit(b + 4, 2) == Bit((b + 4) / 2, 1) == Bit((b + 4) / 4, 0);
  }

  /** The byte stored in STAT is the rebuilt mode bits with bit 2 set or cleared by the LYC test. */
  lemma StatusStored(s: Machine)
    ensures var bits := NewModeBits(Mode(s.mem), SelectMode(s.mem[Status], s.mem[LineRegister], ModeOffset(s.scanlineCycles)).0);
            UpdateStatus(s).mem[Status] ==
              if s.mem[LineRegister] == s.mem[Compare] then SetBitValue(bits, 2) else ResBitValue(bits, 2)
  {
    var current := Mode(s.mem);
    var selected := SelectMode(s.mem[Status], s.mem[LineRegister], ModeOffset(s.scanlineCycles));
    var mode, request := selected.0, selected.1;
    var s1 := if mode != current && request > 0 then RequestInterrupt(s, 1) else s;
    assert s1.mem[Compare] == s.mem[Compare] by {
      WriteFrame(s.mem, InterruptFlags, SetBitShifts(s.mem[InterruptFlags], 1), Compare);
    }
    var bits := NewModeBits(current, mode);
    var coincide := s.mem[LineRegister] == s1.mem[Compare];
    var stat := if coincide then SetBitValue(bits, 2) else ResBitValue(bits, 2);
    var s2 := if coincide && BitTest(stat, 6) != 0 then RequestInterrupt(s1, 1) else s1;
    assert UpdateStatus(s) == s2.(mem := WriteByte(s2.mem, Status, stat));
    ReadAfterWrite(s2.mem, Status, stat);
  }

  /** The mode bits after the switch: cleared in H-blank, kept otherwise. */
  lemma StatusModeBits(s: Machine)
    ensures var current := Mode(s.mem);
            var offset := ModeOffset(s.scanlineCycles);
            NewModeBits(current, SelectMode(s.mem[Status], s.mem[LineRegister], offset).0)
              == if offset <= 204 then 0 else s.mem[Status] % 4
  {
    var current := Mode(s.mem);
    var offset := ModeOffset(s.scanlineCycles);
    var selected := SelectMode(s.mem[Status], s.mem[LineRegister], offset);
    ModeIsLowBits(s.mem);
    ModeZeroOrThree(s.mem[Status], s.mem[LineRegister], offset);
    ModeBitsValue(current, selected.0);
  }

  /**
   * The interrupt flags after LCD_update_status: IF bit 1 is requested iff the
   * mode changes and `requestint` is set, and nothing else in IF changes.
   */
  lemma StatusInterrupt(s: Machine)
    ensures var current := s.mem[Status] % 4;
            var offset := ModeOffset(s.scanlineCycles);
            var request := if offset <= 204 then Bit(s.mem[Status], 3)
                           else if s.mem[LineRegister] >= 144 then Bit(s.mem[Status], 4) else 0;
            var changed := if offset <= 204 then current != 0 else current != 3;
            UpdateStatus(s).mem[InterruptFlags] ==
              if changed && request == 1 then SetBitValue(s.mem[InterruptFlags], 1) else s.mem[InterruptFlags]
  {
    var current := Mode(s.mem);
    var offset := ModeOffset(s.scanlineCycles);
    ModeIsLowBits(s.mem);
    ModeZeroOrThree(s.mem[Status], s.mem[LineRegister], offset);
    StatusWritten(s);
    StatusNoLineInterrupt(s);
    CpuProperties.RequestSetsBit(s, 1);
  }

  /** The LYC test of bit 6 reads the rebuilt STAT, below 8, so it never requests. */
  lemma StatusNoLineInterrupt(s: Machine)
    ensures var current := Mode(s.mem);
            var selected := SelectMode(s.mem[Status], s.mem[LineRegister], ModeOffset(s.scanlineCycles));
            BitTest(SetBitValue(NewModeBits(current, selected.0), 2), 6) == 0
  {
    var current := Mode(s.mem);
    var selected := SelectMode(s.mem[Status], s.mem[LineRegister], ModeOffset(s.scanlineCycles));
    ModeIsLowBits(s.mem);
    ModeZeroOrThree(s.mem[Status], s.mem[LineRegister], ModeOffset(s.scanlineCycles));
    StatusModeBits(s);
    var bits := NewModeBits(current, selected.0);
    CoincidenceBit(bits);
    SmallBitSix(bits + 4);
  }

  /** LCD_update_status writes only STAT and IF, and no register or counter. */
  lemma StatusFrame(s: Machine, a: Word)
    requires a != Status && a != InterruptFlags
    ensures UpdateStatus(s).mem[a] == s.mem[a]
    ensures UpdateStatus(s) == s.(mem := UpdateStatus(s).mem)
  {
  }

  /** With LCDC bit 7 clear, LCD_update runs only the status update: the budget and LY stay. */
  lemma DisabledUpdate(s: Machine, v: Video, cycles: int)
    requires Bit(s.mem[Lcdc], 7) == 0
    ensures Update(s, v, cycles) == (UpdateStatus(s), v)
    ensures Update(s, v, cycles).0.scanlineCycles == s.scanlineCycles
    ensures Update(s, v, cycles).0.mem[LineRegister] == s.mem[LineRegister]
  {
    var s1 := UpdateStatus(s);
    StatusKeeps(s);
    EnabledIsBitSeven(s1.mem);
  }

  /**
   * With LCDC bit 7 set the budget drops by `cycles`; once it reaches 0 or less
   * LY moves to the next line (a line past 153 becomes 0) and the budget is
   * exactly 456 again. Before that, LY stays.
   */
  lemma EnabledUpdate(s: Machine, v: Video, cycles: int)
    requires Bit(s.mem[Lcdc], 7) == 1
    ensures var r := Update(s, v, cycles).0;
            var next := (s.mem[LineRegister] as int + 1) % 0x100;
            if s.scanlineCycles - cycles > 0 then
              r.scanlineCycles == s.scanlineCycles - cycles && r.mem[LineRegister] == s.mem[LineRegister]
            else
              r.scanlineCycles == LineCycles && r.mem[LineRegister] == (if next > 153 then 0 else next)
  {
    var s1 := UpdateStatus(s);
    StatusKeeps(s);
    var line := s.mem[LineRegister];
    assert s1.mem[LineRegister] == line && s1.scanlineCycles == s.scanlineCycles;
    EnabledTick(s1, v, cycles);
    assert Update(s, v, cycles).0 == Tick(s1, v, cycles).0;
  }

  /** Tick with the LCD on: the budget drops, and at its end the next line begins. */
  lemma EnabledTick(s: Machine, v: Video, cycles: int)
    requires Bit(s.mem[Lcdc], 7) == 1
    ensures var r := Tick(s, v, cycles).0;
            var next := (s.mem[LineRegister] as int + 1) % 0x100;
            if s.scanlineCycles - cycles > 0 then
              r.scanlineCycles == s.scanlineCycles - cycles && r.mem[LineRegister] == s.mem[LineRegister]
            else
              r.scanlineCycles == LineCycles && r.mem[LineRegister] == (if next > 153 then 0 else next)
              && Bit(r.mem[InterruptFlags], 0) == (if next == 144 then 1 else Bit(s.mem[InterruptFlags], 0))
  {
    EnabledIsBitSeven(s.mem);
    if s.scanlineCycles - cycles <= 0 {
      NextLineEffect(s, v);
    }
  }

  /** The end of a line: the new LY, the budget, and IF bit 0 set only on reaching line 144. */
  lemma NextLineEffect(s: Machine, v: Video)
    ensures var r := NextLine(s, v).0;
            var next := (s.mem[LineRegister] as int + 1) % 0x100;
            r.scanlineCycles == LineCycles
            && r.mem[LineRegister] == (if next > 153 then 0 else next)
            && Bit(r.mem[InterruptFlags], 0) == (if next == 144 then 1 else Bit(s.mem[InterruptFlags], 0))
  {
    var next := (s.mem[LineRegister] as int + 1) % 0x100;
    var s1 := s.(mem := s.mem[LineRegister := next], scanlineCycles := LineCycles);
    if next == 144 {
      CpuProperties.RequestSetsBit(s1, 0);
      SetBitValueBits(s1.mem[InterruptFlags], 0, 0);
    }
  }

  /** LY stays within the 154 lines 0..153 once it is there. */
  lemma LineStaysBelow154(s: Machine, v: Video, cycles: int)
    requires s.mem[LineRegister] <= 153
    ensures Update(s, v, cycles).0.mem[LineRegister] <= 153
  {
    EnabledIsBitSeven(s.mem);
    if Bit(s.mem[Lcdc], 7) == 0 {
      DisabledUpdate(s, v, cycles);
    } else {
      EnabledUpdate(s, v, cycles);
    }
  }

  /**
   * IF bit 0 (V-blank) is set by LCD_update exactly when LY reaches 144;
   * otherwise it keeps its value, since the status update requests only bit 1.
   */
  lemma VBlankRequest(s: Machine, v: Video, cycles: int)
    ensures var reaches := Bit(s.mem[Lcdc], 7) == 1 && s.scanlineCycles - cycles <= 0
                           && s.mem[LineRegister] == 143;
            Bit(Update(s, v, cycles).0.mem[InterruptFlags], 0) ==
              if reaches then 1 else Bit(s.mem[InterruptFlags], 0)
  {
    var s1 := UpdateStatus(s);
    StatusKeeps(s);
    EnabledIsBitSeven(s1.mem);
    TickVBlank(s1, v, cycles);
  }

  /** Tick sets IF bit 0 exactly when it moves LY from 143 to 144. */
  lemma TickVBlank(s: Machine, v: Video, cycles: int)
    ensures var reaches := Enabled(s.mem) == 1 && s.scanlineCycles - cycles <= 0
                           && s.mem[LineRegister] == 143;
            Bit(Tick(s, v, cycles).0.mem[InterruptFlags], 0) ==
              if reaches then 1 else Bit(s.mem[InterruptFlags], 0)
  {
    assert (s.mem[LineRegister] as int + 1) % 0x100 == 144 <==> s.mem[LineRegister] == 143;
    if Enabled(s.mem) == 1 && s.scanlineCycles - cycles <= 0 {
      NextLineEffect(s, v);
    }
  }

  /** What LCD_update reads after the status update is as it was before it. */
  lemma StatusKeeps(s: Machine)
    ensures var r := UpdateStatus(s);
            r.scanlineCycles == s.scanlineCycles && r.mem[Lcdc] == s.mem[Lcdc]
            && r.mem[LineRegister] == s.mem[LineRegister]
            && Bit(r.mem[InterruptFlags], 0) == Bit(s.mem[InterruptFlags], 0)
  {
    StatusFrame(s, Lcdc);
    StatusFrame(s, LineRegister);
    StatusKeepsVBlank(s);
  }

  /** The status update leaves IF bit 0 as it was. */
  lemma StatusKeepsVBlank(s: Machine)
    ensures Bit(UpdateStatus(s).mem[InterruptFlags], 0) == Bit(s.mem[InterruptFlags], 0)
  {
    StatusInterrupt(s);
    SetBitValueBits(s.mem[InterruptFlags], 1, 0);
  }

  /**
   * The video buffer changes only through GL_draw_scanline, which runs when
   * the line just reached is below 144; the buffer is then the drawn one.
   */
  lemma DrawnLines(s: Machine, v: Video, cycles: int)
    ensures var r := Update(s, v, cycles);
            var next := (s.mem[LineRegister] as int + 1) % 0x100;
            if Bit(s.mem[Lcdc], 7) == 1 && s.scanlineCycles - cycles <= 0 && next < 144 then
              r.0.mem[LineRegister] == next && r.1 == DrawScanline(r.0.mem, v)
            else r.1 == v
  {
    StatusKeeps(s);
    TickDrawsAfter(s, UpdateStatus(s), v, cycles);
  }

  /** TickDraws, for any state that agrees with `s` on LCDC, LY and the budget. */
  lemma TickDrawsAfter(s: Machine, s1: Machine, v: Video, cycles: int)
    requires s1.scanlineCycles == s.scanlineCycles && s1.mem[Lcdc] == s.mem[Lcdc]
    requires s1.mem[LineRegister] == s.mem[LineRegister]
    ensures var r := Tick(s1, v, cycles);
            var next := (s.mem[LineRegister] as int + 1) % 0x100;
            if Bit(s.mem[Lcdc], 7) == 1 && s.scanlineCycles - cycles <= 0 && next < 144 then
              r.0.mem[LineRegister] == next && r.1 == DrawScanline(r.0.mem, v)
            else r.1 == v
  {
    EnabledIsBitSeven(s1.mem);
    TickDraws(s1, v, cycles);
  }

  /** Tick draws into the buffer only when the line just reached is below 144. */
  lemma TickDraws(s: Machine, v: Video, cycles: int)
    ensures var r := Tick(s, v, cycles);
            var next := (s.mem[LineRegister] as int + 1) % 0x100;
            if Enabled(s.mem) == 1 && s.scanlineCycles - cycles <= 0 && next < 144 then
              r.0.mem[LineRegister] == next && r.1 == DrawScanline(r.0.mem, v)
            else r.1 == v
  {
  }

  /** One full line of 456 cycles from a fresh budget at LY 0 gives LY 1 and a fresh budget. */
  lemma OneLine(s: Machine, v: Video)
    requires Bit(s.mem[Lcdc], 7) == 1 && s.scanlineCycles == LineCycles && s.mem[LineRegister] == 0
    ensures Update(s, v, LineCycles).0.mem[LineRegister] == 1
    ensures Update(s, v, LineCycles).0.scanlineCycles == LineCycles
  {
    assert (s.mem[LineRegister] as int + 1) % 0x100 == 1;
    EnabledUpdate(s, v, LineCycles);
  }

  /**
   * After CPU_reset LCDC is 0x91: the LCD is on and the background is drawn
   * from the map at 0x9800 with tile data at 0x8000; BGP is 0xFC, and LY
   * keeps whatever value it had.
   */
  lemma ResetDisplay(s: Machine)
    ensures var m := Reset(s).mem;
            Enabled(m) == 1 && Bit(m[Lcdc], 0) == 1 && MapBase(m[Lcdc]) == 0x9800
            && TileBase(m[Lcdc]) == 0x8000 && m[Palette] == 0xFC
            && m[LineRegister] == s.mem[LineRegister]
  {
    var m := Reset(s).mem;
    assert m[Lcdc] == 0x91 && m[Palette] == 0xFC;
    LcdcAfterReset(m);
  }

  /** LCDC 0x91: bits 7, 4 and 0 set, bit 3 clear. */
  lemma LcdcAfterReset(m: Memory)
    requires m[Lcdc] == 0x91
    ensures Enabled(m) == 1 && Bit(m[Lcdc], 0) == 1
    ensures MapBase(m[Lcdc]) == 0x9800 && TileBase(m[Lcdc]) == 0x8000
  {
    var x := m[Lcdc];
    EnabledIsBitSeven(m);
    BitIsDiv(x, 7);
    assert Pow2(7) == 128;
    assert Bit(x, 7) == 1;
    BitIsDiv(x, 3);
    assert Pow2(3) == 8;
    assert Bit(x, 3) == 0;
    BitIsDiv(x, 4);
    assert Pow2(4) == 16;
    assert Bit(x, 4) == 1;
    BaseSelection(x);
  }
}
