// The background renderer of gl.c: the palette lookup, the choice of tile map
// and tile data, and the colour of each pixel of the current line, as
// functions of the address space. GL_dma lives in `MemorySpec.DmaTransfer`,
// next to the store to 0xFF46 that starts it; the SDL output of
// GL_SDL_draw_scanline changes no modelled state.

module GlSpec {
  import opened Bits
  import opened State

  const Height := 144
  const Width := 160

  /** One line of `video_buffer[144][160]`. */
  type Row = r: seq<Byte> | |r| == 160 witness seq(160, _ => 0)

  /** The whole `video_buffer`, line by line. */
  type Video = v: seq<Row> | |v| == 144 witness BlankScreen

  const BlankRow: Row := seq(160, _ => 0)
  const BlankScreen: seq<Row> := seq(144, _ => BlankRow)

  // The registers the renderer reads.
  const Lcdc: Word := 0xFF40
  const ScrollY: Word := 0xFF42
  const ScrollX: Word := 0xFF43
  const LineRegister: Word := 0xFF44
  const Palette: Word := 0xFF47

  /**
   * GL_get_bit_color on the palette byte BGP: colour 0 takes bits 0-1, colour 1
   * bits 2-3, colour 2 bits 4-5 and colour 3 bits 6-7, each by a mask and a
   * shift. Any other colour leaves the C result uninitialised.
   */
  function PaletteColor(palette: Byte, color: Byte): (r: Byte)
    requires color <= 3
  {
    if color == 0 then And8(palette, 0x03)
    else if color == 1 then And8(palette, 0x0C) / 4
    else if color == 2 then And8(palette, 0x30) / 16
    else And8(palette, 0xC0) / 64
  }

  /** The background map is at 0x9C00 when LCDC bit 3 is set, else at 0x9800. */
  function MapBase(lcdc: Byte): (r: Word)
  {
    if BitTest(lcdc, 3) != 0 then 0x9C00 else 0x9800
  }

  /** Tile data starts at 0x8000 when LCDC bit 4 is set, else at 0x8800. */
  function TileBase(lcdc: Byte): (r: Word)
  {
    if BitTest(lcdc, 4) != 0 then 0x8000 else 0x8800
  }

  /** The map entry under pixel i of line LY: column (i+SCX)/8 of map row (SCY+LY)/8. */
  function MapAddress(m: Memory, i: nat): (r: Word)
    requires i < Width
  {
    var tileY: int := (m[ScrollY] as int + m[LineRegister]) / 8;
    var tileX: int := (i + m[ScrollX]) / 8;
    MapBase(m[Lcdc]) + tileX + tileY * 32
  }

  /** The tile of pixel i: the identifier is unsigned, 16 bytes per tile. */
  function TileAddress(m: Memory, i: nat): (r: Word)
    requires i < Width
  {
    var id: int := m[MapAddress(m, i)];
    TileBase(m[Lcdc]) + id * 16
  }

  /**
   * The colour number of pixel i: the two bytes at `tile + LY % 8` give the
   * high and low bit, both taken at position `(i % 8) * 2`.
   */
  function ColorIndex(m: Memory, i: nat): (c: Byte)
    requires i < Width
    ensures c <= 3
  {
    var data := TileAddress(m, i) + m[LineRegister] % 8;
    var low := m[data];
    var high := m[data + 1];
    var offset := (i % 8) * 2;
    BitTest(high, offset) * 2 + BitTest(low, offset)
  }

  /** The shade stored for pixel i of the current line. */
  function Pixel(m: Memory, i: nat): (r: Byte)
    requires i < Width
  {
    PaletteColor(m[Palette], ColorIndex(m, i))
  }

  /** The 160 shades GL_draw_tiles stores for the current line; each is a two-bit shade. */
  function TileRow(m: Memory): (r: Row)
    ensures forall i :: 0 <= i < Width ==> r[i] == Pixel(m, i) && r[i] < 4
  {
    assert forall i | 0 <= i < Width :: Pixel(m, i) < 4 by {
      forall i | 0 <= i < Width {
        PixelShade(m, i);
      }
    }
    seq(Width, i requires 0 <= i < Width => Pixel(m, i))
  }

  /** GL_draw_tiles: line LY of the video buffer takes the rendered row. */
  function DrawTiles(m: Memory, v: Video): (r: Video)
    requires m[LineRegister] < Height
  {
    v[m[LineRegister] := TileRow(m)]
  }

  /** GL_draw_scanline: the background is drawn only when LCDC bit 0 is set. */
  function DrawScanline(m: Memory, v: Video): (r: Video)
    requires BitTest(m[Lcdc], 0) != 0 ==> m[LineRegister] < Height
  {
    if BitTest(m[Lcdc], 0) != 0 then DrawTiles(m, v) else v
  }

  // ---- properties

  /** The palette lookup is the two-bit field `(BGP >> 2c) & 3`. */
  lemma PaletteLookup(palette: Byte, color: Byte)
    requires color <= 3
    ensures PaletteColor(palette, color) == (palette / Pow2(2 * color)) % 4
    ensures PaletteColor(palette, color) < 4
  {
    var d := Pow2(2 * color);
    if color == 0 {
      assert d == 1;
      PaletteField(palette, 0, 0x03, d);
    } else if color == 1 {
      assert d == Pow2(2) == 4;
      PaletteField(palette, 2, 0x0C, d);
    } else if color == 2 {
      assert d == Pow2(4) == 16;
      PaletteField(palette, 4, 0x30, d);
    } else {
      assert d == Pow2(6) == 64;
      PaletteField(palette, 6, 0xC0, d);
    }
  }

  /** One two-bit field of the palette: mask `3 << k`, then shift right by k. */
  lemma PaletteField(palette: Byte, k: nat, mask: Byte, d: nat)
    requires d == Pow2(k) && mask == 3 * d
    ensures And8(palette, mask) / d == (palette / d) % 4
  {
    var q := (palette / d) % 4;
    DivUnique(d * q, d, q, 0);
    AndTwoBits(palette, k);
  }

  /** Every pixel is a shade of the palette, below 4. */
  lemma PixelShade(m: Memory, i: nat)
    requires i < Width
    ensures Pixel(m, i) == (m[Palette] / Pow2(2 * ColorIndex(m, i))) % 4
    ensures Pixel(m, i) < 4
  {
    PaletteLookup(m[Palette], ColorIndex(m, i));
  }

  /** Map and tile-data selection follow LCDC bits 3 and 4. */
  lemma BaseSelection(lcdc: Byte)
    ensures MapBase(lcdc) == 0x9C00 <==> Bit(lcdc, 3) == 1
    ensures MapBase(lcdc) == 0x9800 <==> Bit(lcdc, 3) == 0
    ensures TileBase(lcdc) == 0x8000 <==> Bit(lcdc, 4) == 1
    ensures TileBase(lcdc) == 0x8800 <==> Bit(lcdc, 4) == 0
  {
  }

  /**
   * The tile identifier is never read as signed: with either base the 16 bytes
   * of the tile lie in the 4 KiB above the base, and with base 0x8800 tile 0 is
   * the first of them.
   */
  lemma UnsignedTiles(m: Memory, i: nat)
    requires i < Width
    ensures TileBase(m[Lcdc]) <= TileAddress(m, i)
    ensures TileAddress(m, i) + 15 < TileBase(m[Lcdc]) + 0x1000
    ensures TileAddress(m, i) - TileBase(m[Lcdc]) == 16 * (m[MapAddress(m, i)] as int)
  {
  }

  /**
   * Only bit positions 0, 2, 4 and 6 of a tile byte are ever read: from the
   * fifth pixel of each group of eight the position is 8 or more, bitset gives
   * 0, and the pixel takes palette colour 0 (BGP & 3).
   */
  lemma RightHalfIsColorZero(m: Memory, i: nat)
    requires i < Width && 4 <= i % 8
    ensures ColorIndex(m, i) == 0
    ensures Pixel(m, i) == m[Palette] % 4
  {
    AndThree(m[Palette]);
  }

  /** The bit positions read in the left half of each group are the even ones. */
  lemma LeftHalfBits(m: Memory, i: nat)
    requires i < Width && i % 8 < 4
    ensures var data := TileAddress(m, i) + m[LineRegister] % 8;
            ColorIndex(m, i) == 2 * Bit(m[data + 1], 2 * (i % 8)) + Bit(m[data], 2 * (i % 8))
  {
  }

  /**
   * GL_draw_scanline draws iff LCDC bit 0 is set; it then replaces line LY and
   * no other line, and otherwise leaves the buffer as it was.
   */
  lemma DrawScanlineEffect(m: Memory, v: Video, y: nat)
    requires Bit(m[Lcdc], 0) == 1 ==> m[LineRegister] < Height
    requires y < Height
    ensures Bit(m[Lcdc], 0) == 0 ==> DrawScanline(m, v) == v
    ensures Bit(m[Lcdc], 0) == 1 && y == m[LineRegister] ==> DrawScanline(m, v)[y] == TileRow(m)
    ensures y != m[LineRegister] ==> DrawScanline(m, v)[y] == v[y]
  {
  }

  /** Drawing the same line again with the same memory writes the same row. */
  lemma DrawTwice(m: Memory, v: Video)
    requires Bit(m[Lcdc], 0) == 1 ==> m[LineRegister] < Height
    ensures DrawScanline(m, DrawScanline(m, v)) == DrawScanline(m, v)
  {
  }
}
