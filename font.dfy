/** The built-in hexadecimal font: sixteen glyphs of five sprite rows each, stored
    glyph after glyph in the order 0..F. */
module Font {
  import opened MachineState

  const GLYPH_HEIGHT: nat := 5
  const GLYPH_COUNT: nat := 16

  /** The five rows of the glyph for hexadecimal digit d, top row first; each row
      uses the high four bits of its byte. */
  function Glyph(d: nat): (rows: seq<uint8>)
    requires d < GLYPH_COUNT
    ensures |rows| == GLYPH_HEIGHT
  {
    match d
    case 0 => [0xF0, 0x90, 0x90, 0x90, 0xF0]
    case 1 => [0x20, 0x60, 0x20, 0x20, 0x70]
    case 2 => [0xF0, 0x10, 0xF0, 0x80, 0xF0]
    case 3 => [0xF0, 0x10, 0xF0, 0x10, 0xF0]
    case 4 => [0x90, 0x90, 0xF0, 0x10, 0x10]
    case 5 => [0xF0, 0x80, 0xF0, 0x10, 0xF0]
    case 6 => [0xF0, 0x80, 0xF0, 0x90, 0xF0]
    case 7 => [0xF0, 0x10, 0x20, 0x40, 0x40]
    case 8 => [0xF0, 0x90, 0xF0, 0x90, 0xF0]
    case 9 => [0xF0, 0x90, 0xF0, 0x10, 0xF0]
    case 10 => [0xF0, 0x90, 0xF0, 0x90, 0x90]
    case 11 => [0xE0, 0x90, 0xE0, 0x90, 0xE0]
    case 12 => [0xF0, 0x80, 0x80, 0x80, 0xF0]
    case 13 => [0xE0, 0x90, 0x90, 0x90, 0xE0]
    case 14 => [0xF0, 0x80, 0xF0, 0x80, 0xF0]
    case _ => [0xF0, 0x80, 0xF0, 0x80, 0x80]
  }

  /** `create_font_data`: the eighty font bytes, glyph d at offsets 5 d to 5 d + 4. */
  function CreateFontData(): (data: seq<uint8>)
    ensures |data| == GLYPH_HEIGHT * GLYPH_COUNT
  {
    seq(GLYPH_HEIGHT * GLYPH_COUNT, a requires 0 <= a < GLYPH_HEIGHT * GLYPH_COUNT => Glyph(a / GLYPH_HEIGHT)[a % GLYPH_HEIGHT])
  }

  /** Glyph d occupies bytes 5 d to 5 d + 4 of the font data. */
  lemma GlyphAt(d: nat)
    requires d < GLYPH_COUNT
    ensures CreateFontData()[GLYPH_HEIGHT * d .. GLYPH_HEIGHT * (d + 1)] == Glyph(d)
  {
    var data := CreateFontData();
    forall r | 0 <= r < GLYPH_HEIGHT
      ensures data[GLYPH_HEIGHT * d + r] == Glyph(d)[r]
    {
      var a := GLYPH_HEIGHT * d + r;
      assert a / GLYPH_HEIGHT == d && a % GLYPH_HEIGHT == r;
    }
  }
}
