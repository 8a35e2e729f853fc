/** The framebuffer export: the 64 x 32 boolean screen as an RGBA image, four bytes
    per pixel, rows flipped vertically so that screen row 0 is the last image row. */
module Video {
  import opened MachineState

  const BYTES_PER_PIXEL: nat := 4
  /** 64 * 32 pixels of four bytes. */
  const IMAGE_BYTES: nat := 8192

  /** Screen cell shown at image pixel q (row q / 64 of the image, column q % 64). */
  function SourceCell(q: nat): (c: nat)
    requires q < SCREEN_CELLS
    ensures c < SCREEN_CELLS && c % SCREEN_WIDTH == q % SCREEN_WIDTH
    ensures c / SCREEN_WIDTH == SCREEN_HEIGHT - 1 - q / SCREEN_WIDTH
  {
    (31 - q / 64) * 64 + q % 64
  }

  /** Byte b of the image: channel b % 4 of image pixel b / 4; colour channels are 255
      for a lit cell and 0 otherwise, alpha is always 255. */
  function ImageByte(screen: seq<bool>, b: nat): (r: uint8)
    requires |screen| == SCREEN_CELLS && b < IMAGE_BYTES
    ensures r == 0 || r == 255
    ensures b % 4 == 3 ==> r == 255
  {
    if b % 4 == 3 || screen[SourceCell(b / 4)] then 255 else 0
  }

  function Rgba(screen: seq<bool>): (image: seq<uint8>)
    requires |screen| == SCREEN_CELLS
    ensures |image| == IMAGE_BYTES
  {
    seq(IMAGE_BYTES, b requires 0 <= b < IMAGE_BYTES => ImageByte(screen, b))
  }

  /** The four bytes of image row j, column i: opaque white for a lit cell of screen
      row 31 - j, opaque black otherwise. */
  lemma RgbaPixel(screen: seq<bool>, j: nat, i: nat)
    requires |screen| == SCREEN_CELLS && j < 32 && i < 64
    ensures var b := 4 * (64 * j + i);
      Rgba(screen)[b .. b + 4] == if screen[(31 - j) * 64 + i] then [255, 255, 255, 255] else [0, 0, 0, 255]
  {
    var q := 64 * j + i;
    var b := 4 * q;
    assert q / 64 == j && q % 64 == i;
    var image := Rgba(screen);
    var expected: seq<uint8> := if screen[(31 - j) * 64 + i] then [255, 255, 255, 255] else [0, 0, 0, 255];
    forall c | 0 <= c < 4 ensures image[b .. b + 4][c] == expected[c] {
      assert (b + c) / 4 == q && (b + c) % 4 == c;
      assert image[b + c] == ImageByte(screen, b + c);
    }
  }

  /** Every alpha byte is 255. */
  lemma RgbaOpaque(screen: seq<bool>, q: nat)
    requires |screen| == SCREEN_CELLS && q < SCREEN_CELLS
    ensures Rgba(screen)[4 * q + 3] == 255
  {
    assert (4 * q + 3) % 4 == 3;
  }

  /** Reading the red channel back, undoing the flip. */
  function ScreenOfRgba(image: seq<uint8>): (screen: seq<bool>)
    requires |image| == IMAGE_BYTES
    ensures |screen| == SCREEN_CELLS
  {
    seq(SCREEN_CELLS, k requires 0 <= k < SCREEN_CELLS => image[4 * SourceCell(k)] == 255)
  }

  /** The export loses nothing: the screen can be read back from the image. */
  lemma RgbaLossless(screen: seq<bool>)
    requires |screen| == SCREEN_CELLS
    ensures ScreenOfRgba(Rgba(screen)) == screen
  {
    var image := Rgba(screen);
    forall k | 0 <= k < SCREEN_CELLS ensures ScreenOfRgba(image)[k] == screen[k] {
      var q := SourceCell(k);
      assert q / 64 == 31 - k / 64 && q % 64 == k % 64;
      assert SourceCell(q) == k;
      assert (4 * q) / 4 == q && (4 * q) % 4 == 0;
    }
  }
}
