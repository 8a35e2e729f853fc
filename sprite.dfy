/** Sprite drawing (DXYN). A sprite is up to fifteen bytes, one byte per row, each row
    eight pixels wide with the most significant bit leftmost. The draw loop visits the
    pixels row by row, left to right; every set sprite bit flips the screen cell it
    lands on, and the collision flag records whether a lit cell was visited under a
    clear sprite bit. */
module Sprite {
  import opened MachineState

  const SPRITE_WIDTH: nat := 8

  /** `sprite_row & (0b1 << (7 - j)) != 0`: pixel j of a row, 0 being the leftmost. */
  function SpriteBit(row: uint8, j: nat): bool
    requires j < SPRITE_WIDTH
  {
    (row as bv8) & (1 << (7 - j)) != 0
  }

  /** The screen row of sprite row i: VY mod 32 for the first row, then one more per
      row with wrap at 32. */
  function Row(vy: uint8, i: nat): (r: nat)
    ensures r < SCREEN_HEIGHT
  {
    if i == 0 then vy % 32 else (Row(vy, i - 1) + 1) % 32
  }

  /** The screen column of pixel j of sprite row i: VX mod 64 for the first pixel of
      the first row, but the unreduced VX for the first pixel of every later row; then
      one more per pixel, with the wrap-around of a `u8` and then mod 64. */
  function Column(vx: uint8, i: nat, j: nat): (c: nat)
    ensures c < 0x100
  {
    if j == 0 then (if i == 0 then vx % 64 else vx)
    else (Column(vx, i, j - 1) + 1) % 0x100 % 64
  }

  /** One step of the row and column counters, as the loop takes it. */
  lemma NextRow(vy: uint8, i: nat)
    ensures Row(vy, i + 1) == (Row(vy, i) + 1) % 32
  {
  }

  lemma NextColumn(vx: uint8, i: nat, j: nat)
    ensures Column(vx, i, j + 1) == (Column(vx, i, j) + 1) % 0x100 % 64
  {
  }

  /** The cell the draw loop reads and writes for pixel j of sprite row i, from the
      raw register values VX and VY. */
  function DrawCell(vx: uint8, vy: uint8, i: nat, j: nat): nat {
    Row(vy, i) * 64 + Column(vx, i, j)
  }

  // Modular arithmetic on plain integers, kept apart so that each proof sees only
  // the facts it needs.

  lemma AddOneMod32(p: int, a: int)
    requires 0 <= a && p == a % 32
    ensures (p + 1) % 32 == (a + 1) % 32
  {
  }

  lemma AddOneMod64(p: int, a: int)
    requires 0 <= a && p == a % 64
    ensures (p + 1) % 0x100 % 64 == (a + 1) % 64
  {
  }

  lemma WrapThenMod64(v: int)
    requires 0 <= v < 0x100
    ensures (v + 1) % 0x100 % 64 == (v % 64 + 1) % 64
  {
  }

  lemma OffsetMod32(b: int, d: int, r: int)
    requires 0 <= b < 32 && 0 <= d < 32 && r == (b + d) % 32
    ensures (r - b) % 32 == d
  {
  }

  lemma OffsetMod64(b: int, d: int, r: int)
    requires 0 <= b < 64 && 0 <= d < 64 && r == (b + d) % 64
    ensures (r - b) % 64 == d
  {
  }

  lemma UnoffsetMod32(b: int, r: int)
    requires 0 <= b < 32 && 0 <= r < 32
    ensures (b + (r - b) % 32) % 32 == r
  {
  }

  lemma UnoffsetMod64(b: int, r: int)
    requires 0 <= b < 64 && 0 <= r < 64
    ensures (b + (r - b) % 64) % 64 == r
  {
  }

  lemma SplitCell(row: int, col: int)
    requires 0 <= row && 0 <= col < 64
    ensures (row * 64 + col) / 64 == row && (row * 64 + col) % 64 == col
  {
  }

  lemma {:induction false} RowClosedForm(vy: uint8, i: nat)
    ensures Row(vy, i) == (vy % 32 + i) % 32
  {
    if i > 0 {
      RowClosedForm(vy, i - 1);
      AddOneMod32(Row(vy, i - 1), vy % 32 + (i - 1));
    }
  }

  /** Only the first pixel of a later row can be off the 64 columns. */
  lemma {:induction false} ColumnClosedForm(vx: uint8, i: nat, j: nat)
    ensures Column(vx, i, j) == if i > 0 && j == 0 then vx else (vx % 64 + j) % 64
  {
    if j > 0 {
      ColumnClosedForm(vx, i, j - 1);
      if i > 0 && j == 1 {
        WrapThenMod64(vx);
      } else {
        AddOneMod64(Column(vx, i, j - 1), vx % 64 + (j - 1));
      }
    }
  }

  /** Cell row * 64 + col lies `i` rows and `j` columns past (b, c). */
  lemma CellOffsets(b: int, c: int, i: int, j: int, row: int, col: int)
    requires 0 <= b < 32 && 0 <= c < 64 && 0 <= i < 32 && 0 <= j < 64
    requires row == (b + i) % 32 && col == (c + j) % 64
    ensures 0 <= row * 64 + col < SCREEN_CELLS
    ensures ((row * 64 + col) / 64 - b) % 32 == i && ((row * 64 + col) % 64 - c % 64) % 64 == j
  {
    SplitCell(row, col);
    OffsetMod32(b, i, row);
    OffsetMod64(c, j, col);
  }

  /** ... and cell k lies (k / 64 - b) mod 32 rows and (k mod 64 - c) mod 64 columns
      past (b, c). */
  lemma CellFromOffsets(b: int, c: int, k: int, i: int, j: int)
    requires 0 <= b < 32 && 0 <= c < 64 && 0 <= k < SCREEN_CELLS
    requires i == (k / 64 - b) % 32 && j == (k % 64 - c) % 64
    ensures (b + i) % 32 == k / 64 && (c + j) % 64 == k % 64 && k == k / 64 * 64 + k % 64
  {
    UnoffsetMod32(b, k / 64);
    UnoffsetMod64(c, k % 64);
  }

  /** Cell of pixel j of row i, in closed form. */
  lemma CellClosedForm(vx: uint8, vy: uint8, i: nat, j: nat)
    ensures DrawCell(vx, vy, i, j) == (vy % 32 + i) % 32 * 64 + (if i > 0 && j == 0 then vx else (vx % 64 + j) % 64)
  {
    RowClosedForm(vy, i);
    ColumnClosedForm(vx, i, j);
  }

  /** The screen being drawn on and the collision flag so far. */
  datatype Canvas = Canvas(screen: seq<bool>, collided: bool)

  /** One pass of the inner loop: pixel j of sprite row i, whose sprite bit is `bit`. */
  function DrawPixel(c: Canvas, bit: bool, vx: uint8, vy: uint8, i: nat, j: nat): (r: Result<Canvas>)
    ensures r.Ok? ==> |r.value.screen| == |c.screen|
    ensures r.Err? <==> DrawCell(vx, vy, i, j) >= |c.screen|
    ensures r.Err? ==> r.fault == ScreenOutOfRange
  {
    var cell := DrawCell(vx, vy, i, j);
    if cell >= |c.screen| then Err(ScreenOutOfRange)
    else
      var lit := c.screen[cell];
      var screen := if bit then c.screen[cell := bit != lit] else c.screen;
      Ok(Canvas(screen, c.collided || (lit && !bit)))
  }

  /** The eight pixels of a sprite row byte, leftmost first. */
  function RowBits(row: uint8): (bits: seq<bool>)
    ensures |bits| == SPRITE_WIDTH
    ensures forall j :: 0 <= j < SPRITE_WIDTH ==> bits[j] == SpriteBit(row, j)
  {
    seq(SPRITE_WIDTH, j requires 0 <= j < SPRITE_WIDTH => SpriteBit(row, j))
  }

  /** The place value of pixel j in its row byte: 128 for the leftmost pixel, 1 for the
      rightmost. */
  function PlaceValue(j: nat): (p: nat)
    requires j < SPRITE_WIDTH
    ensures p > 0
    decreases SPRITE_WIDTH - j
  {
    if j == SPRITE_WIDTH - 1 then 1 else 2 * PlaceValue(j + 1)
  }

  /** The number whose binary digits are `bits`, most significant first. */
  function FromBits(bits: seq<bool>): nat {
    if |bits| == 0 then 0
    else 2 * FromBits(bits[..|bits| - 1]) + (if bits[|bits| - 1] then 1 else 0)
  }

  /** Pixel j of a row is binary digit 7 - j of the row byte: the leftmost pixel is the
      most significant bit. */
  lemma SpriteBitPlace(row: uint8, j: nat)
    requires j < SPRITE_WIDTH
    ensures SpriteBit(row, j) <==> (row / PlaceValue(j)) % 2 == 1
  {
    if j == 0 { assert PlaceValue(0) == 128; }
    else if j == 1 { assert PlaceValue(1) == 64; }
    else if j == 2 { assert PlaceValue(2) == 32; }
    else if j == 3 { assert PlaceValue(3) == 16; }
    else if j == 4 { assert PlaceValue(4) == 8; }
    else if j == 5 { assert PlaceValue(5) == 4; }
    else if j == 6 { assert PlaceValue(6) == 2; }
  }

  /** One more digit: a prefix worth q / 2 followed by the digit q % 2 is worth q. */
  lemma FromBitsStep(bits: seq<bool>, k: nat, q: nat)
    requires k < |bits| && FromBits(bits[..k]) == q / 2 && (bits[k] <==> q % 2 == 1)
    ensures FromBits(bits[..k + 1]) == q
  {
    assert bits[..k + 1][..k] == bits[..k];
  }

  /** Each place value's quotient is half the next one's. */
  lemma Halving(v: uint8)
    ensures v / 128 == (v / 64) / 2 && v / 64 == (v / 32) / 2 && v / 32 == (v / 16) / 2
    ensures v / 16 == (v / 8) / 2 && v / 8 == (v / 4) / 2 && v / 4 == (v / 2) / 2
  {
  }

  /** The first four pixels of a row are the high nibble of the byte. */
  lemma HighDigits(bits: seq<bool>, v: uint8)
    requires |bits| == SPRITE_WIDTH
    requires bits[0] == ((v / 128) % 2 == 1) && bits[1] == ((v / 64) % 2 == 1)
    requires bits[2] == ((v / 32) % 2 == 1) && bits[3] == ((v / 16) % 2 == 1)
    ensures FromBits(bits[..4]) == v / 16
  {
    Halving(v);
    FromBitsStep(bits, 0, v / 128);
    FromBitsStep(bits, 1, v / 64);
    FromBitsStep(bits, 2, v / 32);
    FromBitsStep(bits, 3, v / 16);
  }

  /** Eight binary digits of v, most significant first, are worth v. */
  lemma FromDigits(bits: seq<bool>, v: uint8)
    requires |bits| == SPRITE_WIDTH
    requires bits[0] == ((v / 128) % 2 == 1) && bits[1] == ((v / 64) % 2 == 1)
    requires bits[2] == ((v / 32) % 2 == 1) && bits[3] == ((v / 16) % 2 == 1)
    requires bits[4] == ((v / 8) % 2 == 1) && bits[5] == ((v / 4) % 2 == 1)
    requires bits[6] == ((v / 2) % 2 == 1) && bits[7] == (v % 2 == 1)
    ensures FromBits(bits) == v
  {
    HighDigits(bits, v);
    Halving(v);
    FromBitsStep(bits, 4, v / 8);
    FromBitsStep(bits, 5, v / 4);
    FromBitsStep(bits, 6, v / 2);
    FromBitsStep(bits, 7, v);
    assert bits[..8] == bits;
  }

  /** The row's pixels, leftmost first, are the binary digits of the row byte from the
      most significant down: reading them back gives the byte. */
  lemma FromRowBits(row: uint8)
    ensures FromBits(RowBits(row)) == row
  {
    assert PlaceValue(7) == 1 && PlaceValue(6) == 2 && PlaceValue(5) == 4 && PlaceValue(4) == 8;
    assert PlaceValue(3) == 16 && PlaceValue(2) == 32 && PlaceValue(1) == 64 && PlaceValue(0) == 128;
    SpriteBitPlace(row, 0);
    SpriteBitPlace(row, 1);
    SpriteBitPlace(row, 2);
    SpriteBitPlace(row, 3);
    SpriteBitPlace(row, 4);
    SpriteBitPlace(row, 5);
    SpriteBitPlace(row, 6);
    SpriteBitPlace(row, 7);
    FromDigits(RowBits(row), row);
  }

  /** The inner loop over sprite row i for the pixels whose bits are `bits`, leftmost
      first: pixel j lands on DrawCell(vx, vy, i, j). */
  function DrawRow(c: Canvas, bits: seq<bool>, vx: uint8, vy: uint8, i: nat): (r: Result<Canvas>)
    ensures r.Ok? ==> |r.value.screen| == |c.screen|
    decreases |bits|
  {
    if |bits| == 0 then Ok(c)
    else
      var j := |bits| - 1;
      match DrawRow(c, bits[..j], vx, vy, i)
      case Err(f) => Err(f)
      case Ok(c') => DrawPixel(c', bits[j], vx, vy, i, j)
  }

  /** The first i rows of a sprite whose bytes are read from memory at `addr`: the
      outer loop. A row address past the end of memory aborts the draw before the
      row's first pixel. */
  function DrawRows(c: Canvas, memory: seq<uint8>, addr: nat, vx: uint8, vy: uint8, i: nat): (r: Result<Canvas>)
    ensures r.Ok? ==> |r.value.screen| == |c.screen|
    decreases i
  {
    if i == 0 then Ok(c)
    else
      match DrawRows(c, memory, addr, vx, vy, i - 1)
      case Err(f) => Err(f)
      case Ok(c') =>
        if addr + (i - 1) >= |memory| then Err(MemoryOutOfRange)
        else DrawRow(c', RowBits(memory[addr + (i - 1)]), vx, vy, i - 1)
  }

  /** The whole n-row draw, starting from a clear collision flag. */
  function DrawSprite(screen: seq<bool>, memory: seq<uint8>, addr: nat, vx: uint8, vy: uint8, n: nat): (r: Result<Canvas>)
    ensures r.Ok? ==> |r.value.screen| == |screen| && (n == 0 ==> r.value == Canvas(screen, false))
  {
    DrawRows(Canvas(screen, false), memory, addr, vx, vy, n)
  }

  /** Row i comes after the first i rows. */
  lemma DrawRowsStep(c: Canvas, memory: seq<uint8>, addr: nat, vx: uint8, vy: uint8, i: nat, before: Canvas)
    requires DrawRows(c, memory, addr, vx, vy, i) == Ok(before)
    ensures DrawRows(c, memory, addr, vx, vy, i + 1)
         == if addr + i >= |memory| then Err(MemoryOutOfRange) else DrawRow(before, RowBits(memory[addr + i]), vx, vy, i)
  {
  }

  /** Once a row has aborted it stays aborted with the same fault. */
  lemma {:induction false} RowAbortPersists(c: Canvas, bits: seq<bool>, vx: uint8, vy: uint8, i: nat, j: nat, k: nat)
    requires j <= k <= |bits| && DrawRow(c, bits[..j], vx, vy, i).Err?
    ensures DrawRow(c, bits[..k], vx, vy, i) == DrawRow(c, bits[..j], vx, vy, i)
    decreases k
  {
    if j < k {
      RowAbortPersists(c, bits, vx, vy, i, j, k - 1);
      assert bits[..k][..k - 1] == bits[..k - 1];
    }
  }

  /** Pixel j of a row comes after the first j pixels. */
  lemma DrawRowStep(c: Canvas, bits: seq<bool>, vx: uint8, vy: uint8, i: nat, j: nat, before: Canvas)
    requires j < |bits| && DrawRow(c, bits[..j], vx, vy, i) == Ok(before)
    ensures DrawRow(c, bits[..j + 1], vx, vy, i) == DrawPixel(before, bits[j], vx, vy, i, j)
  {
    assert bits[..j + 1][..j] == bits[..j];
  }

  /** A row drawn pixel by pixel through the canvases ref(0), ref(1), ...: after j
      pixels it has reached ref(j). */
  lemma {:induction false} RowChain(bits: seq<bool>, vx: uint8, vy: uint8, i: nat, j: nat, ref: nat -> Canvas)
    requires j <= |bits|
    requires forall q :: 0 <= q < j ==> DrawPixel(ref(q), bits[q], vx, vy, i, q) == Ok(ref(q + 1))
    ensures DrawRow(ref(0), bits[..j], vx, vy, i) == Ok(ref(j))
  {
    if j > 0 {
      RowChain(bits, vx, vy, i, j - 1, ref);
      DrawRowStep(ref(0), bits, vx, vy, i, j - 1, ref(j - 1));
    } else {
      assert bits[..j] == [];
    }
  }

  /** Once the draw has aborted it stays aborted with the same fault. */
  lemma {:induction false} RowsAbortPersists(c: Canvas, memory: seq<uint8>, addr: nat, vx: uint8, vy: uint8, i: nat, k: nat)
    requires i <= k && DrawRows(c, memory, addr, vx, vy, i).Err?
    ensures DrawRows(c, memory, addr, vx, vy, k) == DrawRows(c, memory, addr, vx, vy, i)
    decreases k
  {
    if i < k {
      RowsAbortPersists(c, memory, addr, vx, vy, i, k - 1);
    }
  }

  /** A row draws without aborting when every cell its pixels land on is on the
      screen. */
  lemma {:induction false} DrawRowInRange(c: Canvas, bits: seq<bool>, vx: uint8, vy: uint8, i: nat)
    requires forall j :: 0 <= j < |bits| ==> DrawCell(vx, vy, i, j) < |c.screen|
    ensures DrawRow(c, bits, vx, vy, i).Ok?
    decreases |bits|
  {
    if |bits| > 0 {
      DrawRowInRange(c, bits[..|bits| - 1], vx, vy, i);
    }
  }

  // ---------------------------------------------------------------------------
  // Reference definition: where the sprite lands, read cell by cell.

  /** Sprite row that covers cell k when the sprite starts at row VY mod 32. */
  function RowOf(vy: uint8, k: int): nat {
    (k / 64 - vy % 32) % 32
  }

  /** Sprite column that covers cell k when the sprite starts at column VX mod 64. */
  function ColOf(vx: uint8, k: int): nat {
    (k % 64 - vx % 64) % 64
  }

  predicate InWindow(n: nat, vx: uint8, vy: uint8, k: int) {
    RowOf(vy, k) < n && ColOf(vx, k) < SPRITE_WIDTH
  }

  /** The sprite bit that lands on cell k (false outside the sprite's window). */
  predicate Mask(sprite: seq<uint8>, vx: uint8, vy: uint8, k: int) {
    InWindow(|sprite|, vx, vy, k) && SpriteBit(sprite[RowOf(vy, k)], ColOf(vx, k))
  }

  /** The screen with exactly the cells under a set sprite bit flipped. */
  function Toggled(screen: seq<bool>, sprite: seq<uint8>, vx: uint8, vy: uint8): (r: seq<bool>)
    ensures |r| == |screen|
  {
    seq(|screen|, k requires 0 <= k < |screen| => screen[k] != Mask(sprite, vx, vy, k))
  }

  /** Some lit cell of the window lies under a clear sprite bit. */
  predicate Collides(screen: seq<bool>, sprite: seq<uint8>, vx: uint8, vy: uint8) {
    exists k :: 0 <= k < |screen| && screen[k] && InWindow(|sprite|, vx, vy, k) && !Mask(sprite, vx, vy, k)
  }

  // ---------------------------------------------------------------------------
  // The draw loop agrees with the reference definition when VX < 64.

  /** Position of cell k in the loop's visiting order. */
  function Order(vx: uint8, vy: uint8, k: int): nat {
    8 * RowOf(vy, k) + ColOf(vx, k)
  }

  /** Cell k has been visited once p pixels are done. */
  predicate Visited(n: nat, vx: uint8, vy: uint8, k: int, p: nat) {
    InWindow(n, vx, vy, k) && Order(vx, vy, k) < p
  }

  function PartialScreen(screen: seq<bool>, sprite: seq<uint8>, vx: uint8, vy: uint8, p: nat): (r: seq<bool>)
    ensures |r| == |screen|
  {
    seq(|screen|, k requires 0 <= k < |screen| =>
      screen[k] != (Visited(|sprite|, vx, vy, k, p) && SpriteBit(sprite[RowOf(vy, k)], ColOf(vx, k))))
  }

  predicate PartialCollides(screen: seq<bool>, sprite: seq<uint8>, vx: uint8, vy: uint8, p: nat) {
    exists k :: 0 <= k < |screen| && screen[k] && Visited(|sprite|, vx, vy, k, p) &&
      !SpriteBit(sprite[RowOf(vy, k)], ColOf(vx, k))
  }

  /** With VX < 64 the loop's cell for pixel (i, j) has window coordinates (i, j). */
  lemma CellCoordinates(vx: uint8, vy: uint8, i: nat, j: nat)
    requires vx < 64 && i < 32 && j < 64
    ensures DrawCell(vx, vy, i, j) < SCREEN_CELLS
    ensures RowOf(vy, DrawCell(vx, vy, i, j)) == i && ColOf(vx, DrawCell(vx, vy, i, j)) == j
  {
    var row, col := (vy % 32 + i) % 32, (vx as int + j) % 64;
    assert DrawCell(vx, vy, i, j) == row * 64 + col by {
      RowClosedForm(vy, i);
      ColumnClosedForm(vx, i, j);
      if i > 0 && j == 0 {
        assert (vx + j) % 64 == vx;
      } else {
        assert vx % 64 == vx;
      }
    }
    CellOffsets(vy % 32, vx as int, i, j, row, col);
  }

  /** ... and every cell is the loop's cell for its own window coordinates. */
  lemma CoordinatesCell(vx: uint8, vy: uint8, k: int)
    requires vx < 64 && 0 <= k < SCREEN_CELLS
    ensures DrawCell(vx, vy, RowOf(vy, k), ColOf(vx, k)) == k
  {
    var i, j := RowOf(vy, k), ColOf(vx, k);
    CellFromOffsets(vy % 32, vx % 64, k, i, j);
    assert DrawCell(vx, vy, i, j) == k by {
      RowClosedForm(vy, i);
      ColumnClosedForm(vx, i, j);
      assert vx % 64 == vx;
    }
  }

  /** Visiting pixel (i, j) adds exactly its own cell to the visited ones. */
  lemma VisitedStep(n: nat, vx: uint8, vy: uint8, i: nat, j: nat, k: int)
    requires vx < 64 && i < n < 32 && j < SPRITE_WIDTH && 0 <= k < SCREEN_CELLS
    ensures Visited(n, vx, vy, k, 8 * i + j + 1) <==>
            Visited(n, vx, vy, k, 8 * i + j) || k == DrawCell(vx, vy, i, j)
  {
    var c := DrawCell(vx, vy, i, j);
    CellCoordinates(vx, vy, i, j);
    if k != c && InWindow(n, vx, vy, k) && Order(vx, vy, k) == 8 * i + j {
      var r, q := RowOf(vy, k), ColOf(vx, k);
      assert 8 * r + q == 8 * i + j;
      assert r == i && q == j;
      CoordinatesCell(vx, vy, k);
      assert false;
    }
  }

  lemma ScreenStep(screen: seq<bool>, sprite: seq<uint8>, vx: uint8, vy: uint8, i: nat, j: nat)
    requires |screen| == SCREEN_CELLS && vx < 64 && |sprite| < 32
    requires i < |sprite| && j < SPRITE_WIDTH
    ensures var c := DrawCell(vx, vy, i, j);
      var before := PartialScreen(screen, sprite, vx, vy, 8 * i + j);
      var bit := SpriteBit(sprite[i], j);
      c < |screen| && before[c] == screen[c] &&
      (if bit then before[c := bit != before[c]] else before) == PartialScreen(screen, sprite, vx, vy, 8 * i + j + 1)
  {
    var n, p := |sprite|, 8 * i + j;
    var c := DrawCell(vx, vy, i, j);
    CellCoordinates(vx, vy, i, j);
    var before := PartialScreen(screen, sprite, vx, vy, p);
    var bit := SpriteBit(sprite[i], j);
    var after := if bit then before[c := bit != before[c]] else before;
    forall k | 0 <= k < |screen|
      ensures after[k] == PartialScreen(screen, sprite, vx, vy, p + 1)[k]
    {
      VisitedStep(n, vx, vy, i, j, k);
    }
  }

  lemma CollisionStep(screen: seq<bool>, sprite: seq<uint8>, vx: uint8, vy: uint8, i: nat, j: nat)
    requires |screen| == SCREEN_CELLS && vx < 64 && |sprite| < 32
    requires i < |sprite| && j < SPRITE_WIDTH
    ensures var c := DrawCell(vx, vy, i, j);
      c < |screen| &&
      PartialCollides(screen, sprite, vx, vy, 8 * i + j + 1) ==
        (PartialCollides(screen, sprite, vx, vy, 8 * i + j) || (screen[c] && !SpriteBit(sprite[i], j)))
  {
    var n, p := |sprite|, 8 * i + j;
    var c := DrawCell(vx, vy, i, j);
    CellCoordinates(vx, vy, i, j);
    if PartialCollides(screen, sprite, vx, vy, p + 1) {
      var k :| 0 <= k < |screen| && screen[k] && Visited(n, vx, vy, k, p + 1) &&
        !SpriteBit(sprite[RowOf(vy, k)], ColOf(vx, k));
      VisitedStep(n, vx, vy, i, j, k);
    }
    if screen[c] && !SpriteBit(sprite[i], j) {
      VisitedStep(n, vx, vy, i, j, c);
      assert Visited(n, vx, vy, c, p + 1);
    }
    if PartialCollides(screen, sprite, vx, vy, p) {
      var k :| 0 <= k < |screen| && screen[k] && Visited(n, vx, vy, k, p) &&
        !SpriteBit(sprite[RowOf(vy, k)], ColOf(vx, k));
      VisitedStep(n, vx, vy, i, j, k);
    }
  }

  /** The canvas after the first p pixels, by the reference definition. */
  function Partial(screen: seq<bool>, sprite: seq<uint8>, vx: uint8, vy: uint8, p: nat): Canvas {
    Canvas(PartialScreen(screen, sprite, vx, vy, p), PartialCollides(screen, sprite, vx, vy, p))
  }

  /** Pixel (i, j) of the loop, applied to the partial reference after 8 i + j
      pixels, gives the partial reference after 8 i + j + 1. */
  lemma PixelStep(screen: seq<bool>, sprite: seq<uint8>, vx: uint8, vy: uint8, i: nat, j: nat)
    requires |screen| == SCREEN_CELLS && vx < 64 && |sprite| < 32
    requires i < |sprite| && j < SPRITE_WIDTH
    ensures DrawPixel(Partial(screen, sprite, vx, vy, 8 * i + j), SpriteBit(sprite[i], j), vx, vy, i, j)
         == Ok(Partial(screen, sprite, vx, vy, 8 * i + j + 1))
  {
    ScreenStep(screen, sprite, vx, vy, i, j);
    CollisionStep(screen, sprite, vx, vy, i, j);
  }

  lemma SliceAt(memory: seq<uint8>, addr: nat, n: nat, i: nat)
    requires addr + n <= |memory| && i < n
    ensures addr + i < |memory| && memory[addr..addr + n][i] == memory[addr + i]
  {
  }

  /** Each pixel of row i takes the partial reference one pixel further. */
  lemma RowPixels(screen: seq<bool>, sprite: seq<uint8>, vx: uint8, vy: uint8, i: nat, ref: nat -> Canvas)
    requires |screen| == SCREEN_CELLS && vx < 64 && |sprite| < 32 && i < |sprite|
    requires forall p :: ref(p) == Partial(screen, sprite, vx, vy, 8 * i + p)
    ensures forall q :: 0 <= q < SPRITE_WIDTH ==>
      DrawPixel(ref(q), RowBits(sprite[i])[q], vx, vy, i, q) == Ok(ref(q + 1))
  {
    forall q | 0 <= q < SPRITE_WIDTH
      ensures DrawPixel(ref(q), RowBits(sprite[i])[q], vx, vy, i, q) == Ok(ref(q + 1))
    {
      PixelStep(screen, sprite, vx, vy, i, q);
      assert ref(q + 1) == Partial(screen, sprite, vx, vy, 8 * i + q + 1);
    }
  }

  /** The inner loop over row i takes the partial reference after 8 i pixels to
      the one after 8 i + 8. */
  lemma RowAgrees(screen: seq<bool>, sprite: seq<uint8>, vx: uint8, vy: uint8, i: nat)
    requires |screen| == SCREEN_CELLS && vx < 64 && |sprite| < 32 && i < |sprite|
    ensures DrawRow(Partial(screen, sprite, vx, vy, 8 * i), RowBits(sprite[i]), vx, vy, i)
         == Ok(Partial(screen, sprite, vx, vy, 8 * i + SPRITE_WIDTH))
  {
    var bits := RowBits(sprite[i]);
    var ref := (p: nat) => Partial(screen, sprite, vx, vy, 8 * i + p);
    RowPixels(screen, sprite, vx, vy, i, ref);
    RowChain(bits, vx, vy, i, SPRITE_WIDTH, ref);
    assert bits[..SPRITE_WIDTH] == bits;
  }

  /** The outer loop agrees with the partial reference, row by row. */
  lemma {:induction false} RowsAgree(screen: seq<bool>, memory: seq<uint8>, addr: nat, vx: uint8, vy: uint8, n: nat, i: nat)
    requires |screen| == SCREEN_CELLS && vx < 64 && n < 32 && addr + n <= |memory| && i <= n
    ensures DrawRows(Canvas(screen, false), memory, addr, vx, vy, i) == Ok(Partial(screen, memory[addr..addr + n], vx, vy, 8 * i))
  {
    if i == 0 {
      assert PartialScreen(screen, memory[addr..addr + n], vx, vy, 0) == screen;
    } else {
      var q := i - 1;
      RowsAgree(screen, memory, addr, vx, vy, n, q);
      DrawRowsStep(Canvas(screen, false), memory, addr, vx, vy, q, Partial(screen, memory[addr..addr + n], vx, vy, 8 * q));
      SliceAt(memory, addr, n, q);
      RowAgrees(screen, memory[addr..addr + n], vx, vy, q);
      assert 8 * q + SPRITE_WIDTH == 8 * i;
    }
  }

  /** With VX < 64 and the sprite inside memory, drawing flips exactly the cells under
      a set sprite bit, leaves every other cell alone, and raises the flag exactly
      when some lit cell of the window lies under a clear sprite bit. */
  lemma DrawSpriteEffect(screen: seq<bool>, memory: seq<uint8>, addr: nat, vx: uint8, vy: uint8, n: nat)
    requires |screen| == SCREEN_CELLS && vx < 64 && n < 16 && addr + n <= |memory|
    ensures DrawSprite(screen, memory, addr, vx, vy, n)
         == Ok(Canvas(Toggled(screen, memory[addr..addr + n], vx, vy), Collides(screen, memory[addr..addr + n], vx, vy)))
  {
    var sprite := memory[addr..addr + n];
    RowsAgree(screen, memory, addr, vx, vy, n, n);
    forall k | 0 <= k < |screen| ensures Visited(n, vx, vy, k, 8 * n) == InWindow(n, vx, vy, k) {
    }
    assert PartialScreen(screen, sprite, vx, vy, 8 * n) == Toggled(screen, sprite, vx, vy);
    assert PartialCollides(screen, sprite, vx, vy, 8 * n) == Collides(screen, sprite, vx, vy);
  }

  /** With VX < 64 a draw faults only by reading a sprite row past the end of memory:
      exactly when there is a row to read and the last one lies beyond memory. With
      no rows nothing is read, wherever I points. */
  lemma DrawSpriteMemoryFault(screen: seq<bool>, memory: seq<uint8>, addr: nat, vx: uint8, vy: uint8, n: nat)
    requires |screen| == SCREEN_CELLS && vx < 64 && n < 16
    ensures var r := DrawSprite(screen, memory, addr, vx, vy, n);
      (r.Err? <==> n > 0 && addr + n > |memory|) && (r.Err? ==> r.fault == MemoryOutOfRange)
  {
    var c := Canvas(screen, false);
    if addr + n <= |memory| {
      DrawSpriteEffect(screen, memory, addr, vx, vy, n);
    } else if n > 0 {
      var m := if addr >= |memory| then 0 else |memory| - addr;
      if m == 0 {
        DrawRowsStep(c, memory, addr, vx, vy, 0, c);
      } else {
        RowsAgree(screen, memory, addr, vx, vy, m, m);
        DrawRowsStep(c, memory, addr, vx, vy, m, Partial(screen, memory[addr..addr + m], vx, vy, 8 * m));
      }
      RowsAbortPersists(c, memory, addr, vx, vy, m + 1, n);
    }
  }

  /** The row loop restarts at the unreduced VX: with VX = 64 and VY = 30 the first
      row lands on row 30, but the second row's first pixel is cell 31 * 64 + 64, one
      past the screen, so a two-row draw aborts. */
  lemma UnreducedColumnAborts(screen: seq<bool>, memory: seq<uint8>, addr: nat)
    requires |screen| == SCREEN_CELLS && addr + 2 <= |memory|
    ensures DrawSprite(screen, memory, addr, 64, 30, 2) == Err(ScreenOutOfRange)
  {
    var c := Canvas(screen, false);
    forall j | 0 <= j < SPRITE_WIDTH ensures DrawCell(64, 30, 0, j) < |screen| {
      CellClosedForm(64, 30, 0, j);
    }
    DrawRowInRange(c, RowBits(memory[addr]), 64, 30, 0);
    var c1 := DrawRow(c, RowBits(memory[addr]), 64, 30, 0).value;
    assert DrawRows(c, memory, addr, 64, 30, 1) == Ok(c1);
    var bits := RowBits(memory[addr + 1]);
    assert DrawCell(64, 30, 1, 0) == SCREEN_CELLS;
    assert bits[..1][..0] == bits[..0];
    assert DrawRow(c1, bits[..1], 64, 30, 1) == Err(ScreenOutOfRange);
    RowAbortPersists(c1, bits, 64, 30, 1, 1, SPRITE_WIDTH);
    assert bits[..SPRITE_WIDTH] == bits;
  }

  // ---------------------------------------------------------------------------
  // Consequences.

  /** Drawing the same sprite twice at the same place restores the screen. */
  lemma ToggledTwice(screen: seq<bool>, sprite: seq<uint8>, vx: uint8, vy: uint8)
    ensures Toggled(Toggled(screen, sprite, vx, vy), sprite, vx, vy) == screen
  {
  }

  /** Only cells of the sprite's window can change. */
  lemma ToggledOutsideWindow(screen: seq<bool>, sprite: seq<uint8>, vx: uint8, vy: uint8, k: int)
    requires 0 <= k < |screen| && !InWindow(|sprite|, vx, vy, k)
    ensures Toggled(screen, sprite, vx, vy)[k] == screen[k]
  {
  }

  /** Row (VY + i) mod 32, column (VX + j) mod 64: where pixel (i, j) of a sprite at
      (VX, VY) belongs. */
  function WindowCell(vx: uint8, vy: uint8, i: nat, j: nat): (k: nat)
    ensures k < SCREEN_CELLS
  {
    (vy + i) % SCREEN_HEIGHT * SCREEN_WIDTH + (vx + j) % SCREEN_WIDTH
  }

  /** Cell ((VY + i) mod 32, (VX + j) mod 64) is flipped exactly when bit j of sprite
      row i is set. */
  lemma ToggledWindowCell(screen: seq<bool>, sprite: seq<uint8>, vx: uint8, vy: uint8, i: nat, j: nat)
    requires |screen| == SCREEN_CELLS && vx < SCREEN_WIDTH && i < |sprite| < SCREEN_HEIGHT && j < SPRITE_WIDTH
    ensures Toggled(screen, sprite, vx, vy)[WindowCell(vx, vy, i, j)] == (screen[WindowCell(vx, vy, i, j)] != SpriteBit(sprite[i], j))
  {
    var row, col := (vy + i) % 32, (vx + j) % 64;
    var k := WindowCell(vx, vy, i, j);
    assert k / 64 == row && k % 64 == col;
    WindowCoordinates(vx, vy, i, j, row, col);
    assert RowOf(vy, k) == i && ColOf(vx, k) == j;
  }

  lemma WindowCoordinates(vx: uint8, vy: uint8, i: nat, j: nat, row: int, col: int)
    requires vx < 64 && i < 32 && j < 64 && row == (vy + i) % 32 && col == (vx + j) % 64
    ensures (row - vy % 32) % 32 == i && (col - vx) % 64 == j
  {
  }

  /** On a blank screen nothing collides. */
  lemma BlankNeverCollides(sprite: seq<uint8>, vx: uint8, vy: uint8)
    ensures !Collides(seq(SCREEN_CELLS, _ => false), sprite, vx, vy)
  {
  }

  /** The flag is about lit cells under clear bits, so drawing a sprite a second time
      over its own image on a blank screen does not raise it either: the cells it
      clears are exactly the ones under set bits. */
  lemma RedrawOnBlankNeverCollides(sprite: seq<uint8>, vx: uint8, vy: uint8)
    ensures !Collides(Toggled(seq(SCREEN_CELLS, _ => false), sprite, vx, vy), sprite, vx, vy)
  {
  }
}
