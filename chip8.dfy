/** The emulator object: fixed-size buffers updated in place, scalar registers, and a
    growable call stack. Every method is proved to do to `Abs()`, the snapshot of all
    fields, what the functions of `Semantics` say. A method that reports a fault stands
    for the emulator's panic: the state it leaves behind is not specified. */
module Chip8 {
  import opened MachineState
  import opened Opcode
  import opened Semantics
  import Font
  import Sprite
  import Video

  /** Image pixel q of the export sits at bytes 4 q to 4 q + 3, alpha last. */
  lemma ImagePixelBytes(screen: seq<bool>, q: nat, c: nat)
    requires |screen| == SCREEN_CELLS && q < SCREEN_CELLS && c < 4
    ensures 4 * q + c < Video.IMAGE_BYTES
    ensures Video.ImageByte(screen, 4 * q + c) == if c == 3 || screen[Video.SourceCell(q)] then 255 else 0
  {
    assert (4 * q + c) / 4 == q && (4 * q + c) % 4 == c;
  }

  class Chip8 {
    const registers: array<uint8>
    var addressRegister: uint16
    var delayTimer: uint8
    var soundTimer: uint8
    var programCounter: uint16
    var stack: seq<uint16>
    const screen: array<bool>
    const keys: array<bool>
    const memory: array<uint8>
    var fontDataBaseAddress: uint16

    /** The buffers have the sizes `new` gives them, and memory and the registers are
        distinct buffers. */
    ghost predicate Valid()
      reads this
    {
      memory.Length == MEMORY_SIZE && registers.Length == REGISTER_COUNT &&
      screen.Length == SCREEN_CELLS && keys.Length == KEY_COUNT && memory != registers
    }

    /** The value of every field. */
    ghost function Abs(): (s: State)
      reads this, memory, registers, screen, keys
      requires Valid()
      ensures WellFormed(s)
    {
      State(memory[..], registers[..], addressRegister, programCounter, delayTimer, soundTimer,
            stack, screen[..], keys[..], fontDataBaseAddress)
    }

    /** `new`: zeroed buffers, the font copied to address 0, the ROM to 0x200. */
    constructor (rom: seq<uint8>)
      requires |rom| <= MEMORY_SIZE - PROGRAM_START
      ensures Valid() && Abs() == InitialState(rom)
      ensures fresh(memory) && fresh(registers) && fresh(screen) && fresh(keys)
    {
      registers := new uint8[REGISTER_COUNT](_ => 0);
      addressRegister := 0;
      delayTimer := 0;
      soundTimer := 0;
      programCounter := PROGRAM_START;
      stack := [];
      screen := new bool[SCREEN_CELLS](_ => false);
      keys := new bool[KEY_COUNT](_ => false);
      memory := new uint8[MEMORY_SIZE](_ => 0);
      fontDataBaseAddress := 0;
      new;
      LoadFontAndRom(rom);
      assert registers[..] == InitialState(rom).registers;
      assert screen[..] == InitialState(rom).screen;
      assert keys[..] == InitialState(rom).keys;
    }

    /** The copy loops of `new`: the font to address 0, then the ROM from the PC on,
        over zeroed memory. */
    method LoadFontAndRom(rom: seq<uint8>)
      requires Valid() && |rom| <= MEMORY_SIZE - PROGRAM_START && programCounter == PROGRAM_START
      requires forall a :: 0 <= a < MEMORY_SIZE ==> memory[a] == 0
      modifies memory
      ensures memory[..] == InitialState(rom).memory
    {
      var font := Font.CreateFontData();
      for i := 0 to |font|
        invariant forall a :: 0 <= a < i ==> memory[a] == font[a]
        invariant forall a :: i <= a < MEMORY_SIZE ==> memory[a] == 0
      {
        memory[i] := font[i];
      }
      for i := 0 to |rom|
        invariant forall a :: 0 <= a < |font| ==> memory[a] == font[a]
        invariant forall a :: PROGRAM_START <= a < PROGRAM_START + i ==> memory[a] == rom[a - PROGRAM_START]
        invariant forall a :: |font| <= a < PROGRAM_START || PROGRAM_START + i <= a < MEMORY_SIZE ==> memory[a] == 0
      {
        memory[i + programCounter as int] := rom[i];
      }
      InitialMemory(rom);
      assert memory[..] == InitialState(rom).memory;
    }

    /** `screen_width`: the screen buffer holds this many columns of 32 cells. */
    function ScreenWidth(): (w: nat)
      reads this
      requires Valid()
      ensures w * SCREEN_HEIGHT == screen.Length
    {
      64
    }

    /** `screen_height`: the screen buffer holds this many rows of 64 cells. */
    function ScreenHeight(): (h: nat)
      reads this
      requires Valid()
      ensures SCREEN_WIDTH * h == screen.Length
    {
      32
    }

    /** `fetch_opcode`: the big-endian word at the PC, or the fault of reading past
        the end of memory. Nothing changes. */
    function FetchOpcode(): (r: Result<uint16>)
      reads this, memory, registers, screen, keys
      requires Valid()
      ensures r == Fetch(Abs())
    {
      var pc := programCounter as int;
      if pc + 1 >= memory.Length then Err(MemoryOutOfRange)
      else Ok(memory[pc] as int * 0x100 + memory[pc + 1])
    }

    /** `execute_opcode`: decode the word, run the branch of the instruction it
        names, and report the fault if the branch panics. `rnd` is the random byte
        that CXNN draws. */
    method ExecuteOpcode(opcode: uint16, rnd: uint8) returns (fault: Option<Fault>)
      requires Valid()
      modifies this, registers, memory, screen
      ensures Valid() && Outcome(fault, Abs()) == Execute(old(Abs()), opcode, rnd)
    {
      var instr := Decode(opcode);
      if FlagSetting(instr) {
        ExecuteArithmetic(instr);
        fault := None;
      } else if WritesRegister(instr) {
        ExecuteLoadOrLogic(instr, rnd);
        fault := None;
      } else if IsSkip(instr) {
        fault := ExecuteSkip(instr);
      } else if SetsIndexOrTimer(instr) {
        ExecuteIndexOrTimer(instr);
        fault := None;
      } else if instr.StoreBcd? {
        fault := StoreBcd(instr.x);
      } else if instr.StoreRegisters? {
        fault := StoreRegisters(instr.x);
      } else if instr.LoadRegisters? {
        fault := LoadRegisters(instr.x);
      } else if instr.Draw? {
        fault := DrawSprite(instr.x, instr.y, instr.n);
      } else {
        fault := ExecuteFlow(instr);
      }
    }

    /** `run_one_cycle`: fetch, execute, then count the delay timer down by one,
        stopping at 0. The sound timer is left alone. */
    method RunOneCycle(rnd: uint8) returns (fault: Option<Fault>)
      requires Valid()
      modifies this, registers, memory, screen
      ensures Valid() && Outcome(fault, Abs()) == Cycle(old(Abs()), rnd)
    {
      var opcode := FetchOpcode();
      if opcode.Err? {
        return Some(opcode.fault);
      }
      fault := ExecuteOpcode(opcode.value, rnd);
      if fault.Some? {
        return;
      }
      var newTimerValue := delayTimer as int - 1;
      if newTimerValue <= 0 {
        delayTimer := 0;
      } else {
        delayTimer := newTimerValue;
      }
    }

    /** 6XNN, 7XNN, 8XY0 to 8XY3, CXNN, FX07 and FX0A: write VX and move on. */
    method ExecuteLoadOrLogic(i: Instr, rnd: uint8)
      requires Valid() && WritesRegister(i) && !FlagSetting(i)
      modifies this, registers
      ensures Valid() && Abs() == ExecLoadOrLogic(old(Abs()), i, rnd)
    {
      match i {
        case LoadImm(x, nn) =>
          registers[x] := nn;
        case AddImm(x, nn) =>
          if nn as int + registers[x] > 255 {
            registers[x] := (nn as int + registers[x]) % 256;
          } else {
            registers[x] := registers[x] + nn;
          }
        case Move(x, y) =>
          registers[x] := registers[y];
        case Or(x, y) =>
          registers[x] := BitOr(registers[x], registers[y]);
        case And(x, y) =>
          registers[x] := BitAnd(registers[x], registers[y]);
        case Xor(x, y) =>
          registers[x] := BitXor(registers[x], registers[y]);
        case Random(x, nn) =>
          registers[x] := BitAnd(rnd, nn);
        case LoadDelay(x) =>
          registers[x] := delayTimer;
        case WaitKey(x) =>
          registers[x] := 0;
      }
      programCounter := Advance(programCounter, 2);
    }

    /** 8XY4 to 8XYE: write VX, then the carry, borrow or shifted-out bit to VF, and
        move on. */
    method ExecuteArithmetic(i: Instr)
      requires Valid() && FlagSetting(i)
      modifies this, registers
      ensures Valid() && Abs() == ExecArithmetic(old(Abs()), i)
    {
      ghost var V := registers[..];
      match i {
        case AddReg(x, y) =>
          var hasCarry := registers[x] as int + registers[y] > 255;
          if hasCarry {
            registers[x] := registers[x] as int + registers[y] - 256;
            registers[VF] := 1;
            assert registers[..] == V[x := V[x] as int + V[y] - 256][VF := 1];
          } else {
            registers[x] := registers[x] + registers[y];
            registers[VF] := 0;
            assert registers[..] == V[x := V[x] + V[y]][VF := 0];
          }
        case SubReg(x, y) =>
          var hasBorrow := registers[x] > registers[y];
          if hasBorrow {
            registers[x] := registers[x] - registers[y];
            registers[VF] := 1;
            assert registers[..] == V[x := V[x] - V[y]][VF := 1];
          } else {
            registers[x] := AsU8(RemI32(registers[x] as int - registers[y], 256));
            registers[VF] := 0;
            assert registers[..] == V[x := AsU8(RemI32(V[x] as int - V[y], 256))][VF := 0];
          }
        case ShiftRight(x, _) =>
          var leastSignificantBit := BitAnd(registers[x], 0x01);
          registers[x] := ShiftRightOne(registers[x]);
          registers[VF] := leastSignificantBit;
          assert registers[..] == V[x := ShiftRightOne(V[x])][VF := BitAnd(V[x], 0x01)];
        case SubReverse(x, y) =>
          var hasBorrow := registers[y] < registers[x];
          registers[x] := AsU8(registers[y] as int - registers[x]);
          registers[VF] := if hasBorrow then 0 else 1;
          assert registers[..] == V[x := AsU8(V[y] as int - V[x])][VF := if V[y] < V[x] then 0 else 1];
        case ShiftLeft(x, _) =>
          var mostSignificantBit := BitAnd(registers[x], 0x80);
          registers[x] := ShiftLeftOne(registers[x]);
          registers[VF] := mostSignificantBit;
          assert registers[..] == V[x := ShiftLeftOne(V[x])][VF := BitAnd(V[x], 0x80)];
      }
      programCounter := Advance(programCounter, 2);
    }

    /** 00E0, 00EE, 1NNN, 2NNN, BNNN and the fall-through for unrecognised words. */
    method ExecuteFlow(i: Instr) returns (fault: Option<Fault>)
      requires Valid() && IsFlow(i)
      modifies this, screen
      ensures Valid() && Outcome(fault, Abs()) == ExecFlow(old(Abs()), i)
    {
      fault := None;
      match i {
        case ClearScreen =>
          for k := 0 to screen.Length
            invariant forall c :: 0 <= c < k ==> !screen[c]
            modifies screen
          {
            screen[k] := false;
          }
          assert screen[..] == BlankScreen();
          programCounter := Advance(programCounter, 2);
        case Return =>
          if |stack| == 0 {
            return Some(StackUnderflow);
          }
          programCounter := stack[|stack| - 1];
          stack := stack[..|stack| - 1];
          programCounter := Advance(programCounter, 2);
        case Jump(nnn) =>
          programCounter := nnn;
        case Call(nnn) =>
          stack := stack + [programCounter];
          programCounter := nnn;
        case JumpOffset(nnn) =>
          programCounter := nnn + registers[0];
        case Unknown(_) =>
          programCounter := Advance(programCounter, 2);
      }
    }

    /** 3XNN, 4XNN, 5XY0, 9XY0, EX9E and EXA1: move on by 4 when the condition holds
        and by 2 otherwise. The key tests index the key latches by VX. */
    method ExecuteSkip(i: Instr) returns (fault: Option<Fault>)
      requires Valid() && IsSkip(i)
      modifies this
      ensures Valid() && Outcome(fault, Abs()) == ExecSkip(old(Abs()), i)
    {
      fault := None;
      match i {
        case SkipIfEqualImm(x, nn) =>
          programCounter := Advance(programCounter, if registers[x] == nn then 4 else 2);
        case SkipIfNotEqualImm(x, nn) =>
          programCounter := Advance(programCounter, if registers[x] != nn then 4 else 2);
        case SkipIfEqualReg(x, y) =>
          programCounter := Advance(programCounter, if registers[x] == registers[y] then 4 else 2);
        case SkipIfNotEqualReg(x, y) =>
          programCounter := Advance(programCounter, if registers[x] != registers[y] then 4 else 2);
        case SkipIfKey(x) =>
          if registers[x] >= keys.Length {
            return Some(KeyOutOfRange);
          }
          programCounter := Advance(programCounter, if keys[registers[x]] then 4 else 2);
        case SkipIfNotKey(x) =>
          if registers[x] >= keys.Length {
            return Some(KeyOutOfRange);
          }
          programCounter := Advance(programCounter, if !keys[registers[x]] then 4 else 2);
      }
    }

    /** ANNN, FX15, FX18, FX1E and FX29: set I or a timer and move on. */
    method ExecuteIndexOrTimer(i: Instr)
      requires Valid() && SetsIndexOrTimer(i)
      modifies this
      ensures Valid() && Abs() == ExecIndexOrTimer(old(Abs()), i)
    {
      match i {
        case LoadIndex(nnn) =>
          addressRegister := nnn;
        case SetDelay(x) =>
          delayTimer := registers[x];
        case SetSound(x) =>
          soundTimer := registers[x];
        case AddIndex(x) =>
          addressRegister := Advance(addressRegister, registers[x]);
        case FontCharacter(x) =>
          addressRegister := Advance(fontDataBaseAddress, 5 * registers[x] as int);
      }
      programCounter := Advance(programCounter, 2);
    }

    /** FX33: the hundreds, tens and ones of VX at I, I + 1 and I + 2. */
    method StoreBcd(x: Nibble) returns (fault: Option<Fault>)
      requires Valid()
      modifies this, memory
      ensures Valid() && Outcome(fault, Abs()) == ExecMemory(old(Abs()), Instr.StoreBcd(x))
    {
      var hundreds := registers[x] / 100;
      var tens := (registers[x] - hundreds * 100) / 10;
      var ones := (registers[x] - hundreds * 100) - tens * 10;
      var at := addressRegister as int;
      if at + 2 >= memory.Length {
        return Some(MemoryOutOfRange);
      }
      ghost var before := memory[..];
      memory[at + 0] := hundreds;
      memory[at + 1] := tens;
      memory[at + 2] := ones;
      programCounter := Advance(programCounter, 2);
      forall a | 0 <= a < MEMORY_SIZE
        ensures memory[a] == Splice(before, at, [hundreds, tens, ones])[a]
      {
        SpliceAt(before, at, [hundreds, tens, ones], a);
      }
      assert memory[..] == Splice(before, at, [hundreds, tens, ones]);
      return None;
    }

    /** FX55: V0 to VX, inclusive, copied to memory from I on. */
    method StoreRegisters(x: Nibble) returns (fault: Option<Fault>)
      requires Valid()
      modifies this, memory
      ensures Valid() && Outcome(fault, Abs()) == ExecMemory(old(Abs()), Instr.StoreRegisters(x))
    {
      var at := addressRegister as int;
      ghost var before := memory[..];
      for i := 0 to x + 1
        invariant i > 0 ==> at + i <= MEMORY_SIZE
        invariant forall a :: 0 <= a < MEMORY_SIZE ==>
          memory[a] == if at <= a < at + i then registers[a - at] else before[a]
        modifies memory
      {
        if at + i >= memory.Length {
          return Some(MemoryOutOfRange);
        }
        memory[at + i] := registers[i];
      }
      programCounter := Advance(programCounter, 2);
      forall a | 0 <= a < MEMORY_SIZE
        ensures memory[a] == Splice(before, at, registers[..x + 1])[a]
      {
        SpliceAt(before, at, registers[..x + 1], a);
      }
      assert memory[..] == Splice(before, at, registers[..x + 1]);
      return None;
    }

    /** FX65: V0 to VX, inclusive, loaded from memory from I on. */
    method LoadRegisters(x: Nibble) returns (fault: Option<Fault>)
      requires Valid()
      modifies this, registers
      ensures Valid() && Outcome(fault, Abs()) == ExecMemory(old(Abs()), Instr.LoadRegisters(x))
    {
      var at := addressRegister as int;
      ghost var before := registers[..];
      for i := 0 to x + 1
        invariant i > 0 ==> at + i <= MEMORY_SIZE
        invariant forall r :: 0 <= r < REGISTER_COUNT ==>
          registers[r] == if r < i then memory[at + r] else before[r]
        modifies registers
      {
        if at + i >= memory.Length {
          return Some(MemoryOutOfRange);
        }
        registers[i] := memory[at + i];
      }
      programCounter := Advance(programCounter, 2);
      forall r | 0 <= r < REGISTER_COUNT
        ensures registers[r] == Splice(before, 0, memory[at..at + x + 1])[r]
      {
        SpliceAt(before, 0, memory[at..at + x + 1], r);
      }
      assert registers[..] == Splice(before, 0, memory[at..at + x + 1]);
      return None;
    }

    /** DXYN: the draw loop, then VF from the collision flag. */
    method DrawSprite(x: Nibble, y: Nibble, n: Nibble) returns (fault: Option<Fault>)
      requires Valid()
      modifies this, registers, screen
      ensures Valid() && Outcome(fault, Abs()) == ExecDraw(old(Abs()), x, y, n)
    {
      ghost var s0 := Abs();
      var hasChangedSetPixelToUnset;
      fault, hasChangedSetPixelToUnset := DrawSpriteRows(x, registers[x], registers[y], addressRegister as int, n);
      if fault.Some? {
        return;
      }
      ghost var s1 := s0.(screen := screen[..], registers := s0.registers[VF := if hasChangedSetPixelToUnset then 1 else 0]);
      assert ExecDraw(s0, x, y, n) == Ok(Next(s1, 2));
      if hasChangedSetPixelToUnset {
        registers[VF] := 1;
      } else {
        registers[VF] := 0;
      }
      assert registers[..] == s1.registers;
      programCounter := Advance(programCounter, 2);
      return None;
    }

    /** The outer loop of DXYN: n sprite rows read from memory at `at`, starting at
        column VX mod 64 and row VY mod 32, where VX and VY are the register values
        `vx` and `vy`; every later row restarts at the value of register x. */
    method DrawSpriteRows(x: Nibble, vx: uint8, vy: uint8, at: nat, n: nat) returns (fault: Option<Fault>, hasChangedSetPixelToUnset: bool)
      requires Valid() && registers[x] == vx
      modifies screen
      ensures Sprite.DrawRows(Sprite.Canvas(old(screen[..]), false), memory[..], at, vx, vy, n)
           == if fault.Some? then Err(fault.value) else Ok(Sprite.Canvas(screen[..], hasChangedSetPixelToUnset))
    {
      ghost var VX, VY, mem := vx, vy, memory[..];
      ghost var start := Sprite.Canvas(screen[..], false);
      var vx := vx % 64;
      var vy := vy % 32;
      hasChangedSetPixelToUnset := false;
      for i := 0 to n
        invariant vx == if i == 0 then VX % 64 else VX
        invariant vy == Sprite.Row(VY, i)
        invariant Sprite.DrawRows(start, mem, at, VX, VY, i) == Ok(Sprite.Canvas(screen[..], hasChangedSetPixelToUnset))
      {
        ghost var before := Sprite.Canvas(screen[..], hasChangedSetPixelToUnset);
        if at + i >= memory.Length {
          assert Sprite.DrawRows(start, mem, at, VX, VY, n) == Err(MemoryOutOfRange) by {
            Sprite.DrawRowsStep(start, mem, at, VX, VY, i, before);
            Sprite.RowsAbortPersists(start, mem, at, VX, VY, i + 1, n);
          }
          return Some(MemoryOutOfRange), hasChangedSetPixelToUnset;
        }
        var spriteRow := memory[at + i];
        assert spriteRow == mem[at + i];
        fault, hasChangedSetPixelToUnset := DrawSpriteRow(spriteRow, vx, vy, hasChangedSetPixelToUnset, VX, VY, i);
        ghost var drawn := if fault.Some? then Err(fault.value) else Ok(Sprite.Canvas(screen[..], hasChangedSetPixelToUnset));
        assert Sprite.DrawRows(start, mem, at, VX, VY, i + 1) == drawn by {
          Sprite.DrawRowsStep(start, mem, at, VX, VY, i, before);
        }
        if fault.Some? {
          assert Sprite.DrawRows(start, mem, at, VX, VY, n) == drawn by {
            Sprite.RowsAbortPersists(start, mem, at, VX, VY, i + 1, n);
          }
          return;
        }
        Sprite.NextRow(VY, i);
        vx := registers[x];
        vy := vy + 1;
        vy := vy % 32;
      }
      return None, hasChangedSetPixelToUnset;
    }

    /** The inner loop of DXYN: the eight pixels of sprite row i, whose byte is
        `spriteRow`, starting at column `vx` of screen row `vy`, where VX and VY are
        the raw register values the draw started from. */
    method DrawSpriteRow(spriteRow: uint8, vx: uint8, vy: uint8, collided: bool, ghost VX: uint8, ghost VY: uint8, ghost i: nat)
      returns (fault: Option<Fault>, hasChangedSetPixelToUnset: bool)
      requires Valid()
      requires vx == Sprite.Column(VX, i, 0) && vy == Sprite.Row(VY, i)
      modifies screen
      ensures Sprite.DrawRow(Sprite.Canvas(old(screen[..]), collided), Sprite.RowBits(spriteRow), VX, VY, i)
           == if fault.Some? then Err(fault.value) else Ok(Sprite.Canvas(screen[..], hasChangedSetPixelToUnset))
    {
      var vx := vx;
      hasChangedSetPixelToUnset := collided;
      ghost var c := Sprite.Canvas(screen[..], collided);
      ghost var bits := Sprite.RowBits(spriteRow);
      for j := 0 to 8
        invariant vx == Sprite.Column(VX, i, j)
        invariant Sprite.DrawRow(c, bits[..j], VX, VY, i) == Ok(Sprite.Canvas(screen[..], hasChangedSetPixelToUnset))
      {
        var cell := vy as int * 64 + vx;
        assert cell == Sprite.DrawCell(VX, VY, i, j);
        ghost var before := Sprite.Canvas(screen[..], hasChangedSetPixelToUnset);
        if cell >= screen.Length {
          assert Sprite.DrawRow(c, bits, VX, VY, i) == Err(ScreenOutOfRange) by {
            Sprite.DrawRowStep(c, bits, VX, VY, i, j, before);
            Sprite.RowAbortPersists(c, bits, VX, VY, i, j + 1, 8);
            assert bits[..8] == bits;
          }
          return Some(ScreenOutOfRange), hasChangedSetPixelToUnset;
        }
        hasChangedSetPixelToUnset := DrawSpritePixel(spriteRow, j, cell, hasChangedSetPixelToUnset, VX, VY, i);
        assert Sprite.DrawRow(c, bits[..j + 1], VX, VY, i) == Ok(Sprite.Canvas(screen[..], hasChangedSetPixelToUnset)) by {
          Sprite.DrawRowStep(c, bits, VX, VY, i, j, before);
        }
        Sprite.NextColumn(VX, i, j);
        vx := (vx as int + 1) % 0x100;
        vx := vx % 64;
      }
      assert bits[..8] == bits;
      return None, hasChangedSetPixelToUnset;
    }

    /** One pass of the inner loop of DXYN: pixel j of sprite row i, whose byte is
        `spriteRow`, lands on `cell`; a set sprite bit flips the cell, and a lit cell
        under a clear bit sets the collision flag. */
    method DrawSpritePixel(spriteRow: uint8, j: nat, cell: nat, collided: bool, ghost VX: uint8, ghost VY: uint8, ghost i: nat)
      returns (hasChangedSetPixelToUnset: bool)
      requires Valid() && j < Sprite.SPRITE_WIDTH && cell == Sprite.DrawCell(VX, VY, i, j) && cell < screen.Length
      modifies screen
      ensures Sprite.DrawPixel(Sprite.Canvas(old(screen[..]), collided), Sprite.SpriteBit(spriteRow, j), VX, VY, i, j)
           == Ok(Sprite.Canvas(screen[..], hasChangedSetPixelToUnset))
    {
      hasChangedSetPixelToUnset := collided;
      var spritePixel := (spriteRow as bv8) & (1 << (7 - j));
      var currentPixel := screen[cell];
      if currentPixel {
        if spritePixel == 0 {
          hasChangedSetPixelToUnset := true;
        }
      }
      if spritePixel != 0 {
        screen[cell] := (spritePixel != 0) != screen[cell];
      }
    }

    /** `get_video_buffer_as_rgba`: the screen as RGBA bytes, built row by row of the
        image, bottom screen row first. Nothing changes. */
    method GetVideoBufferAsRgba() returns (imageData: seq<uint8>)
      requires Valid()
      ensures imageData == Video.Rgba(screen[..])
    {
      imageData := [];
      for j := 0 to ScreenHeight()
        invariant |imageData| == 4 * 64 * j
        invariant forall b :: 0 <= b < |imageData| ==> imageData[b] == Video.ImageByte(screen[..], b)
      {
        for i := 0 to ScreenWidth()
          invariant |imageData| == 4 * (64 * j + i)
          invariant forall b :: 0 <= b < |imageData| ==> imageData[b] == Video.ImageByte(screen[..], b)
        {
          var u := i;
          var v := ScreenHeight() - 1 - j;
          ghost var q := 64 * j + i;
          assert Video.SourceCell(q) == u + v * 64 by {
            assert q / 64 == j && q % 64 == i;
          }
          ImagePixelBytes(screen[..], q, 0);
          ImagePixelBytes(screen[..], q, 1);
          ImagePixelBytes(screen[..], q, 2);
          ImagePixelBytes(screen[..], q, 3);
          if screen[u + v * 64] == false {
            imageData := imageData + [0, 0, 0, 255];
          } else {
            imageData := imageData + [255, 255, 255, 255];
          }
        }
      }
      assert imageData == Video.Rgba(screen[..]);
    }
  }
}
