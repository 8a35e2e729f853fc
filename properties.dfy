/** What the instruction semantics guarantees, stated against independent definitions:
    plain modular arithmetic for the ALU, per-address effects for memory at I, the
    closed-form sprite effect for DXYN, and frame facts saying which fields each
    instruction may change. */
module Properties {
  import opened MachineState
  import opened Opcode
  import opened Semantics
  import Font
  import Sprite

  // ---------------------------------------------------------------------------
  // The byte operations the dispatcher uses, in arithmetic terms.

  /** `v & 0b00000001` is the parity bit. */
  lemma LowBit(v: uint8)
    ensures BitAnd(v, 0x01) == v % 2
  {
    var b := v as bv8;
    assert b & 1 == b % 2;
  }

  /** `v & 0b10000000` keeps the top bit in place: 128 or 0, never 1. */
  lemma HighBit(v: uint8)
    ensures BitAnd(v, 0x80) == if v >= 0x80 then 0x80 else 0
  {
    var b := v as bv8;
    assert b & 0x80 == if b >= 0x80 then 0x80 else 0;
  }

  /** `(a % 256) as u8` with Rust's truncating `%` is still the residue mod 256. */
  lemma WrappedDifference(a: int)
    requires -0x100 < a < 0x100
    ensures AsU8(RemI32(a, 0x100)) == a % 0x100
  {
    if a < 0 {
      assert RemI32(a, 0x100) == a;
    }
  }

  // ---------------------------------------------------------------------------
  // ALU: 7XNN and 8XY4 to 8XYE.

  /** The value each flag-setting instruction computes for VX, as modular arithmetic. */
  function AluResult(V: seq<uint8>, i: Instr): uint8
    requires |V| == REGISTER_COUNT && FlagSetting(i)
  {
    match i
    case AddReg(x, y) => (V[x] as int + V[y]) % 0x100
    case SubReg(x, y) => (V[x] as int - V[y]) % 0x100
    case ShiftRight(x, _) => V[x] / 2
    case SubReverse(x, y) => (V[y] as int - V[x]) % 0x100
    case ShiftLeft(x, _) => (2 * V[x] as int) % 0x100
  }

  /** The flag each one leaves in VF: carry, "no borrow" (strict for 8XY5), the bit
      shifted out (kept in place for 8XYE). */
  function AluFlag(V: seq<uint8>, i: Instr): uint8
    requires |V| == REGISTER_COUNT && FlagSetting(i)
  {
    match i
    case AddReg(x, y) => if V[x] as int + V[y] > 0xFF then 1 else 0
    case SubReg(x, y) => if V[x] > V[y] then 1 else 0
    case ShiftRight(x, _) => V[x] % 2
    case SubReverse(x, y) => if V[y] >= V[x] then 1 else 0
    case ShiftLeft(x, _) => if V[x] >= 0x80 then 0x80 else 0
  }

  /** 8XY4 to 8XYE write the result into VX, then the flag into VF (so with X = F the
      flag is what remains), change no other register, and move on by 2. */
  lemma FlagSettingEffect(s: State, i: Instr, rnd: uint8)
    requires WellFormed(s) && FlagSetting(i)
    ensures Exec(s, i, rnd) ==
      Ok(s.(registers := s.registers[i.x := AluResult(s.registers, i)][VF := AluFlag(s.registers, i)],
            programCounter := Advance(s.programCounter, 2)))
  {
    var t := ExecArithmetic(s, i);
    assert Exec(s, i, rnd) == Ok(t);
    ArithmeticRegisters(s, i);
  }

  lemma ArithmeticRegisters(s: State, i: Instr)
    requires WellFormed(s) && FlagSetting(i)
    ensures ExecArithmetic(s, i).registers ==
      s.registers[i.x := AluResult(s.registers, i)][VF := AluFlag(s.registers, i)]
  {
    var V := s.registers;
    match i
    case AddReg(x, y) =>
      var sum := V[x] as int + V[y];
      if sum > 255 {
        assert ExecArithmetic(s, i) == SetRegisterAndFlag(s, x, sum - 256, 1);
        assert AluResult(V, i) == sum - 256 && AluFlag(V, i) == 1;
      } else {
        assert ExecArithmetic(s, i) == SetRegisterAndFlag(s, x, sum, 0);
        assert AluResult(V, i) == sum && AluFlag(V, i) == 0;
      }
    case SubReg(x, y) =>
      if V[x] > V[y] {
        assert ExecArithmetic(s, i) == SetRegisterAndFlag(s, x, V[x] - V[y], 1);
        assert AluResult(V, i) == V[x] - V[y] && AluFlag(V, i) == 1;
      } else {
        WrappedDifference(V[x] as int - V[y]);
        assert ExecArithmetic(s, i) == SetRegisterAndFlag(s, x, AsU8(RemI32(V[x] as int - V[y], 256)), 0);
        assert AluResult(V, i) == AsU8(RemI32(V[x] as int - V[y], 256)) && AluFlag(V, i) == 0;
      }
    case ShiftRight(x, _) =>
      LowBit(V[x]);
      assert ExecArithmetic(s, i) == SetRegisterAndFlag(s, x, ShiftRightOne(V[x]), BitAnd(V[x], 0x01));
    case SubReverse(x, y) =>
      assert ExecArithmetic(s, i) == SetRegisterAndFlag(s, x, AsU8(V[y] as int - V[x]), if V[y] < V[x] then 0 else 1);
    case ShiftLeft(x, _) =>
      HighBit(V[x]);
      assert ExecArithmetic(s, i) == SetRegisterAndFlag(s, x, ShiftLeftOne(V[x]), BitAnd(V[x], 0x80));
  }

  /** 7XNN adds modulo 256 and leaves VF alone (unless X is F itself). */
  lemma AddImmEffect(s: State, x: Nibble, nn: uint8, rnd: uint8)
    requires WellFormed(s)
    ensures Exec(s, AddImm(x, nn), rnd) ==
      Ok(s.(registers := s.registers[x := (s.registers[x] as int + nn) % 0x100],
            programCounter := Advance(s.programCounter, 2)))
  {
  }

  /** FX0A does not wait for a key: it stores 0 in VX and moves on. */
  lemma WaitKeyStoresZero(s: State, x: Nibble, rnd: uint8)
    requires WellFormed(s)
    ensures Exec(s, WaitKey(x), rnd) ==
      Ok(s.(registers := s.registers[x := 0], programCounter := Advance(s.programCounter, 2)))
  {
  }

  /** 6XNN, 8XY0, CXNN and FX07 load VX from NN, from VY, from the random byte masked
      by NN, and from the delay timer; nothing else changes but the PC. */
  lemma LoadEffect(s: State, x: Nibble, y: Nibble, nn: uint8, rnd: uint8)
    requires WellFormed(s)
    ensures var V, next := s.registers, Advance(s.programCounter, 2);
      Exec(s, LoadImm(x, nn), rnd) == Ok(s.(registers := V[x := nn], programCounter := next)) &&
      Exec(s, Move(x, y), rnd) == Ok(s.(registers := V[x := V[y]], programCounter := next)) &&
      Exec(s, Random(x, nn), rnd) == Ok(s.(registers := V[x := BitAnd(rnd, nn)], programCounter := next)) &&
      Exec(s, LoadDelay(x), rnd) == Ok(s.(registers := V[x := s.delayTimer], programCounter := next))
  {
  }

  /** 8XY1, 8XY2 and 8XY3 combine VX with VY bitwise; VF keeps its value (unless X is
      F) and nothing else changes but the PC. */
  lemma LogicEffect(s: State, x: Nibble, y: Nibble, rnd: uint8)
    requires WellFormed(s)
    ensures var V, next := s.registers, Advance(s.programCounter, 2);
      Exec(s, Or(x, y), rnd) == Ok(s.(registers := V[x := BitOr(V[x], V[y])], programCounter := next)) &&
      Exec(s, And(x, y), rnd) == Ok(s.(registers := V[x := BitAnd(V[x], V[y])], programCounter := next)) &&
      Exec(s, Xor(x, y), rnd) == Ok(s.(registers := V[x := BitXor(V[x], V[y])], programCounter := next))
  {
  }

  // ---------------------------------------------------------------------------
  // Which instruction may change which field.

  /** `keys` and the font base are never written; each other field changes only under
      the instructions that write it. */
  lemma ExecFrame(s: State, i: Instr, rnd: uint8)
    requires WellFormed(s) && Exec(s, i, rnd).Ok?
    ensures var t := Exec(s, i, rnd).value;
      t.keys == s.keys && t.fontDataBaseAddress == s.fontDataBaseAddress &&
      (t.memory != s.memory ==> i.StoreBcd? || i.StoreRegisters?) &&
      (t.screen != s.screen ==> i.ClearScreen? || i.Draw?) &&
      (t.stack != s.stack ==> i.Call? || i.Return?) &&
      (t.registers != s.registers ==> WritesRegister(i) || i.Draw? || i.LoadRegisters?) &&
      (t.addressRegister != s.addressRegister ==> i.LoadIndex? || i.AddIndex? || i.FontCharacter?) &&
      (t.delayTimer != s.delayTimer ==> i.SetDelay?) &&
      (t.soundTimer != s.soundTimer ==> i.SetSound?)
  {
  }

  // ---------------------------------------------------------------------------
  // The program counter.

  /** Instructions that set the PC other than by moving on to the next word. */
  predicate Branches(i: Instr) {
    i.Return? || i.Jump? || i.Call? || i.JumpOffset? || IsSkip(i)
  }

  /** Every other instruction, unrecognised words included, moves the PC on by 2. */
  lemma SequentialAdvancesByTwo(s: State, i: Instr, rnd: uint8)
    requires WellFormed(s) && !Branches(i) && Exec(s, i, rnd).Ok?
    ensures Exec(s, i, rnd).value.programCounter == Advance(s.programCounter, 2)
  {
  }

  /** A skip changes nothing but the PC, which moves by 4 when its condition holds
      and by 2 otherwise; the key skips abort when VX names no key. */
  lemma SkipDistance(s: State, i: Instr, rnd: uint8)
    requires WellFormed(s) && IsSkip(i)
    ensures var V, r := s.registers, Exec(s, i, rnd);
      (r.Err? <==> (i.SkipIfKey? || i.SkipIfNotKey?) && V[i.x] >= KEY_COUNT) &&
      (r.Err? ==> r.fault == KeyOutOfRange) &&
      (r.Ok? ==>
        var taken := match i
          case SkipIfEqualImm(x, nn) => V[x] == nn
          case SkipIfNotEqualImm(x, nn) => V[x] != nn
          case SkipIfEqualReg(x, y) => V[x] == V[y]
          case SkipIfNotEqualReg(x, y) => V[x] != V[y]
          case SkipIfKey(x) => s.keys[V[x]]
          case SkipIfNotKey(x) => !s.keys[V[x]];
        r.value == s.(programCounter := Advance(s.programCounter, if taken then 4 else 2)))
  {
  }

  /** A word that matches no pattern only moves the PC on. */
  lemma UnknownWordAdvances(s: State, opcode: uint16, rnd: uint8)
    requires WellFormed(s) && Decode(opcode).Unknown?
    ensures Execute(s, opcode, rnd) == Ok(s.(programCounter := Advance(s.programCounter, 2)))
  {
  }

  /** 5XYn and 9XYn with n other than 0 are not skips: they fall through to "move on". */
  lemma RegisterSkipNeedsZeroNibble(s: State, opcode: uint16, rnd: uint8)
    requires WellFormed(s) && (H(opcode) == 5 || H(opcode) == 9) && N(opcode) != 0
    ensures Execute(s, opcode, rnd) == Ok(s.(programCounter := Advance(s.programCounter, 2)))
  {
    RegisterSkipNeedsZeroLowNibble(opcode);
  }

  // ---------------------------------------------------------------------------
  // Jumps, calls and returns.

  /** 1NNN jumps to NNN and BNNN to NNN + V0; neither touches the stack. */
  lemma JumpTargets(s: State, nnn: Address12, rnd: uint8)
    requires WellFormed(s)
    ensures Exec(s, Jump(nnn), rnd) == Ok(s.(programCounter := nnn))
    ensures Exec(s, JumpOffset(nnn), rnd) == Ok(s.(programCounter := nnn + s.registers[0]))
  {
  }

  /** 00E0 darkens every cell and changes nothing else but the PC. */
  lemma ClearScreenEffect(s: State, rnd: uint8)
    requires WellFormed(s)
    ensures var t := Exec(s, ClearScreen, rnd);
      t.Ok? && (forall k :: 0 <= k < SCREEN_CELLS ==> !t.value.screen[k]) &&
      t.value == s.(screen := t.value.screen, programCounter := Advance(s.programCounter, 2))
  {
  }

  /** 00EE on a non-empty stack pops its top and resumes two bytes after it. */
  lemma ReturnEffect(s: State, rnd: uint8)
    requires WellFormed(s) && s.stack != []
    ensures var top := |s.stack| - 1;
      Exec(s, Return, rnd) == Ok(s.(stack := s.stack[..top], programCounter := Advance(s.stack[top], 2)))
  {
  }

  /** 00EE aborts exactly when the stack is empty. */
  lemma ReturnUnderflow(s: State, rnd: uint8)
    requires WellFormed(s)
    ensures Exec(s, Return, rnd).Err? <==> s.stack == []
    ensures Exec(s, Return, rnd).Err? ==> Exec(s, Return, rnd).fault == StackUnderflow
  {
  }

  /** 2NNN pushes its own address and jumps; a following 00EE pops it, restores the
      stack and resumes after the call. */
  lemma CallThenReturn(s: State, nnn: Address12, rnd: uint8)
    requires WellFormed(s)
    ensures var c := Exec(s, Call(nnn), rnd);
      c.Ok? && c.value.programCounter == nnn && c.value.stack == s.stack + [s.programCounter] &&
      Exec(c.value, Return, rnd) == Ok(s.(programCounter := Advance(s.programCounter, 2)))
  {
    var c := Exec(s, Call(nnn), rnd).value;
    assert c.stack[..|c.stack| - 1] == s.stack;
  }

  /** Executing the word that encodes an instruction executes that instruction. */
  lemma ExecuteEncoded(s: State, i: Instr, rnd: uint8)
    requires WellFormed(s) && Decodable(i)
    ensures Execute(s, Encode(i), rnd) == Exec(s, i, rnd)
  {
    DecodeEncode(i);
  }

  /** The same, for the instruction words 0x2NNN and 0x00EE. */
  lemma CallThenReturnWords(s: State, nnn: Address12, rnd: uint8)
    requires WellFormed(s)
    ensures var c := Execute(s, 0x2000 + nnn, rnd);
      c.Ok? && Execute(c.value, 0x00EE, rnd) == Ok(s.(programCounter := Advance(s.programCounter, 2)))
  {
    CallThenReturn(s, nnn, rnd);
    assert Encode(Call(nnn)) == 0x2000 + nnn && Encode(Return) == 0x00EE;
    ExecuteEncoded(s, Call(nnn), rnd);
    var c := Exec(s, Call(nnn), rnd).value;
    ExecuteEncoded(c, Return, rnd);
  }

  // ---------------------------------------------------------------------------
  // I and memory at I.

  /** ANNN sets I to NNN and changes nothing else but the PC. */
  lemma LoadIndexEffect(s: State, nnn: Address12, rnd: uint8)
    requires WellFormed(s)
    ensures Exec(s, LoadIndex(nnn), rnd) ==
      Ok(s.(addressRegister := nnn, programCounter := Advance(s.programCounter, 2)))
  {
  }

  /** FX1E adds VX to I, wrapping at 16 bits, and sets no flag. */
  lemma AddIndexWraps(s: State, x: Nibble, rnd: uint8)
    requires WellFormed(s)
    ensures Exec(s, AddIndex(x), rnd) ==
      Ok(s.(addressRegister := (s.addressRegister + s.registers[x]) % 0x1_0000,
            programCounter := Advance(s.programCounter, 2)))
  {
  }

  /** FX29 sets I to the font base plus five bytes per digit, wrapping at 16 bits. */
  lemma FontCharacterEffect(s: State, x: Nibble, rnd: uint8)
    requires WellFormed(s)
    ensures Exec(s, FontCharacter(x), rnd) ==
      Ok(s.(addressRegister := (s.fontDataBaseAddress + 5 * s.registers[x] as int) % 0x1_0000,
            programCounter := Advance(s.programCounter, 2)))
  {
  }

  /** With the font at address 0, FX29 points I at the glyph for the digit in VX. */
  lemma FontCharacterAddressesGlyph(s: State, x: Nibble, rnd: uint8)
    requires WellFormed(s) && s.fontDataBaseAddress == 0 && s.registers[x] < Font.GLYPH_COUNT
    requires s.memory[..|Font.CreateFontData()|] == Font.CreateFontData()
    ensures var t := Exec(s, FontCharacter(x), rnd).value;
      t.addressRegister == 5 * s.registers[x] &&
      t.memory[t.addressRegister .. t.addressRegister + 5] == Font.Glyph(s.registers[x])
  {
    var d, font := s.registers[x], Font.CreateFontData();
    Font.GlyphAt(d);
    assert s.memory[5 * d .. 5 * d + 5] == s.memory[..|font|][5 * d .. 5 * (d + 1)];
  }

  /** FX33 stores the three decimal digits of VX at I, I + 1, I + 2 and changes no
      other byte; it aborts exactly when I + 2 is past the end of memory. */
  lemma StoreBcdEffect(s: State, x: Nibble, rnd: uint8)
    requires WellFormed(s)
    ensures var I, r := s.addressRegister, Exec(s, StoreBcd(x), rnd);
      (r.Err? <==> I + 2 >= MEMORY_SIZE) && (r.Err? ==> r.fault == MemoryOutOfRange) &&
      (r.Ok? ==>
        var m := r.value.memory;
        m[I] < 10 && m[I + 1] < 10 && m[I + 2] < 10 &&
        100 * m[I] + 10 * m[I + 1] + m[I + 2] == s.registers[x] &&
        (forall a :: 0 <= a < MEMORY_SIZE && !(I <= a < I + 3) ==> m[a] == s.memory[a]) &&
        r.value == s.(memory := m, programCounter := Advance(s.programCounter, 2)))
  {
  }

  /** FX55 copies V0..VX (inclusive) to memory from I on and changes no other byte, nor
      I; it aborts exactly when I + X is past the end of memory. */
  lemma StoreRegistersEffect(s: State, x: Nibble, rnd: uint8)
    requires WellFormed(s)
    ensures var I, r := s.addressRegister, Exec(s, StoreRegisters(x), rnd);
      (r.Err? <==> I + x >= MEMORY_SIZE) && (r.Err? ==> r.fault == MemoryOutOfRange) &&
      (r.Ok? ==>
        var m := r.value.memory;
        (forall k :: 0 <= k <= x ==> m[I + k] == s.registers[k]) &&
        (forall a :: 0 <= a < MEMORY_SIZE && !(I <= a <= I + x) ==> m[a] == s.memory[a]) &&
        r.value == s.(memory := m, programCounter := Advance(s.programCounter, 2)))
  {
  }

  /** FX65 loads V0..VX (inclusive) from memory at I and changes no other register; it
      aborts exactly when I + X is past the end of memory. */
  lemma LoadRegistersEffect(s: State, x: Nibble, rnd: uint8)
    requires WellFormed(s)
    ensures var I, r := s.addressRegister, Exec(s, LoadRegisters(x), rnd);
      (r.Err? <==> I + x >= MEMORY_SIZE) && (r.Err? ==> r.fault == MemoryOutOfRange) &&
      (r.Ok? ==>
        var V := r.value.registers;
        (forall k :: 0 <= k <= x ==> V[k] == s.memory[I + k]) &&
        (forall k :: x < k < REGISTER_COUNT ==> V[k] == s.registers[k]) &&
        r.value == s.(registers := V, programCounter := Advance(s.programCounter, 2)))
  {
  }

  /** FX65 after FX55 with the same I and X gives back V0..VX, whatever happened to the
      registers in between, as long as memory and I did not change. */
  lemma StoreThenLoad(s: State, t: State, x: Nibble, rnd: uint8)
    requires WellFormed(s) && WellFormed(t) && Exec(s, StoreRegisters(x), rnd).Ok?
    requires t.memory == Exec(s, StoreRegisters(x), rnd).value.memory
    requires t.addressRegister == s.addressRegister
    ensures var r := Exec(t, LoadRegisters(x), rnd);
      r.Ok? && forall k :: 0 <= k <= x ==> r.value.registers[k] == s.registers[k]
  {
    StoreRegistersEffect(s, x, rnd);
    LoadRegistersEffect(t, x, rnd);
  }

  /** Straight after FX55, FX65 with the same X leaves every register as it was. */
  lemma StoreThenLoadRestores(s: State, x: Nibble, rnd: uint8)
    requires WellFormed(s) && Exec(s, StoreRegisters(x), rnd).Ok?
    ensures var t := Exec(s, StoreRegisters(x), rnd).value;
      Exec(t, LoadRegisters(x), rnd).Ok? && Exec(t, LoadRegisters(x), rnd).value.registers == s.registers
  {
    var t := Exec(s, StoreRegisters(x), rnd).value;
    StoreThenLoad(s, t, x, rnd);
    LoadRegistersEffect(t, x, rnd);
  }

  // ---------------------------------------------------------------------------
  // Timers.

  /** FX15 and FX18 load the delay and the sound timer from VX; nothing else changes but
      the PC. */
  lemma SetTimerEffect(s: State, x: Nibble, rnd: uint8)
    requires WellFormed(s)
    ensures var next := Advance(s.programCounter, 2);
      Exec(s, SetDelay(x), rnd) == Ok(s.(delayTimer := s.registers[x], programCounter := next)) &&
      Exec(s, SetSound(x), rnd) == Ok(s.(soundTimer := s.registers[x], programCounter := next))
  {
  }

  /** FX15 then FX07 copies a register through the delay timer. */
  lemma DelayRoundTrip(s: State, x: Nibble, y: Nibble, rnd: uint8)
    requires WellFormed(s)
    ensures var t := Exec(s, SetDelay(x), rnd);
      t.Ok? && t.value.delayTimer == s.registers[x] &&
      Exec(t.value, LoadDelay(y), rnd).Ok? && Exec(t.value, LoadDelay(y), rnd).value.registers[y] == s.registers[x]
  {
  }

  // ---------------------------------------------------------------------------
  // DXYN.

  /** With VX < 64 and the sprite inside memory, DXYN flips exactly the cells under a
      set sprite bit, sets VF to 1 exactly when a lit cell of the window lies under a
      clear sprite bit (0 otherwise), and changes nothing else but the PC. */
  lemma DrawEffect(s: State, x: Nibble, y: Nibble, n: Nibble, rnd: uint8)
    requires WellFormed(s) && s.registers[x] < SCREEN_WIDTH && s.addressRegister + n <= MEMORY_SIZE
    ensures var V, I := s.registers, s.addressRegister;
      var sprite := s.memory[I .. I + n];
      Exec(s, Draw(x, y, n), rnd) ==
        Ok(s.(screen := Sprite.Toggled(s.screen, sprite, V[x], V[y]),
              registers := V[VF := if Sprite.Collides(s.screen, sprite, V[x], V[y]) then 1 else 0],
              programCounter := Advance(s.programCounter, 2)))
  {
    Sprite.DrawSpriteEffect(s.screen, s.memory, s.addressRegister, s.registers[x], s.registers[y], n);
  }

  /** The cell at column (VX + j) mod 64 of row (VY + i) mod 32 ends up flipped exactly
      when bit j of sprite row i is set. */
  lemma DrawTogglesWindowCell(s: State, x: Nibble, y: Nibble, n: Nibble, rnd: uint8, i: nat, j: nat)
    requires WellFormed(s) && s.registers[x] < SCREEN_WIDTH && s.addressRegister + n <= MEMORY_SIZE
    requires i < n && j < Sprite.SPRITE_WIDTH
    ensures var V, I, t := s.registers, s.addressRegister, Exec(s, Draw(x, y, n), rnd);
      var k := Sprite.WindowCell(V[x], V[y], i, j);
      t.Ok? && t.value.screen[k] == (s.screen[k] != Sprite.SpriteBit(s.memory[I + i], j))
  {
    var V, I := s.registers, s.addressRegister;
    var sprite := s.memory[I .. I + n];
    var t := Exec(s, Draw(x, y, n), rnd);
    assert t.Ok? && t.value.screen == Sprite.Toggled(s.screen, sprite, V[x], V[y]) by {
      DrawEffect(s, x, y, n, rnd);
    }
    assert sprite[i] == s.memory[I + i];
    Sprite.ToggledWindowCell(s.screen, sprite, V[x], V[y], i, j);
  }

  /** Drawing the same sprite twice at the same place restores the screen (X and Y
      other than F, so that the flag write does not move the second draw). */
  lemma DrawTwiceRestoresScreen(s: State, x: Nibble, y: Nibble, n: Nibble, rnd: uint8)
    requires WellFormed(s) && s.registers[x] < SCREEN_WIDTH && s.addressRegister + n <= MEMORY_SIZE
    requires x != VF && y != VF
    ensures var t := Exec(s, Draw(x, y, n), rnd);
      t.Ok? && Exec(t.value, Draw(x, y, n), rnd).Ok? && Exec(t.value, Draw(x, y, n), rnd).value.screen == s.screen
  {
    DrawEffect(s, x, y, n, rnd);
    var t := Exec(s, Draw(x, y, n), rnd).value;
    DrawEffect(t, x, y, n, rnd);
    var I := s.addressRegister;
    Sprite.ToggledTwice(s.screen, s.memory[I .. I + n], s.registers[x], s.registers[y]);
  }

  /** On a blank screen DXYN leaves VF = 0. */
  lemma DrawOnBlankScreenClearsFlag(s: State, x: Nibble, y: Nibble, n: Nibble, rnd: uint8)
    requires WellFormed(s) && s.registers[x] < SCREEN_WIDTH && s.addressRegister + n <= MEMORY_SIZE
    requires forall k :: 0 <= k < SCREEN_CELLS ==> !s.screen[k]
    ensures Exec(s, Draw(x, y, n), rnd).Ok? && Exec(s, Draw(x, y, n), rnd).value.registers[VF] == 0
  {
    DrawEffect(s, x, y, n, rnd);
    assert s.screen == seq(SCREEN_CELLS, _ => false);
    Sprite.BlankNeverCollides(s.memory[s.addressRegister .. s.addressRegister + n],
                              s.registers[x], s.registers[y]);
  }

  /** With VX < 64, DXYN aborts exactly when it has a row to read and the last row
      lies past the end of memory; that fault is a memory index out of range. */
  lemma DrawMemoryFault(s: State, x: Nibble, y: Nibble, n: Nibble, rnd: uint8)
    requires WellFormed(s) && s.registers[x] < SCREEN_WIDTH
    ensures var r := Exec(s, Draw(x, y, n), rnd);
      (r.Err? <==> n > 0 && s.addressRegister + n > MEMORY_SIZE) &&
      (r.Err? ==> r.fault == MemoryOutOfRange)
  {
    Sprite.DrawSpriteMemoryFault(s.screen, s.memory, s.addressRegister, s.registers[x], s.registers[y], n);
  }

  /** DXYN uses the unreduced VX for the first pixel of every row after the first: with
      VX = 64 and VY = 30 a two-row sprite aborts on its second row. */
  lemma DrawUnreducedColumnAborts(s: State, rnd: uint8)
    requires WellFormed(s) && s.registers[0] == 64 && s.registers[1] == 30
    requires s.addressRegister + 2 <= MEMORY_SIZE
    ensures Exec(s, Draw(0, 1, 2), rnd) == Err(ScreenOutOfRange)
  {
    Sprite.UnreducedColumnAborts(s.screen, s.memory, s.addressRegister);
  }

  // ---------------------------------------------------------------------------
  // One cycle.

  /** A cycle runs the fetched word and then decrements the delay timer, stopping at 0;
      nothing else changes after the execute step. */
  lemma CycleEffect(s: State, rnd: uint8)
    requires WellFormed(s)
    ensures var r := Cycle(s, rnd);
      (r.Ok? <==> Fetch(s).Ok? && Execute(s, Fetch(s).value, rnd).Ok?) &&
      (r.Ok? ==>
        var t := Execute(s, Fetch(s).value, rnd).value;
        r.value.delayTimer <= t.delayTimer &&
        r.value.delayTimer == (if t.delayTimer == 0 then 0 else t.delayTimer - 1) &&
        r.value == t.(delayTimer := r.value.delayTimer))
  {
  }

  /** FX15 with VX = v leaves the delay timer at max(v - 1, 0) after the cycle. */
  lemma CycleAfterSetDelay(s: State, x: Nibble, rnd: uint8)
    requires WellFormed(s) && Fetch(s) == Ok(Encode(SetDelay(x)))
    ensures Cycle(s, rnd).Ok? &&
      Cycle(s, rnd).value.delayTimer == if s.registers[x] == 0 then 0 else s.registers[x] - 1
  {
    ExecuteEncoded(s, SetDelay(x), rnd);
  }

  /** The sound timer is never decremented: only FX18 changes it. */
  lemma CycleKeepsSoundTimer(s: State, rnd: uint8)
    requires WellFormed(s) && Cycle(s, rnd).Ok? && !Decode(Fetch(s).value).SetSound?
    ensures Cycle(s, rnd).value.soundTimer == s.soundTimer
  {
    ExecFrame(s, Decode(Fetch(s).value), rnd);
  }

  // ---------------------------------------------------------------------------
  // The initial state.

  /** `new` puts the font at 0 and the ROM at 0x200 as contiguous blocks. */
  lemma InitialLayout(rom: seq<uint8>)
    requires |rom| <= MEMORY_SIZE - PROGRAM_START
    ensures var m := InitialState(rom).memory;
      m[..|Font.CreateFontData()|] == Font.CreateFontData() &&
      m[PROGRAM_START .. PROGRAM_START + |rom|] == rom
  {
    var m, font := InitialState(rom).memory, Font.CreateFontData();
    InitialMemory(rom);
    assert forall a :: 0 <= a < |font| ==> m[..|font|][a] == font[a];
    forall a | 0 <= a < |rom| ensures m[PROGRAM_START .. PROGRAM_START + |rom|][a] == rom[a] {
      assert m[PROGRAM_START + a] == rom[a];
    }
  }

  /** The first word fetched is the first two ROM bytes, big-endian. */
  lemma InitialFetch(rom: seq<uint8>)
    requires 2 <= |rom| <= MEMORY_SIZE - PROGRAM_START
    ensures Fetch(InitialState(rom)) == Ok(rom[0] as int * 0x100 + rom[1])
  {
    var m := InitialState(rom).memory;
    InitialMemory(rom);
    assert m[PROGRAM_START] == rom[0] && m[PROGRAM_START + 1] == rom[1];
  }

  /** On a fresh machine FX29 addresses the built-in glyph for the digit in VX. */
  lemma InitialFontCharacter(rom: seq<uint8>, x: Nibble, d: uint8, rnd: uint8)
    requires |rom| <= MEMORY_SIZE - PROGRAM_START && d < Font.GLYPH_COUNT
    ensures var s := InitialState(rom).(registers := InitialState(rom).registers[x := d]);
      var t := Exec(s, FontCharacter(x), rnd).value;
      t.addressRegister == 5 * d && t.memory[t.addressRegister .. t.addressRegister + 5] == Font.Glyph(d)
  {
    InitialLayout(rom);
    var s := InitialState(rom).(registers := InitialState(rom).registers[x := d]);
    FontCharacterAddressesGlyph(s, x, rnd);
  }
}
