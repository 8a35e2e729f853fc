/** What the emulator does, as functions on `State`: construction, fetch, the effect of
    each decoded instruction, and one cycle (fetch, execute, decrement the delay timer).
    Arithmetic is that of a release build: `u8`/`u16` overflow wraps. Anything that
    panics in either build (an index out of bounds, popping an empty stack) is an `Err`. */
module Semantics {
  import opened MachineState
  import opened Opcode
  import Font
  import Sprite

  // ---------------------------------------------------------------------------
  // Byte operations, as the dispatcher spells them.

  function BitAnd(a: uint8, b: uint8): uint8 { ((a as bv8) & (b as bv8)) as int }
  function BitOr(a: uint8, b: uint8): uint8 { ((a as bv8) | (b as bv8)) as int }
  function BitXor(a: uint8, b: uint8): uint8 { ((a as bv8) ^ (b as bv8)) as int }
  /** `v << 1` on a `u8`: the top bit is shifted out, so this doubles modulo 256. */
  function ShiftLeftOne(a: uint8): uint8 { (2 * a) % 0x100 }
  /** `v >> 1` on a `u8`. */
  function ShiftRightOne(a: uint8): uint8 { a / 2 }

  /** Rust's `%` on `i32`: the remainder takes the sign of the dividend. */
  function RemI32(a: int, m: nat): int
    requires m > 0
  {
    if a >= 0 then a % m else -((-a) % m)
  }

  /** `as u8` on an integer: keep the low eight bits. */
  function AsU8(a: int): uint8 { a % 0x100 }

  /** `values` written over `mem` from address `at` on. */
  function Splice(mem: seq<uint8>, at: nat, values: seq<uint8>): (r: seq<uint8>)
    requires at + |values| <= |mem|
    ensures |r| == |mem|
  {
    mem[..at] + values + mem[at + |values|..]
  }

  /** Byte a of the spliced memory: from `values` inside the written range, from `mem`
      outside it. */
  lemma SpliceAt(mem: seq<uint8>, at: nat, values: seq<uint8>, a: nat)
    requires at + |values| <= |mem| && a < |mem|
    ensures Splice(mem, at, values)[a] == if at <= a < at + |values| then values[a - at] else mem[a]
  {
  }

  // ---------------------------------------------------------------------------
  // Construction.

  /** Every cell dark. */
  function BlankScreen(): (screen: seq<bool>)
    ensures |screen| == SCREEN_CELLS && forall k :: 0 <= k < SCREEN_CELLS ==> !screen[k]
  {
    seq(SCREEN_CELLS, _ => false)
  }

  /** Zeroed memory with `font` copied to address 0 and `rom` to 0x200. */
  function LoadedMemory(font: seq<uint8>, rom: seq<uint8>): (memory: seq<uint8>)
    requires |font| <= PROGRAM_START && |rom| <= MEMORY_SIZE - PROGRAM_START
    ensures |memory| == MEMORY_SIZE
  {
    font + seq(PROGRAM_START - |font|, _ => 0) + rom + seq(MEMORY_SIZE - PROGRAM_START - |rom|, _ => 0)
  }

  /** The object `new` builds: zeroed memory with the font at address 0 and the ROM at
      0x200, the PC at 0x200, everything else zero, false or empty. */
  function InitialState(rom: seq<uint8>): (s: State)
    requires |rom| <= MEMORY_SIZE - PROGRAM_START
    ensures WellFormed(s)
    ensures s.programCounter == PROGRAM_START && s.addressRegister == 0
    ensures forall r :: 0 <= r < REGISTER_COUNT ==> s.registers[r] == 0
    ensures forall k :: 0 <= k < SCREEN_CELLS ==> !s.screen[k]
    ensures forall k :: 0 <= k < KEY_COUNT ==> !s.keys[k]
    ensures s.stack == [] && s.delayTimer == 0 && s.soundTimer == 0 && s.fontDataBaseAddress == 0
  {
    State(LoadedMemory(Font.CreateFontData(), rom), seq(REGISTER_COUNT, _ => 0), 0, PROGRAM_START, 0, 0, [],
          BlankScreen(), seq(KEY_COUNT, _ => false), 0)
  }

  /** The memory `new` builds: the font from address 0, the ROM from 0x200, every
      other byte 0. */
  lemma InitialMemory(rom: seq<uint8>)
    requires |rom| <= MEMORY_SIZE - PROGRAM_START
    ensures var m, font := InitialState(rom).memory, Font.CreateFontData();
      forall a :: 0 <= a < MEMORY_SIZE ==>
        m[a] == if a < |font| then font[a]
                else if PROGRAM_START <= a < PROGRAM_START + |rom| then rom[a - PROGRAM_START]
                else 0
  {
    var m, font := InitialState(rom).memory, Font.CreateFontData();
    assert m == LoadedMemory(font, rom);
    var gap := seq(PROGRAM_START - |font|, _ => 0);
    var tail := seq(MEMORY_SIZE - PROGRAM_START - |rom|, _ => 0);
    assert m == font + gap + rom + tail;
    forall a | 0 <= a < MEMORY_SIZE
      ensures m[a] == if a < |font| then font[a]
                      else if PROGRAM_START <= a < PROGRAM_START + |rom| then rom[a - PROGRAM_START]
                      else 0
    {
      if a < |font| {
        assert m[a] == (font + gap)[a];
      } else if a < PROGRAM_START {
        assert m[a] == (font + gap)[a] == gap[a - |font|];
      } else if a < PROGRAM_START + |rom| {
        assert m[a] == (font + gap + rom)[a];
      } else {
        assert m[a] == tail[a - PROGRAM_START - |rom|];
      }
    }
  }

  // ---------------------------------------------------------------------------
  // Fetch.

  /** The big-endian word at the PC; reading past the end of memory aborts. */
  function Fetch(s: State): (r: Result<uint16>)
    requires WellFormed(s)
    ensures r.Ok? <==> s.programCounter + 1 < MEMORY_SIZE
    ensures r.Err? ==> r.fault == MemoryOutOfRange
    ensures r.Ok? ==> r.value / 0x100 == s.memory[s.programCounter] &&
                      r.value % 0x100 == s.memory[s.programCounter + 1]
  {
    var pc := s.programCounter;
    if pc + 1 >= MEMORY_SIZE then Err(MemoryOutOfRange)
    else Ok(s.memory[pc] as int * 0x100 + s.memory[pc + 1])
  }

  // ---------------------------------------------------------------------------
  // Execute.

  /** The state after the PC moves on by k bytes. */
  function Next(s: State, k: nat): State {
    s.(programCounter := Advance(s.programCounter, k))
  }

  /** Register x set to v, then the PC moved on to the next instruction. */
  function SetRegister(s: State, x: Nibble, v: uint8): (t: State)
    requires WellFormed(s)
    ensures WellFormed(t) && t.registers[x] == v
  {
    Next(s.(registers := s.registers[x := v]), 2)
  }

  /** Register x set to v, then VF set to f (so f wins when x is VF). */
  function SetRegisterAndFlag(s: State, x: Nibble, v: uint8, f: uint8): (t: State)
    requires WellFormed(s)
    ensures WellFormed(t) && t.registers[VF] == f && (x != VF ==> t.registers[x] == v)
  {
    Next(s.(registers := s.registers[x := v][VF := f]), 2)
  }

  /** A conditional skip: over the next instruction when `cond` holds. */
  function Skip(s: State, cond: bool): State {
    Next(s, if cond then 4 else 2)
  }

  /** Instructions that write one register (and, for some, VF) and move on. */
  predicate WritesRegister(i: Instr) {
    i.LoadImm? || i.AddImm? || i.Move? || i.Or? || i.And? || i.Xor? || i.AddReg? ||
    i.SubReg? || i.ShiftRight? || i.SubReverse? || i.ShiftLeft? || i.Random? ||
    i.LoadDelay? || i.WaitKey?
  }

  /** 8XY4 to 8XYE: the instructions that write a result into VX and then a flag into
      VF. */
  predicate FlagSetting(i: Instr) {
    i.AddReg? || i.SubReg? || i.ShiftRight? || i.SubReverse? || i.ShiftLeft?
  }

  /** The skips: 3XNN, 4XNN, 5XY0, 9XY0, EX9E and EXA1. */
  predicate IsSkip(i: Instr) {
    i.SkipIfEqualImm? || i.SkipIfNotEqualImm? || i.SkipIfEqualReg? || i.SkipIfNotEqualReg? ||
    i.SkipIfKey? || i.SkipIfNotKey?
  }

  /** Instructions that move bytes between the registers and memory at I. */
  predicate UsesMemoryAtIndex(i: Instr) {
    i.StoreBcd? || i.StoreRegisters? || i.LoadRegisters?
  }

  /** The effect of one decoded instruction. `rnd` is the random byte CXNN draws. */
  function Exec(s: State, i: Instr, rnd: uint8): (r: Result<State>)
    requires WellFormed(s)
    ensures r.Ok? ==> WellFormed(r.value)
  {
    if WritesRegister(i) then Ok(ExecRegister(s, i, rnd))
    else if IsSkip(i) then ExecSkip(s, i)
    else if SetsIndexOrTimer(i) then Ok(ExecIndexOrTimer(s, i))
    else if UsesMemoryAtIndex(i) then ExecMemory(s, i)
    else if i.Draw? then ExecDraw(s, i.x, i.y, i.n)
    else ExecFlow(s, i)
  }

  /** Instructions that set I or a timer and move on. */
  predicate SetsIndexOrTimer(i: Instr) {
    i.LoadIndex? || i.SetDelay? || i.SetSound? || i.AddIndex? || i.FontCharacter?
  }

  /** Instructions that clear the screen or set the PC without a condition, and the
      fall-through for unrecognised words. */
  predicate IsFlow(i: Instr) {
    i.ClearScreen? || i.Return? || i.Jump? || i.Call? || i.JumpOffset? || i.Unknown?
  }

  /** 00E0, 00EE, 1NNN, 2NNN, BNNN, and the fall-through. 00EE resumes two bytes after
      the address it pops, because 2NNN pushes the address of the call itself. */
  function ExecFlow(s: State, i: Instr): (r: Result<State>)
    requires WellFormed(s) && IsFlow(i)
    ensures r.Ok? ==> WellFormed(r.value)
  {
    match i
    case ClearScreen => Ok(Next(s.(screen := BlankScreen()), 2))
    case Return =>
      if |s.stack| == 0 then Err(StackUnderflow)
      else Ok(Next(s.(stack := s.stack[..|s.stack| - 1], programCounter := s.stack[|s.stack| - 1]), 2))
    case Jump(nnn) => Ok(s.(programCounter := nnn))
    case Call(nnn) => Ok(s.(stack := s.stack + [s.programCounter], programCounter := nnn))
    case JumpOffset(nnn) => Ok(s.(programCounter := nnn + s.registers[0]))
    case Unknown(_) => Ok(Next(s, 2))
  }

  /** 3XNN, 4XNN, 5XY0, 9XY0, EX9E and EXA1. The key tests index the sixteen key
      latches by the value of VX. */
  function ExecSkip(s: State, i: Instr): (r: Result<State>)
    requires WellFormed(s) && IsSkip(i)
    ensures r.Ok? ==> WellFormed(r.value)
  {
    var V := s.registers;
    match i
    case SkipIfEqualImm(x, nn) => Ok(Skip(s, V[x] == nn))
    case SkipIfNotEqualImm(x, nn) => Ok(Skip(s, V[x] != nn))
    case SkipIfEqualReg(x, y) => Ok(Skip(s, V[x] == V[y]))
    case SkipIfNotEqualReg(x, y) => Ok(Skip(s, V[x] != V[y]))
    case SkipIfKey(x) =>
      if V[x] >= KEY_COUNT then Err(KeyOutOfRange) else Ok(Skip(s, s.keys[V[x]]))
    case SkipIfNotKey(x) =>
      if V[x] >= KEY_COUNT then Err(KeyOutOfRange) else Ok(Skip(s, !s.keys[V[x]]))
  }

  /** ANNN, FX15, FX18, FX1E and FX29 (I wraps at 16 bits). */
  function ExecIndexOrTimer(s: State, i: Instr): (t: State)
    requires WellFormed(s) && SetsIndexOrTimer(i)
    ensures WellFormed(t)
  {
    var V := s.registers;
    match i
    case LoadIndex(nnn) => Next(s.(addressRegister := nnn), 2)
    case SetDelay(x) => Next(s.(delayTimer := V[x]), 2)
    case SetSound(x) => Next(s.(soundTimer := V[x]), 2)
    case AddIndex(x) => Next(s.(addressRegister := Advance(s.addressRegister, V[x])), 2)
    case FontCharacter(x) => Next(s.(addressRegister := Advance(s.fontDataBaseAddress, 5 * V[x] as int)), 2)
  }

  /** 6XNN, 7XNN, 8XY0 to 8XYE, CXNN, FX07 and FX0A (which does not wait for a key: it
      stores 0). */
  function ExecRegister(s: State, i: Instr, rnd: uint8): (t: State)
    requires WellFormed(s) && WritesRegister(i)
    ensures WellFormed(t)
    ensures t == s.(registers := t.registers, programCounter := Advance(s.programCounter, 2))
    ensures forall r :: 0 <= r < REGISTER_COUNT && r != i.x && r != VF ==> t.registers[r] == s.registers[r]
  {
    if FlagSetting(i) then ExecArithmetic(s, i) else ExecLoadOrLogic(s, i, rnd)
  }

  /** 6XNN, 7XNN, 8XY0 to 8XY3, CXNN, FX07 and FX0A: VX alone takes a new value. */
  function ExecLoadOrLogic(s: State, i: Instr, rnd: uint8): (t: State)
    requires WellFormed(s) && WritesRegister(i) && !FlagSetting(i)
    ensures WellFormed(t)
    ensures t == s.(registers := s.registers[i.x := t.registers[i.x]],
                    programCounter := Advance(s.programCounter, 2))
  {
    var V := s.registers;
    match i
    case LoadImm(x, nn) => SetRegister(s, x, nn)
    case AddImm(x, nn) =>
      var sum := nn as int + V[x];
      SetRegister(s, x, if sum > 255 then sum % 256 else sum)
    case Move(x, y) => SetRegister(s, x, V[y])
    case Or(x, y) => SetRegister(s, x, BitOr(V[x], V[y]))
    case And(x, y) => SetRegister(s, x, BitAnd(V[x], V[y]))
    case Xor(x, y) => SetRegister(s, x, BitXor(V[x], V[y]))
    case Random(x, nn) => SetRegister(s, x, BitAnd(rnd, nn))
    case LoadDelay(x) => SetRegister(s, x, s.delayTimer)
    case WaitKey(x) => SetRegister(s, x, 0)
  }

  /** 8XY4 to 8XYE: VX takes the result, then VF the flag. */
  function ExecArithmetic(s: State, i: Instr): (t: State)
    requires WellFormed(s) && FlagSetting(i)
    ensures WellFormed(t)
    ensures t == s.(registers := s.registers[i.x := t.registers[i.x]][VF := t.registers[VF]],
                    programCounter := Advance(s.programCounter, 2))
  {
    var V := s.registers;
    match i
    case AddReg(x, y) =>
      var sum := V[x] as int + V[y];
      if sum > 255 then SetRegisterAndFlag(s, x, sum - 256, 1)
      else SetRegisterAndFlag(s, x, sum, 0)
    case SubReg(x, y) =>
      if V[x] > V[y] then SetRegisterAndFlag(s, x, V[x] - V[y], 1)
      else SetRegisterAndFlag(s, x, AsU8(RemI32(V[x] as int - V[y], 256)), 0)
    case ShiftRight(x, _) => SetRegisterAndFlag(s, x, ShiftRightOne(V[x]), BitAnd(V[x], 0x01))
    case SubReverse(x, y) =>
      SetRegisterAndFlag(s, x, AsU8(V[y] as int - V[x]), if V[y] < V[x] then 0 else 1)
    case ShiftLeft(x, _) => SetRegisterAndFlag(s, x, ShiftLeftOne(V[x]), BitAnd(V[x], 0x80))
  }

  /** FX33, FX55 and FX65: every address from I on that they touch must be in memory. */
  function ExecMemory(s: State, i: Instr): (r: Result<State>)
    requires WellFormed(s) && UsesMemoryAtIndex(i)
    ensures r.Ok? ==> WellFormed(r.value)
    ensures r.Ok? ==> r.value == s.(memory := r.value.memory, registers := r.value.registers,
                                    programCounter := Advance(s.programCounter, 2))
    ensures r.Ok? && i.LoadRegisters? ==> r.value.memory == s.memory
    ensures r.Ok? && !i.LoadRegisters? ==> r.value.registers == s.registers
  {
    var V, I := s.registers, s.addressRegister;
    match i
    case StoreBcd(x) =>
      if I + 2 >= MEMORY_SIZE then Err(MemoryOutOfRange)
      else
        var hundreds := V[x] / 100;
        var tens := (V[x] - hundreds * 100) / 10;
        var ones := (V[x] - hundreds * 100) - tens * 10;
        Ok(Next(s.(memory := Splice(s.memory, I, [hundreds, tens, ones])), 2))
    case StoreRegisters(x) =>
      if I + x >= MEMORY_SIZE then Err(MemoryOutOfRange)
      else Ok(Next(s.(memory := Splice(s.memory, I, V[..x + 1])), 2))
    case LoadRegisters(x) =>
      if I + x >= MEMORY_SIZE then Err(MemoryOutOfRange)
      else Ok(Next(s.(registers := Splice(V, 0, s.memory[I..I + x + 1])), 2))
  }

  /** DXYN: the sprite of n rows at I drawn at (VX, VY); VF reports the collision. */
  function ExecDraw(s: State, x: Nibble, y: Nibble, n: Nibble): (r: Result<State>)
    requires WellFormed(s)
    ensures r.Ok? ==> WellFormed(r.value)
    ensures r.Ok? ==> r.value == s.(screen := r.value.screen, registers := r.value.registers,
                                    programCounter := Advance(s.programCounter, 2))
    ensures r.Ok? ==> forall k :: 0 <= k < VF ==> r.value.registers[k] == s.registers[k]
  {
    match Sprite.DrawSprite(s.screen, s.memory, s.addressRegister, s.registers[x], s.registers[y], n)
    case Err(f) => Err(f)
    case Ok(c) => Ok(Next(s.(screen := c.screen, registers := s.registers[VF := if c.collided then 1 else 0]), 2))
  }

  /** `execute_opcode`: decode, then execute. */
  function Execute(s: State, opcode: uint16, rnd: uint8): (r: Result<State>)
    requires WellFormed(s)
    ensures r.Ok? ==> WellFormed(r.value)
    ensures r.Err? ==> var i := Decode(opcode);
      i.Return? || i.SkipIfKey? || i.SkipIfNotKey? || UsesMemoryAtIndex(i) || i.Draw?
  {
    Exec(s, Decode(opcode), rnd)
  }

  // ---------------------------------------------------------------------------
  // One cycle.

  /** `delay_timer as i32 - 1`, stored back as 0 when it is not positive. */
  function DecayTimer(d: uint8): (r: uint8)
    ensures r == if d > 0 then d - 1 else 0
  {
    var v := d - 1;
    if v <= 0 then 0 else v
  }

  /** `run_one_cycle`: fetch, execute with the random byte `rnd`, then decrement the
      delay timer. */
  function Cycle(s: State, rnd: uint8): (r: Result<State>)
    requires WellFormed(s)
    ensures r.Ok? ==> WellFormed(r.value)
  {
    match Fetch(s)
    case Err(f) => Err(f)
    case Ok(opcode) =>
      match Execute(s, opcode, rnd)
      case Err(f) => Err(f)
      case Ok(t) => Ok(t.(delayTimer := DecayTimer(t.delayTimer)))
  }
}
