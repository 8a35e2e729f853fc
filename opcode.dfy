/** Instruction words and their decoding. An opcode is a 16-bit word read big-endian;
    its four nibbles are written H X Y N, its low byte NN and its low twelve bits NNN. */
module Opcode {
  import opened MachineState

  type Nibble = x: int | 0 <= x < 16
  type Address12 = x: int | 0 <= x < 0x1000

  /** One constructor per instruction family the decoder recognises, plus `Unknown`
      for every word that matches none of them (which then only advances the PC). */
  datatype Instr =
    | ClearScreen                                  // 00E0
    | Return                                       // 00EE
    | Jump(nnn: Address12)                         // 1NNN
    | Call(nnn: Address12)                         // 2NNN
    | SkipIfEqualImm(x: Nibble, nn: uint8)         // 3XNN
    | SkipIfNotEqualImm(x: Nibble, nn: uint8)      // 4XNN
    | SkipIfEqualReg(x: Nibble, y: Nibble)         // 5XY0
    | LoadImm(x: Nibble, nn: uint8)                // 6XNN
    | AddImm(x: Nibble, nn: uint8)                 // 7XNN
    | Move(x: Nibble, y: Nibble)                   // 8XY0
    | Or(x: Nibble, y: Nibble)                     // 8XY1
    | And(x: Nibble, y: Nibble)                    // 8XY2
    | Xor(x: Nibble, y: Nibble)                    // 8XY3
    | AddReg(x: Nibble, y: Nibble)                 // 8XY4
    | SubReg(x: Nibble, y: Nibble)                 // 8XY5
    | ShiftRight(x: Nibble, y: Nibble)             // 8XY6
    | SubReverse(x: Nibble, y: Nibble)             // 8XY7
    | ShiftLeft(x: Nibble, y: Nibble)              // 8XYE
    | SkipIfNotEqualReg(x: Nibble, y: Nibble)      // 9XY0
    | LoadIndex(nnn: Address12)                    // ANNN
    | JumpOffset(nnn: Address12)                   // BNNN
    | Random(x: Nibble, nn: uint8)                 // CXNN
    | Draw(x: Nibble, y: Nibble, n: Nibble)        // DXYN
    | SkipIfKey(x: Nibble)                         // EX9E
    | SkipIfNotKey(x: Nibble)                      // EXA1
    | LoadDelay(x: Nibble)                         // FX07
    | WaitKey(x: Nibble)                           // FX0A
    | SetDelay(x: Nibble)                          // FX15
    | SetSound(x: Nibble)                          // FX18
    | AddIndex(x: Nibble)                          // FX1E
    | FontCharacter(x: Nibble)                     // FX29
    | StoreBcd(x: Nibble)                          // FX33
    | StoreRegisters(x: Nibble)                    // FX55
    | LoadRegisters(x: Nibble)                     // FX65
    | Unknown(opcode: uint16)

  /** `(opcode & 0xF000) >> 12` */
  function H(op: uint16): Nibble { op / 0x1000 }
  /** `(opcode & 0x0F00) >> 8` */
  function X(op: uint16): Nibble { (op / 0x100) % 16 }
  /** `(opcode & 0x00F0) >> 4` */
  function Y(op: uint16): Nibble { (op / 0x10) % 16 }
  /** `opcode & 0x000F` */
  function N(op: uint16): Nibble { op % 16 }
  /** `opcode & 0x00FF` */
  function NN(op: uint16): uint8 { op % 0x100 }
  /** `opcode & 0x0FFF` */
  function NNN(op: uint16): Address12 { op % 0x1000 }

  /** The four nibbles put back together give the word. */
  lemma NibblesCompose(op: uint16)
    ensures op == 0x1000 * H(op) + 0x100 * X(op) + 0x10 * Y(op) + N(op)
    ensures NN(op) == 0x10 * Y(op) + N(op)
    ensures NNN(op) == 0x100 * X(op) + NN(op)
  {
    var q := op / 0x10;
    assert op == 0x10 * q + N(op);
    assert q == 0x10 * (q / 0x10) + Y(op);
    assert q / 0x10 == op / 0x100;
    var p := op / 0x100;
    assert p == 0x10 * (p / 0x10) + X(op);
    assert p / 0x10 == H(op);
  }

  /** The word whose nibbles are h x y n. */
  function Word(h: Nibble, x: Nibble, y: Nibble, n: Nibble): uint16 {
    0x1000 * h + 0x100 * x + 0x10 * y + n
  }

  /** Nibbles in range are read back by the field accessors. */
  lemma NibblesExtract(h: Nibble, x: Nibble, y: Nibble, n: Nibble)
    ensures var op := Word(h, x, y, n);
      H(op) == h && X(op) == x && Y(op) == y && N(op) == n &&
      NN(op) == 0x10 * y + n && NNN(op) == 0x100 * x + 0x10 * y + n
  {
    var op := Word(h, x, y, n);
    assert op / 0x10 == 0x100 * h + 0x10 * x + y;
    assert op / 0x100 == 0x10 * h + x;
  }

  /** The instruction word that encodes `i`. */
  function Encode(i: Instr): uint16 {
    match i
    case ClearScreen => Word(0x0, 0x0, 0xE, 0x0)
    case Return => Word(0x0, 0x0, 0xE, 0xE)
    case Jump(nnn) => 0x1000 + nnn
    case Call(nnn) => 0x2000 + nnn
    case SkipIfEqualImm(x, nn) => 0x3000 + 0x100 * x + nn
    case SkipIfNotEqualImm(x, nn) => 0x4000 + 0x100 * x + nn
    case SkipIfEqualReg(x, y) => Word(0x5, x, y, 0x0)
    case LoadImm(x, nn) => 0x6000 + 0x100 * x + nn
    case AddImm(x, nn) => 0x7000 + 0x100 * x + nn
    case Move(x, y) => Word(0x8, x, y, 0x0)
    case Or(x, y) => Word(0x8, x, y, 0x1)
    case And(x, y) => Word(0x8, x, y, 0x2)
    case Xor(x, y) => Word(0x8, x, y, 0x3)
    case AddReg(x, y) => Word(0x8, x, y, 0x4)
    case SubReg(x, y) => Word(0x8, x, y, 0x5)
    case ShiftRight(x, y) => Word(0x8, x, y, 0x6)
    case SubReverse(x, y) => Word(0x8, x, y, 0x7)
    case ShiftLeft(x, y) => Word(0x8, x, y, 0xE)
    case SkipIfNotEqualReg(x, y) => Word(0x9, x, y, 0x0)
    case LoadIndex(nnn) => 0xA000 + nnn
    case JumpOffset(nnn) => 0xB000 + nnn
    case Random(x, nn) => 0xC000 + 0x100 * x + nn
    case Draw(x, y, n) => Word(0xD, x, y, n)
    case SkipIfKey(x) => Word(0xE, x, 0x9, 0xE)
    case SkipIfNotKey(x) => Word(0xE, x, 0xA, 0x1)
    case LoadDelay(x) => Word(0xF, x, 0x0, 0x7)
    case WaitKey(x) => Word(0xF, x, 0x0, 0xA)
    case SetDelay(x) => Word(0xF, x, 0x1, 0x5)
    case SetSound(x) => Word(0xF, x, 0x1, 0x8)
    case AddIndex(x) => Word(0xF, x, 0x1, 0xE)
    case FontCharacter(x) => Word(0xF, x, 0x2, 0x9)
    case StoreBcd(x) => Word(0xF, x, 0x3, 0x3)
    case StoreRegisters(x) => Word(0xF, x, 0x5, 0x5)
    case LoadRegisters(x) => Word(0xF, x, 0x6, 0x5)
    case Unknown(op) => op
  }

  /** The dispatcher's cascade of mask tests, on the word's nibbles. */
  function Decode(op: uint16): (r: Instr)
    ensures r.Unknown? ==> r.opcode == op
    ensures H(op) == 0xD ==> r == Draw(X(op), Y(op), N(op))
  {
    DecodeFields(op, H(op), X(op), Y(op), N(op))
  }

  /** The cascade in the dispatcher's order, for the word `op` whose nibbles are
      h x y n: the exact words 00E0 and 00EE, then the high nibble, with the low nibble
      as well (mask 0xF00F) for 5XY0, 8XYk and 9XY0, and the low byte as well (mask
      0xF0FF) for the E and F families. */
  function DecodeFields(op: uint16, h: Nibble, x: Nibble, y: Nibble, n: Nibble): Instr {
    var nn, nnn := 0x10 * y + n, 0x100 * x + 0x10 * y + n;
    if h == 0x0 && nnn == 0x0E0 then ClearScreen
    else if h == 0x0 && nnn == 0x0EE then Return
    else if h == 0x1 then Jump(nnn)
    else if h == 0x2 then Call(nnn)
    else if h == 0x3 then SkipIfEqualImm(x, nn)
    else if h == 0x4 then SkipIfNotEqualImm(x, nn)
    else if h == 0x5 && n == 0x0 then SkipIfEqualReg(x, y)
    else if h == 0x6 then LoadImm(x, nn)
    else if h == 0x7 then AddImm(x, nn)
    else if h == 0x8 && n == 0x0 then Move(x, y)
    else if h == 0x8 && n == 0x1 then Or(x, y)
    else if h == 0x8 && n == 0x2 then And(x, y)
    else if h == 0x8 && n == 0x3 then Xor(x, y)
    else if h == 0x8 && n == 0x4 then AddReg(x, y)
    else if h == 0x8 && n == 0x5 then SubReg(x, y)
    else if h == 0x8 && n == 0x6 then ShiftRight(x, y)
    else if h == 0x8 && n == 0x7 then SubReverse(x, y)
    else if h == 0x8 && n == 0xE then ShiftLeft(x, y)
    else if h == 0x9 && n == 0x0 then SkipIfNotEqualReg(x, y)
    else if h == 0xA then LoadIndex(nnn)
    else if h == 0xB then JumpOffset(nnn)
    else if h == 0xC then Random(x, nn)
    else if h == 0xD then Draw(x, y, n)
    else if h == 0xE && nn == 0x9E then SkipIfKey(x)
    else if h == 0xE && nn == 0xA1 then SkipIfNotKey(x)
    else if h == 0xF && nn == 0x07 then LoadDelay(x)
    else if h == 0xF && nn == 0x0A then WaitKey(x)
    else if h == 0xF && nn == 0x15 then SetDelay(x)
    else if h == 0xF && nn == 0x18 then SetSound(x)
    else if h == 0xF && nn == 0x1E then AddIndex(x)
    else if h == 0xF && nn == 0x29 then FontCharacter(x)
    else if h == 0xF && nn == 0x33 then StoreBcd(x)
    else if h == 0xF && nn == 0x55 then StoreRegisters(x)
    else if h == 0xF && nn == 0x65 then LoadRegisters(x)
    else Unknown(op)
  }

  /** Nothing is lost: the word can be rebuilt from the decoded instruction. */
  lemma EncodeDecode(op: uint16)
    ensures Encode(Decode(op)) == op
  {
    NibblesCompose(op);
    EncodeDecodeFields(op, H(op), X(op), Y(op), N(op));
  }

  /** The same, for the cascade run on the nibbles of the word. */
  lemma EncodeDecodeFields(op: uint16, h: Nibble, x: Nibble, y: Nibble, n: Nibble)
    requires op == Word(h, x, y, n)
    ensures Encode(DecodeFields(op, h, x, y, n)) == op
  {
  }

  /** Distinct words decode to distinct instructions. */
  lemma DecodeInjective(op1: uint16, op2: uint16)
    ensures Decode(op1) == Decode(op2) <==> op1 == op2
  {
    if Decode(op1) == Decode(op2) {
      EncodeDecode(op1);
      EncodeDecode(op2);
      assert op1 == Encode(Decode(op1)) == Encode(Decode(op2)) == op2;
    }
  }

  /** The instructions the decoder can produce: `Unknown(w)` only for a word that
      matches no pattern. */
  predicate Decodable(i: Instr) {
    i.Unknown? ==> Decode(i.opcode) == i
  }

  /** Decoding a word given by its nibbles runs the cascade on those nibbles. */
  lemma DecodeWord(h: Nibble, x: Nibble, y: Nibble, n: Nibble)
    ensures Decode(Word(h, x, y, n)) == DecodeFields(Word(h, x, y, n), h, x, y, n)
  {
    NibblesExtract(h, x, y, n);
  }

  /** An address field as three nibbles. */
  lemma SplitAddress(nnn: Address12)
    ensures nnn / 0x100 < 16 && nnn == 0x100 * (nnn / 0x100) + 0x10 * ((nnn / 0x10) % 16) + nnn % 16
  {
    assert nnn / 0x10 == 0x10 * (nnn / 0x100) + (nnn / 0x10) % 16;
  }

  /** A byte field as two nibbles. */
  lemma SplitByte(nn: uint8)
    ensures nn / 0x10 < 16 && nn == 0x10 * (nn / 0x10) + nn % 16
  {
  }

  /** Encoding a decodable instruction and decoding the word gives it back. */
  lemma DecodeEncode(i: Instr)
    requires Decodable(i)
    ensures Decode(Encode(i)) == i
  {
    if i.ClearScreen? || i.Return? || i.Jump? || i.Call? {
      DecodeEncodeControl(i);
    } else if i.SkipIfEqualImm? || i.SkipIfNotEqualImm? || i.LoadImm? || i.AddImm? || i.Random? {
      DecodeEncodeImmediate(i);
    } else if i.SkipIfEqualReg? || i.SkipIfNotEqualReg? || i.LoadIndex? || i.JumpOffset? || i.Draw? {
      DecodeEncodeRegisterForms(i);
    } else if i.Move? || i.Or? || i.And? || i.Xor? {
      DecodeEncodeLogic(i);
    } else if i.AddReg? || i.SubReg? || i.ShiftRight? || i.SubReverse? || i.ShiftLeft? {
      DecodeEncodeArithmetic(i);
    } else if i.SkipIfKey? || i.SkipIfNotKey? || i.LoadDelay? || i.WaitKey? || i.SetDelay? || i.SetSound? {
      DecodeEncodeKeysTimers(i);
    } else if i.AddIndex? || i.FontCharacter? || i.StoreBcd? || i.StoreRegisters? || i.LoadRegisters? {
      DecodeEncodeIndex(i);
    } else {
      assert i.Unknown?;
    }
  }

  /** The word of `i` has nibbles h x y n, and the cascade maps them back to `i`. */
  lemma DecodeEncodeVia(i: Instr, h: Nibble, x: Nibble, y: Nibble, n: Nibble)
    requires Encode(i) == Word(h, x, y, n) && DecodeFields(Word(h, x, y, n), h, x, y, n) == i
    ensures Decode(Encode(i)) == i
  {
    DecodeWord(h, x, y, n);
  }

  // The families of DecodeEncode, a handful of constructors each.

  lemma DecodeEncodeControl(i: Instr)
    requires i.ClearScreen? || i.Return? || i.Jump? || i.Call?
    ensures Decode(Encode(i)) == i
  {
    match i
    case ClearScreen => DecodeEncodeVia(i, 0x0, 0x0, 0xE, 0x0);
    case Return => DecodeEncodeVia(i, 0x0, 0x0, 0xE, 0xE);
    case Jump(nnn) => SplitAddress(nnn); DecodeEncodeVia(i, 0x1, nnn / 0x100, (nnn / 0x10) % 16, nnn % 16);
    case Call(nnn) => SplitAddress(nnn); DecodeEncodeVia(i, 0x2, nnn / 0x100, (nnn / 0x10) % 16, nnn % 16);
  }

  lemma DecodeEncodeImmediate(i: Instr)
    requires i.SkipIfEqualImm? || i.SkipIfNotEqualImm? || i.LoadImm? || i.AddImm? || i.Random?
    ensures Decode(Encode(i)) == i
  {
    match i
    case SkipIfEqualImm(x, nn) => SplitByte(nn); DecodeEncodeVia(i, 0x3, x, nn / 0x10, nn % 16);
    case SkipIfNotEqualImm(x, nn) => SplitByte(nn); DecodeEncodeVia(i, 0x4, x, nn / 0x10, nn % 16);
    case LoadImm(x, nn) => SplitByte(nn); DecodeEncodeVia(i, 0x6, x, nn / 0x10, nn % 16);
    case AddImm(x, nn) => SplitByte(nn); DecodeEncodeVia(i, 0x7, x, nn / 0x10, nn % 16);
    case Random(x, nn) => SplitByte(nn); DecodeEncodeVia(i, 0xC, x, nn / 0x10, nn % 16);
  }

  lemma DecodeEncodeRegisterForms(i: Instr)
    requires i.SkipIfEqualReg? || i.SkipIfNotEqualReg? || i.LoadIndex? || i.JumpOffset? || i.Draw?
    ensures Decode(Encode(i)) == i
  {
    match i
    case SkipIfEqualReg(x, y) => DecodeEncodeVia(i, 0x5, x, y, 0x0);
    case SkipIfNotEqualReg(x, y) => DecodeEncodeVia(i, 0x9, x, y, 0x0);
    case LoadIndex(nnn) => SplitAddress(nnn); DecodeEncodeVia(i, 0xA, nnn / 0x100, (nnn / 0x10) % 16, nnn % 16);
    case JumpOffset(nnn) => SplitAddress(nnn); DecodeEncodeVia(i, 0xB, nnn / 0x100, (nnn / 0x10) % 16, nnn % 16);
    case Draw(x, y, n) => DecodeEncodeVia(i, 0xD, x, y, n);
  }

  lemma DecodeEncodeLogic(i: Instr)
    requires i.Move? || i.Or? || i.And? || i.Xor?
    ensures Decode(Encode(i)) == i
  {
    match i
    case Move(x, y) => DecodeEncodeVia(i, 0x8, x, y, 0x0);
    case Or(x, y) => DecodeEncodeVia(i, 0x8, x, y, 0x1);
    case And(x, y) => DecodeEncodeVia(i, 0x8, x, y, 0x2);
    case Xor(x, y) => DecodeEncodeVia(i, 0x8, x, y, 0x3);
  }

  lemma DecodeEncodeArithmetic(i: Instr)
    requires i.AddReg? || i.SubReg? || i.ShiftRight? || i.SubReverse? || i.ShiftLeft?
    ensures Decode(Encode(i)) == i
  {
    match i
    case AddReg(x, y) => DecodeEncodeVia(i, 0x8, x, y, 0x4);
    case SubReg(x, y) => DecodeEncodeVia(i, 0x8, x, y, 0x5);
    case ShiftRight(x, y) => DecodeEncodeVia(i, 0x8, x, y, 0x6);
    case SubReverse(x, y) => DecodeEncodeVia(i, 0x8, x, y, 0x7);
    case ShiftLeft(x, y) => DecodeEncodeVia(i, 0x8, x, y, 0xE);
  }

  lemma DecodeEncodeKeysTimers(i: Instr)
    requires i.SkipIfKey? || i.SkipIfNotKey? || i.LoadDelay? || i.WaitKey? || i.SetDelay? || i.SetSound?
    ensures Decode(Encode(i)) == i
  {
    match i
    case SkipIfKey(x) => DecodeEncodeVia(i, 0xE, x, 0x9, 0xE);
    case SkipIfNotKey(x) => DecodeEncodeVia(i, 0xE, x, 0xA, 0x1);
    case LoadDelay(x) => DecodeEncodeVia(i, 0xF, x, 0x0, 0x7);
    case WaitKey(x) => DecodeEncodeVia(i, 0xF, x, 0x0, 0xA);
    case SetDelay(x) => DecodeEncodeVia(i, 0xF, x, 0x1, 0x5);
    case SetSound(x) => DecodeEncodeVia(i, 0xF, x, 0x1, 0x8);
  }

  lemma DecodeEncodeIndex(i: Instr)
    requires i.AddIndex? || i.FontCharacter? || i.StoreBcd? || i.StoreRegisters? || i.LoadRegisters?
    ensures Decode(Encode(i)) == i
  {
    match i
    case AddIndex(x) => DecodeEncodeVia(i, 0xF, x, 0x1, 0xE);
    case FontCharacter(x) => DecodeEncodeVia(i, 0xF, x, 0x2, 0x9);
    case StoreBcd(x) => DecodeEncodeVia(i, 0xF, x, 0x3, 0x3);
    case StoreRegisters(x) => DecodeEncodeVia(i, 0xF, x, 0x5, 0x5);
    case LoadRegisters(x) => DecodeEncodeVia(i, 0xF, x, 0x6, 0x5);
  }

  /** The mask 0xF00F of 5XY0 and 9XY0: a nonzero low nibble falls through. */
  lemma RegisterSkipNeedsZeroLowNibble(op: uint16)
    requires H(op) == 5 || H(op) == 9
    ensures Decode(op).Unknown? <==> N(op) != 0
  {
  }
}
