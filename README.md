# CHIP-8 virtual machine, modelled and verified in Dafny

This project models the CHIP-8 interpreter core of `src/chip8.rs` and proves what each
operation does. The core is the `Chip8` object. It holds 4096 bytes of memory, sixteen
8-bit registers V0 to VF, the 16-bit index register I and program counter, the delay and
sound timers, a call stack, a 64 x 32 monochrome screen, sixteen key latches and the
font base address.

The project has two layers.

- **Values.** These are pure definitions of the machine:
  - `MachineState`: the state snapshot and the integer widths;
  - `Font`: the built-in hexadecimal glyphs;
  - `Opcode`: the 16-bit instruction words and their decoding, in the emulator's own
    order of mask tests;
  - `Semantics`: one step of every instruction, the fetch, and the cycle with its timer
    decay;
  - `Sprite`: the sprite-drawing loop and an independent description of its effect;
  - `Video`: the RGBA export;
  - `Properties`: what the instructions promise, stated and proved over these
    definitions.
- **The object.** `Chip8.Chip8` is a class.
  - Memory, registers, screen and keys are arrays updated in place.
  - The scalars and the stack are fields.
  - Each method carries the loops of the source, such as the clear-screen loop, the
    copy loops of `new`, the FX55/FX65 loops, the nested DXYN loops and the
    RGBA-building loops.
  - Each method is proved to change `Abs()`, the snapshot of all fields, exactly as the
    matching `Semantics` function says.

A panic of the emulator is modelled as a fault. The causes are:

- `unwrap` on an empty stack;
- an index past the end of memory, the screen or the key latches.

A step that faults yields `Err(fault)`, and the method reports it. After a fault the
object's state is unspecified, because the process would have stopped. Integer
arithmetic follows a release build: `u8` and `u16` operations wrap around. Where the
wrap matters (`pc += 2`, `I += VX`, 8XY7, and `vx += 1` in DXYN), it is written out with
`% 0x100` or `% 0x1_0000`.

The model follows the code where it differs from the usual description of CHIP-8:

- **00EE** returns to the popped address plus 2, because 2NNN pushes the call's own
  address.
- **8XY5** sets VF to 1 only when VX > VY strictly. 8XY7 sets VF to 1 when VY >= VX.
- **8XYE** stores `VX & 0x80` (0 or 128) in VF. 8XY6 stores `VX & 1`.
- **DXYN collision flag.** DXYN sets VF when a lit cell lies under a 0 bit of the
  sprite. It does not set VF when a pixel is switched off. Drawing the same sprite twice
  on a blank screen therefore leaves VF = 0 (`Sprite.RedrawOnBlankNeverCollides`).
- **DXYN column reset.** After the first row, DXYN restarts each row at the unreduced
  VX. With VX >= 64 the draw can index past the screen, and that is a fault
  (`Properties.DrawUnreducedColumnAborts`).
- **FX0A** does not wait for a key. It sets VX to 0 and moves on.
- **5XYn and 9XYn** are matched with the mask 0xF00F. With n != 0 they fall through to
  the default branch, which only advances the PC.
- **The stack is unbounded.** Its capacity of 16 is not a limit.

## Model

| member | source | states |
|---|---|---|
| Font.CreateFontData | src/chip8.rs:10-127 | the font table is 80 bytes, 5 rows for each of the 16 hexadecimal digits |
| Font.GlyphAt | src/chip8.rs:14-126 | bytes 5d to 5d+4 of the font table are the glyph of digit d |
| Opcode.NibblesCompose | src/chip8.rs:232-634 | the four nibbles that the masks extract recompose the word, and NN and NNN are its low 8 and 12 bits |
| Opcode.NibblesExtract | src/chip8.rs:232-634 | a word built from four nibbles yields back exactly those nibbles, NN and NNN |
| Opcode.Decode | src/chip8.rs:234-633 | the mask cascade: an unrecognised word is kept as it is, and a word with high nibble D is always DXYN with its own X, Y and N |
| Opcode.DecodeWord | src/chip8.rs:234-633 | decoding a word runs the cascade on that word's four nibbles |
| Opcode.EncodeDecodeFields | src/chip8.rs:234-633 | every outcome of the cascade on a word's nibbles encodes back to that word |
| Opcode.EncodeDecode | src/chip8.rs:232-634 | decoding then encoding returns the original word for all 65536 words, the unknown ones included |
| Opcode.DecodeInjective | src/chip8.rs:232-634 | two words decode to the same instruction if and only if they are equal |
| Opcode.DecodeEncode | src/chip8.rs:232-634 | every instruction whose operands fit their fields decodes back from its encoding, so the mask cascade has no shadowed branch |
| Opcode.RegisterSkipNeedsZeroLowNibble | src/chip8.rs:290-302 | a 5XYn or 9XYn word is unrecognised exactly when n != 0, because of the 0xF00F mask |
| MachineState.Advance | src/chip8.rs:241 | `pc += k` on a u16: the exact sum below 0x10000, otherwise the sum minus 0x10000 |
| Semantics.InitialState | src/chip8.rs:147-178 | after `new`: PC = 0x200, I = 0, all registers 0, a blank screen, no key held, empty stack, timers 0, font base 0 |
| Semantics.InitialMemory | src/chip8.rs:164-175 | after `new` each memory byte is a font byte below 80, a ROM byte from 0x200 on, and 0 elsewhere |
| Semantics.Fetch | src/chip8.rs:224-229 | the fetch succeeds if and only if PC + 1 < 4096; its high byte is memory[PC] and its low byte memory[PC+1]; otherwise it is an out-of-range fault |
| Semantics.ExecRegister | src/chip8.rs:304-567 | 6XNN, 7XNN, 8XYk, CXNN, FX07 and FX0A write only VX and VF, advance the PC by 2 and leave every other field alone |
| Semantics.ExecLoadOrLogic | src/chip8.rs:304-567 | 6XNN, 7XNN, 8XY0 to 8XY3, CXNN, FX07 and FX0A (the instructions without a flag) change VX and the PC and nothing else, not even VF |
| Semantics.ExecArithmetic | src/chip8.rs:359-426 | 8XY4 to 8XYE change only VX, then VF, and the PC, and VF is written last |
| Semantics.ExecMemory | src/chip8.rs:597-627 | FX33, FX55 and FX65 change only memory or registers and the PC; FX65 leaves memory alone; FX33 and FX55 leave registers alone |
| Semantics.ExecDraw | src/chip8.rs:465-525 | DXYN changes only the screen, VF and the PC; V0 to VE keep their values |
| Semantics.Exec | src/chip8.rs:232-634 | every instruction that does not fault keeps the buffer sizes; the full effect of each family is stated by the `Properties` lemmas: ClearScreenEffect, ReturnEffect, ReturnUnderflow, JumpTargets, CallThenReturn, SkipDistance, LoadEffect, AddImmEffect, LogicEffect, FlagSettingEffect, WaitKeyStoresZero, LoadIndexEffect, AddIndexWraps, FontCharacterEffect, SetTimerEffect, StoreBcdEffect, StoreRegistersEffect, LoadRegistersEffect, DrawEffect, DrawMemoryFault and UnknownWordAdvances |
| Semantics.ExecFlow | src/chip8.rs:235-260 | 00E0, 00EE, 1NNN, 2NNN and BNNN keep the buffer sizes when they succeed; see `Properties.CallThenReturn` and `Properties.JumpTargets` |
| Semantics.ExecSkip | src/chip8.rs:262-302 | the skips keep the buffer sizes when they succeed; see `Properties.SkipDistance` |
| Semantics.ExecIndexOrTimer | src/chip8.rs:442-595 | ANNN, FX15, FX18, FX1E and FX29 keep the buffer sizes; see `Properties.LoadIndexEffect` and the lemmas after it |
| Semantics.Execute | src/chip8.rs:232-634 | decode then execute: a result that does not fault is a well-formed state, and only 00EE, DXYN, EX9E, EXA1, FX33, FX55 and FX65 can fault |
| Semantics.BlankScreen | src/chip8.rs:237-240 | the cleared screen: 2048 cells, none lit |
| Semantics.DecayTimer | src/chip8.rs:208-216 | the delay timer after a cycle is d - 1 when d > 0 and 0 otherwise; it never underflows |
| Semantics.Cycle | src/chip8.rs:181-221 | a cycle that succeeds keeps the buffer sizes; see `Properties.CycleEffect` |
| Sprite.Row | src/chip8.rs:481-514 | the screen row of sprite line i is below 32 |
| Sprite.Column | src/chip8.rs:481-512 | the column counter stays a `u8` value, below 256 |
| Sprite.RowClosedForm | src/chip8.rs:513-514 | the row of sprite line i is (VY mod 32 + i) mod 32 |
| Sprite.ColumnClosedForm | src/chip8.rs:509-512 | the column of pixel (i, j) is (VX mod 64 + j) mod 64, except the first pixel of rows after the first, which is the unreduced VX |
| Sprite.CellClosedForm | src/chip8.rs:497 | the screen index the loop uses for pixel (i, j), in closed form |
| Sprite.DrawPixel | src/chip8.rs:496-510 | one pixel step faults if and only if its screen index is past the end of the screen; otherwise the screen keeps its size |
| Sprite.SpriteBitPlace | src/chip8.rs:496 | the mask `1 << (7-j)` selects pixel j as binary digit 7 - j of the row byte: the leftmost pixel is the most significant bit |
| Sprite.FromRowBits | src/chip8.rs:494-496 | the 8 pixels of a row, leftmost first, read as a binary number most significant digit first, give back the row byte |
| Sprite.DrawRow | src/chip8.rs:494-511 | the inner loop keeps the screen size when it does not fault; its contents are given by `Sprite.RowAgrees` |
| Sprite.DrawRows | src/chip8.rs:490-515 | the outer loop keeps the screen size when it does not fault; its contents are given by `Sprite.RowsAgree` |
| Sprite.DrawSprite | src/chip8.rs:481-515 | the sprite draw keeps the screen size, and a sprite of 0 rows changes nothing and raises no flag |
| Sprite.DrawSpriteMemoryFault | src/chip8.rs:490-492 | with VX < 64 the draw faults if and only if n > 0 and I + n > 4096, and the fault is a memory index out of range |
| Sprite.DrawRowInRange | src/chip8.rs:494-511 | a row whose every cell is on the screen is drawn without a fault |
| Sprite.CellCoordinates | src/chip8.rs:497 | with VX < 64 the cell of pixel (i, j) is on the screen, and its window coordinates are (i, j) |
| Sprite.CoordinatesCell | src/chip8.rs:497 | with VX < 64 every screen cell is the loop's cell for its own window coordinates, so the map is a bijection |
| Sprite.RowAgrees | src/chip8.rs:494-511 | the inner loop over one sprite row produces the reference screen and flag after that row |
| Sprite.RowsAgree | src/chip8.rs:490-515 | after i rows the nested loops have produced the reference screen and flag restricted to the first 8i pixels |
| Sprite.DrawSpriteEffect | src/chip8.rs:490-515 | with VX < 64 the draw loop yields exactly the screen with the cells under set sprite bits flipped, and the flag "some lit cell lies under a 0 sprite bit" |
| Sprite.UnreducedColumnAborts | src/chip8.rs:512 | VX = 64, VY = 30 and two rows index the screen at 2048: the draw faults |
| Sprite.ToggledTwice | src/chip8.rs:505-508 | toggling by the same sprite at the same place twice restores the screen |
| Sprite.ToggledOutsideWindow | src/chip8.rs:505-508 | cells outside the sprite's 8 x n window are unchanged |
| Sprite.ToggledWindowCell | src/chip8.rs:505-508 | the cell at (VY+i mod 32, VX+j mod 64) becomes its old value xor sprite bit (i, j) |
| Sprite.BlankNeverCollides | src/chip8.rs:498-504 | drawing on a blank screen never raises the flag |
| Sprite.RedrawOnBlankNeverCollides | src/chip8.rs:498-504 | drawing a sprite again over its own image on a blank screen does not raise the flag either |
| Video.SourceCell | src/chip8.rs:653-660 | image pixel q shows the screen cell in the same column and in row 31 minus its row: the vertical flip |
| Video.ImageByte | src/chip8.rs:657-672 | each image byte is 0 or 255, and the alpha byte is always 255 |
| Video.Rgba | src/chip8.rs:649-696 | the export is 64 x 32 x 4 = 8192 bytes |
| Video.RgbaPixel | src/chip8.rs:653-672 | bytes 4(64j+i) to 4(64j+i)+3 are 255,255,255,255 when cell (31-j)*64+i is lit and 0,0,0,255 otherwise |
| Video.RgbaOpaque | src/chip8.rs:662-671 | every alpha byte is 255 |
| Video.RgbaLossless | src/chip8.rs:649-696 | the screen can be read back from the export, so no cell is lost or duplicated by the vertical flip |
| Properties.LowBit | src/chip8.rs:397 | `VX & 1` is VX mod 2 |
| Properties.HighBit | src/chip8.rs:423 | `VX & 0x80` is 128 when VX >= 128 and 0 otherwise |
| Properties.WrappedDifference | src/chip8.rs:388 | the i32 remainder cast to u8 is the difference mod 256 |
| Properties.FlagSettingEffect | src/chip8.rs:359-426 | 8XY4: VX+VY mod 256, VF = 1 iff VX+VY > 255; 8XY5: VX-VY mod 256, VF = 1 iff VX > VY; 8XY6: VX/2, VF = VX&1; 8XY7: VY-VX mod 256, VF = 1 iff VY >= VX; 8XYE: 2VX mod 256, VF = VX&0x80; VF is written after VX |
| Properties.ArithmeticRegisters | src/chip8.rs:359-426 | the register file after each flag-setting instruction, case by case |
| Properties.AddImmEffect | src/chip8.rs:312-324 | 7XNN sets VX to (VX+NN) mod 256 and leaves VF and every other field unchanged |
| Properties.LoadEffect | src/chip8.rs:304-558 | 6XNN sets VX = NN, 8XY0 sets VX = VY, CXNN sets VX = rnd & NN and FX07 sets VX = delay timer; nothing else changes but the PC |
| Properties.LogicEffect | src/chip8.rs:326-357 | 8XY1, 8XY2 and 8XY3 set VX to VX or, and, xor VY; nothing else changes but the PC |
| Properties.WaitKeyStoresZero | src/chip8.rs:560-567 | FX0A sets VX to 0 and advances; it does not block |
| Properties.ExecFrame | src/chip8.rs:232-634 | no instruction touches the keys or the font base; memory, screen, stack, registers, I and each timer change only under the instructions that write them |
| Properties.SequentialAdvancesByTwo | src/chip8.rs:628-633 | every instruction outside the jump, call, return and skip families advances the PC by exactly 2, the unrecognised words included |
| Properties.SkipDistance | src/chip8.rs:262-302 | 3XNN, 4XNN, 5XY0, 9XY0, EX9E and EXA1 advance by 4 when their condition holds and by 2 otherwise; the key skips fault if and only if VX >= 16 |
| Properties.UnknownWordAdvances | src/chip8.rs:628-633 | an unrecognised word only advances the PC by 2 |
| Properties.RegisterSkipNeedsZeroNibble | src/chip8.rs:289-441 | 5XYn and 9XYn with n != 0 only advance the PC by 2 |
| Properties.JumpTargets | src/chip8.rs:250-253 | 1NNN sets PC = NNN; BNNN sets PC = NNN + V0; nothing else changes |
| Properties.ClearScreenEffect | src/chip8.rs:235-242 | 00E0 never faults, leaves every cell unlit and changes nothing else but the PC |
| Properties.ReturnEffect | src/chip8.rs:244-248 | 00EE on a non-empty stack pops its top and resumes at the popped address + 2; nothing else changes |
| Properties.ReturnUnderflow | src/chip8.rs:244-248 | 00EE faults if and only if the stack is empty, with a stack-underflow fault |
| Properties.CallThenReturn | src/chip8.rs:244-260 | 2NNN pushes the PC and jumps to NNN; a following 00EE restores the whole state except that the PC is the call's address + 2 |
| Properties.ExecuteEncoded | src/chip8.rs:232-634 | executing the encoding of an instruction is executing the instruction |
| Properties.CallThenReturnWords | src/chip8.rs:244-260 | the same round trip for the words 2NNN then 00EE |
| Properties.LoadIndexEffect | src/chip8.rs:442-447 | ANNN sets I = NNN and changes nothing else but the PC |
| Properties.AddIndexWraps | src/chip8.rs:583-588 | FX1E sets I to (I + VX) mod 65536 |
| Properties.FontCharacterEffect | src/chip8.rs:590-595 | FX29 sets I to the font base + 5 VX, mod 65536 |
| Properties.FontCharacterAddressesGlyph | src/chip8.rs:590-595 | with the font loaded at base 0, FX29 points I at the 5 bytes of the glyph for VX |
| Properties.StoreBcdEffect | src/chip8.rs:597-607 | FX33 faults if and only if I + 2 >= 4096; otherwise it writes three decimal digits h, t, o with 100h + 10t + o = VX at I to I+2, and leaves all other memory, I and the registers unchanged |
| Properties.StoreRegistersEffect | src/chip8.rs:609-617 | FX55 faults if and only if I + X >= 4096; otherwise memory[I+k] = Vk for k <= X, all other memory is unchanged, and so are I and the registers |
| Properties.LoadRegistersEffect | src/chip8.rs:619-627 | FX65 faults if and only if I + X >= 4096; otherwise Vk = memory[I+k] for k <= X, the other registers keep their values, and memory and I are unchanged |
| Properties.StoreThenLoad | src/chip8.rs:609-627 | FX65 at the same I reads back what FX55 stored in V0 to VX |
| Properties.StoreThenLoadRestores | src/chip8.rs:609-627 | FX55 followed by FX65 with the same X leaves the whole register file unchanged |
| Properties.SetTimerEffect | src/chip8.rs:569-581 | FX15 sets the delay timer and FX18 the sound timer to VX; nothing else changes but the PC |
| Properties.DelayRoundTrip | src/chip8.rs:553-574 | FX15 then FX07 copies VX into VY through the delay timer |
| Properties.DrawEffect | src/chip8.rs:465-525 | with VX < 64 and the sprite inside memory, DXYN flips exactly the cells under set sprite bits, sets VF to the collision flag and changes nothing else but the PC |
| Properties.DrawTogglesWindowCell | src/chip8.rs:490-515 | cell (VY+i mod 32, VX+j mod 64) ends as its old value xor sprite bit (i, j) |
| Properties.DrawTwiceRestoresScreen | src/chip8.rs:465-525 | drawing the same sprite twice at the same place restores the screen |
| Properties.DrawOnBlankScreenClearsFlag | src/chip8.rs:498-523 | DXYN on a blank screen succeeds and sets VF = 0 |
| Properties.DrawMemoryFault | src/chip8.rs:490-492 | with VX < 64, DXYN faults if and only if n > 0 and I + n > 4096, with an out-of-range memory fault |
| Properties.DrawUnreducedColumnAborts | src/chip8.rs:512 | DXYN with VX = 64 faults with an out-of-range screen index |
| Properties.CycleEffect | src/chip8.rs:181-221 | a cycle succeeds if and only if the fetch and the execution do; the result is the executed state with the delay timer decayed by one, never below zero |
| Properties.CycleAfterSetDelay | src/chip8.rs:569-574 | a cycle running FX15 leaves the delay timer at max(VX - 1, 0) |
| Properties.CycleKeepsSoundTimer | src/chip8.rs:181-221 | a cycle never decrements the sound timer; only FX18 changes it |
| Properties.InitialLayout | src/chip8.rs:164-175 | after `new`, memory starts with the font and holds the ROM from 0x200 |
| Properties.InitialFetch | src/chip8.rs:224-229 | the first fetch after `new` yields the ROM's first two bytes, big-endian |
| Properties.InitialFontCharacter | src/chip8.rs:590-595 | right after `new`, FX29 points I at the glyph for digit VX |
| Chip8.ImagePixelBytes | src/chip8.rs:662-671 | byte c of image pixel q is 255 when it is alpha or the source cell is lit, and 0 otherwise |
| Chip8.Chip8.constructor | src/chip8.rs:147-178 | the new object is exactly `InitialState(rom)` with freshly allocated buffers |
| Chip8.Chip8.LoadFontAndRom | src/chip8.rs:166-175 | the two copy loops leave memory equal to the initial memory: font, ROM, zeros |
| Chip8.Chip8.ScreenWidth | src/chip8.rs:637-640 | the width times 32 rows is the size of the screen buffer |
| Chip8.Chip8.ScreenHeight | src/chip8.rs:643-646 | 64 columns times the height is the size of the screen buffer |
| Chip8.Chip8.FetchOpcode | src/chip8.rs:224-229 | the word read is the fetch of the current state, and nothing changes |
| Chip8.Chip8.ExecuteOpcode | src/chip8.rs:232-634 | the new state, or the fault, is the one the decoded instruction prescribes |
| Chip8.Chip8.RunOneCycle | src/chip8.rs:181-221 | the new state, or the fault, is fetch, execute and timer decay in sequence |
| Chip8.Chip8.ExecuteLoadOrLogic | src/chip8.rs:304-567 | the register and PC updates of 6XNN, 7XNN, 8XY0 to 8XY3, CXNN, FX07 and FX0A |
| Chip8.Chip8.ExecuteArithmetic | src/chip8.rs:359-426 | the result and flag writes of 8XY4 to 8XYE |
| Chip8.Chip8.ExecuteFlow | src/chip8.rs:235-260 | the clear-screen loop, return, jump, call and BNNN |
| Chip8.Chip8.ExecuteSkip | src/chip8.rs:262-302 | the six conditional skips and the key-index fault |
| Chip8.Chip8.ExecuteIndexOrTimer | src/chip8.rs:442-595 | ANNN, FX15, FX18, FX1E and FX29 |
| Chip8.Chip8.StoreBcd | src/chip8.rs:597-607 | FX33's three memory writes, or its fault |
| Chip8.Chip8.StoreRegisters | src/chip8.rs:609-617 | FX55's copy loop, or its fault |
| Chip8.Chip8.LoadRegisters | src/chip8.rs:619-627 | FX65's copy loop, or its fault |
| Chip8.Chip8.DrawSprite | src/chip8.rs:465-525 | DXYN: the loops' screen and the collision flag in VF, or the fault |
| Chip8.Chip8.DrawSpriteRows | src/chip8.rs:490-515 | the outer loop over sprite rows computes the row-by-row draw |
| Chip8.Chip8.DrawSpriteRow | src/chip8.rs:494-511 | the inner loop over the 8 pixels of one row computes the row draw |
| Chip8.Chip8.DrawSpritePixel | src/chip8.rs:496-508 | one pixel: flag update and conditional flip |
| Chip8.Chip8.GetVideoBufferAsRgba | src/chip8.rs:649-696 | the nested loops build exactly `Video.Rgba` of the screen, and the screen is not changed |

## Left out

- `src/main.rs` (the window, the shaders and the event loop) is not part of this model. It is rendering code and does not drive the emulator.
- The `println!` dumps and the wall-clock and floating-point timing code of `run_one_cycle` are output and clock reading. They do not influence the state.
- `thread_rng()` in CXNN is a foreign random source. Its byte is the parameter `rnd` of `Exec`, `Execute`, `Cycle` and the methods.
- The `print_debug` branches of `get_video_buffer_as_rgba` are dead console output.
- The commented-out sleep and the pacing it stands for are not modelled.
- Debug-build overflow panics are not faults in this model. Examples are 8XY7 with VY < VX, `pc += 2` at 0xFFFF, and `vx += 1` at 255 in DXYN. The model is the release build, where these wrap.
- Chip8.Chip8.constructor: requires the ROM to fit in the 3584 bytes from 0x200. The source panics on a longer ROM, and a constructor cannot report a fault.
- Chip8.Chip8.ExecuteOpcode: when a fault is reported, the state left behind is not specified. The emulator's panic ends the process, so nothing observes that state.
- Font.CreateFontData: the 80 `push` calls are modelled as the sequence they build, not as a growing buffer.
- Chip8.Chip8.FetchOpcode: modelled as a function over the object's fields, because it only reads.
- Chip8.Chip8.ScreenWidth: the same, because it only returns a constant.
- The key latches are never written by the source. They are a fixed array that no method modifies, so the model contains no key input.
- Sprite.DrawSpriteEffect: the closed form assumes VX < 64. With a larger VX, later rows start at the unreduced column. That case is covered only by the loop model and `Sprite.UnreducedColumnAborts`.
