/** The machine's value-level state: the fixed-size buffers, the integer widths the
    emulator uses, the ways an instruction can abort, and the abstract snapshot of the
    whole machine that the operational semantics works on. */
module MachineState {

  /** The emulator's `u8` and `u16`: unbounded integers restricted to the width. */
  type uint8 = x: int | 0 <= x < 0x100
  type uint16 = x: int | 0 <= x < 0x1_0000

  const MEMORY_SIZE: nat := 4096
  const REGISTER_COUNT: nat := 16
  const KEY_COUNT: nat := 16
  const SCREEN_WIDTH: nat := 64
  const SCREEN_HEIGHT: nat := 32
  /** 64 columns by 32 rows, row-major. */
  const SCREEN_CELLS: nat := 2048
  /** Address of the first ROM byte and the initial program counter. */
  const PROGRAM_START: nat := 0x200
  /** Index of the flag register VF. */
  const VF: nat := 15

  /** What makes the emulator panic: `unwrap` on an empty stack, or an index out of a
      buffer's bounds (memory, screen, key latches). */
  datatype Fault = StackUnderflow | MemoryOutOfRange | ScreenOutOfRange | KeyOutOfRange

  datatype Option<T> = None | Some(value: T)

  datatype Result<T> = Ok(value: T) | Err(fault: Fault)

  /** Snapshot of every field of the emulator object. */
  datatype State = State(
    memory: seq<uint8>,
    registers: seq<uint8>,
    addressRegister: uint16,
    programCounter: uint16,
    delayTimer: uint8,
    soundTimer: uint8,
    stack: seq<uint16>,
    screen: seq<bool>,
    keys: seq<bool>,
    fontDataBaseAddress: uint16)

  /** The buffer sizes the constructor allocates and no operation changes. */
  predicate WellFormed(s: State) {
    |s.memory| == MEMORY_SIZE && |s.registers| == REGISTER_COUNT &&
    |s.screen| == SCREEN_CELLS && |s.keys| == KEY_COUNT
  }

  /** `a += k` on a `u16`, with the wrap-around of a release build. */
  function Advance(a: uint16, k: nat): (r: uint16)
    ensures a + k < 0x1_0000 ==> r == a + k
    ensures a + k >= 0x1_0000 && k <= 0x1_0000 ==> r == a + k - 0x1_0000
  {
    (a + k) % 0x1_0000
  }

  /** A method's fault report together with the state it leaves, as a `Result`. */
  function Outcome(fault: Option<Fault>, s: State): Result<State> {
    if fault.Some? then Err(fault.value) else Ok(s)
  }
}
