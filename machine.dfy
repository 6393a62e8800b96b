/** The CHIP-8 machine state as a value, the font table and the fields of an
    opcode. The interpreter class (module Interpreter) keeps the same state in
    arrays and fields; `Chip8.Abs()` maps it onto a `State`. */
module Machine {

  datatype Option<+T> = None | Some(value: T)

  /** The source's uint8_t and uint16_t. Arithmetic is done on `int` and
      truncated back explicitly with `Wrap8`/`Wrap16`, as C's conversion on
      assignment does. */
  type byte = x: int | 0 <= x < 0x100
  type word = x: int | 0 <= x < 0x1_0000

  /** Conversion of an int to uint8_t: reduction modulo 2^8. */
  function Wrap8(x: int): byte {
    x % 0x100
  }

  /** Conversion of an int to uint16_t: reduction modulo 2^16. */
  function Wrap16(x: int): word {
    x % 0x1_0000
  }

  const MemorySize: nat := 4096
  const RegisterCount: nat := 16
  const ScreenWidth: nat := 64
  const ScreenCells: nat := 64 * 32
  const KeyCount: nat := 16
  const StackDepth: nat := 16
  /** Programs are loaded, and start running, at this address. */
  const ProgramStart: nat := 0x200
  /** The load size check compares against this bound (4096 - 512). */
  const RomSizeMax: nat := MemorySize - ProgramStart
  /** Register VF, the carry, borrow and collision flag. */
  const VF: nat := 0xF

  /** The 16 hexadecimal digit glyphs, five rows of four pixels each. */
  const Font: seq<byte> := [
    0xF0, 0x90, 0x90, 0x90, 0xF0, // 0
    0x20, 0x60, 0x20, 0x20, 0x70, // 1
    0xF0, 0x10, 0xF0, 0x80, 0xF0, // 2
    0xF0, 0x10, 0xF0, 0x10, 0xF0, // 3
    0x90, 0x90, 0xF0, 0x10, 0x10, // 4
    0xF0, 0x80, 0xF0, 0x10, 0xF0, // 5
    0xF0, 0x80, 0xF0, 0x90, 0xF0, // 6
    0xF0, 0x10, 0x20, 0x40, 0x40, // 7
    0xF0, 0x90, 0xF0, 0x90, 0xF0, // 8
    0xF0, 0x90, 0xF0, 0x10, 0xF0, // 9
    0xF0, 0x90, 0xF0, 0x90, 0x90, // A
    0xE0, 0x90, 0xE0, 0x90, 0xE0, // B
    0xF0, 0x80, 0x80, 0x80, 0xF0, // C
    0xE0, 0x90, 0x90, 0x90, 0xE0, // D
    0xF0, 0x80, 0xF0, 0x80, 0xF0, // E
    0xF0, 0x80, 0xF0, 0x80, 0x80  // F
  ]

  /** Everything the interpreter owns. Framebuffer cells are `bv8` because
      the only thing ever done to them is XOR with 1. */
  datatype State = State(
    memory: seq<byte>,
    V: seq<byte>,
    gfx: seq<bv8>,
    keys: seq<byte>,
    stack: seq<word>,
    sp: word,
    pc: word,
    I: word,
    opcode: word,
    delayTimer: byte,
    soundTimer: byte,
    drawFlag: byte)

  /** The array sizes fixed by the machine's struct. */
  predicate WellFormed(s: State) {
    && |s.memory| == MemorySize
    && |s.V| == RegisterCount
    && |s.gfx| == ScreenCells
    && |s.keys| == KeyCount
    && |s.stack| == StackDepth
  }

  function Zeros(n: nat): (z: seq<byte>)
    ensures |z| == n && forall i :: 0 <= i < n ==> z[i] == 0
  {
    seq(n, _ => 0)
  }

  function BlankScreen(): (z: seq<bv8>)
    ensures |z| == ScreenCells && forall i :: 0 <= i < ScreenCells ==> z[i] == 0
  {
    seq(ScreenCells, _ => 0)
  }

  // Bitwise operators on bytes, computed on the 8-bit pattern.

  function BitAnd(a: byte, b: byte): byte {
    ((a as bv8) & (b as bv8)) as int
  }

  function BitOr(a: byte, b: byte): byte {
    ((a as bv8) | (b as bv8)) as int
  }

  function BitXor(a: byte, b: byte): byte {
    ((a as bv8) ^ (b as bv8)) as int
  }

  // The fields of an opcode 0xFXYN (NN is its low byte, NNN its low 12
  // bits). The source's masks and shifts, (op & 0x0F00) >> 8 and so on, are
  // written as the equal divisions and remainders.

  function Family(op: word): (f: nat)
    ensures f < 16
  {
    op / 0x1000
  }

  function RegX(op: word): (x: nat)
    ensures x < 16
  {
    op / 0x100 % 0x10
  }

  function RegY(op: word): (y: nat)
    ensures y < 16
  {
    op / 0x10 % 0x10
  }

  function Nibble(op: word): (n: nat)
    ensures n < 16
  {
    op % 0x10
  }

  function Byte(op: word): byte {
    op % 0x100
  }

  function Addr(op: word): (a: word)
    ensures a < 0x1000
  {
    op % 0x1000
  }
}
