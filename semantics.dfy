/** What one interpreter operation does to the machine state, as functions on
    `State`: initialization, ROM loading, fetch, decode (one function per
    instruction family), execute and the timer update. `Decode` returns None
    exactly where the source's decode returns its failure code (0 in
    chip8.c, -1 in src/chip8.c); a None leaves the state untouched, since the
    source changes nothing before it fails.

    The source indexes its arrays without bound checks; `Defined` collects
    the conditions under which an instruction stays inside them. */
module Semantics {
  import opened Machine
  import opened Sprite
  import opened Arith

  // ---------------------------------------------------------------- init

  /** The state chip8_init leaves: everything zero except the program
      counter and the font. chip8_init does not touch the draw flag. */
  function InitState(drawFlag: byte): (s: State)
    ensures WellFormed(s)
  {
    State(Font + Zeros(MemorySize - |Font|), Zeros(RegisterCount), BlankScreen(), Zeros(KeyCount),
          seq(StackDepth, _ => 0), 0, ProgramStart, 0, 0, 0, 0, drawFlag)
  }

  /** The initial state cell by cell: the font at memory[0 .. 80), zero
      everywhere else, pc at 0x200 and the draw flag as it was. */
  lemma InitStateContents(drawFlag: byte)
    ensures var s := InitState(drawFlag);
      && s.pc == ProgramStart && s.I == 0 && s.sp == 0 && s.opcode == 0
      && s.delayTimer == 0 && s.soundTimer == 0 && s.drawFlag == drawFlag
      && s.memory[..|Font|] == Font && (forall k | |Font| <= k < MemorySize :: s.memory[k] == 0)
      && (forall r | 0 <= r < RegisterCount :: s.V[r] == 0 && s.keys[r] == 0 && s.stack[r] == 0)
      && (forall k | 0 <= k < ScreenCells :: s.gfx[k] == 0)
  {
  }

  // ---------------------------------------------------------------- load

  /** The size check and copy loop of the ROM loader. A ROM is accepted only
      when it is strictly shorter than 4096 - 512 bytes. */
  function LoadRom(memory: seq<byte>, rom: seq<byte>): (r: Option<seq<byte>>)
    requires |memory| == MemorySize
    ensures r.Some? <==> |rom| < RomSizeMax
    ensures r.Some? ==> |r.value| == MemorySize
  {
    if |rom| < RomSizeMax then
      Some(memory[..ProgramStart] + rom + memory[ProgramStart + |rom|..])
    else
      None
  }

  /** A loaded ROM sits at memory[0x200 ..]; the rest of memory is kept. */
  lemma LoadRomContents(memory: seq<byte>, rom: seq<byte>)
    requires |memory| == MemorySize && |rom| < RomSizeMax
    ensures var m := LoadRom(memory, rom).value;
      && (forall i | 0 <= i < |rom| :: m[ProgramStart + i] == rom[i])
      && (forall k | 0 <= k < MemorySize && !(ProgramStart <= k < ProgramStart + |rom|) :: m[k] == memory[k])
  {
  }

  // ---------------------------------------------------------------- fetch, execute, timers

  /** The opcode is the big-endian word at pc: the first byte supplies the
      family and X, the second one NN. Nothing else changes. */
  function Fetch(s: State): (r: State)
    requires WellFormed(s) && s.pc + 1 < MemorySize
    ensures r == s.(opcode := r.opcode)
    ensures Family(r.opcode) == s.memory[s.pc] / 16 && RegX(r.opcode) == s.memory[s.pc] % 16
    ensures Byte(r.opcode) == s.memory[s.pc + 1]
  {
    s.(opcode := s.memory[s.pc] as int * 256 + s.memory[s.pc + 1])
  }

  /** Moving past the instruction just decoded: pc + 2 in 16 bits. */
  function Execute(s: State): (r: State)
    ensures r == s.(pc := r.pc)
    ensures r.pc == (s.pc + 2) % 0x1_0000
  {
    s.(pc := Wrap16(s.pc + 2))
  }

  /** Each nonzero timer counts down by one; a zero timer stays zero. */
  function UpdateTimers(s: State): (r: State)
    ensures r == s.(delayTimer := r.delayTimer, soundTimer := r.soundTimer)
    ensures r.delayTimer == (if s.delayTimer == 0 then 0 else s.delayTimer - 1)
    ensures r.soundTimer == (if s.soundTimer == 0 then 0 else s.soundTimer - 1)
  {
    var d := if s.delayTimer > 0 then s.delayTimer - 1 else s.delayTimer;
    var t := if s.soundTimer > 0 then s.soundTimer - 1 else s.soundTimer;
    s.(delayTimer := d, soundTimer := t)
  }

  // ---------------------------------------------------------------- decode

  /** The opcodes decode knows. A family-0 opcode is matched on its low byte
      only, so 0x0BE0 also clears the screen; 5XYn and 9XYn ignore n. */
  predicate KnownOpcode(op: word) {
    var f, b := Family(op), Byte(op);
    if f == 0 then b == 0xE0 || b == 0xEE
    else if f == 8 then KnownAluOp(Nibble(op))
    else if f == 0xE then b == 0x9E || b == 0xA1
    else if f == 0xF then
      || b == 0x07 || b == 0x0A || b == 0x15 || b == 0x18 || b == 0x1E
      || b == 0x29 || b == 0x33 || b == 0x55 || b == 0x65
    else true
  }

  /** FX0A with no key down: decode fails and pc stays, so it runs again. */
  predicate WaitsForKey(s: State)
    requires WellFormed(s)
  {
    Family(s.opcode) == 0xF && Byte(s.opcode) == 0x0A && forall k | 0 <= k < KeyCount :: s.keys[k] == 0
  }

  /** The rows of the sprite DXYN draws: N bytes from memory[I]. */
  function SpriteAt(s: State): seq<byte>
    requires WellFormed(s) && (Nibble(s.opcode) == 0 || s.I + Nibble(s.opcode) <= MemorySize)
  {
    if Nibble(s.opcode) == 0 then [] else s.memory[s.I..s.I + Nibble(s.opcode)]
  }

  /** DXYN reads inside memory and writes inside the framebuffer. */
  predicate DrawDefined(s: State)
    requires WellFormed(s)
  {
    && (Nibble(s.opcode) == 0 || s.I + Nibble(s.opcode) <= MemorySize)
    && Fits(SpriteAt(s), s.V[RegX(s.opcode)], s.V[RegY(s.opcode)])
  }

  /** The opcode about to be decoded stays inside the arrays it indexes: the
      stack on call and return, the framebuffer and memory on draw, the
      keypad on the key skips, memory on FX33, FX55 and FX65. */
  predicate Defined(s: State)
    requires WellFormed(s)
  {
    && StackDefined(s)
    && (Family(s.opcode) == 0xD ==> DrawDefined(s))
    && KeysDefined(s)
    && BlockDefined(s)
  }

  /** 00EE pops from a stack that is not empty; 2NNN pushes onto one that is
      not full. */
  predicate StackDefined(s: State) {
    var f, b := Family(s.opcode), Byte(s.opcode);
    && (f == 0 && b == 0xEE ==> 1 <= s.sp <= StackDepth)
    && (f == 2 ==> s.sp < StackDepth)
  }

  /** EX9E and EXA1 index the keypad with VX. */
  predicate KeysDefined(s: State)
    requires WellFormed(s)
  {
    var b := Byte(s.opcode);
    Family(s.opcode) == 0xE && (b == 0x9E || b == 0xA1) ==> s.V[RegX(s.opcode)] < KeyCount
  }

  /** FX33 writes memory[I .. I+2]; FX55 and FX65 access memory[I .. I+X]. */
  predicate BlockDefined(s: State) {
    var b := Byte(s.opcode);
    && (Family(s.opcode) == 0xF && b == 0x33 ==> s.I + 2 < MemorySize)
    && (Family(s.opcode) == 0xF && (b == 0x55 || b == 0x65) ==> s.I + RegX(s.opcode) < MemorySize)
  }

  /** The skip: one more instruction word past pc. */
  function SkipIf(s: State, cond: bool): State {
    if cond then s.(pc := Wrap16(s.pc + 2)) else s
  }

  /** 00E0 clears the screen, 00EE pops the return address. */
  function System(s: State): Option<State>
    requires WellFormed(s) && StackDefined(s) && Family(s.opcode) == 0
  {
    var b := Byte(s.opcode);
    if b == 0xE0 then Some(s.(gfx := BlankScreen(), drawFlag := 1))
    else if b == 0xEE then Some(s.(sp := s.sp - 1, pc := s.stack[s.sp - 1]))
    else None
  }

  /** 2NNN pushes pc and jumps to NNN - 2; having no break, it then runs the
      3XNN test on its own opcode, skipping when VX == NN. */
  function Call(s: State): State
    requires WellFormed(s) && s.sp < StackDepth
  {
    var op := s.opcode;
    var pushed := s.(stack := s.stack[s.sp := s.pc], sp := s.sp + 1, pc := Wrap16(Addr(op) - 2));
    SkipIf(pushed, pushed.V[RegX(op)] == Byte(op))
  }

  /** 1NNN jumps, 2NNN calls, BNNN jumps to NNN + V0. The target is stored
      minus 2 because execute adds 2 afterwards. */
  function Jump(s: State): State
    requires WellFormed(s) && StackDefined(s)
    requires Family(s.opcode) == 0x1 || Family(s.opcode) == 0x2 || Family(s.opcode) == 0xB
  {
    var op := s.opcode;
    if Family(op) == 0x1 then s.(pc := Wrap16(Addr(op) - 2))
    else if Family(op) == 0x2 then Call(s)
    else s.(pc := Wrap16(Addr(op) + s.V[0] - 2))
  }

  /** 3XNN skips if VX == NN, 4XNN if VX != NN, 5XY0 if VX == VY, 9XY0 if
      VX != VY. */
  function Skip(s: State): State
    requires WellFormed(s)
  {
    var op := s.opcode;
    var f, vx, vy, nn := Family(op), s.V[RegX(op)], s.V[RegY(op)], Byte(op);
    SkipIf(s, if f == 0x3 then vx == nn else if f == 0x4 then vx != nn else if f == 0x5 then vx == vy else vx != vy)
  }

  /** 6XNN sets VX, 7XNN adds NN to VX modulo 256, ANNN sets I, CXNN sets
      VX to rnd & NN. */
  function Assign(s: State, rnd: byte): State
    requires WellFormed(s)
  {
    var op := s.opcode;
    var f, x, nn := Family(op), RegX(op), Byte(op);
    if f == 0x6 then s.(V := s.V[x := nn])
    else if f == 0x7 then s.(V := s.V[x := Wrap8(s.V[x] as int + nn)])
    else if f == 0xA then s.(I := Addr(op))
    else s.(V := s.V[x := BitAnd(rnd, nn)])
  }

  /** DXYN: VX and VY are read first, VF is cleared, the sprite is drawn and
      VF ends as the collision flag. */
  function Draw(s: State): State
    requires WellFormed(s) && DrawDefined(s)
  {
    var c := DrawRows(s.gfx, SpriteAt(s), s.V[RegX(s.opcode)], s.V[RegY(s.opcode)], Nibble(s.opcode));
    s.(gfx := c.cells, V := s.V[VF := if c.hit then 1 else 0], drawFlag := 1)
  }

  /** EX9E and EXA1: skip when key VX is down, resp. up. */
  function KeySkip(s: State): Option<State>
    requires WellFormed(s) && KeysDefined(s) && Family(s.opcode) == 0xE
  {
    var b, vx := Byte(s.opcode), s.V[RegX(s.opcode)];
    if b == 0x9E then Some(SkipIf(s, s.keys[vx] != 0))
    else if b == 0xA1 then Some(SkipIf(s, s.keys[vx] == 0))
    else None
  }

  /** The key FX0A stores: the last pressed one its loop over keys 0 .. n-1
      meets, i.e. the highest-numbered key that is down. */
  function LastPressed(keys: seq<byte>, n: nat): (r: Option<nat>)
    requires n <= |keys|
    ensures r.Some? ==> r.value < n && keys[r.value] != 0
    ensures r.Some? ==> forall j | r.value < j < n :: keys[j] == 0
    ensures r.None? <==> forall j | 0 <= j < n :: keys[j] == 0
    decreases n, keys
  {
    if n == 0 then None
    else if keys[n - 1] != 0 then Some(n - 1)
    else LastPressed(keys, n - 1)
  }

  /** FX33: the hundreds, tens and units of v at memory[at .. at+3). */
  function Bcd(memory: seq<byte>, at: nat, v: byte): (r: seq<byte>)
    requires at + 3 <= |memory|
    ensures |r| == |memory|
  {
    memory[at := v / 100][at + 1 := v / 10 % 10][at + 2 := v % 10]
  }

  /** The three bytes are decimal digits that spell v; nothing else changes. */
  lemma BcdDigits(memory: seq<byte>, at: nat, v: byte)
    requires at + 3 <= |memory|
    ensures var r := Bcd(memory, at, v);
      && r[at] < 10 && r[at + 1] < 10 && r[at + 2] < 10
      && r[at] as int * 100 + r[at + 1] as int * 10 + r[at + 2] == v
      && forall k | 0 <= k < |memory| && !(at <= k < at + 3) :: r[k] == memory[k]
  {
  }

  /** FX55: registers V0 .. Vx copied to memory[at ..]. */
  function StoreRegisters(memory: seq<byte>, V: seq<byte>, at: nat, x: nat): (r: seq<byte>)
    requires at + x < |memory| && x < |V|
    ensures |r| == |memory|
  {
    memory[..at] + V[..x + 1] + memory[at + x + 1..]
  }

  /** FX55 writes V0 .. Vx to memory[at .. at+x] and nothing else. */
  lemma StoreRegistersAt(memory: seq<byte>, V: seq<byte>, at: nat, x: nat)
    requires at + x < |memory| && x < |V|
    ensures var r := StoreRegisters(memory, V, at, x);
      && (forall i | 0 <= i <= x :: r[at + i] == V[i])
      && (forall k | 0 <= k < |memory| && !(at <= k <= at + x) :: r[k] == memory[k])
  {
  }

  /** FX65: registers V0 .. Vx loaded from memory[at ..]. */
  function LoadRegisters(V: seq<byte>, memory: seq<byte>, at: nat, x: nat): (r: seq<byte>)
    requires at + x < |memory| && x < |V|
    ensures |r| == |V|
  {
    memory[at..at + x + 1] + V[x + 1..]
  }

  /** FX65 sets V0 .. Vx from memory[at .. at+x] and leaves the rest. */
  lemma LoadRegistersAt(V: seq<byte>, memory: seq<byte>, at: nat, x: nat)
    requires at + x < |memory| && x < |V|
    ensures var r := LoadRegisters(V, memory, at, x);
      && (forall i | 0 <= i <= x :: r[i] == memory[at + i])
      && (forall j | x < j < |V| :: r[j] == V[j])
  {
  }

  /** The FX__ family: the cases on VX and the timers, then those on I. */
  function Misc(s: State): Option<State>
    requires WellFormed(s) && BlockDefined(s) && Family(s.opcode) == 0xF
  {
    var b := Byte(s.opcode);
    if b == 0x07 || b == 0x0A || b == 0x15 || b == 0x18 then MiscTimers(s) else MiscIndex(s)
  }

  /** FX07 reads the delay timer, FX0A waits for a key, FX15 and FX18 set
      the timers. */
  function MiscTimers(s: State): Option<State>
    requires WellFormed(s) && Family(s.opcode) == 0xF
  {
    var b, x := Byte(s.opcode), RegX(s.opcode);
    if b == 0x07 then Some(s.(V := s.V[x := s.delayTimer]))
    else if b == 0x0A then
      match LastPressed(s.keys, KeyCount)
      case None => None
      case Some(k) => Some(s.(V := s.V[x := k]))
    else if b == 0x15 then Some(s.(delayTimer := s.V[x]))
    else if b == 0x18 then Some(s.(soundTimer := s.V[x]))
    else None
  }

  /** FX1E adds VX to I (VF first becoming the flag I + VX > 0xFFF), FX29
      points I at the glyph of digit VX, and the block operations follow. */
  function MiscIndex(s: State): Option<State>
    requires WellFormed(s) && BlockDefined(s) && Family(s.opcode) == 0xF
  {
    var b, x := Byte(s.opcode), RegX(s.opcode);
    if b == 0x1E then
      var flagged := s.V[VF := if s.I + s.V[x] > 0xFFF then 1 else 0];
      Some(s.(V := flagged, I := Wrap16(s.I + flagged[x])))
    else if b == 0x29 then Some(s.(I := s.V[x] as int * 5))
    else MiscBlock(s)
  }

  /** FX33, FX55 and FX65: the block operations between memory at I and the
      registers. */
  function MiscBlock(s: State): Option<State>
    requires WellFormed(s) && BlockDefined(s) && Family(s.opcode) == 0xF
  {
    var b, x := Byte(s.opcode), RegX(s.opcode);
    if b == 0x33 then Some(s.(memory := Bcd(s.memory, s.I, s.V[x])))
    else if b == 0x55 then Some(s.(memory := StoreRegisters(s.memory, s.V, s.I, x), I := Wrap16(s.I + x + 1)))
    else if b == 0x65 then Some(s.(V := LoadRegisters(s.V, s.memory, s.I, x), I := Wrap16(s.I + x + 1)))
    else None
  }

  /** One decode: the opcode's effect, or None where the source returns its
      failure code (unknown opcode, or FX0A with no key down). `rnd` is the
      value of rand() % 256 that CXNN uses. */
  function Decode(s: State, rnd: byte): (r: Option<State>)
    requires WellFormed(s) && Defined(s)
    ensures r.Some? ==> WellFormed(r.value)
    ensures r.None? <==> !KnownOpcode(s.opcode) || WaitsForKey(s)
  {
    var op := s.opcode;
    var f := Family(op);
    if f == 0x0 then System(s)
    else if f == 0x1 || f == 0x2 || f == 0xB then Some(Jump(s))
    else if f == 0x3 || f == 0x4 || f == 0x5 || f == 0x9 then Some(Skip(s))
    else if f == 0x6 || f == 0x7 || f == 0xA || f == 0xC then Some(Assign(s, rnd))
    else if f == 0x8 then
      match Alu(s.V, RegX(op), RegY(op), Nibble(op))
      case None => None
      case Some(regs) => Some(s.(V := regs))
    else if f == 0xD then Some(Draw(s))
    else if f == 0xE then KeySkip(s)
    else Misc(s)
  }

  // ---------------------------------------------------------------- one cycle

  /** Fetching at pc stays inside memory and the fetched opcode is defined. */
  predicate CanStep(s: State) {
    WellFormed(s) && s.pc + 1 < MemorySize && Defined(Fetch(s))
  }

  /** emulate: fetch; if decode succeeds, execute (pc += 2) and update the
      timers; otherwise only the fetched opcode is kept. */
  function Emulate(s: State, rnd: byte): State
    requires CanStep(s)
  {
    var fetched := Fetch(s);
    match Decode(fetched, rnd)
    case None => fetched
    case Some(decoded) => UpdateTimers(Execute(decoded))
  }
}
