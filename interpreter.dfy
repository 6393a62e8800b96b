/** The interpreter as the source has it: one machine object whose arrays and
    fields every operation updates in place. Each method is proved to leave
    the state that the matching function of module Semantics computes from
    the state it started in; `Abs()` reads the object as a `State`. */
module Interpreter {
  import opened Machine
  import opened Sprite
  import opened Arith
  import opened Semantics

  /** A decode outcome `r` was carried out: `ok` reports success, and on
      failure nothing changed. */
  ghost predicate Reaches(r: Option<State>, ok: bool, before: State, after: State) {
    ok == r.Some? && after == (if ok then r.value else before)
  }

  class Chip8 {
    const memory: array<byte>
    const V: array<byte>
    const gfx: array<bv8>
    const keys: array<byte>
    const stack: array<word>
    var sp: word
    var pc: word
    var I: word
    var opcode: word
    var delayTimer: byte
    var soundTimer: byte
    var drawFlag: byte

    /** The struct's array sizes; the byte arrays are distinct objects. */
    ghost predicate Valid()
      reads this
    {
      && memory.Length == MemorySize
      && V.Length == RegisterCount
      && gfx.Length == ScreenCells
      && keys.Length == KeyCount
      && stack.Length == StackDepth
      && memory != V && memory != keys && V != keys
    }

    ghost function Abs(): (s: State)
      reads this, memory, V, gfx, keys, stack
      requires Valid()
      ensures WellFormed(s)
    {
      State(memory[..], V[..], gfx[..], keys[..], stack[..], sp, pc, I, opcode, delayTimer, soundTimer, drawFlag)
    }

    /** Allocates the machine's storage; its contents are whatever the
        arrays start with until `Init` runs. */
    constructor ()
      ensures Valid()
      ensures fresh(memory) && fresh(V) && fresh(gfx) && fresh(keys) && fresh(stack)
    {
      memory := new byte[MemorySize];
      V := new byte[RegisterCount];
      gfx := new bv8[ScreenCells];
      keys := new byte[KeyCount];
      stack := new word[StackDepth];
    }

    /** chip8_init: clears every register, array and timer, sets pc to
        0x200 and copies the font to memory[0 .. 80). */
    method Init()
      requires Valid()
      modifies this, memory, V, gfx, keys, stack
      ensures Valid()
      ensures Abs() == InitState(old(drawFlag))
    {
      pc := ProgramStart;
      opcode := 0;
      I := 0;
      sp := 0;
      delayTimer := 0;
      soundTimer := 0;
      ClearArrays();
      ResetMemory();
      assert V[..] == Zeros(RegisterCount) && keys[..] == Zeros(KeyCount);
    }

    /** The memsets of V, keys, stack and gfx. */
    method ClearArrays()
      requires Valid()
      modifies V, keys, stack, gfx
      ensures V[..] == Zeros(RegisterCount) && keys[..] == Zeros(KeyCount)
      ensures stack[..] == seq(StackDepth, _ => 0) && gfx[..] == BlankScreen()
    {
      forall r | 0 <= r < RegisterCount {
        V[r] := 0;
      }
      forall k | 0 <= k < KeyCount {
        keys[k] := 0;
      }
      forall k | 0 <= k < StackDepth {
        stack[k] := 0;
      }
      forall k | 0 <= k < ScreenCells {
        gfx[k] := 0;
      }
      assert V[..] == Zeros(RegisterCount) && keys[..] == Zeros(KeyCount);
      assert stack[..] == seq(StackDepth, _ => 0) && gfx[..] == BlankScreen();
    }

    /** The memset of memory and the font copy loop. */
    method ResetMemory()
      requires Valid()
      modifies memory
      ensures memory[..] == Font + Zeros(MemorySize - |Font|)
    {
      forall k | 0 <= k < MemorySize {
        memory[k] := 0;
      }
      var i := 0;
      while i < |Font|
        invariant 0 <= i <= |Font|
        invariant forall k | 0 <= k < i :: memory[k] == Font[k]
        invariant forall k | i <= k < MemorySize :: memory[k] == 0
      {
        memory[i] := Font[i];
        i := i + 1;
      }
      assert memory[..] == Font + Zeros(MemorySize - |Font|);
    }

    /** The size check and copy loop of the ROM loader: the ROM goes to
        memory[0x200 ..] when it is shorter than 4096 - 512 bytes; otherwise
        nothing is copied and the load fails. */
    method Load(rom: seq<byte>) returns (ok: bool)
      requires Valid()
      modifies memory
      ensures ok <==> |rom| < RomSizeMax
      ensures ok ==> memory[..] == LoadRom(old(memory[..]), rom).value
      ensures !ok ==> memory[..] == old(memory[..])
    {
      if |rom| < RomSizeMax {
        var i := 0;
        while i < |rom|
          modifies memory
          invariant 0 <= i <= |rom|
          invariant forall k | 0 <= k < MemorySize ::
            memory[k] == if ProgramStart <= k < ProgramStart + i then rom[k - ProgramStart] else old(memory[k])
        {
          memory[i + ProgramStart] := rom[i];
          i := i + 1;
        }
        ok := true;
        assert memory[..] == LoadRom(old(memory[..]), rom).value;
      } else {
        ok := false;
      }
    }

    /** fetch: the big-endian word at pc becomes the opcode. */
    method Fetch()
      requires Valid() && pc + 1 < MemorySize
      modifies this`opcode
      ensures Abs() == Semantics.Fetch(old(Abs()))
    {
      opcode := memory[pc] as int * 256 + memory[pc + 1];
    }

    /** execute: pc += 2. */
    method Execute()
      requires Valid()
      modifies this`pc
      ensures Abs() == Semantics.Execute(old(Abs()))
    {
      pc := Wrap16(pc + 2);
    }

    /** timers_update / update_timers. */
    method UpdateTimers()
      requires Valid()
      modifies this`delayTimer, this`soundTimer
      ensures Abs() == Semantics.UpdateTimers(old(Abs()))
    {
      if delayTimer > 0 {
        delayTimer := delayTimer - 1;
      }
      if soundTimer > 0 {
        soundTimer := soundTimer - 1;
      }
    }

    /** emulate: fetch, decode, and only when decode succeeds execute and
        update the timers. `rnd` stands for rand() in CXNN. */
    method Emulate(rnd: byte)
      requires Valid() && CanStep(Abs())
      modifies this, memory, V, gfx, stack
      ensures Valid()
      ensures Abs() == Semantics.Emulate(old(Abs()), rnd)
    {
      Fetch();
      var ok := Decode(rnd);
      if ok {
        Execute();
        UpdateTimers();
      }
    }

    /** decode: the switch on the opcode's top nibble. The cases are spread
        over helper methods by what they change: the program counter, the
        registers, the framebuffer, or (FX__) the rest. */
    method Decode(rnd: byte) returns (ok: bool)
      requires Valid() && Defined(Abs())
      modifies this, memory, V, gfx, stack
      ensures Valid()
      ensures Reaches(Semantics.Decode(old(Abs()), rnd), ok, old(Abs()), Abs())
    {
      var f := Family(opcode);
      if f == 0x0 {
        ok := DecodeSystem();
      } else if f == 0x1 || f == 0x2 || f == 0xB {
        DecodeJump();
        ok := true;
      } else if f == 0x3 || f == 0x4 || f == 0x5 || f == 0x9 {
        DecodeSkip();
        ok := true;
      } else if f == 0x6 || f == 0x7 || f == 0xA || f == 0xC {
        DecodeLoad(rnd);
        ok := true;
      } else if f == 0x8 {
        ok := DecodeAlu();
      } else if f == 0xD {
        Draw();
        ok := true;
      } else if f == 0xE {
        ok := DecodeKeys();
      } else {
        ok := DecodeMisc();
      }
    }

    /** 1NNN, 2NNN and BNNN. pc is set two short of the target because
        execute adds 2 afterwards. */
    method DecodeJump()
      requires Valid() && StackDefined(Abs())
      requires Family(opcode) == 0x1 || Family(opcode) == 0x2 || Family(opcode) == 0xB
      modifies this`sp, this`pc, stack
      ensures Abs() == Jump(old(Abs()))
    {
      var f, x, nn := Family(opcode), RegX(opcode), Byte(opcode);
      if f == 0x1 {
        pc := Wrap16(Addr(opcode) - 2);
      } else if f == 0x2 {
        stack[sp] := pc;
        sp := sp + 1;
        pc := Wrap16(Addr(opcode) - 2);
        // no break: the 3XNN test follows
        if V[x] == nn {
          pc := Wrap16(pc + 2);
        }
      } else {
        pc := Wrap16(Addr(opcode) + V[0] - 2);
      }
    }

    /** 3XNN, 4XNN, 5XY0 and 9XY0. */
    method DecodeSkip()
      requires Valid()
      requires Family(opcode) == 0x3 || Family(opcode) == 0x4 || Family(opcode) == 0x5 || Family(opcode) == 0x9
      modifies this`pc
      ensures Abs() == Skip(old(Abs()))
    {
      var f, x, y, nn := Family(opcode), RegX(opcode), RegY(opcode), Byte(opcode);
      var skip := if f == 0x3 then V[x] == nn
        else if f == 0x4 then V[x] != nn
        else if f == 0x5 then V[x] == V[y]
        else V[x] != V[y];
      if skip {
        pc := Wrap16(pc + 2);
      }
    }

    /** 6XNN, 7XNN, ANNN and CXNN. */
    method DecodeLoad(rnd: byte)
      requires Valid()
      requires Family(opcode) == 0x6 || Family(opcode) == 0x7 || Family(opcode) == 0xA || Family(opcode) == 0xC
      modifies this`I, V
      ensures Abs() == Assign(old(Abs()), rnd)
    {
      var f, x, nn := Family(opcode), RegX(opcode), Byte(opcode);
      if f == 0x6 {
        V[x] := nn;
      } else if f == 0x7 {
        V[x] := Wrap8(V[x] as int + nn);
      } else if f == 0xA {
        I := Addr(opcode);
      } else {
        V[x] := BitAnd(rnd, nn);
      }
    }

    /** 00E0 (memset of the framebuffer) and 00EE. */
    method DecodeSystem() returns (ok: bool)
      requires Valid() && StackDefined(Abs()) && Family(opcode) == 0
      modifies this`sp, this`pc, this`drawFlag, gfx
      ensures Reaches(System(old(Abs())), ok, old(Abs()), Abs())
    {
      var b := Byte(opcode);
      ok := true;
      if b == 0xE0 {
        forall k | 0 <= k < ScreenCells {
          gfx[k] := 0;
        }
        drawFlag := 1;
        assert gfx[..] == BlankScreen();
      } else if b == 0xEE {
        sp := sp - 1;
        pc := stack[sp];
      } else {
        ok := false;
      }
    }

    /** 8XYn, in the source's order of assignments. */
    method DecodeAlu() returns (ok: bool)
      requires Valid() && Family(opcode) == 8
      modifies V
      ensures var r := Alu(old(V[..]), RegX(opcode), RegY(opcode), Nibble(opcode));
        ok == r.Some? && V[..] == (if ok then r.value else old(V[..]))
    {
      if Nibble(opcode) <= 3 {
        DecodeLogic();
        ok := true;
      } else {
        ok := DecodeArith();
      }
    }

    /** 8XY0 .. 8XY3: copy, or, and, xor. */
    method DecodeLogic()
      requires Valid() && Family(opcode) == 8 && Nibble(opcode) <= 3
      modifies V
      ensures Alu(old(V[..]), RegX(opcode), RegY(opcode), Nibble(opcode)) == Some(V[..])
    {
      var x, y, n := RegX(opcode), RegY(opcode), Nibble(opcode);
      if n == 0 {
        V[x] := V[y];
      } else if n == 1 {
        V[x] := BitOr(V[x], V[y]);
      } else if n == 2 {
        V[x] := BitAnd(V[x], V[y]);
      } else {
        V[x] := BitXor(V[x], V[y]);
      }
    }

    /** 8XY4 .. 8XY7 and 8XYE, which also set VF, and the unknown 8XYn. */
    method DecodeArith() returns (ok: bool)
      requires Valid() && Family(opcode) == 8 && Nibble(opcode) > 3
      modifies V
      ensures var r := Alu(old(V[..]), RegX(opcode), RegY(opcode), Nibble(opcode));
        ok == r.Some? && V[..] == (if ok then r.value else old(V[..]))
    {
      var x, y, n := RegX(opcode), RegY(opcode), Nibble(opcode);
      ok := true;
      if n == 4 {
        V[x] := Wrap8(V[x] as int + V[y]);
        V[VF] := if V[y] > 0xFF - V[x] then 1 else 0;
      } else if n == 5 {
        V[VF] := if V[y] > V[x] then 0 else 1;
        V[x] := Wrap8(V[x] as int - V[y]);
      } else if n == 6 {
        V[VF] := V[x] % 2;
        V[x] := V[x] / 2;
      } else if n == 7 {
        V[VF] := if V[x] > V[y] then 0 else 1;
        V[x] := Wrap8(V[y] as int - V[x]);
      } else if n == 0xE {
        V[VF] := V[x] / 128;
        V[x] := Wrap8(V[x] as int * 2);
      } else {
        ok := false;
      }
    }

    /** DXYN: the outer loop over the sprite's rows. */
    method Draw()
      requires Valid() && Family(opcode) == 0xD && DrawDefined(Abs())
      modifies this`drawFlag, V, gfx
      ensures Abs() == Semantics.Draw(old(Abs()))
    {
      ghost var s := Abs();
      ghost var sprite := SpriteAt(s);
      var vx := V[RegX(opcode)];
      var vy := V[RegY(opcode)];
      var h := Nibble(opcode);
      V[VF] := 0;
      var yl := 0;
      while yl < h
        modifies V, gfx
        invariant 0 <= yl <= h
        invariant gfx[..] == DrawRows(s.gfx, sprite, vx, vy, yl).cells
        invariant V[..] == s.V[VF := if DrawRows(s.gfx, sprite, vx, vy, yl).hit then 1 else 0]
      {
        var pixel := memory[I as int + yl];
        assert pixel == sprite[yl];
        assert RowFits(pixel, PixelIndex(vx, vy, 0, yl));
        DrawRow(pixel, vx, vy, yl, DrawRows(s.gfx, sprite, vx, vy, yl));
        yl := yl + 1;
      }
      drawFlag := 1;
      assert V[..] == Semantics.Draw(s).V;
    }

    /** DXYN: the inner loop over the eight bits of one sprite row, most
        significant first. A set bit XORs its cell with 1 and sets VF when
        the cell was 1. */
    method DrawRow(pixel: byte, vx: byte, vy: byte, yl: nat, ghost before: Canvas)
      requires Valid() && |before.cells| == ScreenCells && RowFits(pixel, PixelIndex(vx, vy, 0, yl))
      requires gfx[..] == before.cells && V[VF] == (if before.hit then 1 else 0)
      modifies V, gfx
      ensures var after := DrawBits(before, pixel, PixelIndex(vx, vy, 0, yl), 8);
        gfx[..] == after.cells && V[..] == old(V[..])[VF := if after.hit then 1 else 0]
    {
      ghost var base := PixelIndex(vx, vy, 0, yl);
      ghost var c := before;
      var xl := 0;
      while xl < 8
        invariant 0 <= xl <= 8
        invariant c == DrawBits(before, pixel, base, xl)
        invariant gfx[..] == c.cells
        invariant V[VF] == (if c.hit then 1 else 0)
        invariant forall j | 0 <= j < RegisterCount && j != VF :: V[j] == old(V[j])
      {
        if SpriteBit(pixel, xl) {
          var k := vx + xl + (vy + yl) * 64;
          assert k == base + xl;
          FlipPixel(k, c);
          c := Flip(c, k);
        }
        xl := xl + 1;
      }
      assert V[..] == old(V[..])[VF := if c.hit then 1 else 0];
    }

    /** The body of the inner loop for a set bit: a cell that is 1 sets VF,
        and the cell is XORed with 1. */
    method FlipPixel(k: nat, ghost c: Canvas)
      requires Valid() && k < ScreenCells && gfx[..] == c.cells && V[VF] == (if c.hit then 1 else 0)
      modifies V, gfx
      ensures gfx[..] == Flip(c, k).cells && V[VF] == (if Flip(c, k).hit then 1 else 0)
      ensures forall j | 0 <= j < RegisterCount && j != VF :: V[j] == old(V[j])
    {
      if gfx[k] == 1 {
        V[VF] := 1;
      }
      gfx[k] := gfx[k] ^ 1;
    }

    /** EX9E and EXA1. */
    method DecodeKeys() returns (ok: bool)
      requires Valid() && KeysDefined(Abs()) && Family(opcode) == 0xE
      modifies this`pc
      ensures Reaches(KeySkip(old(Abs())), ok, old(Abs()), Abs())
    {
      var b, vx := Byte(opcode), V[RegX(opcode)];
      ok := true;
      if b == 0x9E {
        if keys[vx] != 0 {
          pc := Wrap16(pc + 2);
        }
      } else if b == 0xA1 {
        if keys[vx] == 0 {
          pc := Wrap16(pc + 2);
        }
      } else {
        ok := false;
      }
    }

    /** FX__: the cases on VX and the timers, then those on I and memory. */
    method DecodeMisc() returns (ok: bool)
      requires Valid() && BlockDefined(Abs()) && Family(opcode) == 0xF
      modifies this`I, this`delayTimer, this`soundTimer, memory, V
      ensures Reaches(Misc(old(Abs())), ok, old(Abs()), Abs())
    {
      var b := Byte(opcode);
      if b == 0x07 || b == 0x0A || b == 0x15 || b == 0x18 {
        ok := DecodeTimers();
      } else {
        ok := DecodeIndex();
      }
    }

    /** FX07, FX0A, FX15 and FX18. */
    method DecodeTimers() returns (ok: bool)
      requires Valid() && Family(opcode) == 0xF
      modifies this`delayTimer, this`soundTimer, V
      ensures Reaches(MiscTimers(old(Abs())), ok, old(Abs()), Abs())
    {
      var b, x := Byte(opcode), RegX(opcode);
      ok := true;
      if b == 0x07 {
        V[x] := delayTimer;
      } else if b == 0x0A {
        ok := WaitKey();
      } else if b == 0x15 {
        delayTimer := V[x];
      } else if b == 0x18 {
        soundTimer := V[x];
      } else {
        ok := false;
      }
    }

    /** FX1E, FX29, FX33, FX55 and FX65, and the unknown FX__. */
    method DecodeIndex() returns (ok: bool)
      requires Valid() && BlockDefined(Abs()) && Family(opcode) == 0xF
      modifies this`I, memory, V
      ensures Reaches(MiscIndex(old(Abs())), ok, old(Abs()), Abs())
    {
      var b, x := Byte(opcode), RegX(opcode);
      ok := true;
      if b == 0x1E {
        V[VF] := if I + V[x] > 0xFFF then 1 else 0;
        I := Wrap16(I + V[x]);
      } else if b == 0x29 {
        I := V[x] as int * 5;
      } else {
        ok := DecodeBlock();
      }
    }

    /** FX33, FX55 and FX65, and the unknown FX__. */
    method DecodeBlock() returns (ok: bool)
      requires Valid() && BlockDefined(Abs()) && Family(opcode) == 0xF
      modifies this`I, memory, V
      ensures Reaches(MiscBlock(old(Abs())), ok, old(Abs()), Abs())
    {
      var b := Byte(opcode);
      ok := true;
      if b == 0x33 {
        StoreBcd();
      } else if b == 0x55 {
        StoreRegisters();
      } else if b == 0x65 {
        LoadRegisters();
      } else {
        ok := false;
      }
    }

    /** FX0A: scans all 16 keys, storing each pressed key's index in VX; the
        last store, the highest pressed key, is the one that stays. */
    method WaitKey() returns (ok: bool)
      requires Valid() && Family(opcode) == 0xF
      modifies V
      ensures var k := LastPressed(keys[..], KeyCount);
        ok == k.Some? && V[..] == (if ok then old(V[..])[RegX(opcode) := k.value] else old(V[..]))
    {
      var x := RegX(opcode);
      var pressed := false;
      var i := 0;
      while i < KeyCount
        modifies V
        invariant 0 <= i <= KeyCount
        invariant pressed == LastPressed(keys[..], i).Some?
        invariant V[..] == if pressed then old(V[..])[x := LastPressed(keys[..], i).value] else old(V[..])
      {
        if keys[i] != 0 {
          V[x] := i;
          pressed := true;
        }
        i := i + 1;
      }
      ok := pressed;
    }

    /** FX33: the decimal digits of VX to memory[I], memory[I+1], memory[I+2]. */
    method StoreBcd()
      requires Valid() && I + 2 < MemorySize
      modifies memory
      ensures memory[..] == Bcd(old(memory[..]), I, V[RegX(opcode)])
    {
      var vx := V[RegX(opcode)];
      memory[I] := vx / 100;
      memory[I + 1] := vx / 10 % 10;
      memory[I + 2] := vx % 10;
    }

    /** FX55: V0 .. VX to memory[I ..], then I += X + 1. */
    method StoreRegisters()
      requires Valid() && Family(opcode) == 0xF && I + RegX(opcode) < MemorySize
      modifies this`I, memory
      ensures memory[..] == Semantics.StoreRegisters(old(memory[..]), V[..], old(I), RegX(opcode))
      ensures I == Wrap16(old(I) + RegX(opcode) + 1)
    {
      var x := RegX(opcode);
      var i := 0;
      while i <= x
        modifies memory
        invariant 0 <= i <= x + 1
        invariant forall k | 0 <= k < MemorySize ::
          memory[k] == if I <= k < I + i then V[k - I] else old(memory[k])
      {
        memory[I + i] := V[i];
        i := i + 1;
      }
      assert memory[..] == Semantics.StoreRegisters(old(memory[..]), V[..], I, x);
      I := Wrap16(I + x + 1);
    }

    /** FX65: V0 .. VX from memory[I ..], then I += X + 1. */
    method LoadRegisters()
      requires Valid() && Family(opcode) == 0xF && I + RegX(opcode) < MemorySize
      modifies this`I, V
      ensures V[..] == Semantics.LoadRegisters(old(V[..]), memory[..], old(I), RegX(opcode))
      ensures I == Wrap16(old(I) + RegX(opcode) + 1)
    {
      var x := RegX(opcode);
      var i := 0;
      while i <= x
        modifies V
        invariant 0 <= i <= x + 1
        invariant forall j | 0 <= j < RegisterCount :: V[j] == if j < i then memory[I + j] else old(V[j])
      {
        V[i] := memory[I + i];
        i := i + 1;
      }
      assert V[..] == Semantics.LoadRegisters(old(V[..]), memory[..], I, x);
      I := Wrap16(I + x + 1);
    }
  }
}
