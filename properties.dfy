/** What one emulation cycle does, instruction family by instruction family.

    The per-instruction lemmas take a state `s` whose `opcode` has just been
    fetched, and most of them state `Completes(s, rnd, r)`: the decode
    succeeds, and after execute and the timer update the machine is in `r`.
    `Cycle` carries such a statement over to `Semantics.Emulate`. The last
    lemmas run short programs through `Emulate` and state the invariants that
    a cycle keeps. */
module Properties {
  import opened Machine
  import opened Sprite
  import opened Semantics

  /** The rest of a cycle after a successful decode of `d`: pc moves on by 2
      and the timers tick. */
  function Tick(d: State): State {
    UpdateTimers(Execute(d))
  }

  /** Decoding `s` succeeds and the cycle ends in `r`. */
  predicate Completes(s: State, rnd: byte, r: State)
    requires WellFormed(s) && Defined(s)
  {
    Decode(s, rnd).Some? && Tick(Decode(s, rnd).value) == r
  }

  /** A cycle whose fetched opcode completes in `r` ends in `r`. */
  lemma Cycle(s: State, rnd: byte, r: State)
    requires CanStep(s) && Completes(Fetch(s), rnd, r)
    ensures Emulate(s, rnd) == r
  {
  }

  /** Decode stores a jump target t as t - 2 in 16 bits; execute's + 2 gives
      back t. */
  lemma TargetRestored(t: word)
    ensures Wrap16(Wrap16(t - 2) + 2) == t
  {
  }

  /** A skip adds 2 to pc in 16 bits and execute adds 2 more. */
  lemma SkipRestored(p: word)
    ensures Wrap16(Wrap16(p + 2) + 2) == (p + 4) % 0x1_0000
  {
  }

  // ---------------------------------------------------------------- failing decodes

  /** An unknown opcode is fetched and nothing else happens: pc and the
      timers stay, so the same opcode comes back on the next cycle. */
  lemma UnknownOpcodeStalls(s: State, rnd: byte)
    requires CanStep(s) && !KnownOpcode(Fetch(s).opcode)
    ensures Emulate(s, rnd) == s.(opcode := Fetch(s).opcode)
  {
  }

  /** FX0A with every key up is a fixed point of the cycle: the machine spins
      on it, timers frozen, until a key goes down. */
  lemma {:induction false} WaitingSpins(s: State, rnd: byte, rnd': byte)
    requires CanStep(s) && WaitsForKey(Fetch(s))
    ensures Emulate(s, rnd) == s.(opcode := Fetch(s).opcode)
    ensures CanStep(Emulate(s, rnd)) && Emulate(Emulate(s, rnd), rnd') == Emulate(s, rnd)
  {
    var t := Emulate(s, rnd);
    assert t == Fetch(s);
    assert Fetch(t) == t;
  }

  /** FX0A with a key down stores the highest-numbered key that is down in
      VX, and changes nothing else. */
  lemma WaitKeyTakesHighest(s: State, rnd: byte)
    requires WellFormed(s) && Defined(s) && Family(s.opcode) == 0xF && Byte(s.opcode) == 0x0A
    requires exists k | 0 <= k < KeyCount :: s.keys[k] != 0
    ensures Decode(s, rnd).Some?
    ensures var r, x := Decode(s, rnd).value, RegX(s.opcode);
      && r.V[x] < KeyCount && s.keys[r.V[x]] != 0
      && (forall j | r.V[x] < j < KeyCount :: s.keys[j] == 0)
      && r == s.(V := s.V[x := r.V[x]])
  {
    var k := LastPressed(s.keys, KeyCount);
    assert k.Some?;
    assert Decode(s, rnd) == Some(s.(V := s.V[RegX(s.opcode) := k.value]));
  }

  // ---------------------------------------------------------------- control flow

  /** 1NNN: the next opcode is fetched from NNN. */
  lemma JumpLands(s: State, rnd: byte)
    requires WellFormed(s) && Defined(s) && Family(s.opcode) == 0x1
    ensures Completes(s, rnd, UpdateTimers(s.(pc := Addr(s.opcode))))
  {
    assert Decode(s, rnd) == Some(s.(pc := Wrap16(Addr(s.opcode) - 2)));
    TargetRestored(Addr(s.opcode));
  }

  /** BNNN: the next opcode is fetched from NNN + V0 (which can lie past the
      end of memory; nothing checks it). */
  lemma JumpOffsetLands(s: State, rnd: byte)
    requires WellFormed(s) && Defined(s) && Family(s.opcode) == 0xB
    ensures Completes(s, rnd, UpdateTimers(s.(pc := Addr(s.opcode) + s.V[0])))
  {
    assert Decode(s, rnd) == Some(s.(pc := Wrap16(Addr(s.opcode) + s.V[0] - 2)));
    TargetRestored(Addr(s.opcode) + s.V[0]);
  }

  /** 2NNN pushes the address of the call and continues at NNN, except that
      it continues at NNN + 2 when VX happens to equal NN (the 3XNN test that
      the call falls through into). */
  lemma CallLands(s: State, rnd: byte)
    requires WellFormed(s) && Defined(s) && Family(s.opcode) == 0x2
    ensures var op := s.opcode;
      var target := Addr(op) + if s.V[RegX(op)] == Byte(op) then 2 else 0;
      Completes(s, rnd, UpdateTimers(s.(stack := s.stack[s.sp := s.pc], sp := s.sp + 1, pc := target)))
  {
    var op := s.opcode;
    var target := Addr(op) + if s.V[RegX(op)] == Byte(op) then 2 else 0;
    assert Decode(s, rnd) == Some(Call(s));
    CallTarget(s);
    TargetRestored(target);
  }

  /** The call's own effect, before execute adds 2: the push, then NNN - 2,
      or NNN when the fall-through test skips. */
  lemma CallTarget(s: State)
    requires WellFormed(s) && s.sp < StackDepth
    ensures var op := s.opcode;
      var target := Addr(op) + if s.V[RegX(op)] == Byte(op) then 2 else 0;
      Call(s) == s.(stack := s.stack[s.sp := s.pc], sp := s.sp + 1, pc := Wrap16(target - 2))
  {
  }

  /** 00EE pops the address of the call and continues after it. */
  lemma ReturnLands(s: State, rnd: byte)
    requires WellFormed(s) && Defined(s) && Family(s.opcode) == 0 && Byte(s.opcode) == 0xEE
    ensures Completes(s, rnd, UpdateTimers(s.(sp := s.sp - 1, pc := (s.stack[s.sp - 1] as int + 2) % 0x1_0000)))
  {
    assert Decode(s, rnd) == Some(s.(sp := s.sp - 1, pc := s.stack[s.sp - 1]));
  }

  /** 3XNN, 4XNN, 5XY0 and 9XY0 move pc on by 4 when their condition holds and
      by 2 otherwise; nothing else changes but the timers. */
  lemma SkipLands(s: State, rnd: byte)
    requires WellFormed(s) && Defined(s)
    requires var f := Family(s.opcode); f == 0x3 || f == 0x4 || f == 0x5 || f == 0x9
    ensures var op := s.opcode;
      var vx, vy, nn := s.V[RegX(op)], s.V[RegY(op)], Byte(op);
      var taken := match Family(op)
        case 0x3 => vx == nn
        case 0x4 => vx != nn
        case 0x5 => vx == vy
        case _ => vx != vy;
      Completes(s, rnd, UpdateTimers(s.(pc := (s.pc + if taken then 4 else 2) % 0x1_0000)))
  {
    assert Decode(s, rnd) == Some(Skip(s));
    SkipRestored(s.pc);
  }

  /** EX9E skips when key VX is down, EXA1 when it is up. */
  lemma KeySkipLands(s: State, rnd: byte)
    requires WellFormed(s) && Defined(s) && Family(s.opcode) == 0xE
    requires Byte(s.opcode) == 0x9E || Byte(s.opcode) == 0xA1
    ensures var op := s.opcode;
      var down := s.keys[s.V[RegX(op)]] != 0;
      var taken := if Byte(op) == 0x9E then down else !down;
      Completes(s, rnd, UpdateTimers(s.(pc := (s.pc + if taken then 4 else 2) % 0x1_0000)))
  {
    assert Decode(s, rnd) == KeySkip(s);
    SkipRestored(s.pc);
  }

  /** 6XNN sets VX to NN, 7XNN adds NN to VX modulo 256 (and so to VF
      itself when X is F, with no flag otherwise), ANNN sets I to NNN, CXNN
      sets VX to rnd & NN. */
  lemma AssignLands(s: State, rnd: byte)
    requires WellFormed(s) && Defined(s)
    requires var f := Family(s.opcode); f == 0x6 || f == 0x7 || f == 0xA || f == 0xC
    ensures var op := s.opcode;
      var x, nn := RegX(op), Byte(op);
      var d := match Family(op)
        case 0x6 => s.(V := s.V[x := nn])
        case 0x7 => s.(V := s.V[x := (s.V[x] as int + nn) % 256])
        case 0xA => s.(I := Addr(op))
        case _ => s.(V := s.V[x := BitAnd(rnd, nn)]);
      Completes(s, rnd, Tick(d))
  {
    assert Decode(s, rnd) == Some(Assign(s, rnd));
  }

  /** A call to a subroutine whose first instruction is 00EE comes back, two
      cycles later, to the instruction after the call with sp
      restored (when the fall-through test does not skip the 00EE). */
  lemma {:induction false} CallReturnRoundTrip(s: State, rnd: byte, rnd': byte)
    requires CanStep(s) && Family(Fetch(s).opcode) == 0x2
    requires var op := Fetch(s).opcode;
      && s.V[RegX(op)] != Byte(op)
      && Addr(op) + 1 < MemorySize && s.memory[Addr(op)] == 0x00 && s.memory[Addr(op) + 1] == 0xEE
    ensures CanStep(Emulate(s, rnd))
    ensures var t := Emulate(Emulate(s, rnd), rnd');
      t.pc == (s.pc + 2) % 0x1_0000 && t.sp == s.sp && t.memory == s.memory && t.V == s.V && t.I == s.I
  {
    var f := Fetch(s);
    CallLands(f, rnd);
    var m := UpdateTimers(f.(stack := f.stack[f.sp := f.pc], sp := f.sp + 1, pc := Addr(f.opcode)));
    Cycle(s, rnd, m);
    var g := Fetch(m);
    assert g.opcode == 0x00EE;
    ReturnLands(g, rnd');
    Cycle(m, rnd', UpdateTimers(g.(sp := g.sp - 1, pc := (g.stack[g.sp - 1] as int + 2) % 0x1_0000)));
  }

  // ---------------------------------------------------------------- timers

  /** FX15 and FX18 load a timer from VX, and the timer update of the same
      cycle already counts it down once. */
  lemma TimerSetTicks(s: State, rnd: byte)
    requires WellFormed(s) && Defined(s) && Family(s.opcode) == 0xF
    requires Byte(s.opcode) == 0x15 || Byte(s.opcode) == 0x18
    ensures var v := s.V[RegX(s.opcode)];
      var loaded := if v == 0 then 0 else v - 1;
      var pc := (s.pc + 2) % 0x1_0000;
      && (Byte(s.opcode) == 0x15 ==> Completes(s, rnd, UpdateTimers(s).(pc := pc, delayTimer := loaded)))
      && (Byte(s.opcode) == 0x18 ==> Completes(s, rnd, UpdateTimers(s).(pc := pc, soundTimer := loaded)))
  {
    assert Decode(s, rnd) == MiscTimers(s);
  }

  /** FX07 copies the delay timer as it was before this cycle's tick. */
  lemma TimerRead(s: State, rnd: byte)
    requires WellFormed(s) && Defined(s) && Family(s.opcode) == 0xF && Byte(s.opcode) == 0x07
    ensures Completes(s, rnd, UpdateTimers(s.(V := s.V[RegX(s.opcode) := s.delayTimer], pc := (s.pc + 2) % 0x1_0000)))
  {
    assert Decode(s, rnd) == MiscTimers(s);
  }

  // ---------------------------------------------------------------- screen

  /** 00E0 blanks the framebuffer and asks for a redraw. */
  lemma ClearScreenStep(s: State, rnd: byte)
    requires WellFormed(s) && Defined(s) && Family(s.opcode) == 0 && Byte(s.opcode) == 0xE0
    ensures Decode(s, rnd).Some?
    ensures var r := Decode(s, rnd).value;
      && (forall k | 0 <= k < ScreenCells :: r.gfx[k] == 0)
      && r == s.(gfx := r.gfx, drawFlag := 1)
  {
    assert Decode(s, rnd) == System(s);
  }

  /** DXYN XORs the sprite at memory[I .. I+N) onto the screen at (VX, VY),
      sets VF exactly when a lit pixel was switched off, asks for a redraw
      and changes nothing else. */
  lemma DrawStep(s: State, rnd: byte)
    requires WellFormed(s) && Defined(s) && Family(s.opcode) == 0xD
    ensures Decode(s, rnd).Some?
    ensures var sprite, vx, vy := SpriteAt(s), s.V[RegX(s.opcode)], s.V[RegY(s.opcode)];
      var r := Decode(s, rnd).value;
      && r.gfx == Overlay(s.gfx, sprite, vx, vy)
      && (r.V[VF] == 1 <==> Collides(s.gfx, sprite, vx, vy, |sprite|))
      && (r.V[VF] == 0 <==> !Collides(s.gfx, sprite, vx, vy, |sprite|))
      && r == s.(gfx := r.gfx, V := s.V[VF := r.V[VF]], drawFlag := 1)
  {
    assert Decode(s, rnd) == Some(Draw(s));
    DrawMatchesOverlay(s.gfx, SpriteAt(s), s.V[RegX(s.opcode)], s.V[RegY(s.opcode)]);
  }

  /** Only 00E0 and DXYN touch the framebuffer. */
  lemma GfxOnlyByDraw(s: State, rnd: byte)
    requires WellFormed(s) && Defined(s) && Decode(s, rnd).Some?
    requires Family(s.opcode) != 0xD && !(Family(s.opcode) == 0 && Byte(s.opcode) == 0xE0)
    ensures Decode(s, rnd).value.gfx == s.gfx
  {
    if Family(s.opcode) == 0xF {
      assert Decode(s, rnd) == Misc(s);
    }
  }

  /** A framebuffer holding only 0s and 1s still does after any cycle. */
  lemma {:induction false} CycleKeepsBinary(s: State, rnd: byte)
    requires CanStep(s) && Binary(s.gfx)
    ensures Binary(Emulate(s, rnd).gfx)
  {
    var f := Fetch(s);
    if Decode(f, rnd).Some? {
      var d := Decode(f, rnd).value;
      Cycle(s, rnd, Tick(d));
      if Family(f.opcode) == 0xD {
        DrawStep(f, rnd);
        DrawKeepsBinary(f.gfx, SpriteAt(f), f.V[RegX(f.opcode)], f.V[RegY(f.opcode)]);
      } else if Family(f.opcode) == 0 && Byte(f.opcode) == 0xE0 {
        ClearScreenStep(f, rnd);
      } else {
        GfxOnlyByDraw(f, rnd);
      }
    }
  }

  // ---------------------------------------------------------------- stack

  /** The only instructions that move sp are 2NNN and 00EE,
      by one step each. */
  lemma StackMoves(s: State, rnd: byte)
    requires WellFormed(s) && Defined(s) && Decode(s, rnd).Some?
    ensures var sp := Decode(s, rnd).value.sp;
      && (Family(s.opcode) == 0x2 ==> sp == s.sp + 1)
      && (Family(s.opcode) == 0 && Byte(s.opcode) == 0xEE ==> sp == s.sp - 1)
      && (Family(s.opcode) != 0x2 && !(Family(s.opcode) == 0 && Byte(s.opcode) == 0xEE) ==> sp == s.sp)
  {
    if Family(s.opcode) == 0xF {
      assert Decode(s, rnd) == Misc(s);
    }
  }

  /** sp stays within the stack's 16 entries. */
  lemma {:induction false} CycleKeepsStackBound(s: State, rnd: byte)
    requires CanStep(s) && s.sp <= StackDepth
    ensures Emulate(s, rnd).sp <= StackDepth
  {
    var f := Fetch(s);
    if Decode(f, rnd).Some? {
      Cycle(s, rnd, Tick(Decode(f, rnd).value));
      StackMoves(f, rnd);
    }
  }

  // ---------------------------------------------------------------- index register and memory

  /** FX1E adds VX to I modulo 2^16 and sets VF to whether the sum passes
      0xFFF; with X = F it is the flag just written that gets added. */
  lemma AddIndexFlag(s: State, rnd: byte)
    requires WellFormed(s) && Defined(s) && Family(s.opcode) == 0xF && Byte(s.opcode) == 0x1E
    ensures var x := RegX(s.opcode);
      var flag := if s.I + s.V[x] > 0xFFF then 1 else 0;
      Decode(s, rnd) == Some(s.(V := s.V[VF := flag], I := (s.I + if x == VF then flag else s.V[x]) % 0x1_0000))
  {
    assert Decode(s, rnd) == MiscIndex(s);
  }

  /** FX29 points I at the five-byte glyph of hex digit VX; while the font
      at the bottom of memory is intact, memory there holds that glyph. */
  lemma GlyphAddress(s: State, rnd: byte)
    requires WellFormed(s) && Defined(s) && Family(s.opcode) == 0xF && Byte(s.opcode) == 0x29
    ensures Decode(s, rnd) == Some(s.(I := s.V[RegX(s.opcode)] as int * 5))
    ensures var d := s.V[RegX(s.opcode)];
      s.memory[..|Font|] == Font && d < 16 ==> s.memory[5 * d..5 * d + 5] == Font[5 * d..5 * d + 5]
  {
    assert Decode(s, rnd) == MiscIndex(s);
    var d := s.V[RegX(s.opcode)];
    if s.memory[..|Font|] == Font && d < 16 {
      assert s.memory[5 * d..5 * d + 5] == s.memory[..|Font|][5 * d..5 * d + 5];
    }
  }

  /** FX33 with VX = 157 stores the digits 1, 5, 7 at I. */
  lemma BcdOf157(memory: seq<byte>, at: nat)
    requires at + 3 <= |memory|
    ensures Bcd(memory, at, 157)[at..at + 3] == [1, 5, 7]
  {
  }

  /** FX55 and FX65 move I past the X + 1 bytes they access (the access is
      inside memory, so the 16-bit sum does not wrap). */
  lemma BlockAdvancesIndex(s: State, rnd: byte)
    requires WellFormed(s) && Defined(s) && Family(s.opcode) == 0xF
    requires Byte(s.opcode) == 0x55 || Byte(s.opcode) == 0x65
    ensures Decode(s, rnd).Some? && Decode(s, rnd).value.I == s.I + RegX(s.opcode) + 1
  {
    assert Decode(s, rnd) == MiscBlock(s) by {
      assert Decode(s, rnd) == MiscIndex(s);
    }
  }

  /** Registers stored by FX55 and loaded back by FX65 from the same address
      come back unchanged. */
  lemma {:induction false} StoreLoadRoundTrip(memory: seq<byte>, V: seq<byte>, at: nat, x: nat)
    requires at + x < |memory| && x < |V|
    ensures LoadRegisters(V, StoreRegisters(memory, V, at, x), at, x) == V
  {
    var m := StoreRegisters(memory, V, at, x);
    StoreRegistersAt(memory, V, at, x);
    LoadRegistersAt(V, m, at, x);
  }

  // ---------------------------------------------------------------- programs

  /** The two instructions 60 0A, 70 FF: V0 := 10, then V0 += 255, leaving
      9 (the sum wraps) with VF untouched, since 7XNN sets no flag. */
  lemma {:induction false} LoadThenAdd(s: State, rnd: byte, rnd': byte)
    requires WellFormed(s) && s.pc + 3 < MemorySize
    requires s.memory[s.pc..s.pc + 4] == [0x60, 0x0A, 0x70, 0xFF]
    ensures CanStep(Emulate(s, rnd))
    ensures var r := Emulate(Emulate(s, rnd), rnd');
      r.V == s.V[0 := 9] && r.pc == s.pc + 4 && r.I == s.I && r.memory == s.memory
  {
    var code := s.memory[s.pc..s.pc + 4];
    assert s.memory[s.pc] == code[0] == 0x60 && s.memory[s.pc + 1] == code[1] == 0x0A;
    assert s.memory[s.pc + 2] == code[2] == 0x70 && s.memory[s.pc + 3] == code[3] == 0xFF;
    RunRegisterOp(s, rnd);
    var m := Emulate(s, rnd);
    assert m.V == s.V[0 := 10] && m.pc == s.pc + 2 && m.memory == s.memory;
    assert m.memory[m.pc] == 0x70 && m.memory[m.pc + 1] == 0xFF;
    RunRegisterOp(m, rnd');
    assert m.V[0 := (10 + 0xFF) % 256] == s.V[0 := 9];
  }

  /** One cycle of a 6XNN or 7XNN fetched at pc: VX is set to, or increased
      by, NN; pc moves on by 2; I, memory and the other registers stay. */
  lemma RunRegisterOp(s: State, rnd: byte)
    requires WellFormed(s) && s.pc + 1 < MemorySize
    requires s.memory[s.pc] / 16 == 0x6 || s.memory[s.pc] / 16 == 0x7
    ensures CanStep(s) && var x, nn, r := s.memory[s.pc] % 16, s.memory[s.pc + 1], Emulate(s, rnd);
      && r.V == s.V[x := if s.memory[s.pc] / 16 == 0x6 then nn else (s.V[x] as int + nn) % 256]
      && r.pc == s.pc + 2 && r.I == s.I && r.memory == s.memory
  {
    var f := Fetch(s);
    assert Family(f.opcode) == 0x6 || Family(f.opcode) == 0x7;
    assert Defined(f);
    AssignLands(f, rnd);
    var x, nn := RegX(f.opcode), Byte(f.opcode);
    if Family(f.opcode) == 0x6 {
      Cycle(s, rnd, Tick(f.(V := f.V[x := nn])));
    } else {
      Cycle(s, rnd, Tick(f.(V := f.V[x := (f.V[x] as int + nn) % 256])));
    }
  }
}
