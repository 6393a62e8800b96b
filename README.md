# CHIP-8 interpreter core in Dafny

A model of the fetch-decode-execute core of a small CHIP-8 interpreter written
in C, with the properties of each instruction proved. The repository holds two
near-identical copies of the core: `chip8.c` and `src/chip8.c`. They differ
only in the failure codes of `decode` and `load`, and in `src/chip8.c`
splitting the cycle into `fetch`, `decode`, `execute` and `update_timers`.
One model covers both.

## Layout

- `machine.dfy` (module `Machine`). The machine state as a value
  (`State`), with the sizes, constants and the 80-byte font of the C struct
  and of `chip8_init`. It also holds the opcode fields (family, X, Y, N, NN,
  NNN). `uint8_t` and `uint16_t` are the subset types `byte` and `word`;
  every C assignment that truncates is written out as `Wrap8`/`Wrap16`.
- `sprite.dfy` (module `Sprite`). The DXYN blitter as functions on a
  framebuffer:
  - `DrawBits` is the loop over one sprite row;
  - `DrawRows` is the loop over the rows;
  - `Overlay` and `Collides` are a reference definition (the XOR image and
    the collision flag) that the loops are proved equal to.
- `alu.dfy` (module `Arith`). The 8XYn register instructions, with every
  assignment in the source's order.
- `semantics.dfy` (module `Semantics`). What each operation does to a
  `State`:
  - `InitState`, `LoadRom`, `Fetch`, `Execute`, `UpdateTimers` and `Emulate`;
  - `Decode`, with one function per instruction family.

  `Decode` returns `None` exactly where the C code returns its failure code.
  The C code changes nothing before it fails.
- `interpreter.dfy` (module `Interpreter`). The class `Chip8`: the C struct,
  with `memory`, `V`, `gfx`, `keys` and `stack` as arrays and the scalar
  fields as mutable fields.
  - Its methods are the C functions, loops included (the font copy, the ROM
    copy, the DXYN row and bit loops, the FX0A key scan and the FX55/FX65
    copies).
  - `Init`, `Fetch`, `Execute`, `UpdateTimers`, `Emulate`, `Decode` and the
    per-family decode methods are proved to take the abstract state `Abs()`
    to what the matching `Semantics` function computes. The helpers
    (`Load`, `ClearArrays`, `ResetMemory`, `DecodeAlu` and its two halves,
    `DrawRow`, `FlipPixel`, `WaitKey`, `StoreBcd`, `StoreRegisters`,
    `LoadRegisters`) are specified on the arrays they modify, and their
    `modifies` frames keep the rest.
- `properties.dfy` (module `Properties`). The properties of a cycle, one
  instruction family at a time:
  - where each jump, call, return and skip lands;
  - the effect on the timers;
  - what a draw does, and the round trip between FX55 and FX65;
  - that unknown opcodes and FX0A with no key down stall;
  - two short programs;
  - two invariants: sp stays within the 16-entry stack, and the
    framebuffer stays 0/1.

## The code's behaviour, as written

The model follows the C code, including where it departs from the usual
CHIP-8 description:

- **2NNN has no `break`.** After pushing pc and jumping to NNN - 2, it runs
  the 3XNN test on its own opcode, so a call continues at NNN + 2 whenever
  VX == NN (`Semantics.Call`, `Properties.CallLands`).
- **8XY4 flag.** 8XY4 sets VF by comparing VY with 255 minus the *updated*
  VX. That is not the carry: 100 + 100 sets it and 200 + 100 clears it
  (`Arith.AddFlagIsNotCarry`).
- **VF is written first.** 8XY5, 8XY6, 8XY7, 8XYE and FX1E write VF before
  they read their operands again, which matters when X or Y is F
  (`Arith.FlagAsDestination`, `Arith.FlagAsOperand`,
  `Properties.AddIndexFlag`).
- **FX0A and the keypad.** FX0A scans keys 0 to 15 and keeps the last one
  that is down, i.e. the highest. With no key down, decode fails and the
  same opcode is fetched again (`Properties.WaitingSpins`).
- **Family 0 opcodes.** These are matched on their low byte only, so 0x0BE0
  also clears the screen.
- **ROM size.** A ROM is loaded only when it is strictly shorter than
  4096 - 512 = 3584 bytes. A 3584-byte ROM would exactly fill
  0x200..0xFFF, yet the strict `<` (`romload` at chip8.c:127 and `load` at
  src/chip8.c:84) rejects it, and so does the model.
- **Unknown opcodes.** They make `decode` fail. `emulate` then skips
  execute and the timers, and the host loop calls it again, so the machine
  stalls on the opcode without halting (`Properties.UnknownOpcodeStalls`).
- **`chip8_init` and the draw flag.** `chip8_init` does not reset the draw
  flag, so `InitState` keeps it.
- **Return codes.** `decode`'s return code (0/1 in chip8.c, -1/1 in
  src/chip8.c) and `load`'s result are modelled as a boolean. `romload` in
  chip8.c exits through `die` instead of returning; the model returns
  `false` and leaves memory as it was, as src/chip8.c does.

## Model

| member | source | states |
|---|---|---|
| Sprite.DrawBitsAt | chip8.c:255-260 | after one sprite row, a cell is flipped exactly when it lies under a set bit of the row (most significant bit leftmost); every other cell keeps its value |
| Sprite.DrawBitsHit | chip8.c:256-258 | one row reports a collision exactly when the flag was already set or some set bit lands on a cell that was 1 |
| Sprite.DrawRowsAt | chip8.c:253-262 | after N rows, a cell is flipped exactly when the sprite covers it; cells outside the sprite do not change |
| Sprite.DrawRowsHit | chip8.c:252-262 | after N rows the collision flag is set exactly when some covered cell was 1 before the draw |
| Sprite.DrawMatchesOverlay | chip8.c:245-264 | the nested loops compute the XOR image of the sprite, and their flag is the collision predicate |
| Sprite.DrawTwiceRestores | chip8.c:253-262 | drawing the same sprite twice at the same place gives back the original framebuffer |
| Sprite.RedrawCollides | chip8.c:256-258 | the second of two identical draws collides exactly when some covered cell was 0 before the first |
| Sprite.DrawOnBlank | chip8.c:252-262 | drawing on a blank screen never collides and lights exactly the covered cells |
| Sprite.DrawKeepsBinary | chip8.c:257-259 | XOR with 1 keeps a framebuffer of 0s and 1s made of 0s and 1s |
| Arith.Alu | chip8.c:193-231 | 8XYn is known exactly for n in 0..7 and E; only VX and VF can change, and the bitwise ones leave VF alone when X is not F |
| Arith.AddFlagFromUpdatedSum | chip8.c:207-209 | 8XY4 (X not F, any Y) stores (VX + VY) mod 256; VF is 1 exactly when VY, read again after the sum, exceeds 255 - new VX: for X = Y that is the new VX being at least 128, otherwise VX + 2·VY passing 255 (no wrap) or 511 (wrap) |
| Arith.AddFlagIsNotCarry | chip8.c:207-209 | 100 + 100 leaves VF = 1 and 200 + 100 leaves VF = 0, the opposite of a carry flag |
| Arith.SubBorrow | chip8.c:211-213 | 8XY5: VX becomes VX - VY mod 256 and VF is 0 exactly on a borrow |
| Arith.ReverseSubBorrow | chip8.c:219-221 | 8XY7: VX becomes VY - VX mod 256 and VF is 0 exactly on a borrow |
| Arith.Shifts | chip8.c:215-226 | 8XY6 and 8XYE shift VX by one bit and put the bit shifted out in VF; VY plays no part |
| Arith.FlagAsDestination | chip8.c:207-226 | with X = F the sum or difference is overwritten by the flag, or the flag written first by the result: 8FY4 leaves only the flag of the sum, 8FY5 leaves flag - VY, 8FY7 leaves VY - flag, 8FY6 leaves 0, 8FYE twice the old top bit |
| Arith.FlagAsOperand | chip8.c:211-222 | with Y = F the flag written first is read back as the operand: 8XF5 leaves VX - flag, 8XF7 leaves flag - VX, and VF keeps the flag |
| Semantics.InitStateContents | chip8.c:93-105 | after init pc = 0x200; I, sp, opcode and the timers are 0; memory starts with the font and is zero elsewhere; V, keys, stack and gfx are zero |
| Semantics.LoadRom | chip8.c:127-131 | a ROM is accepted exactly when it is shorter than 3584 bytes |
| Semantics.LoadRomContents | src/chip8.c:84-86 | an accepted ROM sits at memory[0x200 + i] and every other byte of memory is kept |
| Semantics.Fetch | src/chip8.c:112-116 | only the opcode changes; its high byte (family and X) is memory[pc] and its low byte memory[pc + 1] |
| Semantics.Execute | src/chip8.c:322-326 | only pc changes, to pc + 2 mod 2^16 |
| Semantics.UpdateTimers | chip8.c:339-346 | each nonzero timer drops by one, a zero timer stays zero, nothing else changes |
| Semantics.LastPressed | chip8.c:286-296 | the key FX0A stores is down and no higher key is down; there is none exactly when every key is up |
| Semantics.BcdDigits | chip8.c:312-316 | FX33 writes three decimal digits that spell VX and changes no other byte |
| Semantics.StoreRegistersAt | chip8.c:317-320 | FX55 writes V0..VX to memory[I..I+X] and nothing else |
| Semantics.LoadRegistersAt | chip8.c:322-325 | FX65 loads V0..VX from memory[I..I+X] and keeps the other registers |
| Semantics.Decode | chip8.c:149-337 | decode fails exactly for an unknown opcode or FX0A with every key up; on success the array sizes are kept |
| Interpreter.Chip8.Init | chip8.c:71-106 | the struct after chip8_init is `InitState` (fields, memsets and the font loop) |
| Interpreter.Chip8.ClearArrays | chip8.c:99-102 | V, keys, stack and gfx are all zero |
| Interpreter.Chip8.ResetMemory | chip8.c:103-105 | memory is the font followed by zeros |
| Interpreter.Chip8.Load | src/chip8.c:83-95 | the copy loop runs and succeeds exactly when the ROM is shorter than 3584 bytes, giving `LoadRom`; otherwise memory is untouched |
| Interpreter.Chip8.Fetch | src/chip8.c:112-116 | the opcode field becomes the big-endian word at pc (`Semantics.Fetch`) |
| Interpreter.Chip8.Execute | src/chip8.c:322-326 | pc advances by 2 in 16 bits (`Semantics.Execute`) |
| Interpreter.Chip8.UpdateTimers | src/chip8.c:328-333 | the saturating decrement of both timers (`Semantics.UpdateTimers`) |
| Interpreter.Chip8.Emulate | chip8.c:137-147 | one cycle: fetch; on a successful decode, execute and update the timers (`Semantics.Emulate`) |
| Interpreter.Chip8.Decode | src/chip8.c:118-320 | the switch succeeds exactly when `Semantics.Decode` does, and then leaves its state; on failure nothing changes |
| Interpreter.Chip8.DecodeSystem | chip8.c:155-168 | 00E0 clears gfx and sets the draw flag, 00EE pops pc, any other 0NNN fails (`Semantics.System`) |
| Interpreter.Chip8.DecodeJump | chip8.c:169-178 | 1NNN, 2NNN with its fall-through into the 3XNN test, and BNNN at chip8.c:239-241 (`Semantics.Jump`) |
| Interpreter.Chip8.DecodeSkip | chip8.c:175-186 | 3XNN, 4XNN, 5XY0, and 9XY0 at chip8.c:232-235 (`Semantics.Skip`) |
| Interpreter.Chip8.DecodeLoad | chip8.c:187-192 | 6XNN, 7XNN, ANNN and CXNN with the random byte as a parameter (`Semantics.Assign`) |
| Interpreter.Chip8.DecodeAlu | chip8.c:193-231 | the 8XYn switch computes `Arith.Alu` and fails on an unknown n without changing anything |
| Interpreter.Chip8.DecodeLogic | chip8.c:195-206 | 8XY0..8XY3 compute `Arith.Alu` |
| Interpreter.Chip8.DecodeArith | chip8.c:207-230 | 8XY4..8XY7 and 8XYE compute `Arith.Alu`, assignments in order, and the default case fails |
| Interpreter.Chip8.Draw | chip8.c:245-264 | the row loop leaves gfx, VF and the draw flag as `Semantics.Draw` |
| Interpreter.Chip8.DrawRow | chip8.c:254-261 | the bit loop over one row leaves gfx and VF as `Sprite.DrawBits` and keeps the other registers |
| Interpreter.Chip8.FlipPixel | chip8.c:256-260 | one set bit: VF is set if the cell was 1, then the cell is XORed with 1 (`Sprite.Flip`) |
| Interpreter.Chip8.DecodeKeys | chip8.c:266-280 | EX9E and EXA1 skip on the key in VX, any other EXNN fails (`Semantics.KeySkip`) |
| Interpreter.Chip8.DecodeMisc | chip8.c:281-331 | the FXNN switch (`Semantics.Misc`) |
| Interpreter.Chip8.DecodeTimers | chip8.c:283-304 | FX07, FX0A, FX15 and FX18 (`Semantics.MiscTimers`) |
| Interpreter.Chip8.DecodeIndex | chip8.c:305-311 | FX1E and FX29, then the block operations (`Semantics.MiscIndex`) |
| Interpreter.Chip8.DecodeBlock | chip8.c:312-330 | FX33, FX55, FX65, and failure for any other FXNN (`Semantics.MiscBlock`) |
| Interpreter.Chip8.WaitKey | chip8.c:286-297 | the key loop stores `LastPressed` in VX and reports whether some key was down; nothing changes when none is |
| Interpreter.Chip8.StoreBcd | chip8.c:312-316 | memory becomes `Semantics.Bcd` of VX at I |
| Interpreter.Chip8.StoreRegisters | chip8.c:317-321 | the copy loop gives `Semantics.StoreRegisters` and I advances by X + 1 |
| Interpreter.Chip8.LoadRegisters | chip8.c:322-326 | the copy loop gives `Semantics.LoadRegisters` and I advances by X + 1 |
| Properties.Cycle | chip8.c:140-144 | a cycle whose fetched opcode decodes successfully ends with pc + 2 and the timers ticked |
| Properties.UnknownOpcodeStalls | src/chip8.c:98-106 | an unknown opcode changes nothing but the opcode register: pc and the timers stay |
| Properties.WaitingSpins | chip8.c:286-296 | FX0A with every key up is a fixed point of the cycle |
| Properties.WaitKeyTakesHighest | src/chip8.c:266-279 | FX0A with a key down sets VX to the highest key that is down and changes nothing else |
| Properties.JumpLands | chip8.c:169-171 | 1NNN: the next fetch is at NNN, timers ticked, nothing else changed |
| Properties.JumpOffsetLands | chip8.c:239-241 | BNNN: the next fetch is at NNN + V0 |
| Properties.CallTarget | chip8.c:172-178 | 2NNN pushes pc and sets pc to NNN - 2, or NNN when VX == NN |
| Properties.CallLands | chip8.c:172-178 | 2NNN pushes the caller's pc, increments sp and continues at NNN, or at NNN + 2 when VX == NN |
| Properties.ReturnLands | chip8.c:161-163 | 00EE decrements sp and continues 2 past the popped address |
| Properties.CallReturnRoundTrip | chip8.c:161-178 | when VX != NN (so the 2NNN fall-through does not skip the 00EE), calling a subroutine that starts with 00EE resumes after the call with sp, registers, I and memory restored |
| Properties.SkipLands | src/chip8.c:145-153 | 3XNN, 4XNN, 5XY0, and 9XY0 at src/chip8.c:200-202, add 4 to pc when their condition holds and 2 otherwise, changing nothing else |
| Properties.KeySkipLands | src/chip8.c:246-254 | EX9E skips when key VX is down, EXA1 when it is up |
| Properties.AssignLands | src/chip8.c:154-159 | 6XNN sets VX, 7XNN adds NN to VX mod 256 (to VF itself when X is F, with no flag otherwise), and at src/chip8.c:203-211 ANNN sets I and CXNN sets VX to rnd & NN |
| Properties.TimerSetTicks | chip8.c:299-304 | FX15/FX18 load the timer from VX and the same cycle already decrements it |
| Properties.TimerRead | chip8.c:283-285 | FX07 copies the delay timer as it was before this cycle's decrement |
| Properties.ClearScreenStep | chip8.c:157-160 | 00E0 zeroes every framebuffer cell and sets the draw flag, nothing else |
| Properties.DrawStep | src/chip8.c:212-244 | DXYN XORs the sprite at memory[I..I+N) onto the screen, VF is 1 exactly on a collision, the draw flag is set, nothing else changes |
| Properties.GfxOnlyByDraw | chip8.c:154-337 | no instruction other than 00E0 and DXYN changes the framebuffer |
| Properties.CycleKeepsBinary | chip8.c:140-144 | a framebuffer of 0s and 1s stays one across any cycle |
| Properties.StackMoves | chip8.c:161-174 | only 2NNN (+1) and 00EE (-1) move sp |
| Properties.CycleKeepsStackBound | chip8.c:161-174 | sp stays at most 16 across any cycle |
| Properties.AddIndexFlag | chip8.c:305-308 | FX1E sets VF to I + VX > 0xFFF, then adds VX (the new flag when X = F) to I mod 2^16 |
| Properties.GlyphAddress | chip8.c:309-311 | FX29 sets I to 5·VX for every VX (up to 1275) and changes nothing else; when VX < 16 and the font is intact, the five bytes there are the glyph of VX |
| Properties.BcdOf157 | chip8.c:312-316 | the BCD of 157 is 1, 5, 7 |
| Properties.BlockAdvancesIndex | chip8.c:317-326 | FX55 and FX65 add X + 1 to I |
| Properties.StoreLoadRoundTrip | chip8.c:317-326 | V0..VX stored by FX55 and loaded by FX65 from the same I come back unchanged |
| Properties.RunRegisterOp | chip8.c:187-192 | one cycle of 6XNN or 7XNN sets or adds to VX and moves pc on by 2 |
| Properties.LoadThenAdd | chip8.c:187-192 | the program 60 0A 70 FF leaves V0 = 9 (10 + 255 wraps), VF untouched and pc 4 further |

## Left out

- The SDL host: `evts`, `render` and `main` in chip8.c, all of src/main.c (window, texture, event polling, keymap, pixel conversion, frame delay). This is I/O with nothing to state.
- The file I/O of `romload`/`load` (`fopen`, `fseek`, `ftell`, `fread`, `malloc`). `Interpreter.Chip8.Load` takes the bytes that were read.
- `die` in chip8.c (message and `exit`). An oversized ROM makes `Load` return `false` with memory untouched, as src/chip8.c does.
- The `printf`/`fprintf` traces in `emulate` and `decode`. They are output only.
- `rand()` in CXNN. The byte `rand() % 256` is the parameter `rnd` of `Decode` and `Emulate`.
- Out-of-range indexing, which is undefined behaviour in C, is excluded by `requires`:
  - the stack overflowing on 2NNN or underflowing on 00EE (`StackDefined`);
  - a sprite bit outside the framebuffer or a sprite row outside memory (`DrawDefined`);
  - a key index VX ≥ 16 in EX9E/EXA1 (`KeysDefined`);
  - FX33/FX55/FX65 past the end of memory (`BlockDefined`);
  - a fetch at pc + 1 ≥ 4096 (`CanStep`).
- src/chip8.h is used only as the shape of the state. Its prototypes `chip8_rom_load`/`chip8_emulate` match no definition.
- The check of `load`'s result in src/main.c. It tests `!load(...)` and so never sees the -1 failure code; it is host code.
- The `default:` branch of the family switch (chip8.c:332-334, src/chip8.c:314-316) is unreachable, because all sixteen families have a case. It has no counterpart in the model.
- Interpreter.Chip8.Emulate: requires the opcode it fetches to be `Defined`, the same condition `Decode` requires. Undefined behaviour in the fetched instruction is therefore excluded, not modelled.
