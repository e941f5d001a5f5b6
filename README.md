# CHIP-8 interpreter, modelled in Dafny

This project models the core of a small C++ CHIP-8 emulator:

- the `Chip8` machine of `chip8.hpp`: 4096 bytes of memory, sixteen 8-bit
  registers V0..VF (VF doubles as the flag register), the 16-bit `I`, `PC`
  and `sp`, a 16-word stack, the delay and sound timers, sixteen key flags,
  the `awaitingKey` latch, the 64×32 framebuffer and the `redraw` flag;
- from `chip8.cpp`, the constructor, the copy loop of `load_program` and
  `emulate_op`: one fetch, decode and execute over the whole instruction set;
- from `main.cpp`, the pieces that compute or change emulator state. These
  are `getfilename`, `renderTo`, the timer update, the key map and key
  events, and the gate that stops execution while a key wait is pending or
  the emulator is paused.

The modules follow the program:

| module | file | what it holds |
|---|---|---|
| `Bits` | bits.dfy | `byte`, `word` and `nibble`; the wrapping casts; the bitwise operators |
| `Isa` | isa.dfy | the machine constants, the font table, the opcode and its bit fields |
| `Semantics` | semantics.dfy | the machine as a value and `Step`, one `emulate_op` as a function of the state |
| `Properties` | properties.dfy | the state invariant every step keeps |
| `Instructions` | instructions.dfy | what each instruction does, stated per opcode |
| `Drawing` | drawing.dfy | Dxyn in closed form: which cells it toggles and what VF ends as |
| `Emulator` | emulator.dfy | class `Chip8` with array fields; its methods update them in place and are proved against `Step` |
| `Frontend` | frontend.dfy | the `main.cpp` pieces, over a `Chip8` object where they touch one |

`Step` follows the source branch by branch. The registers are one array
and the writes come in source order, so the cases where x or y is the flag
register VF come out as the C++ writes them. Where the C++ behaviour is
undefined, the step returns `Undefined(fault)` and leaves the state as it
was. These cases are an out-of-range fetch, a return with an empty stack,
a call with a full stack, a key skip with Vx ≥ 16, and a sprite, BCD or
register block reaching past memory, and any Dxyn, even one with no rows,
while I is at or past the end of memory, since it takes the address of
`m_Memory[I]`. `not_handled`, which prints and
exits, becomes `Halted(msb, lsb)` with the state unchanged.

Where the usual CHIP-8 description differs, the model follows the code:

- 8xy7 writes Vy − Vx into Vy, not into Vx.
- Fx1E sets VF as well as I.
- Dxyn leaves VF as the collision flag of the last set sprite bit it
  walked, not as "some pixel was erased". It is unchanged when the sprite
  has no set bit.
- Group 0 looks only at the low nibble, so every `0nn0` clears the screen
  and every `0nnE` returns.
- 5xy? and 9xy? ignore the low nibble.
- An unknown E-group subcode does nothing, and PC stays where it was.

## Model

| member | source | states |
|---|---|---|
| Bits.ToByte | chip8.hpp:18 | the 8-bit cast is the identity on 0..255 and keeps the value modulo 256 |
| Bits.ToWord | chip8.hpp:19 | the 16-bit cast is the identity on 0..65535 and keeps the value modulo 65536 |
| Bits.OrHighBit | chip8.cpp:359 | `0x80 \| x` is 0x80 + x for a register number x |
| Bits.AndLowBits | main.cpp:178 | `latch & 0x7f` gives back x from a latch 0x80 + x |
| Bits.XorOneSwaps | chip8.cpp:320 | toggling the low bit turns a 0 pixel into 1 and a 1 pixel into 0 |
| Isa.Opcode | chip8.cpp:126 | the opcode's high byte is `m_Memory[PC]` and its low byte is `m_Memory[PC+1]` |
| Isa.Decode | chip8.cpp:132-137 | opcode = u·4096 + nnn, nnn = x·256 + kk, kk = y·16 + n, and nnn < 4096 |
| Isa.EncodeDecode | chip8.cpp:132-137 | decoding loses nothing: re-encoding the fields gives the opcode back |
| Isa.DecodeEncode | chip8.cpp:132-137 | fields that nest correctly encode to a 16-bit opcode that decodes back to them |
| Isa.DecodeBytes | chip8.cpp:127-137 | u and x are the high byte's nibbles, kk is the low byte, and y and n are its nibbles |
| Semantics.Step | chip8.cpp:121-433 | fetch, decode and execute; specified by Properties.StepPreservesInvariant and Instructions.HaltsIffUnrecognised, UnknownKeySubcodeIsNoop, RegisterSkips and KeySkips |
| Semantics.Execute | chip8.cpp:142-430 | the switch on the group nibble; specified by Properties.ExecutePreservesInvariant and the per-opcode lemmas of Instructions and Drawing |
| Semantics.ExecSystem | chip8.cpp:144-163 | group 0 on the low nibble; specified by Instructions.ClearBlanksScreen, CallThenReturn and HaltsIffUnrecognised |
| Semantics.Call | chip8.cpp:170-174 | 2nnn; specified by Instructions.CallThenReturn and Properties.DirectPreservesInvariant |
| Semantics.ExecArith | chip8.cpp:206-273 | group 8 on the low nibble; specified by Instructions.HaltsIffUnrecognised and the ArithRegisters lemmas |
| Semantics.ArithRegisters | chip8.cpp:209-266 | the register file after 8xyn has sixteen registers; its values are specified by Instructions.ArithFrame, BitwiseOps, AddCarries, SubtractBorrows, ReverseSubtractWritesVy and ShiftsKeepShiftedBit |
| Semantics.ExecDraw | chip8.cpp:298-329 | Dxyn; specified by Drawing.DrawTogglesHits, DrawFlagIsLastCollision and DrawTwiceRestores and Properties.DrawPreservesInvariant |
| Semantics.PlotRows | chip8.cpp:310-324 | the row loop keeps the canvas shape; specified by Drawing.PlotRowsCell, PlotRowsRegisters and PlotRowsFlag |
| Semantics.PlotColumns | chip8.cpp:313-322 | the column loop keeps the canvas shape; specified by Drawing.PlotColumnsCell, PlotColumnsRegisters and PlotColumnsFlag |
| Semantics.PlotPixel | chip8.cpp:316-321 | one sprite bit keeps the canvas shape; specified by Drawing.PlotPixelEffect and PlotPixelFlag |
| Semantics.ExecKeySkip | chip8.cpp:331-347 | group E on the low byte; specified by Instructions.KeySkips and UnknownKeySubcodeIsNoop |
| Semantics.ExecMisc | chip8.cpp:349-426 | group F on the low byte; specified by Instructions.TimerMoves, WaitKeySetsLatch, AddToIndexSetsFlag, FontGlyphAddress, BcdStoresDigits and StoreThenLoadInstructions |
| Semantics.Bcd | chip8.cpp:389-394 | each of the three digits is below 10 and 100a + 10b + c = Vx |
| Semantics.LoadImage | chip8.cpp:104-107 | program byte k lands at base + k and every other address is unchanged |
| Semantics.StoreRegisters | chip8.cpp:401-408 | Fx55 writes V0..Vx to I..I+x and leaves every other address alone |
| Semantics.LoadRegisters | chip8.cpp:412-419 | Fx65 loads V0..Vx from I..I+x and leaves Vx+1..VF alone |
| Properties.StepPreservesInvariant | chip8.cpp:121-433 | every step keeps sp ≤ 16, the latch clear or 0x80 + x, and every pixel 0 or 1 |
| Properties.ExecutePreservesInvariant | chip8.cpp:142-430 | the opcode switch keeps the invariant for every instruction |
| Properties.DirectPreservesInvariant | chip8.cpp:164-295 | jumps, calls, skips and the loads of groups 1-7 and 9-C keep the invariant |
| Properties.SystemPreservesInvariant | chip8.cpp:144-162 | clear and return keep the invariant |
| Properties.ArithPreservesInvariant | chip8.cpp:205-272 | the register-register ALU keeps the invariant |
| Properties.DrawPreservesInvariant | chip8.cpp:298-327 | a sprite draw leaves every pixel 0 or 1 |
| Properties.PlotPixelMonochrome | chip8.cpp:316-321 | toggling one pixel keeps every pixel 0 or 1 |
| Properties.PlotColumnsMonochrome | chip8.cpp:313-322 | drawing one sprite row keeps every pixel 0 or 1 |
| Properties.PlotRowsMonochrome | chip8.cpp:310-324 | drawing the sprite's rows keeps every pixel 0 or 1 |
| Properties.KeySkipPreservesInvariant | chip8.cpp:331-346 | Ex9E and ExA1 keep the invariant |
| Properties.MiscPreservesInvariant | chip8.cpp:349-426 | the F group keeps the invariant, faults included |
| Instructions.HaltsIffUnrecognised | chip8.cpp:123-429 | a step halts exactly on the opcodes no case handles, reports msb and lsb, and changes nothing |
| Instructions.FaultsIffOutOfRange | chip8.cpp:126-420 | a step ends in undefined behaviour exactly when `FaultOf`, read off the state and the fetched bytes, names a fault: fetch past memory, return with sp 0, call with sp 16, a key check with Vx ≥ 16, a sprite, BCD or register block past memory; it then reports that fault and changes nothing |
| Instructions.UnknownKeySubcodeIsNoop | chip8.cpp:331-346 | an E-group opcode other than Ex9E and ExA1 changes nothing, PC included |
| Instructions.RegisterSkips | chip8.cpp:175-191 | 3xkk, 4xkk, 5xy? and 9xy? move PC by 4 when their condition holds and by 2 otherwise, and change nothing else |
| Instructions.KeySkips | chip8.cpp:331-346 | Ex9E and ExA1 skip on the key flag and fault when Vx ≥ 16 |
| Instructions.AddImmediateWraps | chip8.cpp:199-203 | 7xkk sets Vx to (Vx + kk) mod 256 and leaves every other register, VF included, alone |
| Instructions.JumpGoesToTarget | chip8.cpp:165-168 | 1nnn sets PC to nnn and changes nothing else |
| Instructions.JumpOffsetAddsV0 | chip8.cpp:287-290 | Bnnn sets PC to (V0 + nnn) mod 65536 and changes nothing else |
| Instructions.LoadImmediateSetsVx | chip8.cpp:194-197 | 6xkk puts kk in Vx, keeps every other register and advances PC by 2 |
| Instructions.SetIndexLoadsI | chip8.cpp:281-284 | Annn puts nnn in I and advances PC by 2 |
| Instructions.RandomMasksWithKk | chip8.cpp:292-295 | Cxkk puts the random byte AND kk in Vx, keeps every other register and advances PC by 2 |
| Instructions.TimerMoves | chip8.cpp:352-373 | Fx15 and Fx18 copy Vx into DT and ST, Fx07 copies DT into Vx; each advances PC by 2 and changes nothing else |
| Instructions.DelayTimerRoundTrip | chip8.cpp:352-367 | Fx15 then Fy07 leaves in Vy the value Vx had |
| Instructions.FontGlyphAddress | chip8.cpp:383-386 | for Vx < 16 and the font in place, Fx29 points I at the five bytes of the glyph for digit Vx |
| Instructions.ArithFrame | chip8.cpp:205-272 | group 8 changes no register but its destination and VF, the destination being Vy for 8xy7 and Vx otherwise; 8xy0 to 8xy3 change no register but Vx |
| Instructions.BitwiseOps | chip8.cpp:209-230 | 8xy0 sets Vx to Vy, and 8xy1, 8xy2 and 8xy3 set Vx to Vx or, and, xor Vy |
| Instructions.AddCarries | chip8.cpp:232-238 | for x and y other than F, 8xy4 sets Vx to (Vx + Vy) mod 256 and VF to 1 exactly when the sum exceeds 255 |
| Instructions.SubtractBorrows | chip8.cpp:240-245 | for x and y other than F, 8xy5 sets VF to 1 exactly when Vx > Vy, then Vx to (Vx − Vy) mod 256 |
| Instructions.ReverseSubtractWritesVy | chip8.cpp:254-259 | for x and y other than F, 8xy7 writes (Vy − Vx) mod 256 into Vy, keeps Vx when x ≠ y, and sets VF to 1 exactly when Vy > Vx |
| Instructions.ShiftsKeepShiftedBit | chip8.cpp:247-266 | for x other than F, 8xy6 and 8xyE put the bit shifted out into VF, so the new Vx and VF rebuild the old Vx |
| Instructions.CallThenReturn | chip8.cpp:153-173 | 2nnn pushes PC and jumps to nnn; a following 00EE restores sp and returns to the call's PC + 2 |
| Instructions.ClearBlanksScreen | chip8.cpp:147-151 | 0nn0 zeroes every cell, sets redraw, advances PC by 2 and changes nothing else |
| Instructions.BcdStoresDigits | chip8.cpp:389-398 | Fx33 stores the decimal digits of Vx at I..I+2, leaves all other memory alone and advances PC |
| Instructions.StoreThenLoad | chip8.cpp:401-420 | loading V0..Vx back from where they were stored restores them and keeps the rest |
| Instructions.StoreThenLoadInstructions | chip8.cpp:401-420 | Fx55 then Fx65 from the same I restore V0..Vx, and each advances I by x + 1 |
| Instructions.AddToIndexSetsFlag | chip8.cpp:376-380 | Fx1E sets I to (I + Vx) mod 65536, then VF to 1 exactly when the new I plus Vx exceeds 255 |
| Instructions.WaitKeySetsLatch | chip8.cpp:358-361 | Fx0A sets the latch to a non-zero value (0x80 + x) from which `& 0x7f` gives back x, and changes only the latch and PC |
| Drawing.DrawTogglesHits | chip8.cpp:298-327 | Dxyn toggles exactly the cells under set sprite bits, keeps every register but VF, sets redraw and advances PC |
| Drawing.HitAtBitCell | chip8.cpp:310-317 | sprite bit w of row h lands on cell ((Vy + h) mod 32, (Vx + w) mod 64), and that cell is a hit exactly when the bit is set |
| Drawing.DrawTwiceRestores | chip8.cpp:298-327 | drawing the same sprite twice at the same place restores the screen |
| Drawing.DrawFlagIsLastCollision | chip8.cpp:316-321 | after Dxyn, VF is the collision flag of the last set bit walked, or unchanged when no bit is set |
| Drawing.RowsFlagStep | chip8.cpp:310-324 | for x and y other than F, one more sprite row sets VF to the collision of its last set bit, read from the screen before the draw, and keeps VF when the row has no set bit |
| Drawing.PlotRowsFlag | chip8.cpp:310-324 | for x and y other than F, over the first h rows, VF is the collision flag of the last set bit, read from the screen as it was before the draw |
| Drawing.ColumnsFlagStep | chip8.cpp:313-322 | for x other than F, one more column sets VF to the collision of its cell as it was before the row when its bit is set, and keeps VF otherwise |
| Drawing.PlotColumnsFlag | chip8.cpp:313-322 | for x other than F, over one sprite row, VF is the collision flag of that row's last set bit |
| Drawing.PlotRowsCell | chip8.cpp:310-324 | for x and y other than F, over the first h rows, a cell is toggled exactly when it lies under a set bit of those rows |
| Drawing.PlotColumnsCell | chip8.cpp:313-322 | for x other than F, over one sprite row, a cell is toggled exactly when it is on that row under a set bit |
| Drawing.PlotRowsRegisters | chip8.cpp:310-324 | drawing changes no register but VF |
| Drawing.PlotColumnsRegisters | chip8.cpp:313-322 | drawing a row changes no register but VF |
| Drawing.PlotPixelEffect | chip8.cpp:316-321 | one set bit toggles its one cell and writes only VF |
| Drawing.PlotPixelFlag | chip8.cpp:319 | a set bit writes VF as its cell's collision flag, and a clear bit leaves VF alone |
| Drawing.LastInRowIsLast | chip8.cpp:313-316 | the bit found is set and no later bit of the row is; none is found only when no bit is set |
| Drawing.LastSetBitNone | chip8.cpp:310-316 | no set bit is found exactly when every bit of the sprite is clear |
| Drawing.LastSetBitIsLast | chip8.cpp:310-316 | no bit walked after the one found is set |
| Emulator.Chip8.constructor | chip8.cpp:43-49 | the font is at address 0 and the screen is blank; I, sp, V, the stack, the keys, the timers and the latch are 0 and PC is 0x200 |
| Emulator.Chip8.LoadFont | chip8.cpp:47 | memory[0..80) holds the font table |
| Emulator.Chip8.FillScreen | chip8.cpp:48 | every screen cell is 0 |
| Emulator.Chip8.CopyProgram | chip8.cpp:104-107 | the copy loop leaves memory as the old memory with program byte k at PC + k |
| Emulator.Chip8.LoadProgram | chip8.cpp:85-107 | an empty program is refused; otherwise its bytes are copied to memory from PC on and nothing else changes |
| Emulator.Chip8.Advance | chip8.cpp:150 | PC moves on by 2, modulo 65536 |
| Emulator.Chip8.EmulateOp | chip8.cpp:121-433 | the outcome and new state are exactly `Step` of the old state, and the invariant is kept |
| Emulator.Chip8.Dispatch | chip8.cpp:142-430 | the switch on the group nibble does what `Execute` says |
| Emulator.Chip8.Direct | chip8.cpp:164-295 | groups 1-7 and 9-C do what `Execute` says |
| Emulator.Chip8.Flow | chip8.cpp:164-191 | jumps, calls and skips do what `Execute` says |
| Emulator.Chip8.Load | chip8.cpp:193-295 | 6xkk, 7xkk, Annn and Cxkk write their register and advance PC |
| Emulator.Chip8.System | chip8.cpp:144-162 | clear, return and the unknown group-0 opcodes do what `ExecSystem` says |
| Emulator.Chip8.Call | chip8.cpp:170-173 | the push and jump of 2nnn, or the overflow fault |
| Emulator.Chip8.Arith | chip8.cpp:205-272 | group 8 does what `ExecArith` says |
| Emulator.Chip8.ArithOp | chip8.cpp:207-266 | the register file after one ALU case |
| Emulator.Chip8.Draw | chip8.cpp:298-327 | Dxyn does what `ExecDraw` says, with the fault when the sprite reaches past memory |
| Emulator.Chip8.DrawSprite | chip8.cpp:310-324 | the row loop leaves registers and screen as `PlotRows` says |
| Emulator.Chip8.DrawRow | chip8.cpp:313-322 | the column loop leaves registers and screen as `PlotColumns` says |
| Emulator.Chip8.Plot | chip8.cpp:316-321 | one bit leaves registers and screen as `PlotPixel` says |
| Emulator.Chip8.KeySkip | chip8.cpp:331-346 | Ex9E and ExA1 do what `ExecKeySkip` says |
| Emulator.Chip8.Misc | chip8.cpp:349-426 | the F group does what `ExecMisc` says |
| Emulator.Chip8.MiscRegisters | chip8.cpp:350-386 | Fx07, Fx0A, Fx15, Fx18, Fx1E and Fx29 do what `ExecMisc` says |
| Emulator.Chip8.MiscMemory | chip8.cpp:388-420 | Fx33, Fx55 and Fx65 do what `ExecMisc` says |
| Emulator.Chip8.StoreRegisterBlock | chip8.cpp:401-408 | memory becomes `StoreRegisters` of the old memory and I grows by x + 1 |
| Emulator.Chip8.LoadRegisterBlock | chip8.cpp:412-419 | the registers become `LoadRegisters` of memory and I grows by x + 1 |
| Frontend.LastIndexOf | main.cpp:240 | the index found holds a character of the set and none after it does; none is found only when no character is in the set |
| Frontend.Basename | main.cpp:240-242 | the result is the longest separator-free suffix of the path |
| Frontend.StripExtension | main.cpp:245-247 | the result is the name cut at its last period, or the whole name when it has none |
| Frontend.FileName | main.cpp:235-250 | the file name has no `/` or `\`, is no longer than the path, and is the base name cut at its last period, or the whole base name when it has none |
| Frontend.PlainNameUnchanged | main.cpp:235-250 | a path with no separator and no period is its own file name |
| Frontend.PixelColor | main.cpp:29 | an unlit cell is 0xFF111111, a lit cell is 0xFF33FF77, and every colour is opaque |
| Frontend.PixelColorDistinguishes | main.cpp:29 | on a monochrome screen, two cells get the same colour exactly when they are equal |
| Frontend.RenderTo | main.cpp:25-31 | output entry i is the colour of screen cell i, for all 2048 cells |
| Frontend.Present | main.cpp:211-219 | on a redraw request the screen is rendered and the request cleared; otherwise nothing changes |
| Frontend.Tick | main.cpp:197-200 | T − min(frames, T) is max(T − frames, 0) |
| Frontend.TickCompose | main.cpp:197-200 | a timer never increases, and running it for a then b frames is running it for a + b |
| Frontend.UpdateTimers | main.cpp:196-200 | both timers tick by `frames`, nothing else changes, and the sound plays for min(frames, ST) frames |
| Frontend.KeyCode | main.cpp:93-100 | every mapped code is quit (−1), pause (−2) or a keypad key 0..15 |
| Frontend.KeyMapCodes | main.cpp:93-100 | only Escape quits, only P pauses, and every keypad key has a host key |
| Frontend.PressKey | main.cpp:174-180 | a key event keeps the invariant |
| Frontend.OnEvent | main.cpp:149-183 | an event keeps the invariant, and only a P release reaches the undefined `SetKeyPressed(-2, …)` |
| Frontend.OnKey | main.cpp:161-180 | a key event keeps the invariant, and is undefined exactly for a P release |
| Frontend.HandleEvent | main.cpp:149-183 | the emulator and the loop flags end as `OnEvent` says, and both are unchanged when that is undefined |
| Frontend.HandleKey | main.cpp:161-180 | the emulator and the loop flags end as `OnKey` says, and both are unchanged when that is undefined |
| Frontend.PressKeyIn | main.cpp:174-180 | the emulator ends as `PressKey` says |
| Frontend.WaitThenPress | main.cpp:176-180 | after Fx0A, a key-down writes the key into Vx, changes no other register and ends the wait; a key-up does not end it |
| Frontend.Cycle | main.cpp:137-139 | a step runs exactly when no key wait is pending and the emulator is not paused; otherwise the machine is unchanged |

## Left out

- File reading in `load_program` and `GetFileSize` (chip8.cpp:62-101): the model loads from a byte sequence, and `programSize` is its length.
- Emulator.Chip8.LoadProgram: a program that does not fit between PC and the end of memory makes the C++ copy loop write past the array, which is undefined behaviour. The model requires the program to fit.
- The random generator (chip8.cpp:20, 293): the byte it would draw is a parameter of `Step`.
- `printf` and `exit(2)` in `not_handled`: modelled as the `Halted` outcome, not as ending the process.
- SDL windows, textures, event polling, the audio callback and the audio queue (main.cpp:33, 86-91, 102-121, 204-216): library calls. Events come in as an `Event` value. The number of sound frames `UpdateTimers` returns is computed, but the audio queue is not modelled.
- cxxopts argument parsing, `disassemble` and the console messages (main.cpp:40-77, 141-144, 169): foreign plumbing, and `disassemble` has no definition in the repository.
- The wall clock and `sleep_for` (main.cpp:130, 188-194, 224): `frames` is a natural-number parameter. The caller decides when `UpdateTimers` and `Present` run; the source runs them when a frame has passed and emulation is not paused.
- `GetAwaitingKey`, `SetKeyPressed`, the timer accessors, `ShouldRedraw` and `StopDrawing` are not defined in the repository. They are modelled as direct access to the public fields.
- chip8.h is not part of this model: no source file includes it.
- Memory beyond the font, `redraw` and `program_size` have no initialiser. The constructor's contract promises nothing about them.
- Drawing.DrawTogglesHits: stated only for x and y other than F. When x or y is F, VF changes between bits and so the sprite's coordinates move; `ExecDraw` and `Emulator.Chip8.Draw` still model that case as written.
- Drawing.DrawTwiceRestores: stated only for x and y other than F, for the same reason, and only for screens whose pixels are all 0 or 1, which `Semantics.Invariant` guarantees for every machine the interpreter reaches.
- Drawing.DrawFlagIsLastCollision: stated only for x and y other than F, for the same reason.
