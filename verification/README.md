# CHIP-8 interpreter core, modelled and verified in Dafny

This project models `Emu`, the CHIP-8 virtual machine of the `chip8_core` crate:
4 KiB of memory with the built-in font at address 0, sixteen 8-bit registers
V0..VF, the index register I, the program counter, a 16-entry call stack, the
delay and sound timers, a 64 x 32 monochrome screen and sixteen keys. It covers
`new` and `reset`, `load`, `keypress`, `get_display`, `tick_timers` and `tick`,
which is `fetch` followed by the execution of every opcode arm. It also covers
`push` and `pop`.

The model has five modules:

- `Bytes` (bytes.dfy) holds the machine words `u8` and `u16` as bounded integers.
  It defines the Rust operators the interpreter uses: wrapping and overflowing
  addition and subtraction, and `&`, `|` and `^` defined one bit at a time.
- `Opcode` (opcode.dfy) splits a 16-bit word into its four nibbles. `Decode` is
  the interpreter's dispatch, producing one `Instr` variant per arm, with
  `Unknown` as the catch-all arm. It also has an encoder and the proof that the
  two are inverse.
- `Machine` (machine.dfy) describes the whole machine state as a value and every
  operation as a function on it. A Rust panic becomes an explicit
  `Err(fault)`: an index past an array, `pc += 2` beyond `u16`, `sp -= 1` below
  zero, or `unimplemented!`. Each such panic happens in both debug and release
  builds, so the model does not depend on the build mode. The one exception is
  pc arithmetic, and `Properties.TickPcNeverWraps` shows that it never
  overflows inside a tick.
- `Chip8` (emu.dfy) is the `Emu` class itself, with fixed-size arrays updated in
  place. Every method is proved to move the object's state (`Model()`) exactly
  as the matching `Machine` function says. The `Dxyn` sprite loop, the `Fx0A`
  key scan and the `Fx55`/`Fx65` copy loops carry the loop invariants.
- `Properties` (properties.dfy) holds what the interpreter guarantees across
  operations: timers, control flow, the stack, the arithmetic flags, drawing,
  memory transfers and keys.

Notes on the behaviour as the code has it:

- For `8xyE` with x = F, VF is written with the shifted-out bit first. The shift
  then reads VF again, so VF ends as twice that bit (0 or 2).
- For `8xy4`, `8xy5`, `8xy6` and `8xy7` with x = F, the flag is written last
  and wins.
- `Fx29` multiplies the whole byte Vx by 5. It does not use only its low nibble,
  as a description of the instruction might suggest. A Vx of 16 or more
  therefore points I past the font.
- `Bnnn` sets pc to V0 + nnn with no 12-bit mask. A target past memory makes
  the next fetch fail.
- `Fx33`'s floating-point digit arithmetic is exact for every byte value.
  Integer division and remainder state it here.

## Model

| member | source | states |
|---|---|---|
| Machine.Boot | chip8_core/src/lib.rs:46-61 | the initial state has the fixed array sizes and a stack pointer within the stack |
| Machine.WellFormed | chip8_core/src/lib.rs:34-45 | the fields of `Emu` as a value: 4096 bytes of memory, 2048 pixels, 16 registers, a 16-entry stack, 16 keys, and sp at most 16 |
| Chip8.Emu.Model | chip8_core/src/lib.rs:34-45 | the object's fields read as a `Machine.State`; a valid object gives a well-formed state |
| Properties.BootState | chip8_core/src/lib.rs:46-75 | after `new` or `reset`: pc = 0x200, the font `Machine.FONTSET` (the table of lines 7-24, byte for byte) at 0..80, the rest of memory, the screen, the registers, I, sp, the stack, the keys and both timers zero |
| Chip8.Emu.constructor | chip8_core/src/lib.rs:46-61 | a new interpreter is in exactly the boot state, with freshly allocated arrays |
| Chip8.Emu.Reset | chip8_core/src/lib.rs:63-75 | after reset the interpreter is in exactly the boot state, whatever it held before |
| Machine.Load | chip8_core/src/lib.rs:104-109 | a successful load keeps the state well-formed |
| Properties.LoadCopiesRom | chip8_core/src/lib.rs:104-109 | load fails exactly when the ROM does not fit above 0x200; otherwise the ROM occupies 0x200.. and every other byte and field is unchanged |
| Chip8.Emu.Load | chip8_core/src/lib.rs:104-109 | the in-place copy gives the same fault and state as the functional load, and leaves the state untouched when the ROM does not fit |
| Machine.Keypress | chip8_core/src/lib.rs:111-113 | a successful key update keeps the state well-formed |
| Properties.KeypressSetsOneKey | chip8_core/src/lib.rs:111-113 | an index of 16 or more faults; otherwise exactly that key takes the new value |
| Chip8.Emu.Keypress | chip8_core/src/lib.rs:111-113 | matches the functional key update, fault included |
| Properties.TimersCountDown | chip8_core/src/lib.rs:84-98 | n calls lower each timer by n, stopping at zero, change nothing else, and beep once if the sound timer ran out among them, otherwise never |
| Machine.TickTimers | chip8_core/src/lib.rs:84-98 | only the two timers change, each down by one or staying at zero, and the beep is reported exactly when the sound timer runs out on this call |
| Properties.BeepIsOneShot | chip8_core/src/lib.rs:84-98 | a call beeps exactly when the sound timer was 1, and the following call does not beep |
| Properties.SoundThenBeep | chip8_core/src/lib.rs:327-330 | setting the sound timer to 1 makes the next timer tick beep and silence it, and the tick after that is quiet |
| Chip8.Emu.TickTimers | chip8_core/src/lib.rs:84-98 | the in-place decrements and the returned beep equal the functional timer step |
| Chip8.Emu.Display | chip8_core/src/lib.rs:100-102 | returns the 2048 pixels of the current screen |
| Opcode.Nibbles | chip8_core/src/lib.rs:115-119 | the four nibbles recompose the opcode |
| Opcode.Decode | chip8_core/src/lib.rs:115-368 | the dispatch on the four nibbles of a word; the catch-all arm carries that very word |
| Opcode.Dispatch | chip8_core/src/lib.rs:121-368 | the nibble-pattern match, one `Instr` per arm in the source's order, `Unknown` for the fall-through (its properties are `Opcode.EncodeDecode`, `Opcode.DecodeEncode` and `Opcode.UnknownPatterns`) |
| Opcode.EncodeDecode | chip8_core/src/lib.rs:121-368 | every word decodes to an instruction that encodes back to the same word |
| Opcode.DecodeEncode | chip8_core/src/lib.rs:121-368 | every instruction the dispatch can produce decodes back from its encoding |
| Opcode.UnknownPatterns | chip8_core/src/lib.rs:121-368 | the catch-all arm is reached exactly by the listed nibble patterns |
| Machine.Fetch | chip8_core/src/lib.rs:372-378 | a successful fetch keeps the state well-formed |
| Properties.FetchBigEndian | chip8_core/src/lib.rs:372-378 | fetch fails exactly when pc + 1 lies past memory; otherwise the high byte of the opcode is ram[pc], the low byte ram[pc + 1], and only pc changes, by 2 |
| Properties.FetchDecodes | chip8_core/src/lib.rs:77-82 | an instruction assembled into the two bytes at pc is the one the tick executes |
| Chip8.Emu.Fetch | chip8_core/src/lib.rs:372-378 | returns the functional fetch's opcode and state, or its fault with the state unchanged |
| Machine.Push | chip8_core/src/lib.rs:380-383 | a successful push keeps sp within the stack |
| Machine.Pop | chip8_core/src/lib.rs:385-388 | a successful pop keeps sp within the stack |
| Properties.StackFaults | chip8_core/src/lib.rs:380-388 | push fails exactly on a full stack, pop exactly on an empty one |
| Properties.PushThenPop | chip8_core/src/lib.rs:380-388 | pop right after push returns the pushed value and restores sp |
| Chip8.Emu.Push | chip8_core/src/lib.rs:380-383 | matches the functional push, fault included |
| Chip8.Emu.Pop | chip8_core/src/lib.rs:385-388 | matches the functional pop, fault included |
| Machine.Exec | chip8_core/src/lib.rs:121-368 | every successful instruction keeps the state well-formed |
| Machine.Tick | chip8_core/src/lib.rs:77-82 | a successful tick keeps the state well-formed |
| Chip8.Emu.Tick | chip8_core/src/lib.rs:77-82 | one in-place cycle reports the functional tick's fault and, without one, reaches its state |
| Chip8.Emu.Execute | chip8_core/src/lib.rs:115-370 | decoding and running one opcode in place gives the functional result; a fault leaves the state as it was |
| Chip8.Emu.ExecuteRegisterOp | chip8_core/src/lib.rs:160-233 | the arms that write only registers never fail and reach the functional result |
| Chip8.Emu.ExecuteLoadOp | chip8_core/src/lib.rs:160-174 | 6xkk, 7xkk and 8xy0, and Fx07 (lines 304-307), never fail and write exactly the functional new Vx |
| Chip8.Emu.ExecuteLogicOp | chip8_core/src/lib.rs:175-189 | 8xy1, 8xy2 and 8xy3, and Cxkk (lines 250-256) with the random byte given, never fail and write exactly the functional new Vx |
| Chip8.Emu.ExecuteFlagOp | chip8_core/src/lib.rs:190-209 | 8xy4 and 8xy5, and 8xy7 (lines 217-226), never fail; Vx, then VF, take the functional result and carry or borrow flag |
| Chip8.Emu.ExecuteShiftRight | chip8_core/src/lib.rs:210-216 | 8xy6 never fails; Vx, then VF, take the functional shifted value and low bit |
| Chip8.Emu.ExecuteShiftLeft | chip8_core/src/lib.rs:227-233 | 8xyE never fails; VF takes the top bit before Vx is shifted, as the functional step says |
| Chip8.Emu.ExecuteControlOp | chip8_core/src/lib.rs:121-368 | the clear, jump, call, return, skip and wait arms and the catch-all arm match the functional result, fault included |
| Chip8.Emu.ExecuteFlowOp | chip8_core/src/lib.rs:122-138 | 0000, 00E0, 00EE, 1nnn and 2nnn, and Bnnn (lines 246-249) and the catch-all arm (line 368), match the functional result, stack faults and the unimplemented opcode included |
| Chip8.Emu.ExecuteSkipOp | chip8_core/src/lib.rs:139-159 | 3xkk, 4xkk and 5xy0, and 9xy0 (lines 234-241), match the functional skip, pc overflow included |
| Chip8.Emu.ExecuteKeyOp | chip8_core/src/lib.rs:288-322 | Ex9E, ExA1 and Fx0A match the functional result, a key index of 16 or more included |
| Chip8.Emu.ExecuteMemoryOp | chip8_core/src/lib.rs:242-367 | the I, timer, draw, digit and register-transfer arms match the functional result, fault included |
| Chip8.Emu.SkipNext | chip8_core/src/lib.rs:139-145 | the skip's pc += 2 in place, faulting beyond 0xFFFF |
| Machine.SkipNext | chip8_core/src/lib.rs:143 | `pc += 2` succeeds exactly when the sum stays within `u16`, then changes only pc, by 2; otherwise the fault is pc overflow |
| Machine.SkipIf | chip8_core/src/lib.rs:139-159 | a skip when its condition holds, nothing otherwise, for 3xkk, 4xkk, 5xy0 and 9xy0 (lines 234-241) alike (its properties are `Properties.SkipStepsOver` and `Properties.SkipsStayInRange`) |
| Properties.RandomOnlyForCxkk | chip8_core/src/lib.rs:250-256 | the random byte reaches only `Cxkk`: every other instruction has the same outcome whatever byte is given |
| Properties.ExecFrames | chip8_core/src/lib.rs:121-368 | no instruction writes the keys; only Fx15 and Fx18 change the timers; only 00E0 and Dxyn change the screen |
| Properties.JumpOverridesAdvance | chip8_core/src/lib.rs:130-133 | a tick on 1nnn leaves pc = nnn and nothing else changed |
| Properties.StraightLineAdvances | chip8_core/src/lib.rs:77-82 | after any instruction that does not set pc itself (every arm but the jumps, call, return, skips and key wait; 0000 and 00E0 included), pc is just past the instruction |
| Properties.SkipStepsOver | chip8_core/src/lib.rs:139-159 | a taken 3xkk / 4xkk / 5xy0, or 9xy0 (lines 234-241), moves pc 4 past the skip, an untaken one 2 |
| Properties.TickPcNeverWraps | chip8_core/src/lib.rs:77-82 | no tick panics from pc arithmetic, either going past 0xFFFF or going below zero |
| Properties.ExecPcInRange | chip8_core/src/lib.rs:139-322 | with pc between 2 and 0x1001, no instruction overflows or underflows pc |
| Properties.SkipsStayInRange | chip8_core/src/lib.rs:139-322 | with pc between 2 and 0x1001, no skip or key wait overflows or underflows pc |
| Properties.UnknownIsFatal | chip8_core/src/lib.rs:368 | a word no arm recognises fails the tick with that word |
| Properties.CallThenReturn | chip8_core/src/lib.rs:126-138 | a call enters nnn one level deeper, holding the return address; the return restores pc and sp |
| Properties.SubroutineRoundTrip | chip8_core/src/lib.rs:126-138 | two ticks on a call to a subroutine that starts with 00EE land just past the call, with sp restored |
| Properties.AddByteWraps | chip8_core/src/lib.rs:165-169 | 7xkk adds without carry and touches no other register, VF included |
| Bytes.WrappingAdd | chip8_core/src/lib.rs:168 | `u8::wrapping_add`: the sum, or the sum less 256 when it does not fit |
| Bytes.OverflowingAdd | chip8_core/src/lib.rs:194 | `u8::overflowing_add`: the wrapped sum plus 256 if the flag is set is the true sum |
| Bytes.OverflowingSub | chip8_core/src/lib.rs:204 | `u8::overflowing_sub`: the wrapped difference is the true difference plus 256 if the borrow flag is set |
| Bytes.WrappingAdd16 | chip8_core/src/lib.rs:334 | `u16::wrapping_add` for `Fx1E`: the sum, or the sum less 0x10000 when it does not fit |
| Properties.AddRegCarry | chip8_core/src/lib.rs:190-199 | VF = 1 exactly when Vx + Vy exceeds 255; for x != F, Vx + 256 * VF is the sum; for x = F the flag wins |
| Properties.SubRegBorrow | chip8_core/src/lib.rs:200-209 | VF = 1 exactly when Vx >= Vy; for x != F, Vx is Vx - Vy modulo 256 |
| Properties.SubNRegBorrow | chip8_core/src/lib.rs:217-226 | VF = 1 exactly when Vy >= Vx; for x != F, Vx is Vy - Vx modulo 256 |
| Properties.ShiftRightLsb | chip8_core/src/lib.rs:210-216 | VF is the bit shifted out; for x != F, 2 * Vx + VF is the old Vx; for x = F, VF ends as that low bit |
| Properties.ShiftLeftMsb | chip8_core/src/lib.rs:227-233 | for x != F, VF is the top bit and Vx + 256 * VF is twice the old Vx; for x = F, VF ends as twice the top bit |
| Properties.LogicBitwise | chip8_core/src/lib.rs:175-189 | every bit of Vx after 8xy1 / 8xy2 / 8xy3 is OR / AND / XOR of the bits of Vx and Vy |
| Properties.RandomMasked | chip8_core/src/lib.rs:250-256 | a bit of Vx is set exactly where both the random byte and kk have it |
| Properties.RegisterOpsTotal | chip8_core/src/lib.rs:160-233 | the register arms never fail and write nothing but Vx and VF |
| Bytes.BitwiseBit | chip8_core/src/lib.rs:175-189 | each bit of `a & b`, `a \| b`, `a ^ b` is the operator applied to the operands' bits |
| Bytes.BitwiseBound | chip8_core/src/lib.rs:175-189 | `&`, `\|` and `^` on w-bit operands give a result below 2^w, so a byte stays a byte |
| Bytes.ByteOp | chip8_core/src/lib.rs:178-188 | `\|`, `&` and `^` on bytes, bit by bit (its properties are `Bytes.BitwiseBit` and `Bytes.BitwiseBound`) |
| Bytes.AndSingleBit | chip8_core/src/lib.rs:269 | masking with a single power of two keeps exactly that bit |
| Bytes.SpriteBitIsBit | chip8_core/src/lib.rs:269 | the test `pixels & (0b1000_0000 >> col) != 0` reads bit 7 - col of the row |
| Bytes.ColumnMask | chip8_core/src/lib.rs:269 | `0b1000_0000 >> col` is the single bit 7 - col |
| Bytes.Shr | chip8_core/src/lib.rs:269 | `>>` on a byte as repeated halving (its value for the sprite mask is `Bytes.ColumnMask`) |
| Bytes.SpriteBit | chip8_core/src/lib.rs:269 | the sprite test `pixels & (0b1000_0000 >> col) != 0` (read as bit 7 - col by `Bytes.SpriteBitIsBit`) |
| Bytes.MaskedHasNoOtherBits | chip8_core/src/lib.rs:250-256 | `a & mask` has a bit set exactly where both a and mask have it |
| Properties.ClearScreenBlanks | chip8_core/src/lib.rs:123-125 | 00E0 turns every pixel off, changes nothing else, and a second 00E0 changes nothing |
| Machine.PixelIndex | chip8_core/src/lib.rs:271-275 | the wrapped screen index of a sprite cell is always on the screen |
| Machine.CellOfPixel | chip8_core/src/lib.rs:271-275 | the screen index of a cell maps back to that cell |
| Machine.PixelOfCell | chip8_core/src/lib.rs:271-275 | every screen index is where its own cell lands |
| Machine.Sprite | chip8_core/src/lib.rs:264-266 | the sprite has n rows, row r being the byte at I + r |
| Machine.DrawSprite | chip8_core/src/lib.rs:257-287 | a successful draw keeps the state well-formed (its fault condition is `Properties.DrawFaults`, its effect the `Properties.Draw*` lemmas) |
| Properties.DrawFaults | chip8_core/src/lib.rs:264-266 | Dxyn fails, with the memory fault, exactly when a sprite of at least one row reaches past memory |
| Properties.CoveredCells | chip8_core/src/lib.rs:267-279 | a pixel is covered exactly when a set sprite bit lands on it |
| Properties.CollidesCells | chip8_core/src/lib.rs:267-279 | some covered pixel is lit exactly when some set sprite bit lands on a lit pixel |
| Machine.Covered | chip8_core/src/lib.rs:267-279 | a screen index lies under a set sprite bit (characterised by `Properties.CoveredCells`) |
| Machine.Collides | chip8_core/src/lib.rs:267-279 | some pixel under a set sprite bit is lit (characterised by `Properties.CollidesCells`) |
| Properties.DrawFlipsCell | chip8_core/src/lib.rs:267-279 | the pixel under each set sprite bit flips and the one under a clear bit stays |
| Properties.DrawChangesOnlyCovered | chip8_core/src/lib.rs:257-287 | a pixel changes exactly when a set sprite bit lands on it, with wraparound on both axes |
| Properties.DrawCollisionFlag | chip8_core/src/lib.rs:257-287 | VF = 1 exactly when a set sprite bit lands on a lit pixel, else 0; only the screen and VF change |
| Properties.DrawOnBlankScreen | chip8_core/src/lib.rs:257-287 | drawing on a blank screen reports no collision |
| Properties.DrawTwiceRestores | chip8_core/src/lib.rs:257-287 | drawing the same sprite twice at the same place restores the screen |
| Machine.HitStep | chip8_core/src/lib.rs:267-279 | one inner-loop step XORs exactly the pixel of the current cell, if its bit is set |
| Machine.DrawStep | chip8_core/src/lib.rs:267-279 | one inner-loop step keeps both invariants: the screen is the original XOR the visited cells, and `flipped` says whether one of them was lit |
| Machine.DrawNextRow | chip8_core/src/lib.rs:264-280 | a finished row is the start of the next |
| Machine.DrawDone | chip8_core/src/lib.rs:262-287 | after the last row the visited cells are the covered pixels and `flipped` is the collision |
| Machine.Drawn | chip8_core/src/lib.rs:257-287 | the drawn screen has as many pixels as before |
| Chip8.Emu.DrawSprite | chip8_core/src/lib.rs:257-287 | the in-place row and column loops give exactly the functional draw's screen and VF, or its fault with nothing changed |
| Machine.FirstPressed | chip8_core/src/lib.rs:311-318 | the result is the lowest pressed key from the start index, or none is pressed |
| Machine.WaitForKey | chip8_core/src/lib.rs:308-322 | `Fx0A` as a function: the lowest held key into Vx, or pc back by 2 (its properties are `Properties.WaitKeyStoresLowest` and `Properties.WaitKeyRepeats`) |
| Machine.SkipOnKey | chip8_core/src/lib.rs:288-303 | `Ex9E` / `ExA1` as a function (its properties are `Properties.SkipOnKeyCases`) |
| Properties.WaitKeyStoresLowest | chip8_core/src/lib.rs:308-322 | with key k the lowest one held, Fx0A stores k in Vx and changes nothing else |
| Properties.WaitKeyRepeats | chip8_core/src/lib.rs:308-322 | with no key held, the tick ends in the state it started from, so Fx0A is fetched again |
| Chip8.Emu.WaitForKey | chip8_core/src/lib.rs:308-322 | the key scan with early exit matches the functional wait, fault included |
| Properties.SkipOnKeyCases | chip8_core/src/lib.rs:288-303 | Ex9E / ExA1 fault exactly when Vx is not a key index; otherwise they skip exactly when key Vx is (not) held |
| Machine.StoreDigits | chip8_core/src/lib.rs:341-353 | a successful Fx33 keeps the state well-formed |
| Properties.BcdDigits | chip8_core/src/lib.rs:341-353 | Fx33 fails exactly when I + 2 lies past memory; otherwise it writes three digits below 10 that make up Vx, and nothing else |
| Chip8.Emu.StoreDigits | chip8_core/src/lib.rs:341-353 | the three in-place writes match the functional Fx33, fault included |
| Machine.StoreRegisters | chip8_core/src/lib.rs:354-360 | a successful Fx55 keeps the state well-formed |
| Properties.StoreRegistersFrame | chip8_core/src/lib.rs:354-360 | Fx55 fails exactly when I + x lies past memory; otherwise ram[I + k] = Vk for k <= x and every other byte is unchanged |
| Chip8.Emu.StoreRegisters | chip8_core/src/lib.rs:354-360 | the copy loop matches the functional Fx55, fault included |
| Machine.LoadRegisters | chip8_core/src/lib.rs:361-367 | a successful Fx65 keeps the state well-formed |
| Properties.LoadRegistersFrame | chip8_core/src/lib.rs:361-367 | Fx65 fails exactly when I + x lies past memory; otherwise Vk = ram[I + k] for k <= x and the registers above x are untouched |
| Chip8.Emu.LoadRegisters | chip8_core/src/lib.rs:361-367 | the copy loop matches the functional Fx65, fault included |
| Properties.StoreThenLoad | chip8_core/src/lib.rs:354-367 | Fx55 then Fx65 with the same I and x restores V0..Vx, whatever the registers held in between |
| Properties.FontGlyph | chip8_core/src/lib.rs:336-340 | with the font in place and Vx < 16, Fx29 points I at the five bytes of glyph Vx |
| Properties.LoadAddProgram | chip8_core/src/lib.rs:160-169 | the ROM 6005 7003 on a fresh machine leaves V0 = 8 and pc = 0x204 after two ticks |

## Left out

- Window, rendering, audio, keyboard mapping, ROM file reading and the frame loop
  of the desktop front end are not part of this model. The desktop front end is
  desktop/src/main.rs, desktop/src/rendering.rs and desktop/src/sound.rs.
- `rand::random` is not modelled. The random byte for `Cxkk` is a parameter
  (`rnd`) of `Tick` and `Exec`.
- The `f32` arithmetic of `Fx33` is stated with integer division and remainder.
  These agree with it for every value of a byte.
- Partial writes before a panic are not modelled. Examples are the first digit
  of `Fx33` written before a later index fails, the registers `Fx55` copied
  before one falls past memory, or the rows `Dxyn` XOR-ed before one lies past
  memory. A fault is an `Err` carrying no state. The `Chip8.Emu` methods check
  the bound first and leave the state untouched.
- Chip8.Emu.Tick: after a fault it promises nothing about the state. The
  Rust `Emu` has panicked by then, and the process does not continue.
- The panic message of `unimplemented!` is reduced to the fault
  `Unimplemented(op)`, which carries the opcode.
- `get_display` returns a borrowed slice. `Chip8.Emu.Display` returns a copy of
  its contents, so aliasing of the screen by the caller is not modelled.
