# CHIP-8 interpreter core, modelled in Dafny

This project models the core of a CHIP-8 interpreter written in Go: the CPU
(`cpu.go`), the packed 64×32 monochrome framebuffer (`graphics.go`) and the
System that ties them to memory, the 16-key keypad and the delay and sound
timers (`system.go`).

The model has five modules:

- `Words` (words.dfy): `Byte`, `Word` and `Nibble`, the Go `uint8`, `uint16`
  and 4-bit fields as bounded integers, and the bitwise helpers on them.
- `Graphics` (graphics.dfy): the framebuffer as a class with a `bv8` array of
  256 bytes (8 bytes per line, bit 7 is the leftmost pixel) and a dirty flag.
  `draw` is specified by the value functions `Blit`, the buffer after the
  sprite is XORed in, and `Collides`, the hit flag. Both are built row by row
  from `DrawRow` and `RowHit`, which keep both code paths of the source: the
  8-bit path for byte-aligned x, and the little-endian 16-bit pair for the
  others. The loop of `draw` is the method `DrawSprite`.
- `Instructions` (instructions.dfy): the decoder and every instruction as
  pure functions on a `Machine` value. `Decode` mirrors the nested `switch`
  of `step`, `Apply` gives the state after one instruction, and `Exec` is
  the two together. An `Encode` inverse and the instruction-level properties
  are proved about these functions.
- `Cpu` (cpu.dfy): the CPU struct as a class updated in place. `Step` and
  `Cycle` are proved to do exactly what `Exec` says, on a memory array, the
  framebuffer object, the keypad and the timers.
- `Chip8System` (system.dfy): the System struct as a class owning the CPU,
  memory, framebuffer, keypad and timers. `UpdateTimer` is specified with
  the timer arithmetic and the beep.

Behaviour modelled from the code where a reading of the comments would
differ:

- 8XY5 (`subVxVy`, cpu.go:280-287) sets VF to 0 when VX > VY and to 1
  otherwise. The comment on cpu.go:117 describes the opposite polarity. The
  model follows the code (`SubFlag`). 8XY7 uses the same comparison, which
  there does match its comment (`SubnFlag`).
- The flag of every 8XY? operation is written before VX. With X = F the
  result is therefore computed from the new flag (`FlagBeforeResult`), and
  with Y = F the new flag is the operand (`FlagReadAsOperand`).
- `getPixel` returns the masked bit, `1 << (7 - x % 8)` or 0, not 0 or 1.
- In `draw`, `y + r` wraps at 256 as a `uint8`, and nothing wraps the
  coordinates to the screen. An unaligned sprite at the right edge spills
  into the first byte of the next line. A row past the end of the buffer
  is a Go index panic, so it is a precondition (`Fits`).
- 5XY? and 9XY? ignore the low nibble. `Encode(Decode(opc))` clears that
  nibble for them and gives back every other recognised opcode unchanged
  (`EncodeDecode`).
- FX0A with no key down returns the unchanged PC, so the whole machine is
  unchanged and the instruction runs again (`AwaitNoKey`). An unrecognised
  opcode advances PC by 2, the same as `newPC` (`InertOnlyAdvances`).
- FX55 and FX65 leave I where it was.

## Model

| member | source | states |
|---|---|---|
| Graphics.Shift | graphics.go:36 | The shift count is `x % 8`, so it is below 8 and is zero exactly for byte-aligned x. |
| Graphics.Blank | graphics.go:22-27 | The cleared buffer has 256 bytes, every one zero. |
| Graphics.DrawRow | graphics.go:40-56 | Defines one iteration of the row loop: the aligned path XORs the row into one byte, the unaligned path its two shifted parts into that byte and the next. Its meaning is stated by `DrawRowAt` and the `Pair*` lemmas. |
| Graphics.RowHit | graphics.go:40-52 | Defines the hit test of one row on both paths. Its meaning is stated by `RowHitBytes` and `PairAndBytes`. |
| Graphics.Blit | graphics.go:37-57 | Defines the buffer after the first n rows are drawn, one after the other. Stated by `BlitAt`, `DrawOnlyTouches` and `DrawTwiceRestores`. |
| Graphics.Collides | graphics.go:35-57 | Defines the `hit` flag after n rows: some row hit the buffer as that row found it. Stated by `CollidesIff`. |
| Graphics.PairXorBytes | graphics.go:48-54 | XORing `pixel << bit` into the little-endian pair and truncating to the low byte gives the low byte XOR the left part of the row. |
| Graphics.PairXorHighByte | graphics.go:48-55 | The high byte of the 16-bit result is the high byte XOR the bits shifted out of the row. |
| Graphics.PairAndBytes | graphics.go:48-52 | The 16-bit collision test `src & dst != 0` holds iff one of the two bytes overlaps its part of the row. |
| Graphics.RowHitBytes | graphics.go:40-52 | A row hits iff it overlaps the first byte, or, for unaligned x, the byte after it; the 8-bit and 16-bit paths agree. |
| Graphics.ShiftKeepsInk | graphics.go:49 | Shifting a row into 16 bits loses no pixel: the row is nonzero iff one of its two parts is. |
| Graphics.UnalignedPlacement | graphics.go:46-55 | Pixel b of the row lands at bit b + x%8 of the pair: in the first byte when that is below 8, otherwise in the next byte. |
| Graphics.BlitAt | graphics.go:37-57 | Every byte of the buffer after a draw is its old value XOR a mask that depends only on the sprite and its position. |
| Graphics.DrawRowAt | graphics.go:40-56 | Drawing one row changes only the byte it starts in and, for unaligned x, the byte after it. |
| Graphics.MaskUntouched | graphics.go:37-57 | A byte no row writes gets the zero mask. |
| Graphics.RowsDisjoint | graphics.go:39 | Different rows of one sprite start in different bytes, and no row starts in the byte after another row's start. |
| Graphics.MaskOnlyRow | graphics.go:37-57 | A byte that row r writes is changed by row r alone. |
| Graphics.DrawOnlyTouches | graphics.go:37-57 | Bytes the sprite does not cover keep their value. |
| Graphics.DrawTwiceRestores | graphics.go:34-60 | Drawing the same sprite twice at the same place restores the buffer (XOR drawing erases). |
| Graphics.CollidesIff | graphics.go:35-59 | `draw` reports a hit iff some row, when drawn, overlapped a pixel that was set. |
| Graphics.CollidesStep | graphics.go:37-57 | One more row hits iff the earlier rows hit or the new row does. |
| Graphics.EarlierRowsMissLast | graphics.go:37-57 | The earlier rows never write the bytes of a later row, so a later row sees the buffer as it was before the draw. |
| Graphics.RowHitSameBytes | graphics.go:40-52 | Whether a row hits depends only on the one or two bytes it covers. |
| Graphics.BlankNeverCollides | graphics.go:34-60 | A draw on a cleared buffer never reports a hit. |
| Graphics.RedrawCollidesIffInk | graphics.go:34-60 | Redrawing a sprite just drawn on a cleared buffer hits iff the sprite has a nonzero row. |
| Graphics.Graphics.constructor | graphics.go:9-12 | The zero value of the struct: a blank buffer and a clean dirty flag. |
| Graphics.Graphics.IsDirty | graphics.go:14-16 | The result is the dirty flag. |
| Graphics.Graphics.SetDirty | graphics.go:18-20 | Only the dirty flag changes, to the given value. |
| Graphics.Graphics.Clear | graphics.go:22-27 | Every byte of the buffer is zero afterwards and the buffer is dirty. |
| Graphics.Graphics.GetPixel | graphics.go:29-32 | The result is zero iff the pixel's bit is clear, and otherwise it is the pixel's single-bit mask. |
| Graphics.Graphics.Draw | graphics.go:34-60 | The buffer becomes `Blit` of the old buffer, the result is `Collides` of the old buffer, and the buffer is dirty. |
| Graphics.DrawSprite | graphics.go:35-57 | The loop over the rows leaves `Blit` in the buffer and returns `Collides`. |
| Graphics.SpriteRow | graphics.go:37-57 | One iteration extends both the drawn prefix and the hit flag by one row. |
| Graphics.XorRow | graphics.go:38-56 | One row is XORed in as `DrawRow` says and its hit is `RowHit`. |
| Graphics.HitByte | graphics.go:42-44 | The 8-bit path's test is `RowHit`. |
| Graphics.XorByte | graphics.go:45 | The 8-bit path's XOR is `DrawRow`. |
| Graphics.HitPair | graphics.go:48-52 | The 16-bit path's test is `RowHit`. |
| Graphics.XorPair | graphics.go:48-55 | The 16-bit path's XOR and its two byte stores are `DrawRow`. |
| Instructions.Decode | cpu.go:60-198 | Defines the helper that the nested switch of `step` runs for each 16-bit opcode. Stated by `DecodeEncode`, `EncodeDecode` and `DecodeUnknownIff`. |
| Instructions.Exec | cpu.go:56-201 | Defines `step` on a machine value: decode, then apply. Stated by `ExecWellFormed` and the instruction lemmas, and `Cpu.CPU.Step` is proved equal to it. |
| Instructions.Apply | cpu.go:203-360 | Defines the machine after each helper other than FX??, with PC set to the `newPC` that `step` stores. Stated case by case by the lemmas below. |
| Instructions.ApplyFx | cpu.go:362-415 | Defines the machine after each FX?? helper. Stated by `AddIndexFlag`, `FontAddress`, `BcdDigits`, `SpillFillInstructions`, `AwaitNoKey` and `AwaitKeyPressed`. |
| Instructions.AluRegs | cpu.go:255-310 | Defines the register file after each 8XY? helper, with VF written before VX. Stated by `AluFrame`, `AddCarry` to `ShlFlag`, `FlagBeforeResult` and `FlagReadAsOperand`. |
| Instructions.FirstKey | cpu.go:366-375 | Defines the key that the scan of `ldVxK` finds. Stated by `FirstKeyLowest`. |
| Instructions.Spill | cpu.go:405-409 | Defines memory after the FX55 loop. Stated by `SpillAt`. |
| Instructions.Fill | cpu.go:411-415 | Defines the registers after the FX65 loop. Stated by `FillAt`. |
| Instructions.Bcd | cpu.go:399-403 | Defines memory after FX33. Stated by `BcdDigits`. |
| Instructions.Join | cpu.go:60-106 | The family nibble is `opc >> 12` and the low 12 bits are the X, Y and N nibbles. |
| Instructions.Split | cpu.go:60-106 | Taking an opcode apart into the nibbles step masks out and putting it back together gives the opcode; NN and NNN are its low 8 and 12 bits. |
| Instructions.SplitJoin | cpu.go:60-106 | Splitting a joined opcode gives back each nibble. |
| Instructions.DecodeUnknownIff | cpu.go:60-198 | An opcode decodes to unknownOp exactly when the switch reaches one of its unknown cases. |
| Instructions.AluCode | cpu.go:106-124 | Each 8XY? operation has a sub-code that decodes to it. |
| Instructions.FxCode | cpu.go:163-191 | Each FX?? operation has a low byte that decodes to it. |
| Instructions.DecodeLayout | cpu.go:60-198 | Decoding the nibbles an operation is laid out in gives back the operation. |
| Instructions.LayoutDecode | cpu.go:60-198 | Every decoded opcode can be laid out again, and that gives back the nibbles, except the ignored low nibble of 5XY? and 9XY?. |
| Instructions.DecodeEncode | cpu.go:56-198 | Decoding an encoded operation gives back the operation. |
| Instructions.EncodeDecode | cpu.go:56-198 | Encoding a decoded opcode gives back the opcode, with the low nibble cleared for 5XY? and 9XY?. |
| Instructions.InertOnlyAdvances | cpu.go:58-200 | 0NNN other than 00E0/00EE, and every unrecognised opcode, only advance PC by 2. |
| Instructions.JumpIsAbsolute | cpu.go:71-73 | 1NNN sets PC to NNN and changes nothing else. |
| Instructions.JumpOffsetZero | cpu.go:323-325 | BNNN with V0 = 0 is the same as 1NNN. |
| Instructions.JumpOffsetV0 | cpu.go:323-325 | BNNN sets PC to NNN + V0. |
| Instructions.CallThenReturn | cpu.go:207-216 | 2NNN pushes PC+2 and jumps to NNN, and a following 00EE returns to PC+2 with SP restored. |
| Instructions.SkipOnlyMovesPc | cpu.go:226-355 | The six skip instructions change nothing but PC. |
| Instructions.SkipByte | cpu.go:226-238 | 3XNN skips (PC+4) iff VX = NN, and 4XNN iff VX ≠ NN; otherwise PC+2. |
| Instructions.SkipRegister | cpu.go:240-245 | 5XY0 skips iff VX = VY, and 9XY0 (cpu.go:312-317) iff VX ≠ VY. |
| Instructions.SkipKey | cpu.go:343-355 | EX9E skips iff key VX is down, and EXA1 iff it is up. |
| Instructions.AluFrame | cpu.go:255-310 | An 8XY? operation writes only VX and VF. |
| Instructions.LogicKeepsFlag | cpu.go:255-269 | 8XY0 to 8XY3 leave VF alone unless X is F. |
| Instructions.AddCarry | cpu.go:271-278 | After 8XY4, VF and VX hold the 9-bit sum: VF is the carry and VX the low byte. |
| Instructions.SubFlag | cpu.go:280-287 | After 8XY5, VF = 0 iff VX > VY, and adding VY back to VX modulo 256 gives the old VX. |
| Instructions.SubnFlag | cpu.go:298-305 | After 8XY7, VF = 1 iff VY ≥ VX, and VX + old VX ≡ VY modulo 256. |
| Instructions.ShrFlag | cpu.go:293-296 | After 8XY6, VF is the bit shifted out and 2·VX + VF is the old VX. |
| Instructions.ShlFlag | cpu.go:307-310 | After 8XYE, 256·VF + VX is twice the old VX. |
| Instructions.FlagBeforeResult | cpu.go:271-310 | With X = F, for every register file and every Y, VF ends as the new flag combined with VY (or with itself when Y is F). In particular 8FY6 leaves VF = 0. |
| Instructions.FlagReadAsOperand | cpu.go:271-305 | With Y = F and X not F, 8XY4, 8XY5 and 8XY7 combine VX with the new flag, not the old VF. |
| Instructions.AddByteNoFlag | cpu.go:251-253 | 7XNN adds modulo 256 and leaves VF alone unless X is F. |
| Instructions.RandomMasked | cpu.go:327-329 | CXNN stores a byte with no bit outside NN. |
| Instructions.AddIndexFlag | cpu.go:385-393 | FX1E adds VX to I modulo 2^16 (VX read before VF is written, X = F included) and sets VF = 1 iff the new I is above 0xFFF. |
| Instructions.FontAddress | cpu.go:395-397 | FX29 points I at the 5-byte glyph of VX: I is a multiple of 5 and I / 5 = VX. |
| Instructions.BcdDigits | cpu.go:399-403 | FX33 writes three decimal digits of VX, most significant first, and no other memory cell. |
| Instructions.SpillAt | cpu.go:405-409 | FX55 stores V0..VX at I, I+1, … and leaves every other cell. |
| Instructions.FillAt | cpu.go:411-415 | FX65 loads V0..VX from I, I+1, … and leaves the higher registers. |
| Instructions.SpillThenFill | cpu.go:405-415 | Loading back what was just stored gives the registers back. |
| Instructions.SpillFillInstructions | cpu.go:405-415 | FX55 and FX65 as instructions: I does not move, and only the named cells or registers change. |
| Instructions.FirstKeyLowest | cpu.go:366-375 | The key that FX0A finds is the lowest-numbered key that is down. |
| Instructions.AwaitNoKey | cpu.go:366-375 | FX0A with no key down changes nothing, so it runs again on the next cycle. |
| Instructions.AwaitKeyPressed | cpu.go:366-375 | FX0A with a key down stores the lowest such key in VX and advances PC by 2. |
| Instructions.DrawSetsCollisionFlag | cpu.go:331-341 | DXYN XORs the sprite in, marks the screen dirty, keeps I, and sets VF = 1 iff some row hit a set pixel. |
| Instructions.ExecWellFormed | cpu.go:56-201 | Every instruction that runs without a panic keeps the array sizes, and keeps SP within 0..16. |
| Cpu.CPU.constructor | cpu.go:14-22 | The zero value of the struct. |
| Cpu.CPU.Reset | cpu.go:33-48 | PC is the start address 0x200; I, SP and the cycle count are 0; the stack and the registers are cleared. |
| Cpu.CPU.Cycle | cpu.go:50-53 | The state after one cycle is `Exec` of the state before, and the cycle count goes up by one. |
| Cpu.CPU.Step | cpu.go:56-201 | The registers, stack, memory, framebuffer and timers after the step are exactly `Exec` of those before. |
| Cpu.CPU.StepFlow | cpu.go:203-360 | CLS, RET, the calls and jumps, all six skips (3XNN, 4XNN, 5XY0, 9XY0, EX9E, EXA1) and unknownOp, with the returned new PC, are `Apply`. |
| Cpu.CPU.StepRegisters | cpu.go:247-341 | 6XNN, 7XNN, 8XY?, ANNN, CXNN and DXYN, with the returned new PC, are `Apply`. |
| Cpu.CPU.StepAlu | cpu.go:255-310 | The 8XY? helpers leave the register file as `AluRegs` says. |
| Cpu.CPU.StepFx | cpu.go:362-415 | The FX?? helpers, with the returned new PC and timers, are `ApplyFx`. |
| Cpu.CPU.StoreRegisters | cpu.go:405-409 | The FX55 loop leaves memory as `Spill` says. |
| Cpu.CPU.LoadRegisters | cpu.go:411-415 | The FX65 loop leaves the registers as `Fill` says. |
| Cpu.AwaitKey | cpu.go:368-374 | The scan of the keypad returns the first key that is down, or 16. |
| Chip8System.Countdown | system.go:63-68 | One tick takes a nonzero timer down by one and leaves zero at zero. |
| Chip8System.Beeps | system.go:62-72 | Defines the beeps of k successive `UpdateTimer` calls. Stated by `SilentAtZero` and `OneBeep`. |
| Chip8System.SilentAtZero | system.go:66-71 | A sound timer at zero never beeps. |
| Chip8System.OneBeep | system.go:62-72 | From a sound timer of n > 0, any n or more ticks beep exactly once, on tick n. |
| Chip8System.System.constructor | system.go:16-27 | The whole machine is the Go zero value: registers, stack, I, PC, SP, the cycle count, memory of the given size, keys and timers all zero, a blank framebuffer and a clear dirty flag. |
| Chip8System.System.Initialize | system.go:29-40 | The CPU is reset, the framebuffer cleared, every key released and both timers zeroed. Memory is left unspecified. |
| Chip8System.System.Cycle | system.go:58-60 | One CPU cycle on this system's memory, framebuffer, keypad and timers is `Exec`. |
| Chip8System.System.UpdateTimer | system.go:62-72 | Both timers count down and stop at zero; the beep sounds iff the sound timer goes from 1 to 0. |
| Chip8System.System.GetPixel | system.go:86-88 | The framebuffer's masked pixel bit. |
| Chip8System.System.IsDirty | system.go:90-92 | The framebuffer's dirty flag. |
| Chip8System.System.SetDirty | system.go:94-96 | Only the dirty flag changes. |
| Chip8System.System.OnKeyDown | system.go:98-100 | Key k reads 1 and no other key changes. |
| Chip8System.System.OnKeyUp | system.go:102-104 | Key k reads 0 and no other key changes. |

## Left out

- The opcode fetch (`fetchOpcode`), memory clearing, the font and ROM loading. They live in memory.go, which is not part of this model. The opcode at PC is a parameter of `Cycle` and `Step`.
- Chip8System.System.Initialize: promises nothing about memory afterwards, because the clear and the font table live in memory.go, which is not part of this model. The method may write memory, but what it leaves there is not stated.
- Memory's size is a constructor parameter. Every memory index an instruction uses must be in range (`InMemory`), as a Go index panic would otherwise occur.
- `math/rand` is left out: the random byte of CXNN is a parameter.
- `System.Load`, `Terminate` (a channel send), both `Print` methods and the debug output of `ldVxK` and `unknownOp` are left out, because they are I/O. The beep is returned by `UpdateTimer` as a flag instead of being printed.
- Go runtime panics are preconditions of the instructions (`Defined`): stack overflow on 2NNN, underflow on 00EE, a key index VX ≥ 16 on EX9E/EXA1, and memory or framebuffer indices out of range.
- Graphics.Graphics.Draw: takes memory as a sequence value, so drawing from the same array it writes is not modelled. The framebuffer and memory are separate arrays in the source.
- Cpu.CPU.Step: requires memory to be an array apart from the register file and the framebuffer (`Apart`). This holds in the source, where they are distinct struct fields.
- Cpu.CPU.Cycle: the cycle counter is an unbounded integer, so the `int64` wrap-around after 2^63 cycles is not modelled.
- SP is an unbounded integer kept within 0..16. The `uint16` wrap of `SP--` at 0 always ends in the index panic that `Defined` excludes.
- The keypad and the two timers are passed to `Step` as values, and the timers are returned, instead of being reached through a pointer to the System.
