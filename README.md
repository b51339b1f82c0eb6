# CHIP-8 interpreter core, modelled in Dafny

This project models the core of a CHIP-8 interpreter written in Rust. That
core is the `Chip8` machine, its pieces and its terminal front end:

- the program counter, the index register `I` and the call stack;
- sixteen 8-bit registers and 4 KiB of memory with the hex-digit font;
- the fetch/decode/execute `step` and the `run` loop that stops at a
  jump-to-self "halt" instruction;
- the terminal I/O: a 64 x 32 pixel grid with XOR sprite drawing and a
  collision flag, a 16-key keyboard fed by terminal key events, and delay
  and sound timers that count down at 60 Hz.

The model has two layers:

- **A pure layer of values and functions.** `Semantics.Machine` is the whole
  machine state as a value, and `Semantics.Step` / `Semantics.Run` give the
  meaning of one instruction and of the run loop. Every panic of the source
  becomes a `Fault` value, so the error paths are part of the model.
- **An imperative layer of classes.** It mirrors the source's mutable
  objects: `Memory.Mem` over an `array`, `Registers.Regs`,
  `CallStack.Stack`, `Display.Screen`, `Input.Keyboard`,
  `Terminal.TerminalIo` and `Cpu.Chip8`. `Cpu.Chip8` and
  `Terminal.TerminalIo` have an abstraction function `Abs()` that reads
  their state as a value; `Display.Screen` keeps its pixels in a ghost
  `grid` value; `Memory.Mem`, `Registers.Regs`, `CallStack.Stack` and
  `Input.Keyboard` are specified on their fields directly. The methods are
  proved against the pure layer: for example, `Cpu.Chip8.Step` is proved to reach exactly the outcome of
  `Semantics.Step` on the old state.

`Laws` states what the instruction set promises on top of `Semantics`:

- decoding is exhaustive;
- skips, calls and returns behave as specified;
- the ALU sets its flag as specified;
- BCD, block stores and loads round-trip;
- drawing twice restores the screen;
- an interrupted key wait resumes as if it had never been interrupted.

It also proves what `Run` returns on four example programs.

Inputs the source takes from the outside world are parameters instead:

- the random byte of `Cxkk`;
- the terminal events the keyboard reads;
- the clock reading (`now`, in nanoseconds) that the timers use.

## Model

| member | source | states |
|---|---|---|
| Types.WrappingAdd | src/cpu.rs:101 | `wrapping_add` on bytes: the result is congruent to the true sum modulo 256 |
| Types.OverflowingAdd | src/cpu.rs:117 | `overflowing_add`: the byte plus 256 when the carry is set equals the true sum |
| Types.OverflowingSub | src/cpu.rs:122 | `overflowing_sub`: the byte equals the true difference, lifted by 256 exactly when a borrow happened, and the borrow happens exactly when a < b |
| Types.SaturatingSub | src/terminal_io.rs:86-87 | `saturating_sub` subtracts exactly `m` when `m <= a`, and gives 0 when `m > a` |
| Types.AsI8 | src/cpu.rs:208 | the `as i8` cast reinterprets a byte as a signed value congruent to it modulo 256 |
| Types.BitSetEnds | src/cpu.rs:127-128 | bit 0 of a byte is its parity, and bit 7 is set exactly when it is at least 0x80 (the shift flags) |
| Types.MaskedByteWithinMask | src/cpu.rs:154 | a byte ANDed with a mask has no bit outside the mask |
| Memory.Font | src/mem.rs:26 | the flattened font is 16 sprites of 5 rows (80 bytes) |
| Memory.FontAt | src/mem.rs:26 | row r of digit d sits at byte 5d + r of the flattened font |
| Memory.CopyInto | src/mem.rs:23 | `copy_from_slice` into a window: length kept, the window holds the source, every byte outside it unchanged |
| Memory.SpriteOffset | src/cpu.rs:175 | the address of a digit's sprite is inside the font, and the 5 bytes from there are that digit's bitmap |
| Memory.InitialImage | src/mem.rs:18-30 | the initial memory is exactly `LEN` bytes |
| Memory.InitialImageRom | src/mem.rs:22-23 | after `Mem::new`, the ROM sits byte for byte from 0x200 on |
| Memory.InitialImageFont | src/mem.rs:25-27 | after `Mem::new`, row r of digit d sits at address 5d + r |
| Memory.InitialImageZero | src/mem.rs:22 | after `Mem::new`, every byte outside the font and the ROM is zero |
| Memory.FontRegion | src/mem.rs:26-27 | the font fills [0, 0x50), below the ROM start |
| Memory.FirstOutside | src/mem.rs:56-64 | the index a run of accesses from `a` on first panics at is at or past `LEN` and not before `a` |
| Memory.WriteEach | src/cpu.rs:178-186 | a loop of byte writes either writes every byte (exactly when the block fits in memory) or stops at the first index past the end |
| Memory.ReadEach | src/cpu.rs:191-193 | a loop of byte reads either reads the whole block into the registers (exactly when it fits) or stops at the first index past the end |
| Memory.Mem.constructor | src/mem.rs:18-30 | the new memory holds the initial image: font at 0, ROM at 0x200, zeros elsewhere |
| Memory.Mem.Get | src/mem.rs:53-58 | `Index`: reading a byte is allowed only below `LEN` (the source panics past it); `Mem.Set` states what a read returns after a write |
| Memory.Mem.Set | src/mem.rs:61-65 | `IndexMut`: the byte at the index is the new value and every other byte is unchanged |
| Memory.Zeroed | src/mem.rs:22 | a fresh all-zero array of the given length |
| Memory.CopyFromSlice | src/mem.rs:23 | in-place `copy_from_slice` leaves the array equal to `CopyInto` of its old contents |
| Registers.Regs.constructor | src/cpu/regs.rs:14-16 | all sixteen registers start at 0 |
| Registers.Regs.Get | src/cpu/regs.rs:19-25 | `Index`: reading a register is allowed only below 16 (the array index panics past it); `Regs.Set` states what a read returns after a write |
| Registers.Regs.Set | src/cpu/regs.rs:27-31 | `IndexMut`: the indexed register holds the value and the other fifteen are unchanged |
| CallStack.Pushed | src/stack.rs:16-21 | push succeeds exactly below 16 values and appends the value on top, keeping the rest |
| CallStack.Popped | src/stack.rs:24-26 | pop succeeds exactly on a non-empty stack, and the rest plus the popped value is the old stack |
| CallStack.PushThenPop | src/stack.rs:16-26 | a pop right after a successful push returns the pushed value and the old stack |
| CallStack.PushAllOverflow | src/stack.rs:16-21 | pushing many values succeeds exactly when the total stays within 16, and then appends them in order |
| CallStack.PushAllThenPopAll | src/stack.rs:16-26 | popping as many values as were pushed yields them in reverse order and restores the old stack (last in, first out) |
| CallStack.PopAllAppended | src/stack.rs:24-26 | popping k values off `s + xs` with `|xs| = k` yields `xs` reversed and leaves `s` |
| CallStack.Stack.constructor | src/stack.rs:9-13 | a new stack is empty |
| CallStack.Stack.Push | src/stack.rs:16-21 | the method succeeds exactly when `Pushed` does and then holds its result; on overflow the stack is unchanged |
| CallStack.Stack.Pop | src/stack.rs:24-26 | the method fails exactly on an empty stack and otherwise returns the top and keeps the rest, as `Popped` |
| Geometry.InBounds | src/cpu/screen.rs:26-30 | a point is in bounds when 0 <= x < 64 and 0 <= y < 32; `Wrap` always lands in bounds and `WrapInBounds` leaves such points alone |
| Geometry.Wrap | src/cpu/screen.rs:19-24 | `wrap` lands on the grid and moves each coordinate by a multiple of the grid size |
| Geometry.WrapUnique | src/cpu/screen.rs:19-24 | the on-grid point congruent to p is exactly `Wrap(p)` (Euclidean remainder) |
| Geometry.WrapInBounds | src/cpu/screen.rs:19-30 | wrapping an on-grid point leaves it unchanged |
| Geometry.WrapIdempotent | src/cpu/screen.rs:19-24 | wrapping twice is wrapping once |
| Geometry.WrapMinusOne | src/cpu/screen.rs:21-22 | (-1, -1) wraps to the opposite corner (63, 31), not to a negative remainder |
| Geometry.Add | src/cpu/screen.rs:33-41 | point addition is componentwise |
| Geometry.WrappedOriginAddFits | src/terminal_io/screen.rs:29-31 | from a wrapped origin, offsets within a sprite never overflow `i8` |
| Geometry.WrapSignedBytes | src/cpu.rs:208 | two register bytes read as `i8` and wrapped give the bytes' remainders by 64 and 32 |
| Display.Blank | src/terminal_io/screen.rs:16-20 | the blank grid is 32 x 64 with every pixel off |
| Display.Drawn | src/terminal_io/screen.rs:26-54 | drawing toggles exactly the on-grid pixels under set sprite bits (MSB first) and no other pixel |
| Display.DrawnAt | src/terminal_io/screen.rs:31-45 | the on-grid pixel at origin + (dx, dy) toggles exactly when bit 7 - dx of sprite row dy is set |
| Display.DrawTwice | src/terminal_io/screen.rs:26-54 | drawing the same sprite twice at the same place restores the grid |
| Display.RedrawCollides | src/terminal_io/screen.rs:41-53 | redrawing a sprite collides exactly when it covers at least one pixel that was off before the first draw |
| Display.BlankNeverCollides | src/terminal_io/screen.rs:41-53 | nothing drawn on a blank grid collides |
| Display.ClipAtRightEdge | src/terminal_io/screen.rs:33-37 | a full row drawn at x = 60 lights x = 60..63 and does not wrap to the left edge |
| Display.Screen.constructor | src/terminal_io/screen.rs:16-20 | a new screen is blank |
| Display.Screen.Clear | src/terminal_io/screen.rs:22-24 | after `clear` the grid is blank |
| Display.Screen.Flip | src/terminal_io/screen.rs:57-65 | `flip` returns the old pixel, inverts it, and changes nothing else |
| Display.Screen.DrawPixel | src/terminal_io/screen.rs:30-46 | one pass of the inner loop: pixel (dx, dy) is toggled exactly when it is on the grid and its sprite bit is set, and the collision flag records whether a lit pixel was toggled; the loop invariant of `DrawSprite` advances by one pixel |
| Display.Screen.DrawSprite | src/terminal_io/screen.rs:26-54 | the grid becomes `Drawn` of the old grid, and the result is `Collision` exactly when a set bit fell on a lit pixel |
| LegacyScreen.InBounds | src/screen.rs:73-77 | a point is in bounds when 0 <= x < 64 and 0 <= y < 32; `WrappingAdd` always lands in bounds |
| LegacyScreen.WrappingAdd | src/screen.rs:66-71 | `wrapping_add` lands on the grid and is congruent to the plain sum |
| LegacyScreen.WrapsAroundRightEdge | src/screen.rs:66-71 | one step right of the last column is column 0 |
| LegacyScreen.WrappingAddOnGrid | src/screen.rs:66-71 | when the plain sum is on the grid, `wrapping_add` is the plain sum |
| LegacyScreen.Screen.constructor | src/screen.rs:19-23 | a new screen has every pixel off |
| LegacyScreen.Screen.Default | src/screen.rs:45-48 | `default` gives a fresh screen with every pixel off, as `new` does |
| LegacyScreen.Screen.Flip | src/screen.rs:25-37 | `flip` inverts one pixel, reports `Collision` exactly when it was on, and leaves every other pixel |
| Input.WorkmanKeycodeToChip8 | src/terminal_io/keyboard.rs:106-130 | exactly the 32 mapped characters give a key, and every key is at most 0xF |
| Input.KeycodeToChip8 | src/terminal_io/keyboard.rs:76-104 | the active layout is the Workman one |
| Input.CharFor | src/terminal_io/keyboard.rs:106-130 | every one of the 16 keys has a character mapping to it (the map is onto) |
| Input.ShiftedCharsAgree | src/terminal_io/keyboard.rs:106-130 | a letter and its capital, and each digit or punctuation key and its shifted symbol, map to the same key |
| Input.FilterEvent | src/terminal_io/keyboard.rs:42-69 | an event gives a key exactly when it is a character event of a mapped character; press and repeat mean held, release means not held |
| Input.ApplyEvents | src/terminal_io/keyboard.rs:11-19 | applying events keeps 16 key states; which states, is stated by `LastEventDecides` and `UntouchedKeyKept` |
| Input.LastEventDecides | src/terminal_io/keyboard.rs:13-16 | after a batch of events, a key's state is the one given by the last event for it |
| Input.UntouchedKeyKept | src/terminal_io/keyboard.rs:13-16 | a key no event mentions keeps its state |
| Input.FirstRelease | src/terminal_io/keyboard.rs:28-36 | the index found is a release, and no earlier event is one; none is found only when no event is a release |
| Input.ApplyEventsAppend | src/terminal_io/keyboard.rs:13-16 | applying `a + b` is applying `a` then `b` |
| Input.FirstReleaseAppend | src/terminal_io/keyboard.rs:28-36 | when `a` holds no release, the first release of `a + b` is the first of `b`, shifted by `|a|` |
| Input.AwaitRelease | src/terminal_io/keyboard.rs:27-37 | the wait yields a key exactly when `FirstRelease` finds a release (so exactly when some event is one), and keeps 16 key states |
| Input.AwaitResumes | src/terminal_io/keyboard.rs:27-37 | a wait that saw no release in `e1` and goes on over `e2` ends exactly as one wait over `e1 + e2`: same key, same key states |
| Input.Keyboard.constructor | src/terminal_io/keyboard.rs:5-8 | no key is held at the start |
| Input.Keyboard.Update | src/terminal_io/keyboard.rs:11-19 | the key states become `ApplyEvents` of the old states |
| Input.Keyboard.IsKeyPressed | src/terminal_io/keyboard.rs:21-24 | the held state of a key, callable only for keys up to 0xF (the source's assertion) |
| Input.Keyboard.WaitForKeyRelease | src/terminal_io/keyboard.rs:27-37 | consumes events up to and including the first release and returns its key, or consumes all and returns none when no release comes |
| Terminal.TickLength | src/cpu/io.rs:8 | the tick is 10^9 / 60 ns, so 60 ticks fit in one second and 61 do not |
| Terminal.Ticks | src/terminal_io.rs:85-89 | the tick count is the largest n with n whole ticks elapsed by `now` |
| Terminal.Updated | src/terminal_io.rs:77-90 | `update` keeps the grid and keeps the keys and timers well formed; its exact effect is stated by `UpdateCatchesUp` |
| Terminal.UpdateCatchesUp | src/terminal_io.rs:77-90 | after `update` less than one tick remains owed and the last tick moved by whole ticks; each timer is its old value minus the number of ticks, or 0 when that many ticks exceed it; the grid is untouched and the keys are the events applied |
| Terminal.UpdateTwice | src/terminal_io.rs:85-89 | updating at t1 then at t2 leaves the same timers and last tick as updating once at t2 |
| Terminal.TicksUnique | src/terminal_io.rs:85-89 | the tick count is the only count satisfying the catch-up bounds |
| Terminal.TicksSplit | src/terminal_io.rs:85-89 | ticks counted up to t1 plus ticks from there up to t2 are the ticks up to t2 |
| Terminal.TerminalIo.Setup | src/terminal_io.rs:35-50 | blank screen, no key held, both timers 0, clock started now |
| Terminal.TerminalIo.Update | src/terminal_io.rs:77-90 | the event loop and the tick loop leave exactly the state `Updated` describes |
| Terminal.TerminalIo.ClearScreen | src/terminal_io.rs:92-95 | only the grid changes, to blank |
| Terminal.TerminalIo.DrawSprite | src/terminal_io.rs:101-109 | only the grid changes, to `Drawn`, and the result reports a collision exactly when one happened |
| Terminal.TerminalIo.BlockingGetKey | src/terminal_io.rs:115-117 | returns the key of the first release and applies exactly the events consumed |
| Terminal.TerminalIo.IsKeyPressed | src/terminal_io.rs:111-113 | the keyboard's held state of the key, for keys up to 0xF |
| Terminal.TerminalIo.ReadDelayTimer | src/terminal_io.rs:119-121 | the current delay timer; `WriteDelayTimer` proves that it reads back the value written |
| Terminal.TerminalIo.WriteDelayTimer | src/terminal_io.rs:123-125 | the delay timer reads back the written value and nothing else changes |
| Terminal.TerminalIo.WriteSoundTimer | src/terminal_io.rs:127-129 | only the sound timer changes, to the written value |
| Semantics.Initial | src/cpu.rs:27-36 | the machine starts at pc 0x200 with I = 0, an empty stack, zeroed registers and the given I/O |
| Semantics.FromBeBytes | src/cpu.rs:63-65 | the word's high byte is the first byte and its low byte the second |
| Semantics.NibblesFromU16 | src/cpu.rs:230-236 | four nibbles whose big-endian value is the word |
| Semantics.NibblesRoundTrip | src/cpu.rs:230-236 | splitting the word built from four nibbles gives those nibbles back |
| Semantics.Address | src/cpu.rs:71 | the address is the low 12 bits, made of the last three nibbles |
| Semantics.Bcd | src/cpu.rs:217-227 | three decimal digits, hundreds first, whose value is the byte |
| Semantics.BcdRoundTrip | src/cpu.rs:217-227 | the BCD of a number written with three digits is those digits |
| Semantics.AluOp | src/cpu.rs:102-145 | exactly the nine `8xyn` variants are defined; only `8xy0` leaves VF alone, and every flag is 0 or 1 |
| Semantics.Alu | src/cpu.rs:102-145 | the register file keeps 16 registers and is defined exactly for the nine variants |
| Semantics.ExecSystem | src/cpu.rs:74-78 | `00E0` and `00EE` keep the machine well formed and never wait |
| Semantics.Draw | src/cpu.rs:202-212 | drawing keeps the machine well formed and never waits |
| Semantics.ExecKey | src/cpu.rs:156-168 | the key-skip instructions keep the machine well formed and never wait |
| Semantics.WaitKey | src/cpu.rs:171 | a key wait either completes or blocks, and keeps the machine well formed |
| Semantics.ExecMisc | src/cpu.rs:169-197 | the `Fx..` family keeps the machine well formed |
| Semantics.Execute | src/cpu.rs:70-199 | executing a decoded word keeps the machine well formed |
| Semantics.Step | src/cpu.rs:60-200 | a step that does not fault leaves a well-formed machine; the next state of every instruction is stated by a `Laws` lemma (the `...Step` lemmas, the skip, call, ALU, timer, BCD, store, load and wait lemmas) |
| Semantics.WordAt | src/cpu.rs:63-65 | the fetched word is the big-endian pair of bytes at pc |
| Semantics.WouldHalt | src/cpu.rs:53-58 | `would_halt` holds exactly when the word at pc is a `1nnn` jump to pc itself |
| Semantics.HaltIsFixpoint | src/cpu.rs:53-58 | stepping a halt instruction changes nothing |
| Semantics.Run | src/cpu.rs:38-51 | the run ends in a well-formed machine |
| Semantics.RunPass | src/cpu.rs:38-51 | one pass of `run`: a fault stops it, a wait resumes with the next input, and otherwise the I/O is updated before the next pass |
| Cpu.BcdFromU8 | src/cpu.rs:217-227 | the digit loop with the reversal computes the hundreds-first BCD of the byte |
| Cpu.Chip8.constructor | src/cpu.rs:27-36 | the new machine's state is `Initial` of the ROM and the given I/O |
| Cpu.Chip8.WouldHalt | src/cpu.rs:53-58 | the method's answer is the halt test on the abstract state |
| Cpu.Chip8.Run | src/cpu.rs:38-51 | the loop ends as `Semantics.Run` ends and, barring a panic, in its final state |
| Cpu.Chip8.Step | src/cpu.rs:60-200 | the in-place step reaches exactly the outcome of `Semantics.Step` on the old state |
| Cpu.Chip8.RunSystem | src/cpu.rs:74-78 | clear and return in place agree with `Execute` |
| Cpu.Chip8.RunJump | src/cpu.rs:79-83 | `1nnn`, `2nnn` and `Bnnn` in place agree with `Execute` |
| Cpu.Chip8.RunSkip | src/cpu.rs:84-99 | the register and immediate skips in place agree with `Execute` |
| Cpu.Chip8.RunLoad | src/cpu.rs:100-101 | `6xkk`, `7xkk`, `Annn` and `Cxkk` in place agree with `Execute` |
| Cpu.Chip8.RunAlu | src/cpu.rs:102-145 | the `8xyn` family in place agrees with `Execute` |
| Cpu.Chip8.RunDraw | src/cpu.rs:202-212 | `Dxyn` in place agrees with `Execute`, including the sprite range fault |
| Cpu.Chip8.RunKey | src/cpu.rs:156-168 | `Ex9E` and `ExA1` in place agree with `Execute` |
| Cpu.Chip8.RunMisc | src/cpu.rs:169-197 | the `Fx..` family in place agrees with `Execute` |
| Cpu.Chip8.RunWaitKey | src/cpu.rs:171 | the key wait in place agrees with `WaitKey` |
| Cpu.Chip8.RunBcd | src/cpu.rs:176-181 | `Fx33` in place agrees with the pure BCD store |
| Cpu.Chip8.RunStore | src/cpu.rs:182-188 | `Fx55` in place agrees with the pure register store |
| Cpu.Chip8.RunLoadRegs | src/cpu.rs:189-195 | `Fx65` in place agrees with the pure register load |
| Laws.UnimplementedExactly | src/cpu.rs:67 | a step fails as unimplemented exactly when the word is not one of the 34 implemented instruction forms |
| Laws.NonZeroNibbleExactly | src/cpu.rs:94-95 | a step fails on the nibble assertion exactly for `5xyn` and `9xyn` with n != 0 |
| Laws.SkipOnImmediate | src/cpu.rs:84-93 | `3xkk` skips when Vx = kk and `4xkk` when Vx != kk; otherwise pc just advances, and nothing else changes |
| Laws.SkipOnRegisters | src/cpu.rs:94-99 | `5xy0` skips when Vx = Vy and `9xy0` when they differ; nothing else changes |
| Laws.SkipOnKey | src/cpu.rs:156-166 | a key skip panics exactly when Vx > 0xF; otherwise `Ex9E` skips on a held key and `ExA1` on a released one |
| Laws.CallPushesReturnAddress | src/cpu.rs:80-83 | a call faults with overflow exactly on a full stack; otherwise it jumps and pushes the address after the call |
| Laws.ReturnPopsAddress | src/cpu.rs:76 | a return faults with underflow exactly on an empty stack; otherwise it pops the top into pc |
| Laws.CallThenReturn | src/cpu.rs:76-83 | a call to a return instruction comes back to the instruction after the call, with the stack restored |
| Laws.AddCarries | src/cpu.rs:116-120 | `8xy4` stores the sum modulo 256 and sets VF exactly on carry |
| Laws.SubtractBorrows | src/cpu.rs:121-137 | `8xy5` and `8xy7` store the difference modulo 256 and set VF to 1 exactly when there is no borrow |
| Laws.LogicClearsFlag | src/cpu.rs:104-115 | OR, AND and XOR reset VF, and (unless x is VF) leave Vx OR, AND or XOR Vy in Vx |
| Laws.ShiftsReadVy | src/cpu.rs:126-143 | the shifts read Vy, not Vx: VF is the bit shifted out and Vx is Vy shifted |
| Laws.AluTouchesOnlyXAndFlag | src/cpu.rs:102-145 | every `8xyn` leaves registers other than Vx and VF unchanged, and `8xy0` is a plain copy |
| Laws.RandomMasked | src/cpu.rs:154 | `Cxkk` never sets a bit outside kk and changes only Vx and pc |
| Laws.DelayTimerReadsBack | src/cpu.rs:170-172 | `Fx15` followed by `Fy07` copies Vx into Vy |
| Laws.BcdStored | src/cpu.rs:176-181 | `Fx33` faults exactly when the three bytes leave memory; otherwise it writes Vx's decimal digits at I and changes no other byte |
| Laws.StoreRegisters | src/cpu.rs:182-188 | `Fx55` faults exactly when the block leaves memory; otherwise it writes V0..Vx at I, advances I by x + 1, and changes no other byte |
| Laws.LoadRegisters | src/cpu.rs:189-195 | `Fx65` faults exactly when the block leaves memory; otherwise it loads V0..Vx from I, advances I by x + 1, and keeps the other registers |
| Laws.StoreThenLoad | src/cpu.rs:182-195 | loading back a block just stored restores the registers |
| Laws.DigitSpriteInMemory | src/cpu.rs:175 | after boot, the 5 bytes at a digit's sprite address are that digit's bitmap |
| Laws.DrawTwiceRestoresScreen | src/cpu.rs:202-212 | running the same in-range `Dxyn` twice leaves the screen as it was |
| Laws.LoadImmediateStep | src/cpu.rs:100 | `6xkk` sets Vx to kk, advances pc, and changes nothing else |
| Laws.AddImmediateStep | src/cpu.rs:101 | `7xkk` sets Vx to (Vx + kk) mod 256, leaves VF alone, advances pc, and changes nothing else |
| Laws.SetIndexStep | src/cpu.rs:152 | `Annn` sets I to nnn, advances pc, and changes nothing else |
| Laws.ClearScreenStep | src/cpu.rs:75 | `00E0` blanks the grid, advances pc, and changes nothing else |
| Laws.JumpStep | src/cpu.rs:79 | `1nnn` sets pc to nnn and changes nothing else |
| Laws.JumpOffsetStep | src/cpu.rs:153 | `Bnnn` sets pc to nnn + V0, which always fits in `u16`, and changes nothing else |
| Laws.AluStep | src/cpu.rs:102-145 | a defined `8xyn` replaces the registers by the `Alu` result, advances pc, and changes nothing else |
| Laws.DrawStep | src/cpu.rs:155 | `Dxyn` advances pc and then draws the `n` bytes at I at (Vx, Vy), as `Draw` says |
| Laws.TimerSteps | src/cpu.rs:170-173 | `Fx07` copies the delay timer into Vx, `Fx15` and `Fx18` copy Vx into the delay and sound timers; each advances pc and changes nothing else |
| Laws.IndexAddStep | src/cpu.rs:174 | `Fx1E` faults with the overflow exactly when I + Vx passes 0xFFFF, and otherwise adds Vx to I |
| Laws.DigitSpriteStep | src/cpu.rs:175 | `Fx29` faults when Vx > 0xF, and otherwise points I at 5 * Vx, the digit's sprite |
| Laws.WaitStep | src/cpu.rs:171 | `Fx0A` advances pc and then waits for a key release, as `WaitKey` says |
| Laws.OnlyWaitBlocks | src/cpu.rs:171 | only `Fx0A` can leave a step waiting, and only when no release arrived |
| Semantics.WaitKeyAwaits | src/cpu.rs:171 | `Fx0A` stores the key `AwaitRelease` finds and takes its key states, or blocks with `pc` back on the instruction when none is found |
| Semantics.WaitKeyResumes | src/terminal_io/keyboard.rs:27-37 | a key wait given `e1` without a release and then `e2` ends as a wait given `e1 + e2` |
| Laws.WaitResumes | src/cpu.rs:171 | a step left waiting and stepped again with more events ends as one step with all events |
| Laws.IdleUpdate | src/terminal_io.rs:77-90 | an update with no events and no elapsed time changes nothing |
| Laws.RunStopsAtHalt | src/cpu.rs:41-45 | `run` at a halt instruction stops at once and changes nothing |
| Laws.IdlePass | src/cpu.rs:38-51 | an idle pass that does not halt continues from the state the step reaches |
| Laws.Boot | src/mem.rs:18-30 | after boot the ROM sits at 0x200 and the '0' glyph at address 0 |
| Laws.IdleTraceHalts | src/cpu.rs:38-51 | a chain of idle steps ending at a halt makes `run` stop there in the last state |
| Laws.ScenarioA | src/cpu.rs:100-120 | `600A 610B 8014` then halt: V0 = 0x15, V1 = 0x0B, VF = 0 |
| Laws.ScenarioB | src/cpu.rs:152-155 | `A000 D005` then halt: the '0' glyph is drawn at the origin without collision |
| Laws.ScenarioC | src/cpu.rs:76-83 | a call to a subroutine that returns comes back to 0x202 with an empty stack |
| Laws.SelfCallsOverflow | src/stack.rs:16-21 | from k self-calls deep, running on reaches the overflow fault |
| Laws.ScenarioD | src/stack.rs:16-21 | `2200` (call itself) overflows the 16-entry stack on the 17th call |

## Left out

- **Terminal output and modes.** Drawing on the terminal (`render`,
  `DisplayScreen`) is not modelled. Neither are the raw-mode and
  alternate-screen setup and teardown in `setup` and `Drop`, nor the `Debug`
  formatting of the screen, registers and memory (`debug.rs`). They only
  produce terminal output.
- **Randomness.** `get_random_byte` is a parameter (`rand`) of `Step`; the
  model has no random generator.
- **The clock.** `Instant::now` / `elapsed` is a parameter `now`, frozen
  during one `update`.
- **Display-timer sleep.** The `sleep_until` of the display timer inside
  `draw_sprite` is left out, because waiting has no effect on the state.
- **Terminal events.** They are a finite sequence. `event::poll` and
  `event::read` are replaced by reading that sequence. Non-key events and
  key codes other than characters are one `Other` event, which the keyboard
  ignores.
- **Ctrl-C.** The panic on ctrl-c in `filter_event` is not modelled. It
  ends the program, not the interpreter's state.
- **The I/O trait.** `Chip8Io` is not modelled as an interface. `Cpu.Chip8`
  holds the crate's only implementation, `TerminalIo`, directly.
- **Entry points.** `main.rs` and `lib.rs` (argument parsing, reading the
  ROM file) are not part of this model.
- **Cpu.Chip8.Run.** The loop is driven by a finite sequence of inputs, one
  per pass, and ends with `InputExhausted` when they run out before a halt
  or a panic. After a panic the contract says only which fault ended the
  run, not the state, because the source process ends there.
- **Semantics.WaitKey: key waits.** A `blocking_get_key` that finds no
  release among the events given is not modelled as waiting forever. It
  ends the step as `Blocked`, with `pc` back on `Fx0A` and the events
  applied to the keys. The next pass resumes the wait, and
  `Laws.WaitResumes` proves that this is the same as one longer wait. No
  `update` runs after a blocked pass, because in the source the step has
  not returned.
- **Newly pressed keys.** The I/O trait's comment asks for a key that is
  newly pressed and then released. The keyboard code returns on any
  release, and the model follows the code.
- **Panics as faults.** Panics in `step` are `Fault` values that end `run`:
  - out-of-range memory indexes;
  - stack overflow and underflow;
  - the `assert!`s of `draw_sprite`;
  - `is_key_pressed` with a key above 0xF;
  - unimplemented words.
- **`Fx1E` overflow.** When `I + Vx` exceeds `u16`, the model faults
  (`IndexOverflow`), as the overflow check of a debug build does. A release
  build would wrap instead.
- **`Mem::sprite_offset`.** `src/cpu.rs:175` calls it, but `src/mem.rs`
  does not define it. It is modelled as `5 * digit`, the font's layout. A value
  above 0xF, which has no sprite, faults (`NoDigitSprite`).
- **Display.Screen.DrawSprite and Terminal.TerminalIo.DrawSprite.** They
  require that the `i8` additions of `draw_sprite` do not overflow
  (`DrawFits`); the source panics there otherwise. Every `Dxyn` meets
  this: a wrapped origin and at most 15 rows.
- **Scenario programs.** Each program ends with a jump-to-self word, so that
  `run` stops on its own.
- **Scenario B.** `A200` would point I at 0x200, which is the program
  itself; the '0' glyph is at address 0. The example therefore uses `A000`.
- **`src/screen.rs`.** No module of the crate declares it. It is modelled
  as written (`LegacyScreen`), but nothing else uses it.
