/**
 * The interpreter object of src/cpu.rs: `pc`, `i`, the stack, the registers
 * and the memory, changed in place by `step`, and the terminal I/O it drives.
 * Each operation is proved to do what `Semantics` says.
 */
module Cpu {
  import opened Types
  import opened Geometry
  import opened Display
  import opened Input
  import opened Terminal
  import opened Memory
  import opened CallStack
  import opened Registers
  import opened Semantics

  /**
   * `bcd_from_u8`: the digits are collected ones first in a 3-byte array by
   * repeated `% 10` and `/= 10`, and the array is then reversed.
   */
  method BcdFromU8(x: u8) returns (digits: seq<u8>)
    ensures digits == Bcd(x)
  {
    var rest := x;
    var a := new u8[3](_ => 0);
    for k := 0 to 3
      invariant rest == x / Pow10(k)
      invariant forall j :: 0 <= j < k ==> a[j] == (x / Pow10(j)) % 10
    {
      a[k] := rest % 10;
      rest := rest / 10;
      DivTen(x, k);
    }
    a[0], a[2] := a[2], a[0];
    digits := a[..];
    assert (x / 100) % 10 == x / 100;
  }

  function Pow10(k: nat): (p: nat)
    ensures p >= 1
  {
    if k == 0 then 1 else 10 * Pow10(k - 1)
  }

  lemma DivTen(x: u8, k: nat)
    requires k < 3
    ensures (x / Pow10(k)) / 10 == x / Pow10(k + 1)
  {
    if k == 0 {
    } else if k == 1 {
      assert Pow10(1) == 10 && Pow10(2) == 100;
    } else {
      assert Pow10(2) == 100 && Pow10(3) == 1000;
    }
  }

  /** The parts `Chip8::new` assembles make up `Initial`. */
  lemma InitialState(rom: seq<u8>, regs: seq<u8>, bytes: seq<u8>, io: IoState)
    requires RomFits(rom) && IoValid(io)
    requires regs == seq(COUNT, _ => 0) && bytes == InitialImage(rom)
    ensures Machine(ROM_START, 0, [], regs, bytes, io) == Initial(rom, io)
  {
  }

  class Chip8 {
    var pc: u16
    var i: u16
    var stack: Stack
    var v: Regs
    var mem: Mem
    var io: TerminalIo

    ghost predicate Valid()
      reads this, stack, v, mem, io, io.screen, io.screen.rows, io.keyboard
    {
      stack.Valid() && v.Valid() && mem.Valid() && io.Valid() && v.regs != mem.bytes
    }

    /** The state as a value. */
    ghost function Abs(): (m: Machine)
      reads this, stack, v, v.regs, mem, mem.bytes, io, io.screen, io.screen.rows, io.keyboard, io.keyboard.pressed
      requires Valid()
      ensures WellFormed(m)
    {
      Machine(pc, i, stack.values, v.regs[..], mem.bytes[..], io.Abs())
    }

    /** The objects that make up the interpreter are the same ones as before (the screen may have a new pixel array). */
    twostate predicate Kept()
      reads this, v, mem, io, io.screen
    {
      stack == old(stack) && v == old(v) && mem == old(mem) && io == old(io) &&
      v.regs == old(v.regs) && mem.bytes == old(mem.bytes) &&
      io.screen == old(io.screen) && io.keyboard == old(io.keyboard) &&
      (io.screen.rows == old(io.screen.rows) || fresh(io.screen.rows))
    }

    /** `r` is the status of outcome `o`, and unless `o` is a panic the state is `o`'s. */
    ghost predicate Reached(r: Status, o: Outcome)
      reads this, stack, v, v.regs, mem, mem.bytes, io, io.screen, io.screen.rows, io.keyboard, io.keyboard.pressed
      requires Valid()
    {
      r == StatusOf(o) && (!o.Fail? ==> Abs() == o.m)
    }

    /** `Chip8::new`: `pc` at `ROM_START`, `i` zero, empty stack, zeroed registers, memory from `Mem::new`. */
    constructor (rom: seq<u8>, io: TerminalIo)
      requires RomFits(rom) && io.Valid()
      ensures Valid() && this.io == io
      ensures fresh(stack) && fresh(v) && fresh(v.regs) && fresh(mem) && fresh(mem.bytes)
      ensures Abs() == Initial(rom, io.Abs())
    {
      ghost var ioState := io.Abs();
      var s := new Stack();
      var r := new Regs();
      var m := new Mem(rom);
      assert io.Abs() == ioState && io.Valid() && IoValid(ioState);
      pc := ROM_START;
      i := 0;
      stack := s;
      v := r;
      mem := m;
      this.io := io;
      new;
      InitialState(rom, r.regs[..], m.bytes[..], ioState);
    }

    /** `would_halt`: reads the word at `pc`, which must be in memory. */
    function WouldHalt(): (r: bool)
      reads this, stack, v, v.regs, mem, mem.bytes, io, io.screen, io.screen.rows, io.keyboard, io.keyboard.pressed
      requires Valid() && pc + 1 < LEN
      ensures r == Semantics.WouldHalt(Abs())
    {
      var j := mem.Get(pc);
      var k := mem.Get(pc + 1);
      FromBeBytes(j, k) == 0x1000 + pc
    }

    /**
     * `run`, one input per pass: stop at a `would_halt` word, otherwise step
     * and, unless the step is still waiting for a key release, `update` the I/O.
     */
    method Run(inputs: seq<Pass>) returns (end: RunEnd)
      requires Valid()
      modifies this, stack, v.regs, mem.bytes, io, io.screen, io.screen.rows, io.keyboard.pressed
      ensures Valid() && Kept()
      ensures end == Semantics.Run(old(Abs()), inputs).0
      ensures !end.Panic? ==> Abs() == Semantics.Run(old(Abs()), inputs).1
    {
      var k := 0;
      while true
        invariant 0 <= k <= |inputs|
        invariant Valid() && Kept()
        invariant Semantics.Run(old(Abs()), inputs) == Semantics.Run(Abs(), inputs[k..])
        decreases |inputs| - k
      {
        if pc >= LEN {
          return Panic(OutOfBounds(pc));
        }
        if pc + 1 >= LEN {
          return Panic(OutOfBounds(pc + 1));
        }
        if WouldHalt() {
          return Halt;
        }
        if k == |inputs| {
          return InputExhausted;
        }
        assert inputs[k..][0] == inputs[k] && inputs[k..][1..] == inputs[k + 1..];
        RunPass(Abs(), inputs[k..]);
        var status := Step(inputs[k].rand, inputs[k].events);
        match status {
          case Faulted(f) =>
            return Panic(f);
          case Waiting =>
          case Running =>
            io.Update(inputs[k].now, inputs[k].pending);
        }
        k := k + 1;
      }
    }

    /** `step`: one fetch, decode and execute, as `Semantics.Step` describes. */
    method Step(rand: u8, events: seq<Event>) returns (r: Status)
      requires Valid()
      modifies this, stack, v.regs, mem.bytes, io, io.screen, io.screen.rows, io.keyboard.pressed
      ensures Valid() && Kept()
      ensures Reached(r, Semantics.Step(old(Abs()), rand, events))
    {
      if pc >= LEN {
        return Faulted(OutOfBounds(pc));
      }
      if pc + 1 >= LEN {
        return Faulted(OutOfBounds(pc + 1));
      }
      var j := mem.Get(pc);
      var k := mem.Get(pc + 1);
      var word := FromBeBytes(j, k);
      var oldPc := pc;
      pc := pc + 2;
      assert Abs() == old(Abs()).(pc := oldPc + 2);
      var op := NibblesFromU16(word)[0];
      if op == 0x0 {
        r := RunSystem(oldPc, word, rand, events);
      } else if op == 0x1 || op == 0x2 || op == 0xB {
        r := RunJump(oldPc, word, rand, events);
      } else if op == 0x3 || op == 0x4 || op == 0x5 || op == 0x9 {
        r := RunSkip(oldPc, word, rand, events);
      } else if op == 0x6 || op == 0x7 || op == 0xA || op == 0xC {
        r := RunLoad(oldPc, word, rand, events);
      } else if op == 0x8 {
        r := RunAlu(oldPc, word, rand, events);
      } else if op == 0xD {
        r := RunDraw(oldPc, word, rand, events);
      } else if op == 0xE {
        r := RunKey(oldPc, word, rand, events);
      } else {
        r := RunMisc(oldPc, word, rand, events);
      }
    }

    /** `0x0...`: clear the screen, return from a subroutine, or `err()`. */
    method RunSystem(oldPc: u16, word: u16, rand: u8, events: seq<Event>) returns (r: Status)
      requires Valid() && oldPc + 1 < LEN && pc == oldPc + 2
      requires NibblesFromU16(word)[0] == 0x0
      modifies this, stack, io.screen
      ensures Valid() && Kept()
      ensures Reached(r, Execute(old(Abs()), oldPc, word, rand, events))
    {
      if word == 0x00E0 {
        io.ClearScreen();
        return Running;
      } else if word == 0x00EE {
        var top := stack.Pop();
        match top {
          case None => return Faulted(StackUnderflow);
          case Some(t) =>
            pc := t;
            return Running;
        }
      }
      return Faulted(Unimplemented(word, oldPc));
    }

    /** `1nnn` jumps, `2nnn` calls (pushing the return address), `Bnnn` jumps to `nnn + V0`. */
    method RunJump(oldPc: u16, word: u16, rand: u8, events: seq<Event>) returns (r: Status)
      requires Valid() && oldPc + 1 < LEN && pc == oldPc + 2
      requires NibblesFromU16(word)[0] in {0x1, 0x2, 0xB}
      modifies this, stack
      ensures Valid() && Kept()
      ensures Reached(r, Execute(old(Abs()), oldPc, word, rand, events))
    {
      var op := NibblesFromU16(word)[0];
      var addr := Address(word);
      if op == 0x1 {
        pc := addr;
      } else if op == 0x2 {
        var ok := stack.Push(pc);
        if !ok {
          return Faulted(StackOverflow);
        }
        pc := addr;
      } else {
        pc := addr + v.Get(0);
      }
      return Running;
    }

    /** `3xkk`, `4xkk`, `5xy0`, `9xy0`: skip the next instruction on (in)equality. */
    method RunSkip(oldPc: u16, word: u16, rand: u8, events: seq<Event>) returns (r: Status)
      requires Valid() && oldPc + 1 < LEN && pc == oldPc + 2
      requires NibblesFromU16(word)[0] in {0x3, 0x4, 0x5, 0x9}
      modifies this
      ensures Valid() && Kept()
      ensures Reached(r, Execute(old(Abs()), oldPc, word, rand, events))
    {
      var nib := NibblesFromU16(word);
      var op, x, y, n := nib[0], nib[1], nib[2], nib[3];
      var kk := word % 0x100;
      if (op == 0x5 || op == 0x9) && n != 0 {
        return Faulted(NonZeroNibble(word, oldPc));
      }
      var skip := if op == 0x3 then v.Get(x) == kk
        else if op == 0x4 then v.Get(x) != kk
        else if op == 0x5 then v.Get(x) == v.Get(y)
        else v.Get(x) != v.Get(y);
      if skip {
        pc := pc + 2;
      }
      return Running;
    }

    /** `6xkk`, `7xkk`, `Annn`, `Cxkk`: load or add a constant, set `i`, or a random byte masked by `kk`. */
    method RunLoad(oldPc: u16, word: u16, rand: u8, events: seq<Event>) returns (r: Status)
      requires Valid() && oldPc + 1 < LEN && pc == oldPc + 2
      requires NibblesFromU16(word)[0] in {0x6, 0x7, 0xA, 0xC}
      modifies this, v.regs
      ensures Valid() && Kept()
      ensures Reached(r, Execute(old(Abs()), oldPc, word, rand, events))
    {
      var nib := NibblesFromU16(word);
      var op, x := nib[0], nib[1];
      var kk := word % 0x100;
      if op == 0x6 {
        v.Set(x, kk);
      } else if op == 0x7 {
        v.Set(x, WrappingAdd(v.Get(x), kk));
      } else if op == 0xA {
        i := Address(word);
      } else {
        v.Set(x, BitAnd(rand, kk));
      }
      return Running;
    }

    /** `8xyn`: the register-to-register arithmetic and logic; VF is written after `Vx`. */
    method RunAlu(oldPc: u16, word: u16, rand: u8, events: seq<Event>) returns (r: Status)
      requires Valid() && oldPc + 1 < LEN && pc == oldPc + 2
      requires NibblesFromU16(word)[0] == 0x8
      modifies v.regs
      ensures Valid() && Kept()
      ensures Reached(r, Execute(old(Abs()), oldPc, word, rand, events))
    {
      var nib := NibblesFromU16(word);
      var x, y, n := nib[1], nib[2], nib[3];
      match AluOp(v.Get(x), v.Get(y), n) {
        case None =>
          return Faulted(Unimplemented(word, oldPc));
        case Some((value, flag)) =>
          v.Set(x, value);
          if flag.Some? {
            v.Set(0xF, flag.value);
          }
          return Running;
      }
    }

    /** `Dxyn` (`draw_sprite`): draw the `n` bytes at `i` at `(Vx, Vy)` wrapped; VF is the collision. */
    method RunDraw(oldPc: u16, word: u16, rand: u8, events: seq<Event>) returns (r: Status)
      requires Valid() && oldPc + 1 < LEN && pc == oldPc + 2
      requires NibblesFromU16(word)[0] == 0xD
      modifies v.regs, io.screen, io.screen.rows
      ensures Valid() && Kept()
      ensures Reached(r, Execute(old(Abs()), oldPc, word, rand, events))
    {
      var nib := NibblesFromU16(word);
      var x, y, n := nib[1], nib[2], nib[3];
      assert Execute(Abs(), oldPc, word, rand, events) == Draw(Abs(), x, y, n);
      if i + n > LEN {
        return Faulted(SpriteOutOfRange);
      }
      var xy := Wrap(Point(AsI8(v.Get(x)), AsI8(v.Get(y))));
      var sprite := mem.bytes[i .. i + n];
      ghost var before := Abs();
      var collision := io.DrawSprite(xy, sprite);
      v.Set(0xF, if collision == Collision then 1 else 0);
      assert Abs() == before.(io := before.io.(grid := Drawn(before.io.grid, xy, sprite)),
                              v := before.v[0xF := if collision == Collision then 1 else 0]);
      return Running;
    }

    /** `Ex9E` / `ExA1`: skip if key `Vx` is (not) held. */
    method RunKey(oldPc: u16, word: u16, rand: u8, events: seq<Event>) returns (r: Status)
      requires Valid() && oldPc + 1 < LEN && pc == oldPc + 2
      requires NibblesFromU16(word)[0] == 0xE
      modifies this
      ensures Valid() && Kept()
      ensures Reached(r, Execute(old(Abs()), oldPc, word, rand, events))
    {
      var x := NibblesFromU16(word)[1];
      var kk := word % 0x100;
      if kk == 0x9E || kk == 0xA1 {
        var key := v.Get(x);
        if key > 0x0F {
          return Faulted(KeyOutOfRange(key));
        }
        var down := io.IsKeyPressed(key);
        if (kk == 0x9E && down) || (kk == 0xA1 && !down) {
          pc := pc + 2;
        }
        return Running;
      }
      return Faulted(Unimplemented(word, oldPc));
    }

    /** `Fx..`: timers, key wait, `i` arithmetic, digit sprites, BCD and register block moves. */
    method RunMisc(oldPc: u16, word: u16, rand: u8, events: seq<Event>) returns (r: Status)
      requires Valid() && oldPc + 1 < LEN && pc == oldPc + 2
      requires NibblesFromU16(word)[0] == 0xF
      modifies this, v.regs, mem.bytes, io, io.keyboard.pressed
      ensures Valid() && Kept()
      ensures Reached(r, Execute(old(Abs()), oldPc, word, rand, events))
    {
      var x := NibblesFromU16(word)[1];
      var kk := word % 0x100;
      assert Execute(Abs(), oldPc, word, rand, events) == ExecMisc(Abs(), oldPc, word, x, kk, events);
      if kk == 0x07 {
        v.Set(x, io.ReadDelayTimer());
      } else if kk == 0x0A {
        r := RunWaitKey(oldPc, x, events);
        return;
      } else if kk == 0x15 {
        io.WriteDelayTimer(v.Get(x));
      } else if kk == 0x18 {
        io.WriteSoundTimer(v.Get(x));
      } else if kk == 0x1E {
        if i + v.Get(x) >= 0x1_0000 {
          return Faulted(IndexOverflow);
        }
        i := i + v.Get(x);
      } else if kk == 0x29 {
        var digit := v.Get(x);
        if digit > 0xF {
          return Faulted(NoDigitSprite(digit));
        }
        i := SpriteOffset(digit);
      } else if kk == 0x33 {
        r := RunBcd(oldPc, word, x, events);
        return;
      } else if kk == 0x55 {
        r := RunStore(oldPc, word, x, events);
        return;
      } else if kk == 0x65 {
        r := RunLoadRegs(oldPc, word, x, events);
        return;
      } else {
        return Faulted(Unimplemented(word, oldPc));
      }
      return Running;
    }

    /** `Fx0A`: wait for a key release and store the key; `Waiting`, with `pc` back on this instruction, if none comes. */
    method RunWaitKey(oldPc: u16, x: nibble, events: seq<Event>) returns (r: Status)
      requires Valid()
      modifies this, v.regs, io.keyboard.pressed
      ensures Valid() && Kept()
      ensures Reached(r, WaitKey(old(Abs()), oldPc, x, events))
    {
      var key, used := io.BlockingGetKey(events);
      match key {
        case None =>
          assert events[..used] == events;
          pc := oldPc;
          return Waiting;
        case Some(k) =>
          v.Set(x, k);
          return Running;
      }
    }

    /** `Fx33`: the decimal digits of `Vx` go to `i`, `i + 1`, `i + 2`, each index checked as it is written. */
    method RunBcd(oldPc: u16, word: u16, x: nibble, events: seq<Event>) returns (r: Status)
      requires Valid()
      modifies mem.bytes
      ensures Valid() && Kept()
      ensures Reached(r, ExecMisc(old(Abs()), oldPc, word, x, 0x33, events))
    {
      var bcd := BcdFromU8(v.Get(x));
      var fault := WriteEach(mem.bytes, i, bcd);
      if fault.Some? {
        return Faulted(OutOfBounds(fault.value));
      }
      return Running;
    }

    /** `Fx55`: `V0..=Vx` go to memory from `i`, each index checked as it is written; then `i` moves past them. */
    method RunStore(oldPc: u16, word: u16, x: nibble, events: seq<Event>) returns (r: Status)
      requires Valid()
      modifies this, mem.bytes
      ensures Valid() && Kept()
      ensures Reached(r, ExecMisc(old(Abs()), oldPc, word, x, 0x55, events))
    {
      var fault := WriteEach(mem.bytes, i, v.regs[..x + 1]);
      if fault.Some? {
        return Faulted(OutOfBounds(fault.value));
      }
      i := i + x + 1;
      return Running;
    }

    /** `Fx65`: memory from `i` goes to `V0..=Vx`, each index checked as it is read; then `i` moves past it. */
    method RunLoadRegs(oldPc: u16, word: u16, x: nibble, events: seq<Event>) returns (r: Status)
      requires Valid()
      modifies this, v.regs
      ensures Valid() && Kept()
      ensures Reached(r, ExecMisc(old(Abs()), oldPc, word, x, 0x65, events))
    {
      var fault := ReadEach(mem.bytes, i, v.regs, x + 1);
      if fault.Some? {
        return Faulted(OutOfBounds(fault.value));
      }
      i := i + x + 1;
      return Running;
    }
  }
}
