/**
 * Properties of the instruction semantics: which words are instructions,
 * how each family changes the machine, round trips between instructions,
 * and the end-to-end behaviour of small programs run from power-on.
 */
module Laws {
  import opened Types
  import opened Geometry
  import opened Display
  import opened Input
  import opened Terminal
  import opened Memory
  import opened CallStack
  import Registers
  import opened Semantics

  /** The nibbles of the word at `pc`. */
  function Decoded(m: Machine): (nib: seq<nibble>)
    requires WellFormed(m) && m.pc + 1 < LEN
    ensures |nib| == 4
  {
    NibblesFromU16(WordAt(m))
  }

  /*
   * Decoding
   */

  /** The instruction set of `step` as a table of words, independent of how `step` dispatches. */
  predicate Implemented(w: u16)
  {
    var op, n, kk := w / 0x1000, w % 0x10, w % 0x100;
    || w == 0x00E0 || w == 0x00EE
    || op in {0x1, 0x2, 0x3, 0x4, 0x5, 0x6, 0x7, 0x9, 0xA, 0xB, 0xC, 0xD}
    || (op == 0x8 && n in {0x0, 0x1, 0x2, 0x3, 0x4, 0x5, 0x6, 0x7, 0xE})
    || (op == 0xE && kk in {0x9E, 0xA1})
    || (op == 0xF && kk in {0x07, 0x0A, 0x15, 0x18, 0x1E, 0x29, 0x33, 0x55, 0x65})
  }

  /** `err()` is reached exactly for the words outside the instruction set. */
  lemma UnimplementedExactly(m: Machine, rand: u8, events: seq<Event>)
    requires WellFormed(m) && m.pc + 1 < LEN
    ensures Step(m, rand, events) == Fail(Unimplemented(WordAt(m), m.pc)) <==> !Implemented(WordAt(m))
  {
    var w := WordAt(m);
    assert Decoded(m)[0] == w / 0x1000 && Decoded(m)[3] == w % 0x10;
  }

  /** The `assert_eq!(n, 0)` of `5xyn` and `9xyn` fails exactly for a non-zero last nibble. */
  lemma NonZeroNibbleExactly(m: Machine, rand: u8, events: seq<Event>)
    requires WellFormed(m) && m.pc + 1 < LEN
    ensures Step(m, rand, events) == Fail(NonZeroNibble(WordAt(m), m.pc)) <==>
      Decoded(m)[0] in {0x5, 0x9} && Decoded(m)[3] != 0
  {
  }

  /*
   * Control flow
   */

  /** `3xkk` and `4xkk` skip (move `pc` by 4) exactly when `Vx == kk`, resp. `Vx != kk`; nothing else changes. */
  lemma SkipOnImmediate(m: Machine, rand: u8, events: seq<Event>)
    requires WellFormed(m) && m.pc + 1 < LEN && Decoded(m)[0] in {0x3, 0x4}
    ensures var equal := m.v[Decoded(m)[1]] == WordAt(m) % 0x100;
      Step(m, rand, events) == Next(m.(pc := m.pc + if equal == (Decoded(m)[0] == 0x3) then 4 else 2))
  {
  }

  /** `5xy0` and `9xy0` skip exactly when `Vx == Vy`, resp. `Vx != Vy`; nothing else changes. */
  lemma SkipOnRegisters(m: Machine, rand: u8, events: seq<Event>)
    requires WellFormed(m) && m.pc + 1 < LEN && Decoded(m)[0] in {0x5, 0x9} && Decoded(m)[3] == 0
    ensures var equal := m.v[Decoded(m)[1]] == m.v[Decoded(m)[2]];
      Step(m, rand, events) == Next(m.(pc := m.pc + if equal == (Decoded(m)[0] == 0x5) then 4 else 2))
  {
  }

  /** `2nnn` fails exactly on a full stack; otherwise it pushes the address after it and jumps. */
  lemma CallPushesReturnAddress(m: Machine, rand: u8, events: seq<Event>)
    requires WellFormed(m) && m.pc + 1 < LEN && Decoded(m)[0] == 0x2
    ensures Step(m, rand, events).Fail? <==> |m.stack| == CAPACITY
    ensures Step(m, rand, events).Fail? ==> Step(m, rand, events).fault == StackOverflow
    ensures Step(m, rand, events).Next? ==>
      Step(m, rand, events).m == m.(pc := Address(WordAt(m)), stack := m.stack + [m.pc + 2])
  {
  }

  /** `00EE` fails exactly on an empty stack; otherwise it pops the last address into `pc`. */
  lemma ReturnPopsAddress(m: Machine, rand: u8, events: seq<Event>)
    requires WellFormed(m) && m.pc + 1 < LEN && WordAt(m) == 0x00EE
    ensures Step(m, rand, events).Fail? <==> m.stack == []
    ensures Step(m, rand, events).Fail? ==> Step(m, rand, events).fault == StackUnderflow
    ensures Step(m, rand, events).Next? ==>
      Step(m, rand, events).m == m.(pc := m.stack[|m.stack| - 1], stack := m.stack[..|m.stack| - 1])
  {
  }

  /** A call to a subroutine that returns at once continues after the call, with the stack as before. */
  lemma CallThenReturn(m: Machine, rand: u8, events: seq<Event>)
    requires WellFormed(m) && m.pc + 1 < LEN && Decoded(m)[0] == 0x2 && |m.stack| < CAPACITY
    requires Address(WordAt(m)) + 1 < LEN
    requires m.mem[Address(WordAt(m))] == 0x00 && m.mem[Address(WordAt(m)) + 1] == 0xEE
    ensures Step(m, rand, events).Next?
    ensures Step(Step(m, rand, events).m, rand, events) == Next(m.(pc := m.pc + 2))
  {
    CallPushesReturnAddress(m, rand, events);
    var m1 := Step(m, rand, events).m;
    assert WordAt(m1) == 0x00EE;
    ReturnPopsAddress(m1, rand, events);
    assert m1.stack[..|m1.stack| - 1] == m.stack;
  }

  /*
   * Arithmetic and logic (`8xyn`)
   */

  /** `8xy4`: `Vx` is the sum modulo 256 and VF the carry out of it. */
  lemma AddCarries(v: seq<u8>, x: nibble, y: nibble)
    requires |v| == Registers.COUNT
    ensures var r := Alu(v, x, y, 0x4).value;
      r[0xF] == (if v[x] as int + v[y] as int > 0xFF then 1 else 0) && (x != 0xF ==> r[x] == (v[x] as int + v[y] as int) % 0x100)
  {
  }

  /** `8xy5` and `8xy7`: the difference modulo 256, and VF set exactly when nothing was borrowed. */
  lemma SubtractBorrows(v: seq<u8>, x: nibble, y: nibble)
    requires |v| == Registers.COUNT
    ensures var r := Alu(v, x, y, 0x5).value;
      r[0xF] == (if v[x] >= v[y] then 1 else 0) && (x != 0xF ==> r[x] == (v[x] as int - v[y] as int) % 0x100)
    ensures var r := Alu(v, x, y, 0x7).value;
      r[0xF] == (if v[y] >= v[x] then 1 else 0) && (x != 0xF ==> r[x] == (v[y] as int - v[x] as int) % 0x100)
  {
  }

  /**
   * `8xy1`, `8xy2`, `8xy3` reset VF and, unless `x` is VF itself, leave in `Vx`
   * the bitwise OR, AND or XOR of `Vx` and `Vy`.
   */
  lemma LogicClearsFlag(v: seq<u8>, x: nibble, y: nibble, n: nibble)
    requires |v| == Registers.COUNT && n in {0x1, 0x2, 0x3}
    ensures Alu(v, x, y, n).value[0xF] == 0
    ensures x != 0xF ==>
      Alu(v, x, y, n).value[x] == (if n == 0x1 then BitOr(v[x], v[y]) else if n == 0x2 then BitAnd(v[x], v[y]) else BitXor(v[x], v[y]))
  {
  }

  /** `8xy6` and `8xyE` shift `Vy` (not `Vx`) into `Vx`; VF is the bit shifted out. */
  lemma ShiftsReadVy(v: seq<u8>, x: nibble, y: nibble)
    requires |v| == Registers.COUNT
    ensures var r := Alu(v, x, y, 0x6).value;
      r[0xF] == v[y] % 2 && (x != 0xF ==> r[x] == v[y] / 2)
    ensures var r := Alu(v, x, y, 0xE).value;
      r[0xF] == v[y] / 0x80 && (x != 0xF ==> r[x] == (2 * v[y] as int) % 0x100)
  {
    BitSetEnds(v[y]);
  }

  /** Every `8xyn` changes `Vx` and VF at most; `8xy0` leaves VF alone. */
  lemma AluTouchesOnlyXAndFlag(v: seq<u8>, x: nibble, y: nibble, n: nibble)
    requires |v| == Registers.COUNT && Alu(v, x, y, n).Some?
    ensures forall j :: 0 <= j < Registers.COUNT && j != x && j != 0xF ==> Alu(v, x, y, n).value[j] == v[j]
    ensures n == 0x0 ==> Alu(v, x, y, n).value == v[x := v[y]]
  {
  }

  /*
   * Other instructions
   */

  /** `Cxkk`: the new `Vx` has no bit outside `kk`, and nothing else but `pc` changes. */
  lemma RandomMasked(m: Machine, rand: u8, events: seq<Event>)
    requires WellFormed(m) && m.pc + 1 < LEN && Decoded(m)[0] == 0xC
    ensures Step(m, rand, events).Next?
    ensures var r := Step(m, rand, events).m; var x := Decoded(m)[1];
      BitAnd(r.v[x], BitNot(WordAt(m) % 0x100)) == 0 && r == m.(pc := m.pc + 2, v := m.v[x := r.v[x]])
  {
    MaskedByteWithinMask(rand, WordAt(m) % 0x100);
  }

  /** `Fx15` then `Fy07`: with no timer tick in between, `Vy` reads back what `Vx` held. */
  lemma DelayTimerReadsBack(m: Machine, x: nibble, y: nibble, rand: u8, events: seq<Event>)
    requires WellFormed(m) && m.pc + 3 < LEN
    requires m.mem[m.pc] == 0xF0 + x && m.mem[m.pc + 1] == 0x15
    requires m.mem[m.pc + 2] == 0xF0 + y && m.mem[m.pc + 3] == 0x07
    ensures Step(m, rand, events).Next?
    ensures var m1 := Step(m, rand, events).m;
      Step(m1, rand, events).Next? && Step(m1, rand, events).m.v[y] == m.v[x]
  {
    var m1 := Step(m, rand, events).m;
    assert m1 == m.(pc := m.pc + 2, io := m.io.(dt := m.v[x]));
    assert WordAt(m1) == 0xF007 + 0x100 * y;
  }

  /** `Fx33` fails exactly when a digit would fall past memory; otherwise it writes the three decimal digits of `Vx` at `i` and nothing else. */
  lemma BcdStored(m: Machine, rand: u8, events: seq<Event>)
    requires WellFormed(m) && m.pc + 1 < LEN && Decoded(m)[0] == 0xF && WordAt(m) % 0x100 == 0x33
    ensures Step(m, rand, events).Next? <==> m.i + 3 <= LEN
    ensures Step(m, rand, events).Fail? ==> Step(m, rand, events).fault == OutOfBounds(FirstOutside(m.i))
    ensures Step(m, rand, events).Next? ==>
      var mem := Step(m, rand, events).m.mem;
      && mem[m.i] <= 9 && mem[m.i + 1] <= 9 && mem[m.i + 2] <= 9
      && 100 * mem[m.i] + 10 * mem[m.i + 1] + mem[m.i + 2] == m.v[Decoded(m)[1]]
      && forall a :: 0 <= a < LEN && !(m.i <= a < m.i + 3) ==> mem[a] == m.mem[a]
  {
  }

  /** `Fx55` writes `V0..=Vx` from `i` on and moves `i` past them; memory elsewhere is unchanged. */
  lemma StoreRegisters(m: Machine, rand: u8, events: seq<Event>)
    requires WellFormed(m) && m.pc + 1 < LEN && Decoded(m)[0] == 0xF && WordAt(m) % 0x100 == 0x55
    ensures Step(m, rand, events).Next? <==> m.i + Decoded(m)[1] < LEN
    ensures Step(m, rand, events).Fail? ==> Step(m, rand, events).fault == OutOfBounds(FirstOutside(m.i))
    ensures Step(m, rand, events).Next? ==>
      var r := Step(m, rand, events).m; var x := Decoded(m)[1];
      && r.i == m.i + x + 1 && r.v == m.v
      && (forall k :: 0 <= k <= x ==> r.mem[m.i + k] == m.v[k])
      && (forall a :: 0 <= a < LEN && !(m.i <= a <= m.i + x) ==> r.mem[a] == m.mem[a])
  {
  }

  /** `Fx65` reads `V0..=Vx` from `i` on and moves `i` past them; the other registers are unchanged. */
  lemma LoadRegisters(m: Machine, rand: u8, events: seq<Event>)
    requires WellFormed(m) && m.pc + 1 < LEN && Decoded(m)[0] == 0xF && WordAt(m) % 0x100 == 0x65
    ensures Step(m, rand, events).Next? <==> m.i + Decoded(m)[1] < LEN
    ensures Step(m, rand, events).Fail? ==> Step(m, rand, events).fault == OutOfBounds(FirstOutside(m.i))
    ensures Step(m, rand, events).Next? ==>
      var r := Step(m, rand, events).m; var x := Decoded(m)[1];
      && r.i == m.i + x + 1 && r.mem == m.mem
      && (forall k :: 0 <= k <= x ==> r.v[k] == m.mem[m.i + k])
      && (forall k :: x < k < Registers.COUNT ==> r.v[k] == m.v[k])
  {
  }

  /** Loading the registers just stored (`Fx55`, then `Fx65` from the same `i`) gives them back. */
  lemma StoreThenLoad(mem: seq<u8>, v: seq<u8>, i: nat, x: nibble)
    requires |mem| == LEN && |v| == Registers.COUNT && i + x < LEN
    ensures CopyInto(v, 0, CopyInto(mem, i, v[..x + 1])[i .. i + x + 1]) == v
  {
    var stored := CopyInto(mem, i, v[..x + 1]);
    var back := CopyInto(v, 0, stored[i .. i + x + 1]);
    forall k | 0 <= k < |v|
      ensures back[k] == v[k]
    {
      if k <= x {
        assert stored[i + k] == v[k];
      }
    }
  }

  /** After power-on, `Fx29`'s address for digit `d` holds the five rows of that digit's sprite. */
  lemma DigitSpriteInMemory(rom: seq<u8>, d: u8)
    requires RomFits(rom) && d <= 0xF
    ensures InitialImage(rom)[SpriteOffset(d) .. SpriteOffset(d) + DIGIT_ROWS] == DIGITS[d]
  {
    var a := SpriteOffset(d);
    FontRegion();
    forall r | 0 <= r < DIGIT_ROWS
      ensures InitialImage(rom)[a + r] == DIGITS[d][r]
    {
    }
  }

  /** `Dxyn` twice from the same state, with neither coordinate in VF, leaves the screen as it was. */
  lemma DrawTwiceRestoresScreen(m: Machine, rand: u8, events: seq<Event>)
    requires WellFormed(m) && m.pc + 1 < LEN && Decoded(m)[0] == 0xD
    requires Decoded(m)[1] != 0xF && Decoded(m)[2] != 0xF && m.i + Decoded(m)[3] <= LEN
    ensures Step(m, rand, events).Next?
    ensures var again := Step(m, rand, events).m.(pc := m.pc);
      Step(again, rand, events).Next? && Step(again, rand, events).m.io.grid == m.io.grid
  {
    var nib := Decoded(m);
    var origin := Wrap(Point(AsI8(m.v[nib[1]]), AsI8(m.v[nib[2]])));
    var sprite := m.mem[m.i .. m.i + nib[3]];
    var again := Step(m, rand, events).m.(pc := m.pc);
    assert again.io.grid == Drawn(m.io.grid, origin, sprite);
    assert WordAt(again) == WordAt(m);
    DrawTwice(m.io.grid, origin, sprite);
  }

  /** `Ex9E` / `ExA1` fail exactly for a key above 0xF; otherwise they skip exactly when the key is (not) held. */
  lemma SkipOnKey(m: Machine, rand: u8, events: seq<Event>)
    requires WellFormed(m) && m.pc + 1 < LEN && Decoded(m)[0] == 0xE
    requires WordAt(m) % 0x100 in {0x9E, 0xA1}
    ensures var key := m.v[Decoded(m)[1]];
      && (Step(m, rand, events).Fail? <==> key > 0xF)
      && (key <= 0xF ==>
            Step(m, rand, events) ==
            Next(m.(pc := m.pc + if m.io.pressed[key] == (WordAt(m) % 0x100 == 0x9E) then 4 else 2)))
  {
  }

  /** Only `Fx0A` blocks, and only when `events` hold no release of a mapped key. */
  lemma OnlyWaitBlocks(m: Machine, rand: u8, events: seq<Event>)
    requires WellFormed(m) && Step(m, rand, events).Blocked?
    ensures m.pc + 1 < LEN && Decoded(m)[0] == 0xF && WordAt(m) % 0x100 == 0x0A
    ensures FirstRelease(events, 0).None?
  {
    assert m.pc + 1 < LEN;
    var nib := Decoded(m);
    assert nib[0] == 0xF;
    assert WordAt(m) % 0x100 == 0x0A;
    WaitStep(m, rand, events);
  }

  /** `Fx0A` with the events `e`, from a state whose `pc` is at the instruction. */
  lemma WaitStep(m: Machine, rand: u8, e: seq<Event>)
    requires WellFormed(m) && m.pc + 1 < LEN && Decoded(m)[0] == 0xF && WordAt(m) % 0x100 == 0x0A
    ensures Step(m, rand, e) == WaitKey(m.(pc := m.pc + 2), m.pc, Decoded(m)[1], e)
  {
  }

  /**
   * A key wait split over two steps is the same wait as one step over all the
   * events: `Fx0A` left waiting resumes where it stopped.
   */
  lemma WaitResumes(m: Machine, rand: u8, e1: seq<Event>, e2: seq<Event>)
    requires WellFormed(m) && Step(m, rand, e1).Blocked?
    ensures Step(Step(m, rand, e1).m, rand, e2) == Step(m, rand, e1 + e2)
  {
    BlockedWait(m, rand, e1);
    var m1 := m.(io := m.io.(pressed := ApplyEvents(m.io.pressed, e1)));
    WaitStep(m1, rand, e2);
    WaitStep(m, rand, e1 + e2);
    WaitKeyResumes(m.(pc := m.pc + 2), m.pc, Decoded(m)[1], e1, e2);
    assert m1.(pc := m.pc + 2) == m.(pc := m.pc + 2).(io := m.io.(pressed := ApplyEvents(m.io.pressed, e1)));
  }

  /** A step that blocks leaves the machine at the same `Fx0A`, with the events applied to the keys. */
  lemma BlockedWait(m: Machine, rand: u8, e1: seq<Event>)
    requires WellFormed(m) && Step(m, rand, e1).Blocked?
    ensures FirstRelease(e1, 0).None?
    ensures m.pc + 1 < LEN && Decoded(m)[0] == 0xF && WordAt(m) % 0x100 == 0x0A
    ensures var m1 := m.(io := m.io.(pressed := ApplyEvents(m.io.pressed, e1)));
      Step(m, rand, e1).m == m1 && WellFormed(m1) && WordAt(m1) == WordAt(m) && Decoded(m1) == Decoded(m)
  {
    OnlyWaitBlocks(m, rand, e1);
    WaitStep(m, rand, e1);
    WaitKeyBlocks(m.(pc := m.pc + 2), m.pc, Decoded(m)[1], e1);
  }

  /*
   * Whole runs
   */

  /** One pass of the run loop in which nothing happens: no key event, and the clock reads 0. */
  const IDLE: Pass := Pass(0, [], 0, [])

  function Idle(n: nat): (p: seq<Pass>)
    ensures |p| == n
  {
    seq(n, _ => IDLE)
  }

  /** `update` at time 0 with no pending event changes nothing. */
  lemma IdleUpdate(io: IoState)
    requires IoValid(io)
    ensures Updated(io, 0, []) == io
  {
  }

  /** `Chip8::run` stops at once, changing nothing, on a `would_halt` word. */
  lemma RunStopsAtHalt(m: Machine, inputs: seq<Pass>)
    requires WellFormed(m) && m.pc + 1 < LEN && WouldHalt(m)
    ensures Run(m, inputs) == (Halt, m)
  {
  }

  /** An idle pass over a step that continues is that step, with the rest of the passes still to run. */
  lemma IdlePass(m: Machine, next: Machine, n: nat)
    requires WellFormed(m) && m.pc + 1 < LEN && !WouldHalt(m)
    requires Step(m, 0, []) == Next(next)
    ensures Run(m, Idle(n + 1)) == Run(next, Idle(n))
  {
    RunPass(m, Idle(n + 1));
    IdleUpdate(next.io);
    assert Idle(n + 1)[1..] == Idle(n);
  }

  /** The bytes `bytes` sit in memory from address `at` on. */
  predicate Holds(m: Machine, at: nat, bytes: seq<u8>)
    requires WellFormed(m)
  {
    at + |bytes| <= LEN && forall k :: 0 <= k < |bytes| ==> m.mem[at + k] == bytes[k]
  }

  /** The word fetched from inside loaded bytes. */
  lemma Fetch(m: Machine, at: nat, bytes: seq<u8>, k: nat)
    requires WellFormed(m) && Holds(m, at, bytes) && k + 1 < |bytes| && m.pc == at + k
    ensures m.pc + 1 < LEN && WordAt(m) == bytes[k] as int * 0x100 + bytes[k + 1]
  {
    assert m.mem[at + k] == bytes[k] && m.mem[at + (k + 1)] == bytes[k + 1];
  }

  lemma HoldsSlice(m: Machine, at: nat, bytes: seq<u8>)
    requires WellFormed(m) && Holds(m, at, bytes)
    ensures m.mem[at .. at + |bytes|] == bytes
  {
  }

  lemma WrapOrigin()
    ensures Wrap(Point(0, 0)) == Point(0, 0)
  {
  }

  /** `Chip8::new` leaves the ROM at `ROM_START` and the '0' glyph at address 0. */
  lemma Boot(rom: seq<u8>, io: IoState)
    requires RomFits(rom) && IoValid(io)
    ensures Holds(Initial(rom, io), ROM_START, rom)
    ensures Holds(Initial(rom, io), 0, DIGITS[0])
  {
    InitialImageRom(rom);
    InitialImageFont(rom);
    forall k | 0 <= k < DIGIT_ROWS
      ensures Initial(rom, io).mem[0 + k] == DIGITS[0][k]
    {
      assert DIGIT_ROWS * 0 + k == k;
    }
  }

  /** `6xkk` loads `kk` into `Vx`. */
  lemma LoadImmediateStep(m: Machine, rand: u8, events: seq<Event>)
    requires WellFormed(m) && m.pc + 1 < LEN && Decoded(m)[0] == 0x6
    ensures Step(m, rand, events) == Next(m.(pc := m.pc + 2, v := m.v[Decoded(m)[1] := WordAt(m) % 0x100]))
  {
  }

  /** `Annn` loads `nnn` into `I`. */
  lemma SetIndexStep(m: Machine, rand: u8, events: seq<Event>)
    requires WellFormed(m) && m.pc + 1 < LEN && Decoded(m)[0] == 0xA
    ensures Step(m, rand, events) == Next(m.(pc := m.pc + 2, i := Address(WordAt(m))))
  {
  }

  /** `8xyn` is the ALU on the registers. */
  lemma AluStep(m: Machine, rand: u8, events: seq<Event>)
    requires WellFormed(m) && m.pc + 1 < LEN && Decoded(m)[0] == 0x8
    requires Alu(m.v, Decoded(m)[1], Decoded(m)[2], Decoded(m)[3]).Some?
    ensures Step(m, rand, events) == Next(m.(pc := m.pc + 2, v := Alu(m.v, Decoded(m)[1], Decoded(m)[2], Decoded(m)[3]).value))
  {
  }

  /** `Dxyn` draws the `n` bytes at `I` at (`Vx`, `Vy`), wrapped onto the screen. */
  lemma DrawStep(m: Machine, rand: u8, events: seq<Event>)
    requires WellFormed(m) && m.pc + 1 < LEN && Decoded(m)[0] == 0xD
    ensures Step(m, rand, events) == Draw(m.(pc := m.pc + 2), Decoded(m)[1], Decoded(m)[2], Decoded(m)[3])
  {
  }

  /** `00E0` blanks the screen and changes nothing else. */
  lemma ClearScreenStep(m: Machine, rand: u8, events: seq<Event>)
    requires WellFormed(m) && m.pc + 1 < LEN && WordAt(m) == 0x00E0
    ensures Step(m, rand, events) == Next(m.(pc := m.pc + 2, io := m.io.(grid := Blank())))
  {
  }

  /** `1nnn` jumps to `nnn`. */
  lemma JumpStep(m: Machine, rand: u8, events: seq<Event>)
    requires WellFormed(m) && m.pc + 1 < LEN && Decoded(m)[0] == 0x1
    ensures Step(m, rand, events) == Next(m.(pc := Address(WordAt(m))))
  {
  }

  /** `Bnnn` jumps to `nnn + V0`, which cannot leave `u16`. */
  lemma JumpOffsetStep(m: Machine, rand: u8, events: seq<Event>)
    requires WellFormed(m) && m.pc + 1 < LEN && Decoded(m)[0] == 0xB
    ensures Address(WordAt(m)) + m.v[0] < 0x1_0000
    ensures Step(m, rand, events) == Next(m.(pc := Address(WordAt(m)) + m.v[0]))
  {
  }

  /** `7xkk` adds `kk` to `Vx` modulo 256 and leaves VF alone. */
  lemma AddImmediateStep(m: Machine, rand: u8, events: seq<Event>)
    requires WellFormed(m) && m.pc + 1 < LEN && Decoded(m)[0] == 0x7
    ensures var x := Decoded(m)[1];
      Step(m, rand, events) == Next(m.(pc := m.pc + 2, v := m.v[x := (m.v[x] + WordAt(m) % 0x100) % 0x100]))
  {
  }

  /** `Fx07`, `Fx15`, `Fx18` move `Vx` between the registers and the delay and sound timers. */
  lemma TimerSteps(m: Machine, rand: u8, events: seq<Event>)
    requires WellFormed(m) && m.pc + 1 < LEN && Decoded(m)[0] == 0xF
    ensures var x := Decoded(m)[1]; WordAt(m) % 0x100 == 0x07 ==>
      Step(m, rand, events) == Next(m.(pc := m.pc + 2, v := m.v[x := m.io.dt]))
    ensures var x := Decoded(m)[1]; WordAt(m) % 0x100 == 0x15 ==>
      Step(m, rand, events) == Next(m.(pc := m.pc + 2, io := m.io.(dt := m.v[x])))
    ensures var x := Decoded(m)[1]; WordAt(m) % 0x100 == 0x18 ==>
      Step(m, rand, events) == Next(m.(pc := m.pc + 2, io := m.io.(st := m.v[x])))
  {
  }

  /** `Fx1E` adds `Vx` to `I`; a sum past `u16` is the overflow panic. */
  lemma IndexAddStep(m: Machine, rand: u8, events: seq<Event>)
    requires WellFormed(m) && m.pc + 1 < LEN && Decoded(m)[0] == 0xF && WordAt(m) % 0x100 == 0x1E
    ensures var x := Decoded(m)[1];
      && (m.i + m.v[x] > 0xFFFF ==> Step(m, rand, events) == Fail(IndexOverflow))
      && (m.i + m.v[x] <= 0xFFFF ==> Step(m, rand, events) == Next(m.(pc := m.pc + 2, i := m.i + m.v[x])))
  {
  }

  /**
   * `Fx29` points `I` at the built-in sprite of the digit in `Vx`, five bytes
   * per digit from address 0; a value above 0xF has no sprite.
   */
  lemma DigitSpriteStep(m: Machine, rand: u8, events: seq<Event>)
    requires WellFormed(m) && m.pc + 1 < LEN && Decoded(m)[0] == 0xF && WordAt(m) % 0x100 == 0x29
    ensures var d := m.v[Decoded(m)[1]];
      && (d > 0xF ==> Step(m, rand, events) == Fail(NoDigitSprite(d)))
      && (d <= 0xF ==> Step(m, rand, events) == Next(m.(pc := m.pc + 2, i := DIGIT_ROWS * d)))
  {
  }

  /**
   * `ms` is the run of `Chip8::run` over idle passes: each state steps to the
   * next one, and the last one would halt.
   */
  predicate IdleTrace(ms: seq<Machine>)
  {
    && |ms| >= 1
    && (forall k :: 0 <= k < |ms| ==> WellFormed(ms[k]) && ms[k].pc + 1 < LEN)
    && (forall k :: 0 <= k < |ms| - 1 ==> !WouldHalt(ms[k]) && Step(ms[k], 0, []) == Next(ms[k + 1]))
    && WouldHalt(ms[|ms| - 1])
  }

  /** A run over as many idle passes as a trace has steps halts in its last state. */
  lemma {:induction false} IdleTraceHalts(ms: seq<Machine>)
    requires IdleTrace(ms)
    ensures Run(ms[0], Idle(|ms| - 1)) == (Halt, ms[|ms| - 1])
    decreases |ms|
  {
    if |ms| == 1 {
      RunStopsAtHalt(ms[0], Idle(0));
    } else {
      var rest := ms[1..];
      assert forall k :: 0 <= k < |rest| ==> rest[k] == ms[k + 1];
      assert IdleTrace(rest);
      IdleTraceHalts(rest);
      IdlePass(ms[0], rest[0], |rest| - 1);
    }
  }

  lemma TraceLast(ms: seq<Machine>)
    requires |ms| >= 1 && WellFormed(ms[|ms| - 1]) && ms[|ms| - 1].pc + 1 < LEN && WouldHalt(ms[|ms| - 1])
    ensures IdleTrace(ms[|ms| - 1..])
  {
  }

  lemma TraceFrom(ms: seq<Machine>, k: nat)
    requires k + 1 < |ms| && IdleTrace(ms[k + 1..])
    requires WellFormed(ms[k]) && ms[k].pc + 1 < LEN && !WouldHalt(ms[k]) && Step(ms[k], 0, []) == Next(ms[k + 1])
    ensures IdleTrace(ms[k..])
  {
    var t, u := ms[k..], ms[k + 1..];
    assert forall j :: 0 < j < |t| ==> t[j] == u[j - 1];
  }

  const PROGRAM_A: seq<u8> := [0x60, 0x0A, 0x61, 0x0B, 0x80, 0x14, 0x12, 0x06]

  /** The states `PROGRAM_A` passes through from `m0`. */
  function TraceA(m0: Machine): (ms: seq<Machine>)
    requires WellFormed(m0)
    ensures |ms| == 4 && ms[0] == m0
  {
    var m1 := m0.(pc := 0x202, v := m0.v[0x0 := 0x0A]);
    var m2 := m1.(pc := 0x204, v := m1.v[0x1 := 0x0B]);
    var m3 := m2.(pc := 0x206, v := m2.v[0x0 := 0x15][0xF := 0]);
    [m0, m1, m2, m3]
  }

  lemma StepsA(m0: Machine)
    requires WellFormed(m0) && m0.pc == ROM_START && Holds(m0, ROM_START, PROGRAM_A)
    ensures IdleTrace(TraceA(m0))
  {
    var ms := TraceA(m0);
    Fetch(ms[3], ROM_START, PROGRAM_A, 6);
    TraceLast(ms);
    Fetch(ms[2], ROM_START, PROGRAM_A, 4);
    AluStep(ms[2], 0, []);
    AddCarries(ms[2].v, 0x0, 0x1);
    AluTouchesOnlyXAndFlag(ms[2].v, 0x0, 0x1, 0x4);
    assert Alu(ms[2].v, 0x0, 0x1, 0x4).value == ms[3].v;
    TraceFrom(ms, 2);
    Fetch(ms[1], ROM_START, PROGRAM_A, 2);
    LoadImmediateStep(ms[1], 0, []);
    TraceFrom(ms, 1);
    Fetch(ms[0], ROM_START, PROGRAM_A, 0);
    LoadImmediateStep(ms[0], 0, []);
    TraceFrom(ms, 0);
    assert ms[0..] == ms;
  }

  /** `600A 610B 8014`, then a halt: V0 = 0x0A + 0x0B, V1 = 0x0B, no carry. */
  lemma ScenarioA(io: IoState)
    requires IoValid(io)
    ensures RomFits(PROGRAM_A)
    ensures var (end, m) := Run(Initial(PROGRAM_A, io), Idle(3));
      end == Halt && m.v[0x0] == 0x15 && m.v[0x1] == 0x0B && m.v[0xF] == 0
  {
    Boot(PROGRAM_A, io);
    StepsA(Initial(PROGRAM_A, io));
    IdleTraceHalts(TraceA(Initial(PROGRAM_A, io)));
  }

  const PROGRAM_B: seq<u8> := [0xA0, 0x00, 0xD0, 0x05, 0x12, 0x04]

  /** The states `PROGRAM_B` passes through from `m0`, drawing the '0' glyph at the origin. */
  function TraceB(m0: Machine): (ms: seq<Machine>)
    requires WellFormed(m0)
    ensures |ms| == 3 && ms[0] == m0
  {
    var m1 := m0.(pc := 0x202, i := 0);
    var m2 := m1.(pc := 0x204, io := m1.io.(grid := Drawn(Blank(), Point(0, 0), DIGITS[0])), v := m1.v[0xF := 0]);
    [m0, m1, m2]
  }

  /** Drawing the 5 rows at `I == 0` at (V0, V0) == (0, 0) on a blank screen. */
  lemma DrawGlyphAtOrigin(m: Machine)
    requires WellFormed(m) && m.i == 0 && m.v[0x0] == 0 && m.io.grid == Blank() && Holds(m, 0, DIGITS[0])
    ensures Draw(m, 0x0, 0x0, 5) == Next(m.(io := m.io.(grid := Drawn(Blank(), Point(0, 0), DIGITS[0])), v := m.v[0xF := 0]))
  {
    HoldsSlice(m, 0, DIGITS[0]);
    assert AsI8(m.v[0]) == 0;
    WrapOrigin();
    BlankNeverCollides(Point(0, 0), DIGITS[0]);
  }

  lemma StepsB(m0: Machine)
    requires WellFormed(m0) && m0.pc == ROM_START && m0.v[0x0] == 0 && m0.io.grid == Blank()
    requires Holds(m0, ROM_START, PROGRAM_B) && Holds(m0, 0, DIGITS[0])
    ensures IdleTrace(TraceB(m0))
  {
    var ms := TraceB(m0);
    Fetch(ms[2], ROM_START, PROGRAM_B, 4);
    TraceLast(ms);
    Fetch(ms[1], ROM_START, PROGRAM_B, 2);
    DrawStep(ms[1], 0, []);
    DrawGlyphAtOrigin(ms[1].(pc := ms[1].pc + 2));
    TraceFrom(ms, 1);
    Fetch(ms[0], ROM_START, PROGRAM_B, 0);
    SetIndexStep(ms[0], 0, []);
    TraceFrom(ms, 0);
    assert ms[0..] == ms;
  }

  /** `A000 D005`, then a halt, on a blank screen: the '0' glyph at the origin, no collision. */
  lemma ScenarioB(io: IoState)
    requires IoValid(io) && io.grid == Blank()
    ensures RomFits(PROGRAM_B)
    ensures var (end, m) := Run(Initial(PROGRAM_B, io), Idle(2));
      end == Halt && m.io.grid == Drawn(Blank(), Point(0, 0), DIGITS[0]) && m.v[0xF] == 0
  {
    Boot(PROGRAM_B, io);
    StepsB(Initial(PROGRAM_B, io));
    IdleTraceHalts(TraceB(Initial(PROGRAM_B, io)));
  }

  const PROGRAM_C: seq<u8> := [0x22, 0x04, 0x12, 0x02, 0x00, 0xEE]

  /** The states `PROGRAM_C` passes through from `m0`: into the subroutine and back. */
  function TraceC(m0: Machine): (ms: seq<Machine>)
    requires WellFormed(m0) && m0.stack == []
    ensures |ms| == 3 && ms[0] == m0
  {
    [m0, m0.(pc := 0x204, stack := [0x202]), m0.(pc := 0x202)]
  }

  lemma StepsC(m0: Machine)
    requires WellFormed(m0) && m0.pc == ROM_START && m0.stack == [] && Holds(m0, ROM_START, PROGRAM_C)
    ensures IdleTrace(TraceC(m0))
  {
    var ms := TraceC(m0);
    Fetch(ms[2], ROM_START, PROGRAM_C, 2);
    TraceLast(ms);
    Fetch(ms[1], ROM_START, PROGRAM_C, 4);
    ReturnPopsAddress(ms[1], 0, []);
    TraceFrom(ms, 1);
    Fetch(ms[0], ROM_START, PROGRAM_C, 0);
    CallPushesReturnAddress(ms[0], 0, []);
    TraceFrom(ms, 0);
    assert ms[0..] == ms;
  }

  /** `2204`, a halt at 0x202, and `00EE` at 0x204: the run halts right after the call, with an empty stack. */
  lemma ScenarioC(io: IoState)
    requires IoValid(io)
    ensures RomFits(PROGRAM_C)
    ensures var (end, m) := Run(Initial(PROGRAM_C, io), Idle(2));
      end == Halt && m.pc == 0x202 && m.stack == []
  {
    Boot(PROGRAM_C, io);
    StepsC(Initial(PROGRAM_C, io));
    IdleTraceHalts(TraceC(Initial(PROGRAM_C, io)));
  }

  const PROGRAM_D: seq<u8> := [0x22, 0x00]

  /** The state of `PROGRAM_D` after `k` of its self-calls. */
  function Calls(io: IoState, k: nat): (m: Machine)
    requires IoValid(io) && k <= CAPACITY
    ensures WellFormed(m)
  {
    Initial(PROGRAM_D, io).(stack := seq(k, _ => 0x202))
  }

  /** `2200` calls itself: after `k` calls, the run panics with a stack overflow on call number 17. */
  lemma {:induction false} SelfCallsOverflow(io: IoState, k: nat, n: nat)
    requires IoValid(io) && k <= CAPACITY && n == CAPACITY + 1 - k
    ensures Run(Calls(io, k), Idle(n)).0 == Panic(StackOverflow)
    decreases CAPACITY - k
  {
    SelfCall(io, k);
    if k < CAPACITY {
      IdlePass(Calls(io, k), Calls(io, k + 1), n - 1);
      SelfCallsOverflow(io, k + 1, n - 1);
    } else {
      RunPass(Calls(io, k), Idle(1));
    }
  }

  /** Call number `k + 1` of `PROGRAM_D` pushes `0x202` again, or overflows a full stack. */
  lemma SelfCall(io: IoState, k: nat)
    requires IoValid(io) && k <= CAPACITY
    ensures Calls(io, k).pc + 1 < LEN && !WouldHalt(Calls(io, k))
    ensures k < CAPACITY ==> Step(Calls(io, k), 0, []) == Next(Calls(io, k + 1))
    ensures k == CAPACITY ==> Step(Calls(io, k), 0, []) == Fail(StackOverflow)
  {
    var m := Calls(io, k);
    InitialImageRom(PROGRAM_D);
    assert WordAt(m) == 0x2200;
    CallPushesReturnAddress(m, 0, []);
    if k < CAPACITY {
      assert m.stack + [0x202] == seq(k + 1, _ => 0x202);
    }
  }

  /** Scenario D: from power-on, 17 self-calls end in a stack overflow. */
  lemma ScenarioD(io: IoState)
    requires IoValid(io)
    ensures RomFits(PROGRAM_D)
    ensures Run(Initial(PROGRAM_D, io), Idle(17)).0 == Panic(StackOverflow)
  {
    assert Calls(io, 0) == Initial(PROGRAM_D, io) by {
      assert seq(0, _ => 0x202) == [];
    }
    SelfCallsOverflow(io, 0, 17);
  }
}
