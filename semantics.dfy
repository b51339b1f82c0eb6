/**
 * What one instruction does (src/cpu.rs), as a function on machine states.
 * `Step` fetches the big-endian word at `pc`, advances `pc` by two and runs the
 * instruction the word's nibbles select. Every panic of the source
 * (`err()`, `assert!`, `Vec::pop().unwrap()`, "stack overflow", an index past
 * the end of memory, an overflowing `u16` addition) is a `Fault` here.
 */
module Semantics {
  import opened Types
  import opened Geometry
  import opened Display
  import opened Input
  import opened Terminal
  import opened Memory
  import opened CallStack
  import Registers

  /** The interpreter's state: `pc`, `i`, the stack, `V0`..`VF`, memory, and the I/O state. */
  datatype Machine = Machine(pc: u16, i: u16, stack: seq<u16>, v: seq<u8>, mem: seq<u8>, io: IoState)

  predicate WellFormed(m: Machine)
  {
    |m.stack| <= CAPACITY && |m.v| == Registers.COUNT && |m.mem| == LEN && IoValid(m.io)
  }

  /** The state `Chip8::new(rom, io)` builds. */
  function Initial(rom: seq<u8>, io: IoState): (m: Machine)
    requires RomFits(rom) && IoValid(io)
    ensures WellFormed(m)
    ensures m.pc == ROM_START && m.i == 0 && m.stack == [] && m.io == io
    ensures forall r :: 0 <= r < Registers.COUNT ==> m.v[r] == 0
  {
    Machine(ROM_START, 0, [], seq(Registers.COUNT, _ => 0), InitialImage(rom), io)
  }

  /** Why the source panics. */
  datatype Fault =
    | Unimplemented(word: u16, pc: u16)  // `err()`: no instruction has this word
    | NonZeroNibble(word: u16, pc: u16)  // `assert_eq!(n, 0)` in `5xyn` and `9xyn`
    | StackOverflow                      // `push` onto 16 values
    | StackUnderflow                     // `pop` of an empty stack
    | OutOfBounds(address: int)          // a memory index at or past `LEN`
    | SpriteOutOfRange                   // `assert!(i + n <= LEN)` in `draw_sprite`
    | KeyOutOfRange(key: u8)             // `assert!(x <= 0x0f)` in `is_key_pressed`
    | IndexOverflow                      // `i += v[x]` overflows `u16`
    | NoDigitSprite(digit: u8)           // `sprite_offset` of a value above 0xF

  /**
   * The result of one step: the next state, a state waiting for a key release
   * (the wait consumed every event given and none was a release), or a panic.
   */
  datatype Outcome = Next(m: Machine) | Blocked(m: Machine) | Fail(fault: Fault)

  /** `u16::from_be_bytes([hi, lo])`. */
  function FromBeBytes(hi: u8, lo: u8): (w: u16)
    ensures w / 0x100 == hi && w % 0x100 == lo
  {
    hi * 0x100 + lo
  }

  /**
   * `nibbles_from_u16`: the four hex digits of a word, most significant first.
   * The source masks and shifts; `(x & 0x0f00) >> 8` is `(x / 0x100) % 0x10`.
   */
  function NibblesFromU16(x: u16): (r: seq<nibble>)
    ensures |r| == 4
    ensures r[0] as int * 0x1000 + r[1] as int * 0x100 + r[2] as int * 0x10 + r[3] == x
  {
    var hi, mid := x / 0x100, x / 0x10;
    assert hi / 0x10 == x / 0x1000 && mid / 0x10 == hi;
    assert hi == (hi / 0x10) * 0x10 + hi % 0x10;
    assert mid == (mid / 0x10) * 0x10 + mid % 0x10;
    [x / 0x1000, hi % 0x10, mid % 0x10, x % 0x10]
  }

  /** Splitting into nibbles and recombining is the identity in the other direction too. */
  lemma NibblesRoundTrip(a: nibble, b: nibble, c: nibble, d: nibble)
    ensures NibblesFromU16(a as int * 0x1000 + b as int * 0x100 + c as int * 0x10 + d) == [a, b, c, d]
  {
    var w := a as int * 0x1000 + b as int * 0x100 + c as int * 0x10 + d;
    assert w / 0x1000 == a;
    assert w / 0x100 == a as int * 0x10 + b;
    assert w / 0x10 == a as int * 0x100 + b as int * 0x10 + c;
  }

  /** `instr & 0x0fff`: the low three nibbles. */
  function Address(word: u16): (a: u16)
    ensures a < 0x1000
    ensures var nib := NibblesFromU16(word); a == nib[1] as int * 0x100 + nib[2] as int * 0x10 + nib[3]
  {
    word % 0x1000
  }

  /** `bcd_from_u8`: hundreds, tens and ones of a byte. */
  function Bcd(x: u8): (r: seq<u8>)
    ensures |r| == 3
    ensures forall d :: 0 <= d < 3 ==> r[d] <= 9
    ensures 100 * (r[0] as int) + 10 * (r[1] as int) + r[2] == x
  {
    [x / 100, (x / 10) % 10, x % 10]
  }

  /** Three decimal digits that make a byte are that byte's `Bcd`. */
  lemma BcdRoundTrip(h: u8, t: u8, o: u8)
    requires h <= 9 && t <= 9 && o <= 9 && 100 * h + 10 * t + o < 0x100
    ensures Bcd(100 * h + 10 * t + o) == [h, t, o]
  {
  }

  /** Skip the next instruction when `cond` holds. */
  function SkipIf(m: Machine, cond: bool): Machine
    requires m.pc + 2 < 0x1_0000
  {
    if cond then m.(pc := m.pc + 2) else m
  }

  /**
   * The arithmetic of `8xyn` on `Vx` and `Vy`: the value written to `Vx` and,
   * for every sub-code but 0, the flag then written to VF. `None` for a
   * sub-code with no instruction.
   */
  function AluOp(vx: u8, vy: u8, n: nibble): (r: Option<(u8, Option<u8>)>)
    ensures r.Some? <==> n in {0x0, 0x1, 0x2, 0x3, 0x4, 0x5, 0x6, 0x7, 0xE}
    ensures r.Some? ==> (r.value.1.None? <==> n == 0x0)
    ensures r.Some? && r.value.1.Some? ==> r.value.1.value <= 1
  {
    match n
    case 0x0 => Some((vy, None))
    case 0x1 => Some((BitOr(vx, vy), Some(0)))
    case 0x2 => Some((BitAnd(vx, vy), Some(0)))
    case 0x3 => Some((BitXor(vx, vy), Some(0)))
    case 0x4 =>
      var (sum, carry) := OverflowingAdd(vx, vy);
      Some((sum, Some(if carry then 1 else 0)))
    case 0x5 =>
      var (diff, borrow) := OverflowingSub(vx, vy);
      Some((diff, Some(if borrow then 0 else 1)))
    case 0x6 => Some((vy / 2, Some(vy % 2)))
    case 0x7 =>
      var (diff, borrow) := OverflowingSub(vy, vx);
      Some((diff, Some(if borrow then 0 else 1)))
    case 0xE => Some(((vy as int * 2) % 0x100, Some(if BitSet(vy, 7) then 1 else 0)))
    case _ => None
  }

  /** The `8xyn` family on the register file: `Vx` is written first, then VF. */
  function Alu(v: seq<u8>, x: nibble, y: nibble, n: nibble): (r: Option<seq<u8>>)
    requires |v| == Registers.COUNT
    ensures r.Some? <==> n in {0x0, 0x1, 0x2, 0x3, 0x4, 0x5, 0x6, 0x7, 0xE}
    ensures r.Some? ==> |r.value| == Registers.COUNT
  {
    match AluOp(v[x], v[y], n)
    case None => None
    case Some((value, None)) => Some(v[x := value])
    case Some((value, Some(flag))) => Some(v[x := value][0xF := flag])
  }

  /** `0x0...`: `00E0` clears the screen, `00EE` returns; any other word is fatal. */
  function ExecSystem(m: Machine, oldPc: u16, word: u16): (o: Outcome)
    requires WellFormed(m)
    ensures o.Next? ==> WellFormed(o.m)
    ensures !o.Blocked?
  {
    if word == 0x00E0 then Next(m.(io := m.io.(grid := Blank())))
    else if word == 0x00EE then
      match Popped(m.stack)
      case None => Fail(StackUnderflow)
      case Some((top, rest)) => Next(m.(pc := top, stack := rest))
    else Fail(Unimplemented(word, oldPc))
  }

  /** `Dxyn` (`draw_sprite`): the `n` bytes at `i`, drawn at `(Vx, Vy)` wrapped onto the grid; VF is the collision. */
  function Draw(m: Machine, x: nibble, y: nibble, n: nibble): (o: Outcome)
    requires WellFormed(m)
    ensures o.Next? ==> WellFormed(o.m)
    ensures !o.Blocked?
  {
    if m.i + n > LEN then Fail(SpriteOutOfRange)
    else
      var origin := Wrap(Point(AsI8(m.v[x]), AsI8(m.v[y])));
      var sprite := m.mem[m.i .. m.i + n];
      var collision := Collides(m.io.grid, origin, sprite);
      Next(m.(io := m.io.(grid := Drawn(m.io.grid, origin, sprite)),
              v := m.v[0xF := if collision then 1 else 0]))
  }

  /** `Ex9E` and `ExA1`: skip if key `Vx` is (not) held; other `Ex..` words are fatal. */
  function ExecKey(m: Machine, oldPc: u16, word: u16, x: nibble, kk: u8): (o: Outcome)
    requires WellFormed(m) && m.pc + 2 < 0x1_0000
    ensures o.Next? ==> WellFormed(o.m)
    ensures !o.Blocked?
  {
    if kk == 0x9E || kk == 0xA1 then
      if m.v[x] > 0xF then Fail(KeyOutOfRange(m.v[x]))
      else
        var down := m.io.pressed[m.v[x]];
        Next(SkipIf(m, if kk == 0x9E then down else !down))
    else Fail(Unimplemented(word, oldPc))
  }

  /**
   * `Fx0A` (`blocking_get_key`): waits for the first release of a mapped key
   * and stores that key in `Vx`. When `events` holds no release the wait is
   * not over: the state is `Blocked`, with every event applied to the keys and
   * `pc` back at this instruction, so that stepping again with further events
   * continues the same wait.
   */
  function WaitKey(m: Machine, oldPc: u16, x: nibble, events: seq<Event>): (o: Outcome)
    requires WellFormed(m)
    ensures (o.Next? || o.Blocked?) && WellFormed(o.m)
  {
    match FirstRelease(events, 0)
    case None => Blocked(m.(pc := oldPc, io := m.io.(pressed := ApplyEvents(m.io.pressed, events))))
    case Some(j) =>
      Next(m.(v := m.v[x := FilterEvent(events[j]).value.0],
              io := m.io.(pressed := ApplyEvents(m.io.pressed, events[..j + 1]))))
  }

  /** The key wait is decided by `AwaitRelease` on the key state and the events. */
  lemma WaitKeyAwaits(m: Machine, oldPc: u16, x: nibble, events: seq<Event>)
    requires WellFormed(m)
    ensures var r := AwaitRelease(m.io.pressed, events);
      WaitKey(m, oldPc, x, events) ==
        if r.0.None? then Blocked(m.(pc := oldPc, io := m.io.(pressed := r.1)))
        else Next(m.(v := m.v[x := r.0.value], io := m.io.(pressed := r.1)))
  {
  }

  /** A key wait that sees no release blocks with `pc` back at the instruction and every event applied. */
  lemma WaitKeyBlocks(m: Machine, oldPc: u16, x: nibble, events: seq<Event>)
    requires WellFormed(m) && FirstRelease(events, 0).None?
    ensures WaitKey(m, oldPc, x, events) == Blocked(m.(pc := oldPc, io := m.io.(pressed := ApplyEvents(m.io.pressed, events))))
  {
  }

  /** The key wait itself: waiting over `e1` without a release, then over `e2`, is waiting over `e1 + e2`. */
  lemma WaitKeyResumes(w: Machine, oldPc: u16, x: nibble, e1: seq<Event>, e2: seq<Event>)
    requires WellFormed(w) && FirstRelease(e1, 0).None?
    ensures var w1 := w.(io := w.io.(pressed := ApplyEvents(w.io.pressed, e1)));
      WaitKey(w1, oldPc, x, e2) == WaitKey(w, oldPc, x, e1 + e2)
  {
    var w1 := w.(io := w.io.(pressed := ApplyEvents(w.io.pressed, e1)));
    WaitKeyAwaits(w1, oldPc, x, e2);
    WaitKeyAwaits(w, oldPc, x, e1 + e2);
    AwaitResumes(w.io.pressed, e1, e2);
  }

  /** The `Fx..` family: timers, keys, `I` arithmetic, BCD and block moves. */
  function ExecMisc(m: Machine, oldPc: u16, word: u16, x: nibble, kk: u8, events: seq<Event>): (o: Outcome)
    requires WellFormed(m)
    ensures (o.Next? || o.Blocked?) ==> WellFormed(o.m)
  {
    match kk
    case 0x07 => Next(m.(v := m.v[x := m.io.dt]))
    case 0x0A => WaitKey(m, oldPc, x, events)
    case 0x15 => Next(m.(io := m.io.(dt := m.v[x])))
    case 0x18 => Next(m.(io := m.io.(st := m.v[x])))
    case 0x1E =>
      if m.i + m.v[x] >= 0x1_0000 then Fail(IndexOverflow) else Next(m.(i := m.i + m.v[x]))
    case 0x29 =>
      if m.v[x] > 0xF then Fail(NoDigitSprite(m.v[x])) else Next(m.(i := SpriteOffset(m.v[x])))
    case 0x33 =>
      if m.i + 3 > LEN then Fail(OutOfBounds(FirstOutside(m.i)))
      else Next(m.(mem := CopyInto(m.mem, m.i, Bcd(m.v[x]))))
    case 0x55 =>
      if m.i + x >= LEN then Fail(OutOfBounds(FirstOutside(m.i)))
      else Next(m.(mem := CopyInto(m.mem, m.i, m.v[..x + 1]), i := m.i + x + 1))
    case 0x65 =>
      if m.i + x >= LEN then Fail(OutOfBounds(FirstOutside(m.i)))
      else Next(m.(v := CopyInto(m.v, 0, m.mem[m.i .. m.i + x + 1]), i := m.i + x + 1))
    case _ => Fail(Unimplemented(word, oldPc))
  }

  /**
   * Run the instruction `word`, fetched at `oldPc`, on a state whose `pc` has
   * already been advanced past it. `rand` is the byte `get_random_byte` returns
   * and `events` are the terminal events a key wait reads.
   */
  function Execute(m: Machine, oldPc: u16, word: u16, rand: u8, events: seq<Event>): (o: Outcome)
    requires WellFormed(m) && oldPc + 1 < LEN && m.pc == oldPc + 2
    ensures (o.Next? || o.Blocked?) ==> WellFormed(o.m)
  {
    var nib := NibblesFromU16(word);
    var op, x, y, n := nib[0], nib[1], nib[2], nib[3];
    var kk := word % 0x100;
    var addr := Address(word);
    match op
    case 0x0 => ExecSystem(m, oldPc, word)
    case 0x1 => Next(m.(pc := addr))
    case 0x2 =>
      (match Pushed(m.stack, m.pc)
       case None => Fail(StackOverflow)
       case Some(s) => Next(m.(stack := s, pc := addr)))
    case 0x3 => Next(SkipIf(m, m.v[x] == kk))
    case 0x4 => Next(SkipIf(m, m.v[x] != kk))
    case 0x5 => if n != 0 then Fail(NonZeroNibble(word, oldPc)) else Next(SkipIf(m, m.v[x] == m.v[y]))
    case 0x6 => Next(m.(v := m.v[x := kk]))
    case 0x7 => Next(m.(v := m.v[x := WrappingAdd(m.v[x], kk)]))
    case 0x8 =>
      (match Alu(m.v, x, y, n)
       case None => Fail(Unimplemented(word, oldPc))
       case Some(v) => Next(m.(v := v)))
    case 0x9 => if n != 0 then Fail(NonZeroNibble(word, oldPc)) else Next(SkipIf(m, m.v[x] != m.v[y]))
    case 0xA => Next(m.(i := addr))
    case 0xB => Next(m.(pc := addr + m.v[0]))
    case 0xC => Next(m.(v := m.v[x := BitAnd(rand, kk)]))
    case 0xD => Draw(m, x, y, n)
    case 0xE => ExecKey(m, oldPc, word, x, kk)
    case _ => ExecMisc(m, oldPc, word, x, kk, events)
  }

  /** `Chip8::step`: fetch the word at `pc` (both bytes must be in memory), advance `pc` by 2, execute. */
  function Step(m: Machine, rand: u8, events: seq<Event>): (o: Outcome)
    requires WellFormed(m)
    ensures (o.Next? || o.Blocked?) ==> WellFormed(o.m)
  {
    if m.pc >= LEN then Fail(OutOfBounds(m.pc))
    else if m.pc + 1 >= LEN then Fail(OutOfBounds(m.pc + 1))
    else
      var word := FromBeBytes(m.mem[m.pc], m.mem[m.pc + 1]);
      Execute(m.(pc := m.pc + 2), m.pc, word, rand, events)
  }

  /** The word at `pc`, when both of its bytes are in memory. */
  function WordAt(m: Machine): (w: u16)
    requires WellFormed(m) && m.pc + 1 < LEN
    ensures w == m.mem[m.pc] as int * 0x100 + m.mem[m.pc + 1]
  {
    FromBeBytes(m.mem[m.pc], m.mem[m.pc + 1])
  }

  /**
   * `would_halt`: the word at `pc` is `0x1000 | pc`. Within memory `pc` is
   * below 0x1000, so the OR is a sum: the word is `1nnn` jumping to itself.
   */
  function WouldHalt(m: Machine): (r: bool)
    requires WellFormed(m) && m.pc + 1 < LEN
    ensures r <==> NibblesFromU16(WordAt(m))[0] == 0x1 && Address(WordAt(m)) == m.pc
  {
    WordAt(m) == 0x1000 + m.pc
  }

  /** A step from a state that `would_halt` changes nothing, whatever the random byte and the events. */
  lemma HaltIsFixpoint(m: Machine, rand: u8, events: seq<Event>)
    requires WellFormed(m) && m.pc + 1 < LEN && WouldHalt(m)
    ensures Step(m, rand, events) == Next(m)
  {
  }

  /** The status `step` leaves the interpreter in. */
  datatype Status = Running | Waiting | Faulted(fault: Fault)

  function StatusOf(o: Outcome): Status
  {
    match o
    case Next(_) => Running
    case Blocked(_) => Waiting
    case Fail(f) => Faulted(f)
  }

  /** What one pass of the `run` loop is given: the random byte and key events the step may consume, then the clock reading and pending events `update` sees. */
  datatype Pass = Pass(rand: u8, events: seq<Event>, now: nat, pending: seq<Event>)

  /** How `run` ends: at a halt instruction, at a panic, or (here) when the inputs run out first. */
  datatype RunEnd = Halt | Panic(fault: Fault) | InputExhausted

  /**
   * `Chip8::run`, one input per pass: stop at a `would_halt` word, otherwise
   * step and then `update` the I/O. `would_halt` reads both bytes at `pc`, so
   * it panics first when they are not in memory. A step still waiting for a
   * key release has not returned in the source, so no `update` follows it.
   */
  function Run(m: Machine, inputs: seq<Pass>): (r: (RunEnd, Machine))
    requires WellFormed(m)
    ensures WellFormed(r.1)
    decreases |inputs|
  {
    if m.pc >= LEN then (Panic(OutOfBounds(m.pc)), m)
    else if m.pc + 1 >= LEN then (Panic(OutOfBounds(m.pc + 1)), m)
    else if WouldHalt(m) then (Halt, m)
    else if inputs == [] then (InputExhausted, m)
    else
      match Step(m, inputs[0].rand, inputs[0].events)
      case Fail(f) => (Panic(f), m)
      case Blocked(b) => Run(b, inputs[1..])
      case Next(n) => Run(n.(io := Updated(n.io, inputs[0].now, inputs[0].pending)), inputs[1..])
  }

  /** One pass of `Run` that neither halts nor panics at the fetch. */
  lemma RunPass(m: Machine, inputs: seq<Pass>)
    requires WellFormed(m) && m.pc + 1 < LEN && !WouldHalt(m) && inputs != []
    ensures var o := Step(m, inputs[0].rand, inputs[0].events);
      && (o.Fail? ==> Run(m, inputs) == (Panic(o.fault), m))
      && (o.Blocked? ==> Run(m, inputs) == Run(o.m, inputs[1..]))
      && (o.Next? ==> Run(m, inputs) == Run(o.m.(io := Updated(o.m.io, inputs[0].now, inputs[0].pending)), inputs[1..]))
  {
  }
}
