/**
 * The terminal implementation of the interpreter's I/O (src/terminal_io.rs):
 * the pixel grid, the keyboard, and the delay and sound timers that count
 * down at 60 Hz. The clock is a number of nanoseconds passed in by the
 * caller, and terminal events are a sequence passed in by the caller.
 */
module Terminal {
  import opened Types
  import opened Geometry
  import opened Display
  import opened Input

  /** `TIME_BETWEEN_TICKS_NS`: one sixtieth of a second in nanoseconds, rounded down (see `TickLength`). */
  const TIME_BETWEEN_TICKS_NS: nat := 16_666_666

  /** The tick length is `10^9 / 60` in integer division: 60 Hz. */
  lemma TickLength()
    ensures TIME_BETWEEN_TICKS_NS == 1_000_000_000 / 60
    ensures 60 * TIME_BETWEEN_TICKS_NS <= 1_000_000_000 < 61 * TIME_BETWEEN_TICKS_NS
  {
  }

  /** The state of a `TerminalIo` as a value. */
  datatype IoState = IoState(grid: Grid, pressed: seq<bool>, previousTick: nat, dt: u8, st: u8)

  predicate IoValid(io: IoState)
  {
    IsGrid(io.grid) && |io.pressed| == KEYS
  }

  /**
   * The number of timer ticks `update` performs at time `now`: the loop runs
   * while at least one tick length has elapsed since `previousTick`
   * (`Instant::elapsed` is zero when `now` is earlier).
   */
  function Ticks(previousTick: nat, now: nat): (n: nat)
    ensures n == 0 || previousTick + n * TIME_BETWEEN_TICKS_NS <= now
    ensures now < previousTick + (n + 1) * TIME_BETWEEN_TICKS_NS
  {
    if now < previousTick then 0 else (now - previousTick) / TIME_BETWEEN_TICKS_NS
  }

  /** The state after `update` at time `now` with `events` pending. */
  function Updated(io: IoState, now: nat, events: seq<Event>): (u: IoState)
    requires IoValid(io)
    ensures IoValid(u) && u.grid == io.grid
  {
    var n := Ticks(io.previousTick, now);
    io.(pressed := ApplyEvents(io.pressed, events),
        dt := SaturatingSub(io.dt, n),
        st := SaturatingSub(io.st, n),
        previousTick := io.previousTick + n * TIME_BETWEEN_TICKS_NS)
  }

  /**
   * After `update`, less than one tick length separates the last tick from
   * `now` (or `now` is still before it), the last tick moved by whole tick
   * lengths, each timer went down by exactly one per tick and stopped at
   * zero, the grid is untouched and the keys reflect the events.
   */
  lemma UpdateCatchesUp(io: IoState, now: nat, events: seq<Event>)
    requires IoValid(io)
    ensures var u := Updated(io, now, events);
      now < u.previousTick + TIME_BETWEEN_TICKS_NS &&
      (now < io.previousTick ==> u.previousTick == io.previousTick) &&
      (now >= io.previousTick ==> u.previousTick <= now) &&
      (u.previousTick - io.previousTick) % TIME_BETWEEN_TICKS_NS == 0
    ensures var u := Updated(io, now, events);
      var n := (u.previousTick - io.previousTick) / TIME_BETWEEN_TICKS_NS;
      u.dt == (if n <= io.dt then io.dt - n else 0) &&
      u.st == (if n <= io.st then io.st - n else 0)
    ensures var u := Updated(io, now, events);
      u.grid == io.grid && u.pressed == ApplyEvents(io.pressed, events)
  {
  }

  /** Updating at `t1` and then at a later `t2` leaves the same timers as updating once at `t2`: ticks do not drift. */
  lemma UpdateTwice(io: IoState, t1: nat, t2: nat)
    requires IoValid(io) && t1 <= t2
    ensures var once := Updated(io, t2, []);
      var twice := Updated(Updated(io, t1, []), t2, []);
      twice.previousTick == once.previousTick && twice.dt == once.dt && twice.st == once.st
  {
    var u1 := Updated(io, t1, []);
    var n1 := Ticks(io.previousTick, t1);
    var n2 := Ticks(u1.previousTick, t2);
    TicksSplit(io.previousTick, t1, t2);
    SaturatingSubTwice(io.dt, n1, n2);
    SaturatingSubTwice(io.st, n1, n2);
  }

  lemma SaturatingSubTwice(a: u8, m: nat, n: nat)
    ensures SaturatingSub(SaturatingSub(a, m), n) == SaturatingSub(a, m + n)
  {
  }

  lemma TicksSplit(p: nat, t1: nat, t2: nat)
    requires t1 <= t2
    ensures Ticks(p, t1) + Ticks(p + Ticks(p, t1) * TIME_BETWEEN_TICKS_NS, t2) == Ticks(p, t2)
  {
    var n1 := Ticks(p, t1);
    var n2 := Ticks(p + n1 * TIME_BETWEEN_TICKS_NS, t2);
    var n := Ticks(p, t2);
    TicksUnique(p, t2, n1 + n2);
  }

  /** `Ticks` is the only count that satisfies its two postconditions. */
  lemma TicksUnique(p: nat, now: nat, m: nat)
    requires m == 0 || p + m * TIME_BETWEEN_TICKS_NS <= now
    requires now < p + (m + 1) * TIME_BETWEEN_TICKS_NS
    ensures m == Ticks(p, now)
  {
  }

  class TerminalIo {
    var screen: Screen
    var keyboard: Keyboard
    var previousTick: nat
    var dt: u8
    var st: u8

    ghost predicate Valid()
      reads this, screen, screen.rows, keyboard
    {
      screen.Valid() && keyboard.Valid()
    }

    /** The state as a value. */
    ghost function Abs(): (io: IoState)
      reads this, screen, keyboard, keyboard.pressed
    {
      IoState(screen.grid, keyboard.pressed[..], previousTick, dt, st)
    }

    /** `setup`, without the terminal mode changes: blank grid, no key held, timers at 0, clock started at `now`. */
    constructor Setup(now: nat)
      ensures Valid() && IoValid(Abs())
      ensures fresh(screen) && fresh(screen.rows) && fresh(keyboard) && fresh(keyboard.pressed)
      ensures Abs() == IoState(Blank(), seq(KEYS, _ => false), now, 0, 0)
    {
      screen := new Screen();
      keyboard := new Keyboard();
      previousTick := now;
      dt := 0;
      st := 0;
    }

    /** `update`: consume the pending key events, then perform every timer tick that is due at `now`. */
    method Update(now: nat, events: seq<Event>)
      requires Valid() && IoValid(Abs())
      modifies this, keyboard.pressed
      ensures Valid() && screen == old(screen) && keyboard == old(keyboard)
      ensures Abs() == Updated(old(Abs()), now, events)
    {
      keyboard.Update(events);
      ghost var n := 0;
      while now >= previousTick && now - previousTick >= TIME_BETWEEN_TICKS_NS
        modifies this
        invariant Valid() && screen == old(screen) && keyboard == old(keyboard)
        invariant previousTick == old(previousTick) + n * TIME_BETWEEN_TICKS_NS
        invariant n == 0 || previousTick <= now
        invariant dt == SaturatingSub(old(dt), n) && st == SaturatingSub(old(st), n)
        decreases now - previousTick
      {
        dt := SaturatingSub(dt, 1);
        st := SaturatingSub(st, 1);
        previousTick := previousTick + TIME_BETWEEN_TICKS_NS;
        n := n + 1;
      }
      TicksUnique(old(previousTick), now, n);
    }

    /** `clear_screen`, without the redraw on the terminal. */
    method ClearScreen()
      requires Valid()
      modifies screen
      ensures Valid() && fresh(screen.rows)
      ensures Abs() == old(Abs()).(grid := Blank())
    {
      screen.Clear();
    }

    /** `draw_sprite`, without the redraw and the wait for the next display tick. */
    method DrawSprite(pos: Point, sprite: seq<u8>) returns (r: Display.DrawSprite)
      requires Valid() && DrawFits(pos, sprite)
      modifies screen, screen.rows
      ensures Valid() && screen.rows == old(screen.rows)
      ensures Abs() == old(Abs()).(grid := Drawn(old(Abs()).grid, pos, sprite))
      ensures r == Collision <==> Collides(old(Abs()).grid, pos, sprite)
    {
      r := screen.DrawSprite(pos, sprite);
    }

    /** `is_key_pressed`: panics for a key above 0xF. */
    function IsKeyPressed(k: u8): bool
      reads this, keyboard, keyboard.pressed
      requires keyboard.Valid() && k <= 0x0f
    {
      keyboard.IsKeyPressed(k)
    }

    /** `blocking_get_key`: the key of the first release among `events`, consuming `used` of them. */
    method BlockingGetKey(events: seq<Event>) returns (key: Option<u8>, used: nat)
      requires Valid()
      modifies keyboard.pressed
      ensures Valid()
      ensures used <= |events|
      ensures Abs() == old(Abs()).(pressed := ApplyEvents(old(Abs()).pressed, events[..used]))
      ensures match FirstRelease(events, 0)
        case Some(j) => used == j + 1 && key == Some(FilterEvent(events[j]).value.0)
        case None => used == |events| && key == None
    {
      key, used := keyboard.WaitForKeyRelease(events);
    }

    /** `read_delay_timer`. */
    function ReadDelayTimer(): u8
      reads this
    {
      dt
    }

    /** `write_delay_timer`: the delay timer alone changes. */
    method WriteDelayTimer(value: u8)
      modifies this
      ensures ReadDelayTimer() == value
      ensures Abs() == old(Abs()).(dt := value)
      ensures screen == old(screen) && keyboard == old(keyboard)
    {
      dt := value;
    }

    /** `write_sound_timer`: the sound timer alone changes. */
    method WriteSoundTimer(value: u8)
      modifies this
      ensures st == value
      ensures Abs() == old(Abs()).(st := value)
      ensures screen == old(screen) && keyboard == old(keyboard)
    {
      st := value;
    }
  }
}
