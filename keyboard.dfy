/**
 * The keyboard of the terminal front end (src/terminal_io/keyboard.rs): which
 * of the 16 CHIP-8 keys are held, kept up to date from a sequence of terminal
 * key events, and the wait for the next key release.
 */
module Input {
  import opened Types

  const KEYS: nat := 16

  /** How a terminal key event changed the key (`KeyEventKind`). */
  datatype KeyKind = Press | Repeat | Release

  /** A terminal event: a character key event, or anything else (other key codes, mouse, resize). */
  datatype Event = CharKey(c: char, kind: KeyKind) | Other

  /** `workman_keycode_to_chip8`: the 4 x 4 block of keys from `7` to `/` on a Workman layout. */
  function WorkmanKeycodeToChip8(c: char): (r: Option<u8>)
    ensures r.Some? ==> r.value <= 0xF
    ensures r.Some? <==> c in KEY_CHARS
  {
    match c
    case '7' | '&' => Some(0x1)
    case '8' | '*' => Some(0x2)
    case '9' | '(' => Some(0x3)
    case 'f' | 'F' => Some(0x4)
    case 'u' | 'U' => Some(0x5)
    case 'p' | 'P' => Some(0x6)
    case 'n' | 'N' => Some(0x7)
    case 'e' | 'E' => Some(0x8)
    case 'o' | 'O' => Some(0x9)
    case 'l' | 'L' => Some(0xa)
    case ',' | '<' => Some(0x0)
    case '.' | '>' => Some(0xb)
    case '0' | ')' => Some(0xc)
    case ';' | ':' => Some(0xd)
    case 'i' | 'I' => Some(0xe)
    case '/' | '?' => Some(0xf)
    case _ => None
  }

  /** The 32 characters the keymap knows; every other character is ignored. */
  const KEY_CHARS: set<char> := {
    '7', '&', '8', '*', '9', '(', 'f', 'F', 'u', 'U', 'p', 'P', 'n', 'N', 'e', 'E',
    'o', 'O', 'l', 'L', ',', '<', '.', '>', '0', ')', ';', ':', 'i', 'I', '/', '?'
  }

  /** `keycode_to_chip8` delegates to the Workman keymap. */
  function KeycodeToChip8(c: char): (r: Option<u8>)
    ensures r == WorkmanKeycodeToChip8(c)
  {
    WorkmanKeycodeToChip8(c)
  }

  /** One character for each key: the unshifted character of its keymap arm. */
  function CharFor(k: u8): (c: char)
    requires k <= 0xF
    ensures KeycodeToChip8(c) == Some(k)
  {
    ["," , "7", "8", "9", "f", "u", "p", "n", "e", "o", "l", ".", "0", ";", "i", "/"][k][0]
  }

  /** Each keymap arm maps the unshifted and the shifted character to the same key. */
  lemma ShiftedCharsAgree()
    ensures forall c :: 'a' <= c <= 'z' ==> WorkmanKeycodeToChip8(c) == WorkmanKeycodeToChip8((c as int - 32) as char)
    ensures forall i :: 0 <= i < |SHIFT_PAIRS| ==> WorkmanKeycodeToChip8(SHIFT_PAIRS[i].0) == WorkmanKeycodeToChip8(SHIFT_PAIRS[i].1)
  {
  }

  /** The arms whose two characters are not a letter and its capital. */
  const SHIFT_PAIRS: seq<(char, char)> :=
    [('7', '&'), ('8', '*'), ('9', '('), (',', '<'), ('.', '>'), ('0', ')'), (';', ':'), ('/', '?')]

  /** `filter_event`: a character key event of a mapped character gives `(key, pressed)`. */
  function FilterEvent(e: Event): (r: Option<(u8, bool)>)
    ensures r.Some? ==> r.value.0 <= 0xF
    ensures r.Some? <==> e.CharKey? && e.c in KEY_CHARS
    ensures r.Some? ==> (r.value.1 <==> e.kind != Release)
  {
    match e
    case Other => None
    case CharKey(c, kind) =>
      var pressed := match kind { case Press => true case Repeat => true case Release => false };
      match KeycodeToChip8(c)
      case None => None
      case Some(k) => Some((k, pressed))
  }

  /** The key state after `self.pressed[k] = pressed` for every relevant event, in order. */
  function ApplyEvents(pressed: seq<bool>, events: seq<Event>): (r: seq<bool>)
    requires |pressed| == KEYS
    ensures |r| == KEYS
  {
    if events == [] then pressed
    else
      var before := ApplyEvents(pressed, events[..|events| - 1]);
      match FilterEvent(events[|events| - 1])
      case None => before
      case Some((k, down)) => before[k := down]
  }

  /** Event `j` is a relevant event for key `k`. */
  predicate IsFor(e: Event, k: int)
  {
    FilterEvent(e).Some? && FilterEvent(e).value.0 == k
  }

  /** Event `j` is the last relevant event for key `k`. */
  predicate LastFor(events: seq<Event>, j: int, k: int)
  {
    0 <= j < |events| && IsFor(events[j], k) && forall j' :: j < j' < |events| ==> !IsFor(events[j'], k)
  }

  /** The last relevant event for a key decides whether it is held. */
  lemma {:induction false} LastEventDecides(pressed: seq<bool>, events: seq<Event>, j: nat, k: nat)
    requires |pressed| == KEYS && k < KEYS
    requires LastFor(events, j, k)
    ensures ApplyEvents(pressed, events)[k] == FilterEvent(events[j]).value.1
    decreases |events|
  {
    var init := events[..|events| - 1];
    var last := events[|events| - 1];
    var before := ApplyEvents(pressed, init);
    if j == |events| - 1 {
      assert ApplyEvents(pressed, events) == before[k := FilterEvent(last).value.1];
    } else {
      assert !IsFor(last, k) && init[j] == events[j];
      assert LastFor(init, j, k);
      LastEventDecides(pressed, init, j, k);
      assert ApplyEvents(pressed, events)[k] == before[k];
    }
  }

  /** A key with no relevant event keeps its state. */
  lemma {:induction false} UntouchedKeyKept(pressed: seq<bool>, events: seq<Event>, k: nat)
    requires |pressed| == KEYS && k < KEYS
    requires forall j :: 0 <= j < |events| ==> !IsFor(events[j], k)
    ensures ApplyEvents(pressed, events)[k] == pressed[k]
    decreases |events|
  {
    if events != [] {
      var init := events[..|events| - 1];
      assert forall j :: 0 <= j < |init| ==> init[j] == events[j];
      UntouchedKeyKept(pressed, init, k);
      assert !IsFor(events[|events| - 1], k);
    }
  }

  /** A release event of a mapped key (`pressed == false` after filtering). */
  predicate IsRelease(e: Event)
  {
    FilterEvent(e).Some? && !FilterEvent(e).value.1
  }

  /** The position of the first release event at or after `from`, if any. */
  function FirstRelease(events: seq<Event>, from: nat): (r: Option<nat>)
    requires from <= |events|
    ensures r.Some? ==> from <= r.value < |events| && IsRelease(events[r.value])
    ensures forall j :: from <= j < |events| && (r.None? || j < r.value) ==> !IsRelease(events[j])
    decreases |events| - from
  {
    if from == |events| then None
    else if IsRelease(events[from]) then Some(from)
    else FirstRelease(events, from + 1)
  }

  /** Applying two batches of events one after the other is applying them together. */
  lemma {:induction false} ApplyEventsAppend(pressed: seq<bool>, a: seq<Event>, b: seq<Event>)
    requires |pressed| == KEYS
    ensures ApplyEvents(pressed, a + b) == ApplyEvents(ApplyEvents(pressed, a), b)
    decreases |b|
  {
    if b == [] {
      assert a + b == a;
    } else {
      var init := b[..|b| - 1];
      ApplyEventsAppend(pressed, a, init);
      assert (a + b)[..|a + b| - 1] == a + init;
      assert (a + b)[|a + b| - 1] == b[|b| - 1];
    }
  }

  /** With no release in `a`, the first release of `a + b` is the first release of `b`, shifted by `|a|`. */
  lemma FirstReleaseAppend(a: seq<Event>, b: seq<Event>)
    requires FirstRelease(a, 0).None?
    ensures FirstRelease(a + b, 0) == match FirstRelease(b, 0)
      case None => None
      case Some(j) => Some(|a| + j)
  {
    var r := FirstRelease(a + b, 0);
    var s := FirstRelease(b, 0);
    assert forall j :: 0 <= j < |a| ==> (a + b)[j] == a[j];
    assert forall j :: 0 <= j < |b| ==> (a + b)[|a| + j] == b[j];
    if s.Some? {
      assert IsRelease((a + b)[|a| + s.value]);
    }
  }

  /**
   * What waiting for a key release over `events` comes to: the key of the first
   * release, if there is one, and the key state after the events up to and
   * including it (after all of them when none is a release).
   */
  function AwaitRelease(pressed: seq<bool>, events: seq<Event>): (r: (Option<u8>, seq<bool>))
    requires |pressed| == KEYS
    ensures |r.1| == KEYS
    ensures r.0.None? <==> FirstRelease(events, 0).None?
  {
    match FirstRelease(events, 0)
    case None => (None, ApplyEvents(pressed, events))
    case Some(j) => (Some(FilterEvent(events[j]).value.0), ApplyEvents(pressed, events[..j + 1]))
  }

  /** A wait that saw no release in `e1` and goes on over `e2` ends as one wait over `e1 + e2`. */
  lemma AwaitResumes(p: seq<bool>, e1: seq<Event>, e2: seq<Event>)
    requires |p| == KEYS && FirstRelease(e1, 0).None?
    ensures AwaitRelease(ApplyEvents(p, e1), e2) == AwaitRelease(p, e1 + e2)
  {
    FirstReleaseAppend(e1, e2);
    if FirstRelease(e2, 0).None? {
      ApplyEventsAppend(p, e1, e2);
    } else {
      AwaitReleasedLater(p, e1, e2, FirstRelease(e2, 0).value);
    }
  }

  /** The case of `AwaitResumes` where the release comes in `e2`, at `j`. */
  lemma AwaitReleasedLater(p: seq<bool>, e1: seq<Event>, e2: seq<Event>, j: nat)
    requires |p| == KEYS && FirstRelease(e2, 0) == Some(j) && FirstRelease(e1 + e2, 0) == Some(|e1| + j)
    ensures AwaitRelease(ApplyEvents(p, e1), e2) == AwaitRelease(p, e1 + e2)
  {
    SplitAt(p, e1, e2, j);
  }

  /** The event at `|a| + j` of `a + b` is event `j` of `b`, and the key states after them agree. */
  lemma SplitAt(p: seq<bool>, a: seq<Event>, b: seq<Event>, j: nat)
    requires |p| == KEYS && j < |b|
    ensures (a + b)[|a| + j] == b[j]
    ensures ApplyEvents(p, (a + b)[..|a| + j + 1]) == ApplyEvents(ApplyEvents(p, a), b[..j + 1])
  {
    PrefixOfAppend(a, b, j);
    ApplyEventsAppend(p, a, b[..j + 1]);
  }

  /** Cutting `a + b` just after position `|a| + j` keeps all of `a` and `b` up to `j`. */
  lemma PrefixOfAppend(a: seq<Event>, b: seq<Event>, j: nat)
    requires j < |b|
    ensures (a + b)[..|a| + j + 1] == a + b[..j + 1]
  {
  }

  class Keyboard {
    var pressed: array<bool>

    ghost predicate Valid()
      reads this
    {
      pressed.Length == KEYS
    }

    /** `Keyboard::default()`: no key held. */
    constructor ()
      ensures Valid() && fresh(pressed)
      ensures pressed[..] == seq(KEYS, _ => false)
    {
      pressed := new bool[KEYS](_ => false);
    }

    /** `update`: consumes the pending events in order. */
    method Update(events: seq<Event>)
      requires Valid()
      modifies pressed
      ensures pressed[..] == ApplyEvents(old(pressed[..]), events)
    {
      var n := 0;
      while n < |events|
        invariant 0 <= n <= |events|
        invariant pressed[..] == ApplyEvents(old(pressed[..]), events[..n])
      {
        assert events[..n + 1][..n] == events[..n];
        match FilterEvent(events[n]) {
          case None =>
          case Some((k, down)) =>
            pressed[k] := down;
        }
        n := n + 1;
      }
      assert events[..n] == events;
    }

    /** `is_key_pressed`: panics for a key above 0xF. */
    function IsKeyPressed(x: u8): bool
      reads this, pressed
      requires Valid() && x <= 0x0f
    {
      pressed[x]
    }

    /**
     * `wait_for_key_release`: consumes events until the first release of a
     * mapped key and returns that key. `used` is the number of events consumed;
     * when none of them is a release the source would block for more, and the
     * result here is `None` with every event consumed.
     */
    method WaitForKeyRelease(events: seq<Event>) returns (key: Option<u8>, used: nat)
      requires Valid()
      modifies pressed
      ensures used <= |events|
      ensures pressed[..] == ApplyEvents(old(pressed[..]), events[..used])
      ensures match FirstRelease(events, 0)
        case Some(j) => used == j + 1 && key == Some(FilterEvent(events[j]).value.0)
        case None => used == |events| && key == None
    {
      used := 0;
      while used < |events|
        invariant 0 <= used <= |events|
        invariant pressed[..] == ApplyEvents(old(pressed[..]), events[..used])
        invariant FirstRelease(events, 0) == FirstRelease(events, used)
      {
        assert events[..used + 1][..used] == events[..used];
        match FilterEvent(events[used]) {
          case None =>
          case Some((k, down)) =>
            pressed[k] := down;
            if !down {
              used := used + 1;
              return Some(k), used;
            }
        }
        used := used + 1;
      }
      key := None;
    }
  }
}
