/**
 * The 4 KiB memory of the machine (src/mem.rs): a boxed byte array holding the
 * built-in hex-digit font at 0x000 and the program image at 0x200.
 */
module Memory {
  import opened Types

  const LEN: nat := 4 * 1024
  const ROM_START: nat := 0x200

  /** Height of one digit sprite, in rows (bytes). */
  const DIGIT_ROWS: nat := 5

  /** One built-in digit sprite: `[u8; 5]`. */
  type DigitSprite = s: seq<u8> | |s| == DIGIT_ROWS witness [0, 0, 0, 0, 0]

  /** Bitmaps of the built-in hex-digit sprites (`[[u8; 5]; 16]`). */
  const DIGITS: seq<DigitSprite> := [
    [0xF0, 0x90, 0x90, 0x90, 0xF0],
    [0x20, 0x60, 0x20, 0x20, 0x70],
    [0xF0, 0x10, 0xF0, 0x80, 0xF0],
    [0xF0, 0x10, 0xF0, 0x10, 0xF0],
    [0x90, 0x90, 0xF0, 0x10, 0x10],
    [0xF0, 0x80, 0xF0, 0x10, 0xF0],
    [0xF0, 0x80, 0xF0, 0x90, 0xF0],
    [0xF0, 0x10, 0x20, 0x40, 0x40],
    [0xF0, 0x90, 0xF0, 0x90, 0xF0],
    [0xF0, 0x90, 0xF0, 0x10, 0xF0],
    [0xF0, 0x90, 0xF0, 0x90, 0x90],
    [0xE0, 0x90, 0xE0, 0x90, 0xE0],
    [0xF0, 0x80, 0x80, 0x80, 0xF0],
    [0xE0, 0x90, 0x90, 0x90, 0xE0],
    [0xF0, 0x80, 0xF0, 0x80, 0xF0],
    [0xF0, 0x80, 0xF0, 0x80, 0x80]
  ]

  lemma DigitsShape()
    ensures |DIGITS| == 16
  {
  }

  /**
   * The font as it is laid out in memory (`DIGITS.into_iter().flatten()`):
   * the 16 sprites one after another, byte `k` being row `k % 5` of digit `k / 5`.
   */
  function Font(): (f: seq<u8>)
    ensures |f| == DIGIT_ROWS * 16
  {
    DigitsShape();
    seq(DIGIT_ROWS * 16, k requires 0 <= k < DIGIT_ROWS * 16 => DIGITS[k / DIGIT_ROWS][k % DIGIT_ROWS])
  }

  /** Row `r` of digit `d` of the font sits at byte `5 * d + r` of it. */
  lemma FontAt(d: nat, r: nat)
    requires d < 16 && r < DIGIT_ROWS
    ensures Font()[DIGIT_ROWS * d + r] == DIGITS[d][r]
  {
    var k := DIGIT_ROWS * d + r;
    assert k / DIGIT_ROWS == d && k % DIGIT_ROWS == r;
  }

  /** `dst[at..][..src.len()].copy_from_slice(src)`, on values. */
  function CopyInto(dst: seq<u8>, at: nat, src: seq<u8>): (r: seq<u8>)
    requires at + |src| <= |dst|
    ensures |r| == |dst|
    ensures forall a :: 0 <= a < |r| ==> r[a] == if at <= a < at + |src| then src[a - at] else dst[a]
  {
    dst[..at] + src + dst[at + |src|..]
  }

  /**
   * `Mem::sprite_offset(digit)`: the address of the built-in sprite of a hex
   * digit. It is `DIGIT_ROWS * digit` for the 16 digits that have a sprite.
   */
  function SpriteOffset(digit: u8): (a: u16)
    requires digit <= 0xF
    ensures a + DIGIT_ROWS <= |Font()|
    ensures forall r :: 0 <= r < DIGIT_ROWS ==> Font()[a + r] == DIGITS[digit][r]
  {
    var a := DIGIT_ROWS * digit;
    assert a < |Font()| by { FontRegion(); }
    FontRows(digit);
    a
  }

  lemma FontRows(d: nat)
    requires d < 16
    ensures forall r :: 0 <= r < DIGIT_ROWS ==> Font()[DIGIT_ROWS * d + r] == DIGITS[d][r]
  {
    forall r | 0 <= r < DIGIT_ROWS
      ensures Font()[DIGIT_ROWS * d + r] == DIGITS[d][r]
    {
      FontAt(d, r);
    }
  }

  /** A ROM of this length fits between `ROM_START` and the end of memory. */
  predicate RomFits(rom: seq<u8>)
  {
    ROM_START + |rom| <= LEN
  }

  /** The memory `Mem::new(rom)` builds: zeros, then the ROM at 0x200, then the font at 0. */
  function InitialImage(rom: seq<u8>): (m: seq<u8>)
    requires RomFits(rom)
    ensures |m| == LEN
  {
    CopyInto(CopyInto(seq(LEN, _ => 0), ROM_START, rom), 0, Font())
  }

  lemma InitialImageSteps(rom: seq<u8>, zeros: seq<u8>, loaded: seq<u8>, font: seq<u8>, image: seq<u8>)
    requires RomFits(rom)
    requires zeros == seq(LEN, _ => 0) && font == Font()
    requires loaded == CopyInto(zeros, ROM_START, rom)
    requires image == CopyInto(loaded, 0, font)
    ensures image == InitialImage(rom)
  {
  }

  /** After `Mem::new`, the ROM sits from `ROM_START` on. */
  lemma InitialImageRom(rom: seq<u8>)
    requires RomFits(rom)
    ensures forall k :: 0 <= k < |rom| ==> InitialImage(rom)[ROM_START + k] == rom[k]
  {
  }

  /** After `Mem::new`, row `r` of digit `d` sits at `5 * d + r`. */
  lemma InitialImageFont(rom: seq<u8>)
    requires RomFits(rom)
    ensures forall d, r :: 0 <= d < 16 && 0 <= r < DIGIT_ROWS ==> InitialImage(rom)[DIGIT_ROWS * d + r] == DIGITS[d][r]
  {
    forall d, r | 0 <= d < 16 && 0 <= r < DIGIT_ROWS
      ensures InitialImage(rom)[DIGIT_ROWS * d + r] == DIGITS[d][r]
    {
      FontAt(d, r);
    }
  }

  /** After `Mem::new`, every byte outside the font and the ROM is zero. */
  lemma InitialImageZero(rom: seq<u8>)
    requires RomFits(rom)
    ensures forall a :: |Font()| <= a < LEN && !(ROM_START <= a < ROM_START + |rom|) ==> InitialImage(rom)[a] == 0
  {
  }

  /** The font fills exactly [0, 80), below the ROM. */
  lemma FontRegion()
    ensures |Font()| == 0x50 && |Font()| <= ROM_START
  {
  }

  /** The first index a byte-by-byte access from `a` on panics at, when it runs past the end of memory. */
  function FirstOutside(a: int): (r: int)
    ensures r >= LEN && r >= a
    ensures r > a ==> r - 1 < LEN  // so every index from `a` up to `r` is inside memory
  {
    if a >= LEN then a else LEN
  }

  /**
   * A loop of `IndexMut` writes, `dst[at + k] = src[k]` for `k` in order:
   * either every byte is written, or the first index past the end panics
   * (reported as that index).
   */
  method WriteEach(dst: array<u8>, at: nat, src: seq<u8>) returns (fault: Option<nat>)
    requires dst.Length == LEN && 0 < |src|
    modifies dst
    ensures fault.None? <==> at + |src| <= LEN
    ensures fault.Some? ==> fault.value == FirstOutside(at)
    ensures fault.None? ==> dst[..] == CopyInto(old(dst[..]), at, src)
  {
    var k := 0;
    while k < |src|
      invariant 0 <= k <= |src|
      invariant k > 0 ==> at + k <= LEN
      invariant forall a :: 0 <= a < LEN ==> dst[a] == if at <= a < at + k then src[a - at] else old(dst[a])
    {
      if at + k >= LEN {
        return Some(at + k);
      }
      dst[at + k] := src[k];
      k := k + 1;
    }
    return None;
  }

  /**
   * A loop of `Index` reads, `dst[k] = src[at + k]` for `k < count` in order:
   * either every byte is read, or the first index past the end panics
   * (reported as that index).
   */
  method ReadEach(src: array<u8>, at: nat, dst: array<u8>, count: nat) returns (fault: Option<nat>)
    requires src.Length == LEN && src != dst && 0 < count <= dst.Length
    modifies dst
    ensures fault.None? <==> at + count <= LEN
    ensures fault.Some? ==> fault.value == FirstOutside(at)
    ensures fault.None? ==> dst[..] == CopyInto(old(dst[..]), 0, src[at .. at + count])
  {
    var k := 0;
    while k < count
      invariant 0 <= k <= count
      invariant k > 0 ==> at + k <= LEN
      invariant forall a :: 0 <= a < dst.Length ==> dst[a] == if a < k then src[at + a] else old(dst[a])
    {
      if at + k >= LEN {
        return Some(at + k);
      }
      dst[k] := src[at + k];
      k := k + 1;
    }
    return None;
  }

  class Mem {
    var bytes: array<u8>

    ghost predicate Valid()
      reads this
    {
      bytes.Length == LEN
    }

    /** `Mem::new`: panics (here: may not be called) when the ROM does not fit. */
    constructor (rom: seq<u8>)
      requires RomFits(rom)
      ensures Valid() && fresh(bytes)
      ensures bytes[..] == InitialImage(rom)
    {
      var image := Zeroed(LEN);
      ghost var zeros := image[..];
      CopyFromSlice(image, ROM_START, rom);
      ghost var loaded := image[..];
      var font := Font();
      CopyFromSlice(image, 0, font);
      InitialImageSteps(rom, zeros, loaded, font, image[..]);
      bytes := image;
    }

    /** `Index<u16>`: panics past `LEN`. */
    function Get(index: int): u8
      reads this, bytes
      requires Valid() && 0 <= index < LEN
    {
      bytes[index]
    }

    /** `IndexMut<u16>`: overwrites one byte, panics past `LEN`. */
    method Set(index: int, value: u8)
      requires Valid() && 0 <= index < LEN
      modifies bytes
      ensures bytes[..] == old(bytes[..])[index := value]
      ensures Get(index) == value
      ensures forall a :: 0 <= a < LEN && a != index ==> Get(a) == old(Get(a))
    {
      bytes[index] := value;
    }
  }

  /** `Box::new([0u8; n])`. */
  method Zeroed(n: nat) returns (a: array<u8>)
    ensures fresh(a) && a[..] == seq(n, _ => 0)
  {
    a := new u8[n](_ => 0);
  }

  /** `dst[at..][..src.len()].copy_from_slice(src)`, in place. */
  method CopyFromSlice(dst: array<u8>, at: nat, src: seq<u8>)
    requires at + |src| <= dst.Length
    modifies dst
    ensures dst[..] == CopyInto(old(dst[..]), at, src)
  {
    var k := 0;
    while k < |src|
      invariant 0 <= k <= |src|
      invariant forall a :: 0 <= a < dst.Length ==> dst[a] == if at <= a < at + k then src[a - at] else old(dst[a])
    {
      dst[at + k] := src[k];
      k := k + 1;
    }
  }
}
