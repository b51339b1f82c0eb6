/**
 * Machine integer types of the Rust source and the primitive byte operations
 * the interpreter uses (`wrapping_add`, `overflowing_add`, `overflowing_sub`,
 * the bitwise operators, `as i8`, `saturating_sub`).
 */
module Types {

  /** Rust `u8`. */
  type u8 = x: int | 0 <= x < 0x100
  /** Rust `u16`. */
  type u16 = x: int | 0 <= x < 0x1_0000
  /** Rust `i8`. */
  type i8 = x: int | -0x80 <= x < 0x80
  /** One hex digit: a register index or a key code. */
  type nibble = x: int | 0 <= x < 0x10

  datatype Option<T> = None | Some(value: T)

  /** `a.wrapping_add(b)` on `u8`: the sum reduced modulo 256. */
  function WrappingAdd(a: u8, b: u8): (r: u8)
    ensures (a + b - r) % 0x100 == 0
  {
    (a + b) % 0x100
  }

  /** `a.overflowing_add(b)` on `u8`: the wrapped sum and whether it carried out. */
  function OverflowingAdd(a: u8, b: u8): (r: (u8, bool))
    ensures r.0 + (if r.1 then 0x100 else 0) == a + b
  {
    if a + b < 0x100 then (a + b, false) else (a + b - 0x100, true)
  }

  /** `a.overflowing_sub(b)` on `u8`: the wrapped difference and whether it borrowed. */
  function OverflowingSub(a: u8, b: u8): (r: (u8, bool))
    ensures r.0 == a - b + (if r.1 then 0x100 else 0)
    ensures r.1 <==> a < b
  {
    if b <= a then (a - b, false) else (a - b + 0x100, true)
  }

  /** `a.saturating_sub(m)`, `m` times `saturating_sub(1)`: never below zero. */
  function SaturatingSub(a: u8, m: nat): (r: u8)
    ensures m <= a ==> r + m == a
    ensures m > a ==> r == 0
  {
    if m <= a then a - m else 0
  }

  /** `b as i8`: the two's-complement reading of a byte. */
  function AsI8(b: u8): (r: i8)
    ensures (b - r) % 0x100 == 0
  {
    if b < 0x80 then b else b - 0x100
  }

  function BitOr(a: u8, b: u8): u8
  {
    ((a as bv8) | (b as bv8)) as int
  }

  function BitAnd(a: u8, b: u8): u8
  {
    ((a as bv8) & (b as bv8)) as int
  }

  function BitXor(a: u8, b: u8): u8
  {
    ((a as bv8) ^ (b as bv8)) as int
  }

  function BitNot(a: u8): u8
  {
    (!(a as bv8)) as int
  }

  /** `b & (1 << k) != 0`. */
  predicate BitSet(b: u8, k: nat)
    requires k < 8
  {
    (b as bv8) & ((1 as bv8) << k) != 0
  }

  /** Bit 0 is the parity of the byte and bit 7 says whether it is at least 0x80. */
  lemma BitSetEnds(b: u8)
    ensures BitSet(b, 0) <==> b % 2 == 1
    ensures BitSet(b, 7) <==> b >= 0x80
  {
  }

  /** A byte masked by `k` has no bit outside `k`: `(r & k) & !k == 0`. */
  lemma MaskedByteWithinMask(r: u8, k: u8)
    ensures BitAnd(BitAnd(r, k), BitNot(k)) == 0
  {
    BitAndBits(r, k);
    BitNotBits(k);
    BitAndBits(BitAnd(r, k), BitNot(k));
    BvMaskIdentity(r as bv8, k as bv8);
  }

  lemma BitAndBits(a: u8, b: u8)
    ensures BitAnd(a, b) as bv8 == (a as bv8) & (b as bv8)
  {
    BvRoundTrip((a as bv8) & (b as bv8));
  }

  lemma BitNotBits(a: u8)
    ensures BitNot(a) as bv8 == !(a as bv8)
  {
    BvRoundTrip(!(a as bv8));
  }

  lemma BvMaskIdentity(a: bv8, m: bv8)
    ensures (a & m) & !m == 0
  {
  }

  lemma BvRoundTrip(a: bv8)
    ensures (a as int) as bv8 == a
  {
  }
}
