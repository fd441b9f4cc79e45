/**
 * Two's-complement views shared by the codec and the executor.
 *
 * Rust's i8/i16/i32 values are kept as their bit patterns (bv8/bv16/bv32): a cast
 * between a signed and an unsigned type of the same width is the identity on the bits,
 * and `Signed` gives the integer an i32 pattern stands for.
 */
module Words {
  datatype Option<T> = None | Some(value: T) {
    predicate IsFailure() { None? }

    function PropagateFailure<U>(): Option<U>
      requires None?
    {
      None
    }

    function Extract(): T
      requires Some?
    {
      value
    }
  }

  /** The i32 value of a 32-bit pattern. */
  function Signed(x: bv32): int
  {
    if x < 0x8000_0000 then x as int else x as int - 0x1_0000_0000
  }

  /** The i8 value of an 8-bit pattern. */
  function Signed8(x: bv8): (r: int)
    ensures -0x80 <= r < 0x80
  {
    if x < 0x80 then x as int else x as int - 0x100
  }

  /** Rust's `b as i8 as i32`: the i32 with the same value as the byte read as an i8. */
  function SignExtend8(b: bv8): (r: bv32)
    ensures Signed(r) == Signed8(b)
    ensures (r & 0xFF) as bv8 == b
  {
    if b < 0x80 then b as bv32 else b as bv32 | 0xFFFF_FF00
  }

  /** Rust's `h as i16 as i32`: the low half is kept and bit 15 is copied into bits 16..31. */
  function SignExtend16(h: bv16): (r: bv32)
    ensures (r & 0xFFFF) as bv16 == h
    ensures r >> 15 == (if h & 0x8000 != 0 then 0x1_FFFF else 0)
  {
    if h < 0x8000 then h as bv32 else h as bv32 | 0xFFFF_0000
  }

  /**
   * Rust's `x as i32 as i64`: bit 31 is copied into bits 32..63. The sum or difference of two
   * such values never leaves the i64 range, so it is the exact result of an i32 operation.
   */
  function SignExtend64(x: bv32): (r: bv64)
    ensures (r & 0xFFFF_FFFF) as bv32 == x
    ensures r >> 31 == (if x & 0x8000_0000 != 0 then 0x1_FFFF_FFFF else 0)
  {
    if x < 0x8000_0000 then x as bv64 else x as bv64 | 0xFFFF_FFFF_0000_0000
  }
}
