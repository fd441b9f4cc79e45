/**
 * `Setbits::setbits` (lib/src/util.rs): a value whose low `bits` bits are set. The unsigned
 * versions shift the all-ones value right by `BITS - bits`, with `bits` cast from usize to
 * u32; the signed versions reinterpret the unsigned result. A width of 0 shifts by the full
 * width and a width above it underflows the subtraction; both panic in debug builds and are
 * `None` in `SetBits32`/`SetBits64`. A release build wraps the subtraction and masks the shift
 * amount instead, which `SetBits32Release`/`SetBits64Release` compute. usize is 64 bits wide,
 * so `bits` is a bv64 and `as u32` keeps its low half.
 */
module Setbits {
  import opened Words

  /** `bits as u32`. */
  function Truncate32(bits: bv64): bv32
  {
    (bits & 0xFFFF_FFFF) as bv32
  }

  /** `u32::setbits`. */
  function SetBits32(bits: bv64): (r: Option<bv32>)
    ensures r.Some? <==> 1 <= Truncate32(bits) <= 32
  {
    var b := Truncate32(bits);
    if b > 32 || b == 0 then None
    else Some(0xFFFF_FFFF >> (32 - b))
  }

  /** `u64::setbits`. */
  function SetBits64(bits: bv64): (r: Option<bv64>)
    ensures r.Some? <==> 1 <= Truncate32(bits) <= 64
  {
    var b := Truncate32(bits);
    if b > 64 || b == 0 then None
    else Some(0xFFFF_FFFF_FFFF_FFFF >> (64 - b) as bv64)
  }

  /**
   * `u32::setbits` in a release build: `32 - bits` wraps modulo 2^32 and `>>` keeps only the
   * low 5 bits of the amount. It agrees with the debug result wherever that one is defined.
   */
  function SetBits32Release(bits: bv64): (r: bv32)
    ensures SetBits32(bits).Some? ==> r == SetBits32(bits).value
  {
    0xFFFF_FFFF >> ((32 - Truncate32(bits)) & 31)
  }

  /** `u64::setbits` in a release build: the amount wraps modulo 2^32 and is masked to 6 bits. */
  function SetBits64Release(bits: bv64): (r: bv64)
    ensures SetBits64(bits).Some? ==> r == SetBits64(bits).value
  {
    0xFFFF_FFFF_FFFF_FFFF >> ((64 - Truncate32(bits)) & 63) as bv64
  }

  /**
   * Outside 1..32 the release result wraps around: width 0 gives u32::MAX, and a width b in
   * 33..63 gives the mask of width b - 32, as if the width were taken modulo 32.
   */
  lemma SetBits32ReleaseWraps(bits: bv64)
    ensures Truncate32(bits) == 0 ==> SetBits32Release(bits) == 0xFFFF_FFFF
    ensures 32 < Truncate32(bits) < 64 ==>
              SetBits32Release(bits) + 1 == 1 << (Truncate32(bits) - 32)
  {
  }

  /** `i32::setbits`: the u32 result as an i32 bit pattern. */
  function SetBitsI32(bits: bv64): (r: Option<bv32>)
    ensures r.Some? <==> 1 <= Truncate32(bits) <= 32
    ensures r.Some? ==> (Signed(r.value) < 0 <==> Truncate32(bits) == 32)
  {
    SetBits32(bits)
  }

  /** `i64::setbits`: the u64 result as an i64 bit pattern. */
  function SetBitsI64(bits: bv64): (r: Option<bv64>)
    ensures r.Some? <==> 1 <= Truncate32(bits) <= 64
    ensures r.Some? ==> (r.value >> 63 == 1 <==> Truncate32(bits) == 64)
  {
    SetBits64(bits)
  }

  /**
   * For a width b in 1..32 the result is 2^b - 1: adding one carries through every set bit
   * (so the set bits are a run starting at bit 0), and bit b - 1 is the highest set bit.
   */
  lemma SetBits32Spec(bits: bv64)
    requires SetBits32(bits).Some?
    ensures SetBits32(bits).value & (SetBits32(bits).value + 1) == 0
    ensures SetBits32(bits).value >> (Truncate32(bits) - 1) == 1
  {
  }

  /** The same for u64 and widths 1..64. */
  lemma SetBits64Spec(bits: bv64)
    requires SetBits64(bits).Some?
    ensures SetBits64(bits).value & (SetBits64(bits).value + 1) == 0
    ensures SetBits64(bits).value >> (Truncate32(bits) - 1) as bv64 == 1
  {
  }

  /** Below the full width, the result plus one is exactly bit b. */
  lemma SetBits32PlusOne(bits: bv64)
    requires 1 <= Truncate32(bits) < 32
    ensures SetBits32(bits).Some? && SetBits32(bits).value + 1 == 1 << Truncate32(bits)
  {
  }

  /**
   * The ends of the domain: width 32 gives u32::MAX, which as an i32 is -1; width 31 gives
   * i32::MAX; widths 0 and 33 panic in a debug build, and give u32::MAX and 1 in a release
   * build; the upper half of a usize is dropped by the cast.
   */
  lemma SetBitsExamples()
    ensures SetBits32(32) == Some(0xFFFF_FFFF) && Signed(SetBitsI32(32).value) == -1
    ensures SetBits32(31) == Some(0x7FFF_FFFF) && Signed(SetBitsI32(31).value) == 0x7FFF_FFFF
    ensures SetBits32(1) == Some(1)
    ensures SetBits32(0).None? && SetBits32(33).None?
    ensures SetBits32Release(0) == 0xFFFF_FFFF && SetBits32Release(33) == 1
    ensures SetBits64Release(0) == 0xFFFF_FFFF_FFFF_FFFF && SetBits64Release(65) == 1
    ensures SetBits32(0x1_0000_0008) == Some(0xFF)
    ensures SetBits64(64) == Some(0xFFFF_FFFF_FFFF_FFFF) && SetBits64(32) == Some(0xFFFF_FFFF)
    ensures SetBits64(0).None? && SetBits64(65).None?
  {
  }
}
