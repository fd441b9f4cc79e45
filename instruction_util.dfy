/**
 * Bit helpers of the instruction codec: the opcode-map coordinates and the field
 * extractor with its masks (src/instruction/util.rs).
 */
module InstructionUtil {
  /**
   * The opcode at a column (bits 4:2) and row (bits 6:5) of the base opcode map; every
   * 32-bit instruction has 0b11 in bits 1:0. Only the low 3 bits of the column and the
   * low 2 bits of the row are used.
   */
  function ConstructOpcode(column: bv8, row: bv8): (r: bv8)
    ensures r < 128 && r & 0x3 == 0x3
    ensures (r >> 2) & 0x7 == column & 0x7
    ensures r >> 5 == row & 0x3
  {
    ((column & 0x7) << 2) | ((row & 0x3) << 5) | 0x3
  }

  /**
   * The bits of `value` from `shift` upwards that `mask` keeps. A shift of 32 or more
   * overflows in Rust, so the shift is below 32. The contract gives only the mask bound;
   * the value itself is the body, `(value >> shift) & mask`, and the decoder's lemmas
   * state each field that is extracted with it.
   */
  function Extract(value: bv32, shift: bv32, mask: bv32): (r: bv32)
    requires shift < 32
    ensures r & !mask == 0
  {
    var moved := value >> shift;
    moved & mask
  }

  const SIGN_BIT: bv32 := 0x80000000
  const C_11_BITS: bv32 := 0x7FF
  const C_10_BITS: bv32 := 0x3FF
  const C_8_BITS: bv32 := 0xFF
  const C_7_BITS: bv32 := 0x7F
  const C_6_BITS: bv32 := 0x3F
  const C_5_BITS: bv32 := 0x1F
  const C_4_BITS: bv32 := 0xF
  const C_3_BITS: bv32 := 0x7

  /** The k-bit masks are 2^k - 1 and the sign bit is 2^31. */
  lemma MaskConstants()
    ensures SIGN_BIT == 1 << 31
    ensures C_11_BITS == (1 << 11) - 1 && C_10_BITS == (1 << 10) - 1 && C_8_BITS == (1 << 8) - 1
    ensures C_7_BITS == (1 << 7) - 1 && C_6_BITS == (1 << 6) - 1 && C_5_BITS == (1 << 5) - 1
    ensures C_4_BITS == (1 << 4) - 1 && C_3_BITS == (1 << 3) - 1
  {
  }

  /** Distinct map coordinates give distinct opcodes; higher argument bits are ignored. */
  lemma ConstructOpcodeInjective(c1: bv8, r1: bv8, c2: bv8, r2: bv8)
    ensures ConstructOpcode(c1, r1) == ConstructOpcode(c2, r2) <==> (c1 & 0x7 == c2 & 0x7 && r1 & 0x3 == r2 & 0x3)
  {
  }
}
