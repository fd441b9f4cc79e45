/**
 * The earlier encoder (src/instruction/encoder.rs): `addi` packs an OP-IMM/ADDI word from two
 * register numbers and a raw 12-bit immediate given as a u16, and `no_op` is `addi(0, 0, 0)`.
 * Every `panic!` is `None`.
 */
module LegacyEncoder {
  import opened Words
  import opened Decoder
  import opened Encoder
  import Opcodes
  import F3 = Funct3

  /**
   * `addi` as written: its immediate check masks bits 14..11 (a 15-digit binary literal),
   * so it refuses the 12-bit immediates 0x800..0xFFF and lets bit 15 through, to be shifted
   * out of the word.
   */
  function AddiAsWritten(rd: bv32, rs1: bv32, imm: bv16): Option<bv32>
  {
    if rd > 32 || rs1 > 32 then None
    else if imm & 0x7800 != 0 then None
    else Some(IType(Opcodes.OP_IMM, rd, rs1, F3.ADDI, imm))
  }

  /** `addi` with the check its message describes: the immediate must fit 12 bits. */
  function Addi(rd: bv32, rs1: bv32, imm: bv16): (r: Option<bv32>)
    ensures r.Some? <==> rd <= 32 && rs1 <= 32 && imm <= 0xFFF
  {
    if rd > 32 || rs1 > 32 then None
    else if imm & 0xF000 != 0 then None
    else Some(IType(Opcodes.OP_IMM, rd, rs1, F3.ADDI, imm))
  }

  /** `no_op`: the canonical `addi x0, x0, 0`. */
  function NoOp(): (r: Option<bv32>)
    ensures r == Some(0x0000_0013)
  {
    Opcodes.OpcodeValues();
    Addi(0, 0, 0)
  }

  /** A raw 12-bit immediate as the i16 it denotes: bit 11 copied into bits 15..12. */
  function Widen12(imm: bv16): (r: bv16)
    requires imm <= 0xFFF
    ensures FitsI12(r) && r & 0xFFF == imm
  {
    if imm & 0x800 != 0 then imm | 0xF000 else imm
  }

  /** The I-immediate of an I-type word is its raw 12-bit immediate, sign-extended. */
  lemma ITypeRawImmediate(opcode: bv8, rd: bv32, rs1: bv32, funct3: bv8, imm: bv16)
    requires opcode < 0x80 && rd < 32 && rs1 < 32 && funct3 < 8 && imm <= 0xFFF
    ensures IImm(IType(opcode, rd, rs1, funct3, imm)) == SignExtend16(Widen12(imm))
  {
    ITypeImmediate(opcode, rd, rs1, funct3, Widen12(imm));
  }

  /**
   * With registers below 32 and a 12-bit immediate, `addi` encodes a word the decoder reads
   * back as OP-IMM/ADDI with the same registers and the immediate sign-extended from bit 11.
   */
  lemma AddiDecodes(rd: bv32, rs1: bv32, imm: bv16)
    requires rd < 32 && rs1 < 32 && imm <= 0xFFF
    ensures Addi(rd, rs1, imm) == Some(IType(Opcodes.OP_IMM, rd, rs1, F3.ADDI, imm))
    ensures CommonFields(IType(Opcodes.OP_IMM, rd, rs1, F3.ADDI, imm), Opcodes.OP_IMM, rd, F3.ADDI, rs1)
    ensures IImm(IType(Opcodes.OP_IMM, rd, rs1, F3.ADDI, imm)) == SignExtend16(Widen12(imm))
  {
    Opcodes.OpcodeValues();
    CommonFieldsOf(IType(Opcodes.OP_IMM, rd, rs1, F3.ADDI, imm), Opcodes.OP_IMM, rd, F3.ADDI, rs1);
    ITypeRawImmediate(Opcodes.OP_IMM, rd, rs1, F3.ADDI, imm);
  }

  /**
   * The two checks differ exactly on the immediates with bit 11 set or with some of bits
   * 15..12 set: 0x800 (-2048 once decoded) is refused as written, and 0x8000, which does not
   * fit 12 bits, is accepted as written and encodes a plain `addi x0, x0, 0`.
   */
  lemma AddiAsWrittenCounterexample()
    ensures AddiAsWritten(0, 0, 0x800).None? && Addi(0, 0, 0x800) == Some(0x8000_0013)
    ensures Signed(IImm(0x8000_0013)) == -2048
    ensures AddiAsWritten(0, 0, 0x8000) == Some(0x0000_0013) && Addi(0, 0, 0x8000).None?
  {
    Opcodes.OpcodeValues();
  }

  /** Both versions agree wherever the immediate has neither bit 11 nor bit 15 set. */
  lemma AddiAsWrittenAgrees(rd: bv32, rs1: bv32, imm: bv16)
    requires imm & 0x8800 == 0
    ensures AddiAsWritten(rd, rs1, imm) == Addi(rd, rs1, imm)
  {
  }

  /** The `> 32` guard admits register 32, whose bit 5 lands in funct3: `addi x32` reads as SLLI. */
  lemma AddiAdmitsRegister32()
    ensures Addi(32, 0, 0) == Some(0x0000_1013) && Decoder.Funct3(0x0000_1013) == F3.SLLI
  {
    Opcodes.OpcodeValues();
  }

  /** The repository's `addi` cases: the no-op and `addi x2, x4, 100`. */
  lemma AddiExamples()
    ensures NoOp() == Some(0x0000_0013)
    ensures CommonFields(0x0000_0013, Opcodes.OP_IMM, 0, F3.ADDI, 0) && IImm(0x0000_0013) == 0
    ensures Addi(2, 4, 100) == Some(0x0642_0113)
    ensures CommonFields(0x0642_0113, Opcodes.OP_IMM, 2, F3.ADDI, 4) && IImm(0x0642_0113) == 100
  {
    Opcodes.OpcodeValues();
  }
}
