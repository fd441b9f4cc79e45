/**
 * The two earlier decoder files of the repository.
 *
 * src/instruction_util.rs repeats `construct_opcode`, `extract` and the opcode/rd/rs1/rs2
 * extractors of src/instruction/decoder.rs with the same expressions, so they are the
 * functions of `InstructionUtil` and `Decoder`; its test vectors are checked against those.
 * src/instruction_decoder.rs computes the opcode with a plain mask and reads rd as a 4-bit
 * field; those two are modelled here and related to the extractors of section 2.2 of the
 * RISC-V Unprivileged ISA.
 */
module LegacyDecoders {
  import opened Decoder
  import Opcodes

  /** src/instruction_decoder.rs: the opcode as the low 7 bits under a mask. */
  function OpcodeByMask(w: bv32): (r: bv8)
    ensures r < 0x80
  {
    (w & 0x7F) as bv8
  }

  /** src/instruction_decoder.rs: rd read as 4 bits starting at bit 7. */
  function Rd4(w: bv32): (r: bv8)
    ensures r < 0x10
  {
    ((w >> 7) & 0xF) as bv8
  }

  /** The mask form and the extractor form of the opcode agree on every word. */
  lemma OpcodeByMaskAgrees(w: bv32)
    ensures OpcodeByMask(w) == Opcode(w)
  {
  }

  /**
   * The 4-bit rd is the 5-bit rd of the RISC-V Unprivileged ISA (section 2.2) without its top
   * bit: registers x16..x31 are read as x0..x15. The word 0x0000_0800 names rd = x16 and reads as x0.
   */
  lemma Rd4DropsBit11(w: bv32)
    ensures Rd4(w) == Rd(w) & 0xF
    ensures Rd4(w) == Rd(w) <==> w & 0x800 == 0
  {
  }

  /** Register x16 in the rd field is read as x0. */
  lemma Rd4Counterexample()
    ensures Rd(0x0000_0800) == 16 && Rd4(0x0000_0800) == 0
  {
  }

  /** Both opcode functions ignore bits 7..31: OP and JALR with high bits set stay apart. */
  lemma OpcodeIgnoresHighBits(w: bv32)
    ensures OpcodeByMask(Opcodes.OP as bv32 | (w << 7)) == Opcodes.OP
    ensures OpcodeByMask(Opcodes.JALR as bv32 | (w << 7)) == Opcodes.JALR
    ensures Opcode(Opcodes.OP as bv32 | (w << 7)) != Opcodes.JALR
  {
    Opcodes.OpcodeValues();
  }

  /** The register-field cases of src/instruction_util.rs. */
  lemma RegisterFieldExamples()
    ensures Rd(0xF0F0_F070) == 0x00 && Rd(0xF0F0_FA70) == 0x14 && Rd(0xF0F0_FAF0) == 0x15
    ensures Rs1(0xF0F0_70F0) == 0x00 && Rs1(0xF0FA_F0F0) == 0x15 && Rs1(0xF0FE_F0F0) == 0x1D
    ensures Rs2(0xF000_F0F0) == 0x00 && Rs2(0xF150_F0F0) == 0x15 && Rs2(0xF1F0_F0F0) == 0x1F
    ensures Rs2(0xF1B0_F0F0) == 0x1B
  {
  }
}
