/**
 * The major opcodes (lib/src/instruction/opcodes.rs) and the funct3 selectors used by the
 * executor and the encoder. OP, OP-IMM, JAL, JALR, LUI and AUIPC are built from their
 * coordinates in the base opcode map; BRANCH, LOAD, STORE, FENCE and SYSTEM are taken from
 * Table 24.1 of the RISC-V Unprivileged ISA (version 20191213).
 */
module Opcodes {
  import opened InstructionUtil

  const OP: bv8 := ConstructOpcode(0x4, 0x1)
  const OP_IMM: bv8 := ConstructOpcode(0x4, 0x0)
  const JAL: bv8 := ConstructOpcode(0x3, 0x3)
  const JALR: bv8 := ConstructOpcode(0x1, 0x3)
  const LUI: bv8 := ConstructOpcode(0x5, 0x1)
  const AUIPC: bv8 := ConstructOpcode(0x5, 0x0)

  const BRANCH: bv8 := 0x63
  const LOAD: bv8 := 0x03
  const STORE: bv8 := 0x23
  const FENCE: bv8 := 0x0F
  const SYSTEM: bv8 := 0x73

  /** The constructed opcodes are the values of Table 24.1. */
  lemma OpcodeValues()
    ensures OP == 0x33 && OP_IMM == 0x13 && JAL == 0x6F
    ensures JALR == 0x67 && LUI == 0x37 && AUIPC == 0x17
  {
  }

  /** Every opcode fits the 7-bit field and ends in 0b11, and no two are equal. */
  lemma OpcodesDistinctAndWellFormed()
    ensures forall op <- [OP, OP_IMM, JAL, JALR, LUI, AUIPC, BRANCH, LOAD, STORE, FENCE, SYSTEM] :: op < 128 && op & 0x3 == 0x3
    ensures |{OP, OP_IMM, JAL, JALR, LUI, AUIPC, BRANCH, LOAD, STORE, FENCE, SYSTEM}| == 11
  {
  }

  /**
   * Which opcodes can index a table of 32 handlers: OP-IMM, AUIPC, LOAD and FENCE are below
   * 32, while OP, JAL, JALR, LUI, BRANCH, STORE and SYSTEM are not.
   */
  lemma OpcodesAgainstThirtyTwoSlots()
    ensures OP_IMM < 32 && AUIPC < 32 && LOAD < 32 && FENCE < 32
    ensures OP >= 32 && JAL >= 32 && JALR >= 32 && LUI >= 32
    ensures BRANCH >= 32 && STORE >= 32 && SYSTEM >= 32
  {
  }
}

/** funct3 selectors of each major opcode (section 2.4 to 2.8 of the RISC-V Unprivileged ISA). */
module Funct3 {
  // OP-IMM
  const ADDI: bv8 := 0x0
  const SLLI: bv8 := 0x1
  const SLTI: bv8 := 0x2
  const SLTIU: bv8 := 0x3
  const XORI: bv8 := 0x4
  const SRLI_OR_SRAI: bv8 := 0x5
  const ORI: bv8 := 0x6
  const ANDI: bv8 := 0x7
  // OP
  const ADD_OR_SUB: bv8 := 0x0
  const SLL: bv8 := 0x1
  const SLT: bv8 := 0x2
  const SLTU: bv8 := 0x3
  const XOR: bv8 := 0x4
  const SRL_OR_SRA: bv8 := 0x5
  const OR: bv8 := 0x6
  const AND: bv8 := 0x7
  // BRANCH
  const BEQ: bv8 := 0x0
  const BNE: bv8 := 0x1
  const BLT: bv8 := 0x4
  const BGE: bv8 := 0x5
  const BLTU: bv8 := 0x6
  const BGEU: bv8 := 0x7
  // LOAD
  const LB: bv8 := 0x0
  const LH: bv8 := 0x1
  const LW: bv8 := 0x2
  const LBU: bv8 := 0x4
  const LHU: bv8 := 0x5
  // STORE
  const SB: bv8 := 0x0
  const SH: bv8 := 0x1
  const SW: bv8 := 0x2
  // SYSTEM
  const ECALL_OR_EBREAK: bv8 := 0x0
  const CSRRW: bv8 := 0x1
}
