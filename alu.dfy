/**
 * The value computations of the RV32I executor (lib/src/cpu/instruction_sets/rv32i.rs and its
 * predecessor lib/src/instruction/r32_instruction_table.rs): the closures passed to
 * `apply_op`, `apply_op_imm` and `apply_branch`, and the branch target.
 *
 * The closures work on i32 and u32 values; both are kept as their bit patterns. A `None`
 * result is a `panic!` of the source (an undefined funct7 or funct3 combination).
 */
module Alu {
  import opened Words
  import Funct3

  /** funct7 0b0100000, which selects SUB, SRA and SRAI. */
  const FUNCT7_SWITCH: bv8 := 0x20

  /** The two shown executors; they differ in SRL/SRA and in AUIPC. */
  datatype Revision = Rv32i | R32Table

  /** Bit 31, the sign of an i32. */
  predicate Negative(a: bv32)
  {
    a & 0x8000_0000 != 0
  }

  /** i32 `<`. */
  predicate SignedLess(a: bv32, b: bv32)
  {
    Signed(a) < Signed(b)
  }

  // ---- i32 addition and subtraction ----------------------------------------------------

  /** Whether a 64-bit two's-complement value lies in the i32 range: bits 63..31 all equal. */
  predicate FitsI32(s: bv64)
  {
    s >> 31 == 0 || s >> 31 == 0x1_FFFF_FFFF
  }

  /**
   * i32 `+` as the executor writes it for ADD and ADDI: Rust checks the sum in debug builds
   * and panics on overflow (`None`). The sum of two sign-extended i32s is exact in 64 bits;
   * when it fits, the i32 sum has the bits of the 32-bit wrapped sum.
   */
  function CheckedAdd(a: bv32, b: bv32): Option<bv32>
  {
    if FitsI32(SignExtend64(a) + SignExtend64(b)) then Some(a + b) else None
  }

  /** i32 `-` as the executor writes it for SUB, checked like `CheckedAdd`. */
  function CheckedSub(a: bv32, b: bv32): Option<bv32>
  {
    if FitsI32(SignExtend64(a) - SignExtend64(b)) then Some(a - b) else None
  }

  lemma AddOverflowBothNonNegative(a: bv32, b: bv32)
    requires !Negative(a) && !Negative(b)
    ensures CheckedAdd(a, b).None? <==> Negative(a + b)
  {
  }

  lemma AddOverflowBothNegative(a: bv32, b: bv32)
    requires Negative(a) && Negative(b)
    ensures CheckedAdd(a, b).None? <==> !Negative(a + b)
  {
  }

  lemma AddOverflowMixedSigns(a: bv32, b: bv32)
    requires Negative(a) != Negative(b)
    ensures CheckedAdd(a, b).Some?
  {
    if Negative(a) { } else { }
  }

  /**
   * The checked sum fails exactly on signed overflow: both operands have the same sign and
   * the 32-bit wrapped sum has the other one.
   */
  lemma CheckedAddSpec(a: bv32, b: bv32)
    ensures CheckedAdd(a, b).None? <==> (Negative(a) == Negative(b) && Negative(a + b) != Negative(a))
  {
    if Negative(a) {
      if Negative(b) { AddOverflowBothNegative(a, b); } else { AddOverflowMixedSigns(a, b); }
    } else {
      if Negative(b) { AddOverflowMixedSigns(a, b); } else { AddOverflowBothNonNegative(a, b); }
    }
  }

  /** i32::MAX + 1: the checked sum panics where the ADD tests expect the wrapped i32::MIN. */
  lemma CheckedAddOverflows()
    ensures CheckedAdd(0x7FFF_FFFF, 1).None?
    ensures CheckedSub(0x8000_0000, 1).None?
    ensures 0x7FFF_FFFF as bv32 + 1 == 0x8000_0000 && 0x8000_0000 as bv32 - 1 == 0x7FFF_FFFF
  {
  }


  // ---- shifts -----------------------------------------------------------------------------

  /**
   * The shift amount of SLL/SRL/SRA: the low 5 bits of rs2 (section 2.4 of the RISC-V
   * Unprivileged ISA). Release builds of the executor mask the amount the same way.
   */
  function ShiftAmount(b: bv32): (r: bv32)
    ensures r < 32
    ensures b < 32 ==> r == b
  {
    b & 0x1F
  }

  /**
   * The shift amount as the register shifts write it: an unmasked u32 amount, which Rust
   * rejects with a panic in debug builds once it is 32 or more.
   */
  function CheckedShiftAmount(b: bv32): Option<bv32>
  {
    if b < 32 then Some(b) else None
  }

  /**
   * Wherever the unmasked amount is accepted it equals the masked one; rs2 = 32, a valid
   * SLL by 0 under section 2.4 of the RISC-V Unprivileged ISA, is rejected.
   */
  lemma CheckedShiftAmountSpec(b: bv32)
    ensures CheckedShiftAmount(b).Some? ==> CheckedShiftAmount(b).value == ShiftAmount(b)
    ensures CheckedShiftAmount(32).None? && ShiftAmount(32) == 0
  {
  }

  /** i32 `>>`: arithmetic shift right, copying the sign bit into the vacated bits. */
  function ShiftRightArithmetic(a: bv32, s: bv32): bv32
    requires s < 32
  {
    if Negative(a) then !((!a) >> s) else a >> s
  }

  /**
   * An arithmetic shift agrees with the logical one on the bits the logical shift keeps and
   * fills the vacated top bits with the sign.
   */
  lemma ShiftRightArithmeticSpec(a: bv32, s: bv32)
    requires s < 32
    ensures ShiftRightArithmetic(a, s) & (0xFFFF_FFFF >> s) == a >> s
    ensures Negative(a) ==> ShiftRightArithmetic(a, s) | (0xFFFF_FFFF >> s) == 0xFFFF_FFFF
    ensures !Negative(a) ==> ShiftRightArithmetic(a, s) == a >> s
  {
    if Negative(a) { } else { }
  }

  // ---- OP-IMM and OP --------------------------------------------------------------------

  /** 1 when the condition holds, else 0 (`i32::from(bool)`). */
  function Flag(c: bool): (r: bv32)
    ensures r == 0 || r == 1
  {
    if c then 1 else 0
  }

  /**
   * The value OP-IMM writes to rd, from rs1 and the sign-extended I-immediate; `None` for the
   * funct7 values the shift-immediates reject. The shift amount is the immediate's low 5 bits.
   */
  function OpImmValue(funct3: bv8, funct7: bv8, a: bv32, imm: bv32): Option<bv32>
  {
    var shamt := imm & 0x1F;
    if funct3 == Funct3.ADDI then Some(a + imm)
    else if funct3 == Funct3.SLTI then Some(Flag(SignedLess(a, imm)))
    else if funct3 == Funct3.SLTIU then Some(Flag(a < imm))
    else if funct3 == Funct3.ANDI then Some(a & imm)
    else if funct3 == Funct3.ORI then Some(a | imm)
    else if funct3 == Funct3.XORI then Some(a ^ imm)
    else if funct3 == Funct3.SLLI then
      (if funct7 == 0 then Some(a << shamt) else None)
    else if funct3 == Funct3.SRLI_OR_SRAI then
      (if funct7 == FUNCT7_SWITCH then Some(ShiftRightArithmetic(a, shamt))
       else if funct7 == 0 then Some(a >> shamt)
       else None)
    else None
  }

  /**
   * The value OP writes to rd from rs1 and rs2; `None` where `apply_op_with_funct7_switch`
   * panics. The predecessor executor selects the logical shift with funct7 0b0100000 and the
   * arithmetic one with 0.
   */
  function OpValue(rev: Revision, funct3: bv8, funct7: bv8, a: bv32, b: bv32): Option<bv32>
  {
    var shamt := ShiftAmount(b);
    if funct3 == Funct3.ADD_OR_SUB then
      (if funct7 == FUNCT7_SWITCH then Some(a - b)
       else if funct7 == 0 then Some(a + b)
       else None)
    else if funct3 == Funct3.SLT then Some(Flag(SignedLess(a, b)))
    else if funct3 == Funct3.SLTU then Some(Flag(a < b))
    else if funct3 == Funct3.AND then Some(a & b)
    else if funct3 == Funct3.OR then Some(a | b)
    else if funct3 == Funct3.XOR then Some(a ^ b)
    else if funct3 == Funct3.SLL then Some(a << shamt)
    else if funct3 == Funct3.SRL_OR_SRA then
      (var arithmetic := ShiftRightArithmetic(a, shamt);
       var logical := a >> shamt;
       if funct7 == FUNCT7_SWITCH then Some(if rev == Rv32i then arithmetic else logical)
       else if funct7 == 0 then Some(if rev == Rv32i then logical else arithmetic)
       else None)
    else None
  }

  /**
   * SLT/SLTI compare signed, SLTU/SLTIU unsigned (SLTIU against the sign-extended immediate
   * read as unsigned); all four write 1 exactly when rs1 is below the other operand, else 0.
   */
  lemma SetLessThanSpec(rev: Revision, f7: bv8, a: bv32, b: bv32)
    ensures OpValue(rev, Funct3.SLT, f7, a, b) == Some(if Signed(a) < Signed(b) then 1 else 0)
    ensures OpValue(rev, Funct3.SLTU, f7, a, b) == Some(if a < b then 1 else 0)
    ensures OpImmValue(Funct3.SLTI, f7, a, b) == Some(if Signed(a) < Signed(b) then 1 else 0)
    ensures OpImmValue(Funct3.SLTIU, f7, a, b) == Some(if a < b then 1 else 0)
  {
  }

  /** SLTIU rd, rs1, 1 tests rs1 for zero; with immediate -1 it tests rs1 for all ones. */
  lemma SltiuIdioms(f7: bv8, a: bv32)
    ensures OpImmValue(Funct3.SLTIU, f7, a, 1) == Some(if a == 0 then 1 else 0)
    ensures OpImmValue(Funct3.SLTIU, f7, a, 0xFFFF_FFFF) == Some(if a == 0xFFFF_FFFF then 0 else 1)
  {
  }

  /**
   * ADD and ADDI give the wrapped sum and SUB the wrapped difference; ADD/SUB with any other
   * funct7 is rejected.
   */
  lemma AddSubSpec(rev: Revision, f7: bv8, a: bv32, b: bv32)
    ensures OpValue(rev, Funct3.ADD_OR_SUB, 0, a, b) == Some(a + b)
    ensures OpValue(rev, Funct3.ADD_OR_SUB, FUNCT7_SWITCH, a, b) == Some(a - b)
    ensures OpImmValue(Funct3.ADDI, f7, a, b) == Some(a + b)
    ensures f7 != 0 && f7 != FUNCT7_SWITCH ==> OpValue(rev, Funct3.ADD_OR_SUB, f7, a, b).None?
  {
  }

  /** SUB with the same rs2 undoes ADD, whatever the operands, as both wrap modulo 2^32. */
  lemma SubUndoesAdd(rev: Revision, a: bv32, b: bv32)
    ensures OpValue(rev, Funct3.ADD_OR_SUB, FUNCT7_SWITCH, OpValue(rev, Funct3.ADD_OR_SUB, 0, a, b).value, b) == Some(a)
  {
    AddSubSpec(rev, 0, a, b);
    AddSubSpec(rev, 0, a + b, b);
    assert (a + b) - b == a;
  }

  /**
   * Shift-immediates use the immediate's low 5 bits and pick the shift by funct7; SLLI with
   * 0b0100000 and any other funct7 panic.
   */
  lemma ShiftImmediateSpec(f7: bv8, a: bv32, imm: bv32)
    ensures OpImmValue(Funct3.SLLI, f7, a, imm) == if f7 == 0 then Some(a << (imm & 0x1F)) else None
    ensures OpImmValue(Funct3.SRLI_OR_SRAI, f7, a, imm)
              == if f7 == 0 then Some(a >> (imm & 0x1F))
                 else if f7 == FUNCT7_SWITCH then Some(ShiftRightArithmetic(a, imm & 0x1F))
                 else None
  {
  }

  /**
   * The two revisions agree on every OP except SRL/SRA, where each computes what the other
   * computes for the opposite funct7.
   */
  lemma RevisionsSwapShifts(f3: bv8, f7: bv8, a: bv32, b: bv32)
    ensures f3 != Funct3.SRL_OR_SRA ==> OpValue(Rv32i, f3, f7, a, b) == OpValue(R32Table, f3, f7, a, b)
    ensures OpValue(Rv32i, Funct3.SRL_OR_SRA, FUNCT7_SWITCH, a, b) == OpValue(R32Table, Funct3.SRL_OR_SRA, 0, a, b)
    ensures OpValue(Rv32i, Funct3.SRL_OR_SRA, 0, a, b) == OpValue(R32Table, Funct3.SRL_OR_SRA, FUNCT7_SWITCH, a, b)
  {
  }

  /**
   * The register shifts of the current executor: SLL and SRL shift by the low 5 bits of rs2,
   * SRA is selected by funct7 0b0100000.
   */
  lemma RegisterShiftSpec(rev: Revision, f7: bv8, a: bv32, b: bv32)
    ensures OpValue(rev, Funct3.SLL, f7, a, b) == Some(a << ShiftAmount(b))
    ensures OpValue(Rv32i, Funct3.SRL_OR_SRA, f7, a, b)
              == if f7 == 0 then Some(a >> ShiftAmount(b))
                 else if f7 == FUNCT7_SWITCH then Some(ShiftRightArithmetic(a, ShiftAmount(b)))
                 else None
  {
  }

  // ---- branches ---------------------------------------------------------------------------

  /**
   * Whether a branch is taken: BEQ/BNE/BLT/BGE compare signed, BLTU/BGEU unsigned; funct3 2
   * and 3 panic (`None`).
   */
  function BranchCondition(funct3: bv8, a: bv32, b: bv32): Option<bool>
  {
    if funct3 == Funct3.BEQ then Some(a == b)
    else if funct3 == Funct3.BNE then Some(a != b)
    else if funct3 == Funct3.BLT then Some(SignedLess(a, b))
    else if funct3 == Funct3.BGE then Some(!SignedLess(a, b))
    else if funct3 == Funct3.BLTU then Some(a < b)
    else if funct3 == Funct3.BGEU then Some(a >= b)
    else None
  }

  /**
   * The conditions come in complementary pairs: of BEQ/BNE, BLT/BGE and BLTU/BGEU exactly one
   * is taken; funct3 2, 3 and 8.. are rejected.
   */
  lemma BranchConditionPairs(a: bv32, b: bv32, f3: bv8)
    ensures BranchCondition(Funct3.BEQ, a, b).value != BranchCondition(Funct3.BNE, a, b).value
    ensures BranchCondition(Funct3.BLT, a, b).value != BranchCondition(Funct3.BGE, a, b).value
    ensures BranchCondition(Funct3.BLTU, a, b).value != BranchCondition(Funct3.BGEU, a, b).value
    ensures BranchCondition(Funct3.BLT, a, b).value <==> Signed(a) < Signed(b)
    ensures BranchCondition(f3, a, b).None? <==> (f3 == 2 || f3 == 3 || f3 >= 8)
  {
  }

  /**
   * The next pc of a branch as written: `apply_branch` sets pc + offset or pc + 4, and
   * `branch` then adds 4 again.
   */
  function BranchNextPcAsWritten(pc: bv32, taken: bool, offset: bv32): bv32
  {
    var applied := if taken then pc + offset else pc + 4;
    applied + 4
  }

  /**
   * The next pc of a branch as section 2.5 of the RISC-V Unprivileged ISA and the doc
   * comments give it: the offset away from the branch when taken, the next instruction
   * otherwise.
   */
  function BranchNextPc(pc: bv32, taken: bool, offset: bv32): bv32
  {
    if taken then pc + offset else pc + 4
  }

  /** A taken branch moves pc by the offset (wrapping), one not taken to the next word. */
  lemma BranchNextPcSpec(pc: bv32, offset: bv32)
    ensures BranchNextPc(pc, true, offset) == pc + offset
    ensures BranchNextPc(pc, false, offset) == pc + 4
  {
  }

  /**
   * The as-written target is 4 past the intended one in both directions: a taken branch at
   * 5000 with offset 500 lands at 5504 rather than 5500, and a branch not taken skips the
   * next instruction.
   */
  lemma BranchNextPcAsWrittenOvershoots(pc: bv32, taken: bool, offset: bv32)
    ensures BranchNextPcAsWritten(pc, taken, offset) == BranchNextPc(pc, taken, offset) + 4
  {
    if taken { } else { }
  }

  /** A taken branch at 5000 with offset 500 lands at 5504 instead of 5500. */
  lemma BranchNextPcAsWrittenCounterexample()
    ensures BranchNextPcAsWritten(5000, true, 500) == 5504 && BranchNextPc(5000, true, 500) == 5500
    ensures BranchNextPcAsWritten(5000, false, 500) == 5008 && BranchNextPc(5000, false, 500) == 5004
  {
  }

}
