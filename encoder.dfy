/**
 * The instruction encoder (lib/src/instruction/encoder.rs): an `Instruction` value is packed
 * into a 32-bit word. Every `panic!` of the encoder is `None`.
 *
 * Rust's `usize` register numbers are bv32 here: every guard on them rejects anything above
 * 31 or 32, so no value above 2^32 - 1 gets through. An `i16` or `i32` offset is its bit
 * pattern (bv16, bv32); `value < 0` is its top bit.
 */
module Encoder {
  import opened Words
  import opened Decoder
  import Opcodes
  import F3 = Funct3

  // ---- immediates ----------------------------------------------------------------------

  /** An i16 that a signed 12-bit immediate can hold: bits 15..11 all equal. */
  predicate FitsI12(v: bv16)
  {
    v & 0xF800 == 0 || v & 0xF800 == 0xF800
  }

  /**
   * `convert_i16_to_i12`: a negative value must have bits 15..11 set; a non-negative one only
   * bits 15..12 clear. So 2048..4095 get through and come back from the decoder as negative.
   */
  function ConvertI16ToI12(v: bv16): (r: Option<bv16>)
    ensures r.Some? <==> (FitsI12(v) || v & 0xF000 == 0)
    ensures r.Some? ==> r.value == v & 0xFFF
  {
    var negative := v & 0x8000 != 0;
    if negative && v & 0xF800 != 0xF800 then None
    else if !negative && v & 0xF000 != 0 then None
    else Some(v & 0xFFF)
  }

  /** An i16 that a B-type offset can hold: even, with bits 15..12 all equal. */
  predicate FitsB13(v: bv16)
  {
    v & 1 == 0 && (v & 0xF000 == 0 || v & 0xF000 == 0xF000)
  }

  /**
   * The B-type immediate of an i16 offset, at its instruction positions: imm[12] at bit 31,
   * imm[10:5] at 30:25, imm[4:1] at 11:8 and imm[11] at bit 7. Odd offsets and offsets
   * outside [-4096, 4094] are refused.
   */
  function EncodeBTypeImmediate(v: bv16): (r: Option<bv32>)
    ensures r.Some? <==> FitsB13(v)
    ensures r.Some? ==> r.value & 0x01FF_F07F == 0
  {
    var negative := v & 0x8000 != 0;
    if v & 1 != 0 then None
    else if negative && v & 0xF000 != 0xF000 then None
    else if !negative && v & 0xF000 != 0 then None
    else
      var value := ((v & 0x1FFF) >> 1) as bv32;
      var bit12 := (value & 0x800) >> 11;
      var bit11 := (value & 0x400) >> 10;
      var bits10To5 := (value & 0x3F0) >> 4;
      var bits4To1 := value & 0xF;
      Some((bit12 << 31) | (bit11 << 7) | (bits4To1 << 8) | (bits10To5 << 25))
  }

  /** An i32 that a J-type offset can hold: even, with bits 31..20 all equal. */
  predicate FitsJ21(offset: bv32)
  {
    offset & 1 == 0 && (offset & 0xFFF0_0000 == 0 || offset & 0xFFF0_0000 == 0xFFF0_0000)
  }

  /**
   * `encode_j_type_immediate` as written: after the guards it puts offset bit 10 at bit 20
   * (where the decoder reads imm[11]) and offset bits 18:11 at 19:12 (where it reads
   * imm[19:12]); imm[11] itself is dropped. The guards test bits 31..21 only, so bit 20 may
   * differ from the sign.
   */
  function EncodeJTypeImmediateAsWritten(offset: bv32): Option<bv32>
  {
    var negative := offset & 0x8000_0000 != 0;
    if offset & 1 != 0 then None
    else if negative && offset & 0xFFE0_0000 != 0xFFE0_0000 then None
    else if !negative && offset & 0xFFE0_0000 != 0 then None
    else
      var bit20 := offset >> 31;
      var bit11 := (offset & 0x400) >> 10;
      var bits10To1 := (offset & 0x7FE) >> 1;
      var bits19To12 := (offset & 0x7_F800) >> 11;
      Some((bit20 << 31) | (bit11 << 20) | (bits10To1 << 21) | (bits19To12 << 12))
  }

  /**
   * The J-type immediate as section 2.3 of the RISC-V Unprivileged ISA lays it out: imm[20]
   * at bit 31, imm[10:1] at 30:21, imm[11] at bit 20 and imm[19:12] at 19:12. Odd offsets and offsets outside
   * [-2^20, 2^20 - 2] are refused.
   */
  function EncodeJTypeImmediate(offset: bv32): (r: Option<bv32>)
    ensures r.Some? <==> FitsJ21(offset)
    ensures r.Some? ==> r.value & 0xFFF == 0
  {
    if offset & 1 != 0 then None
    else if offset & 0xFFF0_0000 != 0 && offset & 0xFFF0_0000 != 0xFFF0_0000 then None
    else
      var bit20 := (offset >> 20) & 1;
      var bit11 := (offset >> 11) & 1;
      var bits10To1 := (offset >> 1) & 0x3FF;
      var bits19To12 := (offset >> 12) & 0xFF;
      Some((bit20 << 31) | (bits10To1 << 21) | (bit11 << 20) | (bits19To12 << 12))
  }

  // ---- formats -------------------------------------------------------------------------

  /** The I-type layout: opcode, rd at 11:7, funct3 at 14:12, rs1 at 19:15, imm[11:0] at 31:20. */
  function IType(opcode: bv8, rd: bv32, rs1: bv32, funct3: bv8, imm: bv16): bv32
  {
    opcode as bv32 | (rd << 7) | ((funct3 as bv32) << 12) | (rs1 << 15) | ((imm as bv32) << 20)
  }

  /**
   * `i_type_opcode`. The register guard is `> 32`, so register 32 is accepted and its bit 5
   * lands in the next field (see `RegisterGuardAdmits32`).
   */
  function ITypeOpcode(opcode: bv8, rd: bv32, rs1: bv32, funct3: bv8, imm: bv16): Option<bv32>
  {
    if rd > 32 || rs1 > 32 then None
    else if funct3 > 7 then None
    else if opcode > 0x7F then None
    else if imm > 0xFFF then None
    else Some(IType(opcode, rd, rs1, funct3, imm))
  }

  /** The R-type layout: the I-type fields with rs2 at 24:20 and funct7 at 31:25. */
  function RType(opcode: bv8, rd: bv32, rs1: bv32, rs2: bv32, funct3: bv8, funct7: bv8): bv32
  {
    opcode as bv32 | (rd << 7) | ((funct3 as bv32) << 12) | (rs1 << 15) | (rs2 << 20) | ((funct7 as bv32) << 25)
  }

  /** `op_opcode`, with the same `> 32` register guard. */
  function OpOpcode(opcode: bv8, rd: bv32, rs1: bv32, rs2: bv32, funct3: bv8, funct7: bv8): Option<bv32>
  {
    if rd > 32 || rs1 > 32 || rs2 > 32 || funct3 > 7 || funct7 > 0x7F then None
    else Some(RType(opcode, rd, rs1, rs2, funct3, funct7))
  }

  /** `encode_lui` and `encode_auipc`: rd below 32 and a value whose low 12 bits are clear. */
  function EncodeUpper(opcode: bv8, rd: bv32, value: bv32): Option<bv32>
  {
    if rd & !0x1F != 0 then None
    else if value & 0xFFF != 0 then None
    else Some(value | (rd << 7) | opcode as bv32)
  }

  /** The J-type layout of a jump, around an immediate already in its bit positions. */
  function JType(rd: bv32, imm: bv32): bv32
  {
    imm | (rd << 7) | Opcodes.JAL as bv32
  }

  /** `encode_jal`, with the J-type immediate laid out as section 2.3 of the RISC-V Unprivileged ISA requires. */
  function EncodeJal(offset: bv32, rd: bv32): Option<bv32>
  {
    if rd & !0x1F != 0 then None
    else
      var imm :- EncodeJTypeImmediate(offset);
      Some(JType(rd, imm))
  }

  /** `encode_jal` as written, through `EncodeJTypeImmediateAsWritten`. */
  function EncodeJalAsWritten(offset: bv32, rd: bv32): Option<bv32>
  {
    if rd & !0x1F != 0 then None
    else
      var imm :- EncodeJTypeImmediateAsWritten(offset);
      Some(JType(rd, imm))
  }

  /** The B-type layout of a branch, around an immediate already in its bit positions. */
  function BType(funct3: bv8, rs1: bv32, rs2: bv32, imm: bv32): bv32
  {
    Opcodes.BRANCH as bv32 | ((funct3 as bv32) << 12) | (rs1 << 15) | (rs2 << 20) | imm
  }

  /** `encode_branch`. */
  function EncodeBranch(funct3: bv8, rs1: bv32, rs2: bv32, offset: bv16): Option<bv32>
  {
    if rs1 > 0x1F || rs2 > 0x1F || funct3 > 7 then None
    else
      var imm :- EncodeBTypeImmediate(offset);
      Some(BType(funct3, rs1, rs2, imm))
  }

  /** `encode_load`. */
  function EncodeLoad(funct3: bv8, rd: bv32, rs1: bv32, offset: bv16): Option<bv32>
  {
    if rs1 > 0x1F || rd > 0x1F || funct3 > 7 then None
    else
      var imm :- ConvertI16ToI12(offset);
      Some(IType(Opcodes.LOAD, rd, rs1, funct3, imm))
  }

  /** The S-type layout of a store: imm[4:0] at 11:7 and imm[11:5] at 31:25. */
  function SType(funct3: bv8, rs1: bv32, rs2: bv32, imm: bv16): bv32
  {
    var lower := imm & 0x1F;
    var upper := imm >> 5;
    Opcodes.STORE as bv32 | ((funct3 as bv32) << 12) | (rs1 << 15) | (rs2 << 20)
    | ((lower as bv32) << 7) | ((upper as bv32) << 25)
  }

  /** `encode_store`: the 12-bit offset split into bits 4:0 at 11:7 and bits 11:5 at 31:25. */
  function EncodeStore(funct3: bv8, rs1: bv32, rs2: bv32, offset: bv16): Option<bv32>
  {
    if rs1 > 0x1F || rs2 > 0x1F || funct3 > 7 then None
    else
      var imm :- ConvertI16ToI12(offset);
      Some(SType(funct3, rs1, rs2, imm))
  }

  /** `encode_fence` as written: funct3 is shifted by 7, into the rd field. */
  function EncodeFenceAsWritten(funct3: bv8, pred: bv8, succ: bv8): Option<bv32>
  {
    if funct3 != 0 && funct3 != 1 then None
    else if pred > 0xF || succ > 0xF then None
    else Some(Opcodes.FENCE as bv32 | ((funct3 as bv32) << 7) | ((pred as bv32) << 24) | ((succ as bv32) << 20))
  }

  /** `encode_fence` with funct3 in bits 14:12, where section 2.7 of the RISC-V Unprivileged ISA puts it. */
  function EncodeFence(funct3: bv8, pred: bv8, succ: bv8): Option<bv32>
  {
    if funct3 != 0 && funct3 != 1 then None
    else if pred > 0xF || succ > 0xF then None
    else Some(Opcodes.FENCE as bv32 | ((funct3 as bv32) << 12) | ((pred as bv32) << 24) | ((succ as bv32) << 20))
  }

  /** `encode_ecall`: SYSTEM with every other field zero. */
  const ECALL_WORD: bv32 := Opcodes.SYSTEM as bv32 | ((F3.ECALL_OR_EBREAK as bv32) << 7)

  /** `encode_ebreak`: SYSTEM with I-immediate 1. */
  const EBREAK_WORD: bv32 := Opcodes.SYSTEM as bv32 | ((F3.ECALL_OR_EBREAK as bv32) << 7) | ((1 as bv32) << 20)

  /** `encode_csr`: a 12-bit CSR number in the immediate field. */
  function EncodeCsr(funct3: bv8, csr: bv32, rd: bv32, rs1: bv32): Option<bv32>
  {
    if rd > 0x1F || rs1 > 0x1F || csr > 0xFFF || funct3 > 7 then None
    else Some(Opcodes.SYSTEM as bv32 | (rd << 7) | ((funct3 as bv32) << 12) | (rs1 << 15) | (csr << 20))
  }

  // ---- the instruction enum -------------------------------------------------------------

  datatype Instruction =
    | OpImm(rd: bv32, rs1: bv32, funct3: bv8, immediate: bv16)
    | Op(rd: bv32, rs1: bv32, rs2: bv32, funct3: bv8, funct7: bv8)
    | Lui(rd: bv32, value: bv32)
    | Auipc(rd: bv32, value: bv32)
    | Jal(rd: bv32, addressOffset: bv32)
    | Jalr(rd: bv32, rs1: bv32, offset: bv16)
    | Branch(funct3: bv8, rs1: bv32, rs2: bv32, branchOffset: bv16)
    | Store(funct3: bv8, rs1: bv32, rs2: bv32, offset: bv16)
    | Load(funct3: bv8, rs1: bv32, rd: bv32, offset: bv16)
    | Fence(pred: bv8, succ: bv8)
    | FenceI
    | ECall
    | EBreak
    | CsrRw(rs1: bv32, rd: bv32, csr: bv32)

  /**
   * `Instruction::encode` corrected: the JAL and FENCE/FENCE.I arms use the J-type and fence
   * layouts of the ISA. The source's own arms are `EncodeAsWritten`.
   */
  function Encode(i: Instruction): Option<bv32>
  {
    match i
    case OpImm(rd, rs1, funct3, immediate) =>
      var imm :- ConvertI16ToI12(immediate);
      ITypeOpcode(Opcodes.OP_IMM, rd, rs1, funct3, imm)
    case Op(rd, rs1, rs2, funct3, funct7) => OpOpcode(Opcodes.OP, rd, rs1, rs2, funct3, funct7)
    case Lui(rd, value) => EncodeUpper(Opcodes.LUI, rd, value)
    case Auipc(rd, value) => EncodeUpper(Opcodes.AUIPC, rd, value)
    case Jal(rd, offset) => EncodeJal(offset, rd)
    case Jalr(rd, rs1, offset) =>
      var imm :- ConvertI16ToI12(offset);
      ITypeOpcode(Opcodes.JALR, rd, rs1, 0, imm)
    case Branch(funct3, rs1, rs2, offset) => EncodeBranch(funct3, rs1, rs2, offset)
    case Store(funct3, rs1, rs2, offset) => EncodeStore(funct3, rs1, rs2, offset)
    case Load(funct3, rs1, rd, offset) => EncodeLoad(funct3, rd, rs1, offset)
    case Fence(pred, succ) => EncodeFence(0, pred, succ)
    case FenceI => EncodeFence(1, 0, 0)
    case ECall => Some(ECALL_WORD)
    case EBreak => Some(EBREAK_WORD)
    case CsrRw(rs1, rd, csr) => EncodeCsr(F3.CSRRW, csr, rd, rs1)
  }

  /**
   * `Instruction::encode` as written: the JAL arm calls the source's `encode_jal` and the
   * FENCE/FENCE.I arms its `encode_fence`. Every other arm encodes as `Encode` does; FENCE
   * has funct3 0, so only FENCE.I and JAL come out differently.
   */
  function EncodeAsWritten(i: Instruction): (r: Option<bv32>)
    ensures !i.Jal? && !i.FenceI? ==> r == Encode(i)
    ensures i.FenceI? ==> r == Some(0x0000_008F) && Encode(i) == Some(0x0000_100F)
    ensures i == Jal(0, 1024) ==> r.Some? && Encode(i).Some? && JImm(r.value) == 3072 && JImm(Encode(i).value) == 1024
  {
    match i
    case Jal(rd, offset) => EncodeJalAsWritten(offset, rd)
    case Fence(pred, succ) => EncodeFenceAsWritten(0, pred, succ)
    case FenceI => EncodeFenceAsWritten(1, 0, 0)
    case _ => Encode(i)
  }

  // ---- constructors with logic of their own ---------------------------------------------

  /** `no_op`: `addi x0, x0, 0`. */
  const NO_OP: Instruction := OpImm(0, 0, F3.ADDI, 0)

  /**
   * The shift-immediate constructors `slli`, `srli` and `srai`: the guard `imm > 31` is a
   * signed comparison, so a negative amount gets through and is masked to its low five bits.
   * `srai` also sets immediate bit 10, which is bit 30 of the word.
   */
  function ShiftImmediate(rd: bv32, rs1: bv32, funct3: bv8, arithmetic: bool, imm: bv16): Option<Instruction>
  {
    if imm & 0x8000 == 0 && imm > 0x1F then None
    else Some(OpImm(rd, rs1, funct3, ShiftField(arithmetic, imm)))
  }

  /** The immediate a shift-immediate constructor passes on: the amount, and bit 10 for `srai`. */
  function ShiftField(arithmetic: bool, imm: bv16): bv16
  {
    if arithmetic then 0x400 | (imm & 0x1F) else imm & 0x1F
  }

  function Slli(rd: bv32, rs1: bv32, imm: bv16): Option<Instruction>
  {
    ShiftImmediate(rd, rs1, F3.SLLI, false, imm)
  }

  function Srli(rd: bv32, rs1: bv32, imm: bv16): Option<Instruction>
  {
    ShiftImmediate(rd, rs1, F3.SRLI_OR_SRAI, false, imm)
  }

  function Srai(rd: bv32, rs1: bv32, imm: bv16): Option<Instruction>
  {
    ShiftImmediate(rd, rs1, F3.SRLI_OR_SRAI, true, imm)
  }

  // ---- round trips with the decoder -----------------------------------------------------

  /** The fields every format shares: opcode, rd or imm[4:0], funct3, rs1. */
  predicate CommonFields(w: bv32, opcode: bv8, bits11To7: bv32, funct3: bv8, rs1: bv32)
  {
    Opcode(w) == opcode && Rd(w) as bv32 == bits11To7 && Decoder.Funct3(w) == funct3 && Rs1(w) as bv32 == rs1
  }

  /** The I-immediate of a word whose bit 31 is set: its top 12 bits with the rest set. */
  lemma IImmNegative(w: bv32)
    requires (w >> 20) & 0x800 != 0
    ensures IImm(w) == (w >> 20) | 0xFFFF_F000
  {
    IImmClosed(w);
    assert w & 0x8000_0000 != 0;
  }

  /** The I-immediate of a word whose bit 31 is clear: its top 12 bits. */
  lemma IImmNonNegative(w: bv32)
    requires (w >> 20) & 0x800 == 0
    ensures IImm(w) == w >> 20
  {
    IImmClosed(w);
    assert w & 0x8000_0000 == 0;
  }

  /** The fields below bit 20 of a word built from fields in range. */
  lemma LowFieldsBelowBit20(opcode: bv8, rd: bv32, rs1: bv32, funct3: bv8)
    requires opcode < 0x80 && rd < 32 && rs1 < 32 && funct3 < 8
    ensures opcode as bv32 | (rd << 7) | ((funct3 as bv32) << 12) | (rs1 << 15) < 0x10_0000
  {
  }

  /** A word whose top 12 bits are an i12 offset has that offset, sign-extended, as I-immediate. */
  lemma IImmOfOffset(w: bv32, offset: bv16)
    requires FitsI12(offset) && w >> 20 == (offset & 0xFFF) as bv32
    ensures IImm(w) == SignExtend16(offset)
  {
    if offset & 0x8000 != 0 {
      IImmNegative(w);
    } else {
      IImmNonNegative(w);
    }
  }

  /** The same with the low 20 bits given separately. */
  lemma IImmOfTop(low: bv32, offset: bv16)
    requires low < 0x10_0000 && FitsI12(offset)
    ensures IImm(low | (((offset & 0xFFF) as bv32) << 20)) == SignExtend16(offset)
  {
    IImmOfOffset(low | (((offset & 0xFFF) as bv32) << 20), offset);
  }

  /** A word whose low 20 bits are built from fields in range carries those fields. */
  lemma CommonFieldsOf(w: bv32, opcode: bv8, bits11To7: bv32, funct3: bv8, rs1: bv32)
    requires opcode < 0x80 && bits11To7 < 32 && funct3 < 8 && rs1 < 32
    requires w & 0xF_FFFF == opcode as bv32 | (bits11To7 << 7) | ((funct3 as bv32) << 12) | (rs1 << 15)
    ensures CommonFields(w, opcode, bits11To7, funct3, rs1)
  {
  }

  /** An I-type word built from fields in range: the decoder reads each field back. */
  lemma ITypeFields(opcode: bv8, rd: bv32, rs1: bv32, funct3: bv8, offset: bv16)
    requires opcode < 0x80 && rd < 32 && rs1 < 32 && funct3 < 8 && FitsI12(offset)
    ensures CommonFields(IType(opcode, rd, rs1, funct3, offset & 0xFFF), opcode, rd, funct3, rs1)
  {
    CommonFieldsOf(IType(opcode, rd, rs1, funct3, offset & 0xFFF), opcode, rd, funct3, rs1);
  }

  /** The I-immediate of that word is the i12 offset sign-extended. */
  lemma ITypeImmediate(opcode: bv8, rd: bv32, rs1: bv32, funct3: bv8, offset: bv16)
    requires opcode < 0x80 && rd < 32 && rs1 < 32 && funct3 < 8 && FitsI12(offset)
    ensures IImm(IType(opcode, rd, rs1, funct3, offset & 0xFFF)) == SignExtend16(offset)
  {
    LowFieldsBelowBit20(opcode, rd, rs1, funct3);
    IImmOfTop(opcode as bv32 | (rd << 7) | ((funct3 as bv32) << 12) | (rs1 << 15), offset);
  }

  /** `OpImm` with operands in range encodes to the I-type word the decoder reads back. */
  lemma EncodeOpImmDecodes(rd: bv32, rs1: bv32, funct3: bv8, immediate: bv16)
    requires rd < 32 && rs1 < 32 && funct3 < 8 && FitsI12(immediate)
    ensures Encode(OpImm(rd, rs1, funct3, immediate)) == Some(IType(Opcodes.OP_IMM, rd, rs1, funct3, immediate & 0xFFF))
    ensures CommonFields(IType(Opcodes.OP_IMM, rd, rs1, funct3, immediate & 0xFFF), Opcodes.OP_IMM, rd, funct3, rs1)
    ensures IImm(IType(Opcodes.OP_IMM, rd, rs1, funct3, immediate & 0xFFF)) == SignExtend16(immediate)
  {
    Opcodes.OpcodeValues();
    ITypeFields(Opcodes.OP_IMM, rd, rs1, funct3, immediate);
    ITypeImmediate(Opcodes.OP_IMM, rd, rs1, funct3, immediate);
  }

  /** `Jalr`: an I-type word with funct3 0. */
  lemma EncodeJalrDecodes(rd: bv32, rs1: bv32, offset: bv16)
    requires rd < 32 && rs1 < 32 && FitsI12(offset)
    ensures Encode(Jalr(rd, rs1, offset)) == Some(IType(Opcodes.JALR, rd, rs1, 0, offset & 0xFFF))
    ensures CommonFields(IType(Opcodes.JALR, rd, rs1, 0, offset & 0xFFF), Opcodes.JALR, rd, 0, rs1)
    ensures IImm(IType(Opcodes.JALR, rd, rs1, 0, offset & 0xFFF)) == SignExtend16(offset)
  {
    Opcodes.OpcodeValues();
    ITypeFields(Opcodes.JALR, rd, rs1, 0, offset);
    ITypeImmediate(Opcodes.JALR, rd, rs1, 0, offset);
  }

  /** `Load`: an I-type word with the width in funct3. */
  lemma EncodeLoadDecodes(funct3: bv8, rs1: bv32, rd: bv32, offset: bv16)
    requires rd < 32 && rs1 < 32 && funct3 < 8 && FitsI12(offset)
    ensures Encode(Load(funct3, rs1, rd, offset)) == Some(IType(Opcodes.LOAD, rd, rs1, funct3, offset & 0xFFF))
    ensures CommonFields(IType(Opcodes.LOAD, rd, rs1, funct3, offset & 0xFFF), Opcodes.LOAD, rd, funct3, rs1)
    ensures IImm(IType(Opcodes.LOAD, rd, rs1, funct3, offset & 0xFFF)) == SignExtend16(offset)
  {
    ITypeFields(Opcodes.LOAD, rd, rs1, funct3, offset);
    ITypeImmediate(Opcodes.LOAD, rd, rs1, funct3, offset);
  }

  /** `Op` with operands in range encodes to the R-type word the decoder reads back. */
  lemma EncodeOpDecodes(rd: bv32, rs1: bv32, rs2: bv32, funct3: bv8, funct7: bv8)
    requires rd < 32 && rs1 < 32 && rs2 < 32 && funct3 < 8 && funct7 < 0x80
    ensures Encode(Op(rd, rs1, rs2, funct3, funct7)) == Some(RType(Opcodes.OP, rd, rs1, rs2, funct3, funct7))
    ensures CommonFields(RType(Opcodes.OP, rd, rs1, rs2, funct3, funct7), Opcodes.OP, rd, funct3, rs1)
    ensures Rs2(RType(Opcodes.OP, rd, rs1, rs2, funct3, funct7)) as bv32 == rs2
    ensures Funct7(RType(Opcodes.OP, rd, rs1, rs2, funct3, funct7)) == funct7
  {
    Opcodes.OpcodeValues();
    CommonFieldsOf(RType(Opcodes.OP, rd, rs1, rs2, funct3, funct7), Opcodes.OP, rd, funct3, rs1);
  }

  /**
   * `Lui` and `Auipc` with rd below 32 and the low 12 bits of the value clear encode to a
   * word whose U-immediate is the value; any other operands are refused.
   */
  lemma EncodeUpperDecodes(opcode: bv8, rd: bv32, value: bv32)
    requires opcode < 0x80
    ensures EncodeUpper(opcode, rd, value).Some? <==> rd < 32 && value & 0xFFF == 0
    ensures EncodeUpper(opcode, rd, value).Some? ==>
              Opcode(EncodeUpper(opcode, rd, value).value) == opcode
              && Rd(EncodeUpper(opcode, rd, value).value) as bv32 == rd
              && UImm(EncodeUpper(opcode, rd, value).value) == value
  {
  }

  /** The S-immediate of a word whose bit 31 is set. */
  lemma SImmNegative(w: bv32)
    requires w >> 31 == 1
    ensures SImm(w) == ((w >> 20) & 0x7E0) | ((w >> 7) & 0x1F) | 0xFFFF_F800
  {
    SImmClosed(w);
    assert w & 0x8000_0000 != 0;
  }

  /** The S-immediate of a word whose bit 31 is clear. */
  lemma SImmNonNegative(w: bv32)
    requires w >> 31 == 0
    ensures SImm(w) == ((w >> 20) & 0x7E0) | ((w >> 7) & 0x1F)
  {
    SImmClosed(w);
    assert w & 0x8000_0000 == 0;
  }

  /** A word holding an i12 offset in the S-type positions has it, sign-extended, as S-immediate. */
  lemma SImmOfOffset(w: bv32, offset: bv16)
    requires FitsI12(offset)
    requires (w >> 7) & 0x1F == (offset & 0x1F) as bv32
    requires w >> 25 == ((offset & 0xFFF) >> 5) as bv32
    ensures SImm(w) == SignExtend16(offset)
  {
    if offset & 0x8000 != 0 {
      SImmNegative(w);
    } else {
      SImmNonNegative(w);
    }
  }

  /** Where a store word keeps its fields. */
  lemma STypeLayout(funct3: bv8, rs1: bv32, rs2: bv32, imm: bv16)
    requires funct3 < 8 && rs1 < 32 && rs2 < 32 && imm <= 0xFFF
    ensures SType(funct3, rs1, rs2, imm) & 0xF_FFFF
            == Opcodes.STORE as bv32 | (((imm & 0x1F) as bv32) << 7) | ((funct3 as bv32) << 12) | (rs1 << 15)
    ensures Rs2(SType(funct3, rs1, rs2, imm)) as bv32 == rs2
    ensures (SType(funct3, rs1, rs2, imm) >> 7) & 0x1F == (imm & 0x1F) as bv32
    ensures SType(funct3, rs1, rs2, imm) >> 25 == (imm >> 5) as bv32
  {
  }

  /**
   * `Store` with registers below 32, funct3 below 8 and an offset in the i12 range encodes to
   * an S-type word: opcode, funct3, rs1 and rs2 read back, and the S-immediate is the offset.
   */
  lemma EncodeStoreDecodes(funct3: bv8, rs1: bv32, rs2: bv32, offset: bv16)
    requires funct3 < 8 && rs1 < 32 && rs2 < 32 && FitsI12(offset)
    ensures Encode(Store(funct3, rs1, rs2, offset)) == Some(SType(funct3, rs1, rs2, offset & 0xFFF))
    ensures CommonFields(SType(funct3, rs1, rs2, offset & 0xFFF), Opcodes.STORE, (offset & 0x1F) as bv32, funct3, rs1)
    ensures Rs2(SType(funct3, rs1, rs2, offset & 0xFFF)) as bv32 == rs2
    ensures SImm(SType(funct3, rs1, rs2, offset & 0xFFF)) == SignExtend16(offset)
  {
    STypeLayout(funct3, rs1, rs2, offset & 0xFFF);
    CommonFieldsOf(SType(funct3, rs1, rs2, offset & 0xFFF), Opcodes.STORE, (offset & 0x1F) as bv32, funct3, rs1);
    SImmOfOffset(SType(funct3, rs1, rs2, offset & 0xFFF), offset);
  }

  /** Where `encode_b_type_immediate` puts each piece of the offset. */
  lemma BTypeImmediateLayout(v: bv16)
    requires FitsB13(v)
    ensures (EncodeBTypeImmediate(v).value >> 7) & 1 == ((v >> 11) & 1) as bv32
    ensures (EncodeBTypeImmediate(v).value >> 8) & 0xF == ((v >> 1) & 0xF) as bv32
    ensures (EncodeBTypeImmediate(v).value >> 25) & 0x3F == ((v >> 5) & 0x3F) as bv32
    ensures EncodeBTypeImmediate(v).value >> 31 == ((v >> 12) & 1) as bv32
  {
  }

  /** The B-immediate of a word whose bit 31 is set. */
  lemma BImmNegative(w: bv32)
    requires w >> 31 == 1
    ensures BImm(w) == ((w << 4) & 0x800) | ((w >> 20) & 0x7E0) | ((w >> 7) & 0x1E) | 0xFFFF_F000
  {
    BImmClosed(w);
    assert w & 0x8000_0000 != 0;
  }

  /** The B-immediate of a word whose bit 31 is clear. */
  lemma BImmNonNegative(w: bv32)
    requires w >> 31 == 0
    ensures BImm(w) == ((w << 4) & 0x800) | ((w >> 20) & 0x7E0) | ((w >> 7) & 0x1E)
  {
    BImmClosed(w);
    assert w & 0x8000_0000 == 0;
  }

  /** A word holding a B-type offset in the B-type positions has it, sign-extended, as B-immediate. */
  lemma BImmOfOffset(w: bv32, v: bv16)
    requires FitsB13(v)
    requires (w >> 7) & 1 == ((v >> 11) & 1) as bv32
    requires (w >> 8) & 0xF == ((v >> 1) & 0xF) as bv32
    requires (w >> 25) & 0x3F == ((v >> 5) & 0x3F) as bv32
    requires w >> 31 == ((v >> 12) & 1) as bv32
    ensures BImm(w) == SignExtend16(v)
  {
    if v & 0x8000 != 0 {
      BImmNegative(w);
    } else {
      BImmNonNegative(w);
    }
  }

  /** Where a branch word keeps its fields, for an immediate clear of them. */
  lemma BTypeLayout(funct3: bv8, rs1: bv32, rs2: bv32, imm: bv32)
    requires funct3 < 8 && rs1 < 32 && rs2 < 32 && imm & 0x01FF_F07F == 0
    ensures Opcode(BType(funct3, rs1, rs2, imm)) == Opcodes.BRANCH
    ensures Decoder.Funct3(BType(funct3, rs1, rs2, imm)) == funct3
    ensures Rs1(BType(funct3, rs1, rs2, imm)) as bv32 == rs1
    ensures Rs2(BType(funct3, rs1, rs2, imm)) as bv32 == rs2
    ensures (BType(funct3, rs1, rs2, imm) >> 7) & 1 == (imm >> 7) & 1
    ensures (BType(funct3, rs1, rs2, imm) >> 8) & 0xF == (imm >> 8) & 0xF
    ensures (BType(funct3, rs1, rs2, imm) >> 25) & 0x3F == (imm >> 25) & 0x3F
    ensures BType(funct3, rs1, rs2, imm) >> 31 == imm >> 31
  {
  }

  /**
   * `Branch` with registers below 32, funct3 below 8 and an even offset in [-4096, 4094]
   * encodes to a B-type word: funct3, rs1 and rs2 read back, and the B-immediate is the offset.
   */
  lemma EncodeBranchDecodes(funct3: bv8, rs1: bv32, rs2: bv32, offset: bv16)
    requires funct3 < 8 && rs1 < 32 && rs2 < 32 && FitsB13(offset)
    ensures Encode(Branch(funct3, rs1, rs2, offset)) == Some(BType(funct3, rs1, rs2, EncodeBTypeImmediate(offset).value))
    ensures Opcode(BType(funct3, rs1, rs2, EncodeBTypeImmediate(offset).value)) == Opcodes.BRANCH
    ensures Decoder.Funct3(BType(funct3, rs1, rs2, EncodeBTypeImmediate(offset).value)) == funct3
    ensures Rs1(BType(funct3, rs1, rs2, EncodeBTypeImmediate(offset).value)) as bv32 == rs1
    ensures Rs2(BType(funct3, rs1, rs2, EncodeBTypeImmediate(offset).value)) as bv32 == rs2
    ensures BImm(BType(funct3, rs1, rs2, EncodeBTypeImmediate(offset).value)) == SignExtend16(offset)
  {
    BTypeImmediateLayout(offset);
    BTypeLayout(funct3, rs1, rs2, EncodeBTypeImmediate(offset).value);
    BImmOfOffset(BType(funct3, rs1, rs2, EncodeBTypeImmediate(offset).value), offset);
  }

  /** Where the J-type immediate encoder puts each piece of the offset. */
  lemma JTypeImmediateLayout(offset: bv32)
    requires FitsJ21(offset)
    ensures (EncodeJTypeImmediate(offset).value >> 12) & 0xFF == (offset >> 12) & 0xFF
    ensures (EncodeJTypeImmediate(offset).value >> 20) & 1 == (offset >> 11) & 1
    ensures (EncodeJTypeImmediate(offset).value >> 21) & 0x3FF == (offset >> 1) & 0x3FF
    ensures EncodeJTypeImmediate(offset).value >> 31 == (offset >> 20) & 1
  {
  }

  /** The J-immediate of a word whose bit 31 is set. */
  lemma JImmNegative(w: bv32)
    requires w >> 31 == 1
    ensures JImm(w) == (w & 0xF_F000) | ((w >> 9) & 0x800) | ((w >> 20) & 0x7FE) | 0xFFF0_0000
  {
    JImmClosed(w);
    assert w & 0x8000_0000 != 0;
  }

  /** The J-immediate of a word whose bit 31 is clear. */
  lemma JImmNonNegative(w: bv32)
    requires w >> 31 == 0
    ensures JImm(w) == (w & 0xF_F000) | ((w >> 9) & 0x800) | ((w >> 20) & 0x7FE)
  {
    JImmClosed(w);
    assert w & 0x8000_0000 == 0;
  }

  /** A word holding a J-type offset in the J-type positions has it as J-immediate. */
  lemma JImmOfOffset(w: bv32, offset: bv32)
    requires FitsJ21(offset)
    requires (w >> 12) & 0xFF == (offset >> 12) & 0xFF
    requires (w >> 20) & 1 == (offset >> 11) & 1
    requires (w >> 21) & 0x3FF == (offset >> 1) & 0x3FF
    requires w >> 31 == (offset >> 20) & 1
    ensures JImm(w) == offset
  {
    if offset & 0x8000_0000 != 0 {
      JImmNegative(w);
    } else {
      JImmNonNegative(w);
    }
  }

  /** Where a jump word keeps its fields, for an immediate clear of bits 11:0. */
  lemma JTypeLayout(rd: bv32, imm: bv32)
    requires rd < 32 && imm & 0xFFF == 0
    ensures Opcode(JType(rd, imm)) == Opcodes.JAL
    ensures Rd(JType(rd, imm)) as bv32 == rd
    ensures JType(rd, imm) >> 12 == imm >> 12
  {
    Opcodes.OpcodeValues();
  }

  /**
   * `Jal` with rd below 32 and an even offset in [-2^20, 2^20 - 2] encodes to a J-type word
   * whose rd reads back and whose J-immediate is the offset.
   */
  lemma EncodeJalDecodes(rd: bv32, offset: bv32)
    requires rd < 32 && FitsJ21(offset)
    ensures Encode(Jal(rd, offset)) == Some(JType(rd, EncodeJTypeImmediate(offset).value))
    ensures Opcode(JType(rd, EncodeJTypeImmediate(offset).value)) == Opcodes.JAL
    ensures Rd(JType(rd, EncodeJTypeImmediate(offset).value)) as bv32 == rd
    ensures JImm(JType(rd, EncodeJTypeImmediate(offset).value)) == offset
  {
    JTypeImmediateLayout(offset);
    JTypeLayout(rd, EncodeJTypeImmediate(offset).value);
    JImmOfOffset(JType(rd, EncodeJTypeImmediate(offset).value), offset);
  }

  /**
   * `encode_jal(1024, 0)` as written: the decoder reads the offset back as 3072, because
   * offset bit 10 went to imm[11]'s position; with the ISA layout it reads back 1024. The
   * as-written guard also admits 2^20, which no J-type immediate can hold.
   */
  lemma EncodeJalAsWrittenCounterexample()
    ensures EncodeJalAsWritten(1024, 0) == Some(0x4010_006F)
    ensures JImm(0x4010_006F) == 3072
    ensures EncodeJal(1024, 0) == Some(0x4000_006F)
    ensures JImm(0x4000_006F) == 1024
    ensures EncodeJTypeImmediateAsWritten(0x10_0000).Some? && EncodeJTypeImmediate(0x10_0000).None?
  {
    Opcodes.OpcodeValues();
  }

  /** Funct7 of an I-type word is the top seven bits of its 12-bit immediate. */
  lemma ITypeFunct7(opcode: bv8, rd: bv32, rs1: bv32, funct3: bv8, imm: bv16)
    requires opcode < 0x80 && rd < 32 && rs1 < 32 && funct3 < 8 && imm <= 0xFFF
    ensures Funct7(IType(opcode, rd, rs1, funct3, imm)) as bv16 == imm >> 5
  {
  }

  /**
   * A shift-immediate constructor refuses exactly the non-negative amounts above 31. What it
   * builds encodes to an OP-IMM word whose I-immediate carries the amount in its low five
   * bits and whose funct7 is 0b0100000 for `srai` and 0 otherwise, the two funct7 values the
   * executor accepts.
   */
  lemma ShiftImmediateDecodes(rd: bv32, rs1: bv32, funct3: bv8, arithmetic: bool, imm: bv16)
    requires rd < 32 && rs1 < 32 && funct3 < 8
    ensures ShiftImmediate(rd, rs1, funct3, arithmetic, imm).None? <==> imm & 0x8000 == 0 && imm > 0x1F
    ensures ShiftImmediate(rd, rs1, funct3, arithmetic, imm).Some? ==>
              Encode(ShiftImmediate(rd, rs1, funct3, arithmetic, imm).value)
              == Some(IType(Opcodes.OP_IMM, rd, rs1, funct3, ShiftField(arithmetic, imm)))
    ensures Funct7(IType(Opcodes.OP_IMM, rd, rs1, funct3, ShiftField(arithmetic, imm))) == if arithmetic then 0x20 else 0
    ensures IImm(IType(Opcodes.OP_IMM, rd, rs1, funct3, ShiftField(arithmetic, imm))) & 0x1F == (imm & 0x1F) as bv32
  {
    Opcodes.OpcodeValues();
    assert ShiftField(arithmetic, imm) & 0xFFF == ShiftField(arithmetic, imm);
    assert FitsI12(ShiftField(arithmetic, imm));
    ITypeImmediate(Opcodes.OP_IMM, rd, rs1, funct3, ShiftField(arithmetic, imm));
    ITypeFunct7(Opcodes.OP_IMM, rd, rs1, funct3, ShiftField(arithmetic, imm));
    if arithmetic {
      assert ShiftField(arithmetic, imm) >> 5 == 0x20;
    } else {
      assert ShiftField(arithmetic, imm) >> 5 == 0;
    }
  }

  /**
   * `encode_fence` with funct3 in bits 14:12: FENCE (funct3 0) and FENCE.I (funct3 1) decode
   * with that funct3, rd and rs1 zero and the predecessor and successor sets in bits 27:24
   * and 23:20. Any other funct3, or a set above 0b1111, is refused.
   */
  lemma EncodeFenceDecodes(funct3: bv8, pred: bv8, succ: bv8)
    ensures EncodeFence(funct3, pred, succ).Some? <==> funct3 <= 1 && pred <= 0xF && succ <= 0xF
    ensures EncodeFence(funct3, pred, succ).Some? ==>
              CommonFields(EncodeFence(funct3, pred, succ).value, Opcodes.FENCE, 0, funct3, 0)
              && (EncodeFence(funct3, pred, succ).value >> 24) as bv8 == pred
              && ((EncodeFence(funct3, pred, succ).value >> 20) & 0xF) as bv8 == succ
  {
    if EncodeFence(funct3, pred, succ).Some? {
      CommonFieldsOf(EncodeFence(funct3, pred, succ).value, Opcodes.FENCE, 0, funct3, 0);
    }
  }

  /** `encode_fence` as written puts funct3 into the rd field and leaves funct3 zero. */
  lemma EncodeFenceAsWrittenMisplacesFunct3(funct3: bv8, pred: bv8, succ: bv8)
    ensures EncodeFenceAsWritten(funct3, pred, succ).Some? <==> EncodeFence(funct3, pred, succ).Some?
    ensures EncodeFenceAsWritten(funct3, pred, succ).Some? ==>
              CommonFields(EncodeFenceAsWritten(funct3, pred, succ).value, Opcodes.FENCE, funct3 as bv32, 0, 0)
  {
    if EncodeFenceAsWritten(funct3, pred, succ).Some? {
      CommonFieldsOf(EncodeFenceAsWritten(funct3, pred, succ).value, Opcodes.FENCE, funct3 as bv32, 0, 0);
    }
  }

  /** FENCE.I as written is 0x0000_008F, a FENCE with rd = x1; with funct3 in place it is 0x0000_100F. */
  lemma FenceIAsWrittenCounterexample()
    ensures EncodeFenceAsWritten(1, 0, 0) == Some(0x0000_008F)
    ensures Decoder.Funct3(0x0000_008F) == 0 && Rd(0x0000_008F) == 1
    ensures Encode(FenceI) == Some(0x0000_100F) && Decoder.Funct3(0x0000_100F) == 1
  {
  }

  /** ECALL is the SYSTEM opcode alone; EBREAK adds I-immediate 1. */
  lemma SystemWords()
    ensures Encode(ECall) == Some(0x0000_0073) && Encode(EBreak) == Some(0x0010_0073)
    ensures CommonFields(0x0000_0073, Opcodes.SYSTEM, 0, F3.ECALL_OR_EBREAK, 0) && IImm(0x0000_0073) == 0
    ensures CommonFields(0x0010_0073, Opcodes.SYSTEM, 0, F3.ECALL_OR_EBREAK, 0) && IImm(0x0010_0073) == 1
  {
  }

  /**
   * `CsrRw` with registers below 32 and a CSR number below 4096 encodes to a SYSTEM word with
   * funct3 CSRRW and the CSR number in bits 31:20; anything else is refused.
   */
  lemma EncodeCsrDecodes(rs1: bv32, rd: bv32, csr: bv32)
    ensures Encode(CsrRw(rs1, rd, csr)).Some? <==> rd < 32 && rs1 < 32 && csr < 0x1000
    ensures Encode(CsrRw(rs1, rd, csr)).Some? ==>
              CommonFields(Encode(CsrRw(rs1, rd, csr)).value, Opcodes.SYSTEM, rd, F3.CSRRW, rs1)
              && Encode(CsrRw(rs1, rd, csr)).value >> 20 == csr
  {
    if Encode(CsrRw(rs1, rd, csr)).Some? {
      CommonFieldsOf(Encode(CsrRw(rs1, rd, csr)).value, Opcodes.SYSTEM, rd, F3.CSRRW, rs1);
    }
  }

  /**
   * The `> 32` register guard of `i_type_opcode` lets register 32 through: `addi x32, x0, 0`
   * encodes to a word the decoder reads as `slli x0, x0, 0`.
   */
  lemma RegisterGuardAdmits32()
    ensures Encode(OpImm(32, 0, F3.ADDI, 0)) == Some(0x0000_1013)
    ensures Rd(0x0000_1013) == 0 && Decoder.Funct3(0x0000_1013) == F3.SLLI
  {
    Opcodes.OpcodeValues();
  }

  /**
   * `convert_i16_to_i12` accepts 2048..4095: `addi x1, x0, 2048` encodes, and the decoder
   * reads its immediate back as -2048.
   */
  lemma ConvertAdmitsTwelveBitUnsigned()
    ensures ConvertI16ToI12(2048) == Some(0x800)
    ensures Encode(OpImm(1, 0, F3.ADDI, 2048)) == Some(0x8000_0093)
    ensures Signed(IImm(0x8000_0093)) == -2048
  {
    Opcodes.OpcodeValues();
  }

  /** Instructions from the repository's encoder cases, with the fields the decoder reads back. */
  lemma EncoderExamples()
    ensures Encode(NO_OP) == Some(0x0000_0013)
    ensures Srai(2, 4, 3).Some? && Encode(Srai(2, 4, 3).value) == Some(0x4032_5113)
    ensures IImm(0x4032_5113) == 0x403 && Funct7(0x4032_5113) == 0x20
    ensures Encode(Lui(5, 0xDF5A_5000)) == Some(0xDF5A_52B7)
    ensures Encode(Jal(3, 500)) == Some(0x1F40_01EF) && JImm(0x1F40_01EF) == 500
    ensures Encode(Jal(2, 0xFFFF_FE0C)) == Some(0xE0DF_F16F) && Signed(JImm(0xE0DF_F16F)) == -500
    ensures EncodeJalAsWritten(500, 3) == Encode(Jal(3, 500))
    ensures EncodeJalAsWritten(0xFFFF_FE0C, 2) == Encode(Jal(2, 0xFFFF_FE0C))
  {
    Opcodes.OpcodeValues();
  }

  // ---- decoding then encoding ----------------------------------------------------------

  /** The i16 an I-immediate denotes (`i_type_immediate_32(w) as i16`). */
  function IImm16(w: bv32): bv16
  {
    (IImm(w) & 0xFFFF) as bv16
  }

  /** That i16 is in the i12 range, and its low 12 bits are the word's top 12 bits. */
  lemma IImm16Fits(w: bv32)
    ensures FitsI12(IImm16(w)) && IImm16(w) & 0xFFF == (w >> 20) as bv16
  {
    IImmFields(w);
    if w & 0x8000_0000 != 0 {
    } else {
    }
  }

  /** A word is the I-type layout of its own fields. */
  lemma ITypeTiles(w: bv32)
    ensures IType(Opcode(w), Rd(w) as bv32, Rs1(w) as bv32, Decoder.Funct3(w), (w >> 20) as bv16) == w
  {
  }

  /**
   * Every OP-IMM word is the encoding of the `OpImm` built from its decoded fields: the
   * encoder reaches every OP-IMM word, and decoding loses nothing.
   */
  lemma OpImmReencodes(w: bv32)
    requires Opcode(w) == Opcodes.OP_IMM
    ensures Encode(OpImm(Rd(w) as bv32, Rs1(w) as bv32, Decoder.Funct3(w), IImm16(w))) == Some(w)
  {
    IImm16Fits(w);
    ITypeTiles(w);
  }

  /** The same for LOAD words. */
  lemma LoadReencodes(w: bv32)
    requires Opcode(w) == Opcodes.LOAD
    ensures Encode(Load(Decoder.Funct3(w), Rs1(w) as bv32, Rd(w) as bv32, IImm16(w))) == Some(w)
  {
    IImm16Fits(w);
    ITypeTiles(w);
  }

  /** And for JALR words, whose funct3 must be 0. */
  lemma JalrReencodes(w: bv32)
    requires Opcode(w) == Opcodes.JALR && Decoder.Funct3(w) == 0
    ensures Encode(Jalr(Rd(w) as bv32, Rs1(w) as bv32, IImm16(w))) == Some(w)
  {
    IImm16Fits(w);
    ITypeTiles(w);
  }

  /** Every OP word is the encoding of the `Op` built from its six decoded fields. */
  lemma OpReencodes(w: bv32)
    requires Opcode(w) == Opcodes.OP
    ensures Encode(Op(Rd(w) as bv32, Rs1(w) as bv32, Rs2(w) as bv32, Decoder.Funct3(w), Funct7(w))) == Some(w)
  {
    FieldsTileTheWord(w);
  }

  /** Every LUI and AUIPC word is the encoding of its rd and U-immediate. */
  lemma UpperReencodes(w: bv32)
    requires Opcode(w) == Opcodes.LUI || Opcode(w) == Opcodes.AUIPC
    ensures Opcode(w) == Opcodes.LUI ==> Encode(Lui(Rd(w) as bv32, UImm(w))) == Some(w)
    ensures Opcode(w) == Opcodes.AUIPC ==> Encode(Auipc(Rd(w) as bv32, UImm(w))) == Some(w)
  {
  }
}
