/**
 * Field extractors and immediate decoders of the RV32I instruction formats
 * (src/instruction/decoder.rs; sections 2.2 and 2.3 of the RISC-V Unprivileged ISA).
 *
 * Every decoder is total: it is defined for all 32-bit words. The i32 results of the
 * immediate decoders are kept as their bit patterns; `Words.Signed` reads them as integers.
 */
module Decoder {
  import opened Words
  import opened InstructionUtil

  /** Bits 6:0. */
  function Opcode(w: bv32): (r: bv8)
    ensures r < 0x80
    ensures r as bv32 == w & 0x7F
  {
    Extract(w, 0, C_7_BITS) as bv8
  }

  /** Bits 11:7. */
  function Rd(w: bv32): (r: bv8)
    ensures r < 0x20
    ensures r as bv32 == (w >> 7) & 0x1F
  {
    Extract(w, 7, C_5_BITS) as bv8
  }

  /** Bits 19:15. */
  function Rs1(w: bv32): (r: bv8)
    ensures r < 0x20
    ensures r as bv32 == (w >> 15) & 0x1F
  {
    Extract(w, 15, C_5_BITS) as bv8
  }

  /** Bits 24:20. */
  function Rs2(w: bv32): (r: bv8)
    ensures r < 0x20
    ensures r as bv32 == (w >> 20) & 0x1F
  {
    Extract(w, 20, C_5_BITS) as bv8
  }

  /** Bits 14:12. */
  function Funct3(w: bv32): (r: bv8)
    ensures r < 0x8
    ensures r as bv32 == (w >> 12) & 0x7
  {
    Extract(w, 12, C_3_BITS) as bv8
  }

  /** Bits 31:25. */
  function Funct7(w: bv32): (r: bv8)
    ensures r < 0x80
    ensures r as bv32 == w >> 25
  {
    Extract(w, 25, C_7_BITS) as bv8
  }

  /**
   * The six fields of the R-type layout tile the word: put back at their offsets they give
   * the word again, so two words with the same fields are the same word.
   */
  lemma FieldsTileTheWord(w: bv32)
    ensures w == Opcode(w) as bv32 | (Rd(w) as bv32 << 7) | (Funct3(w) as bv32 << 12)
                 | (Rs1(w) as bv32 << 15) | (Rs2(w) as bv32 << 20) | (Funct7(w) as bv32 << 25)
  {
  }

  /**
   * Keeps the low `bits` bits of `raw` and sets bits `bits`..31 to `sign`. A width of 32
   * would overflow the mask's shift, so it is below 32.
   */
  function SignExtend32(raw: bv32, bits: bv32, sign: bool): (r: bv32)
    requires bits < 32
    ensures r >> bits == (if sign then 0xFFFF_FFFF >> bits else 0)
  {
    var bitMask: bv32 := (1 << bits) - 1;
    var signMask := !bitMask;
    var extension := if sign then signMask else 0;
    (raw & bitMask) | extension
  }

  // Sign extension at the three widths the immediate decoders use: the low bits of `raw`
  // are kept and the rest cleared or set.

  lemma SignExtend11(raw: bv32, sign: bool)
    ensures SignExtend32(raw, 11, sign) == if sign then raw | 0xFFFF_F800 else raw & 0x7FF
  {
    if sign {
    } else {
    }
  }

  lemma SignExtend12(raw: bv32, sign: bool)
    ensures SignExtend32(raw, 12, sign) == if sign then raw | 0xFFFF_F000 else raw & 0xFFF
  {
    if sign {
    } else {
    }
  }

  lemma SignExtend20(raw: bv32, sign: bool)
    ensures SignExtend32(raw, 20, sign) == if sign then raw | 0xFFF0_0000 else raw & 0xF_FFFF
  {
    if sign {
    } else {
    }
  }

  /** The sign_extend_32 cases the repository checks: widths 1 and 7, either sign. */
  lemma SignExtendExamples()
    ensures SignExtend32(1, 1, false) == 1
    ensures Signed(SignExtend32(1, 1, true)) == -1
    ensures SignExtend32(127, 7, false) == 127
    ensures Signed(SignExtend32(0x3F, 7, true)) == -65
  {
  }

  /** I-type: inst[31:20] sign-extended, bit 31 giving the sign. */
  function IImm(w: bv32): bv32
  {
    var sign := Extract(w, 0, 0x8000_0000) != 0;
    var raw := Extract(w, 20, C_11_BITS);
    SignExtend32(raw, 11, sign)
  }

  /** S-type: inst[31:25] gives imm[11:5] and inst[11:7] gives imm[4:0]. */
  function SImm(w: bv32): bv32
  {
    var sign := Extract(w, 0, 0x8000_0000) != 0;
    var upper := Extract(w, 25, C_6_BITS) << 5;
    var lower := Extract(w, 7, C_5_BITS);
    SignExtend32(upper | lower, 11, sign)
  }

  /** B-type: an even offset of 13 bits. */
  function BImm(w: bv32): bv32
  {
    var sign := w & 0x8000_0000 != 0;
    var bit11 := Extract(w, 7, 0x1) << 11;
    var bits10To5 := Extract(w, 25, C_6_BITS) << 5;
    var bits4To1 := Extract(w, 8, C_4_BITS) << 1;
    SignExtend32(bit11 | bits10To5 | bits4To1, 12, sign)
  }

  /** J-type: an even offset of 21 bits. */
  function JImm(w: bv32): bv32
  {
    var sign := w & 0x8000_0000 != 0;
    var bit11 := Extract(w, 20, 0x1) << 11;
    var bits10To1 := Extract(w, 21, C_10_BITS) << 1;
    var bits19To12 := Extract(w, 12, C_8_BITS) << 12;
    SignExtend32(bits19To12 | bit11 | bits10To1, 20, sign)
  }

  // Each decoder in closed form: the instruction bits moved to their immediate positions,
  // OR-ed with the sign fill. The pieces the source extracts are first reassembled on their
  // own, then the sign extension is applied case by case.

  lemma IImmRaw(w: bv32)
    ensures Extract(w, 20, C_11_BITS) == (w >> 20) & 0x7FF
    ensures (Extract(w, 0, 0x8000_0000) != 0) == (w & 0x8000_0000 != 0)
  {
  }

  lemma IImmClosed(w: bv32)
    ensures IImm(w) == ((w >> 20) & 0x7FF) | (if w & 0x8000_0000 != 0 then 0xFFFF_F800 else 0)
  {
    var raw := (w >> 20) & 0x7FF;
    IImmRaw(w);
    if w & 0x8000_0000 != 0 {
      SignExtend11(raw, true);
    } else {
      SignExtend11(raw, false);
    }
  }

  lemma SImmRaw(w: bv32)
    ensures (Extract(w, 25, C_6_BITS) << 5) | Extract(w, 7, C_5_BITS) == ((w >> 20) & 0x7E0) | ((w >> 7) & 0x1F)
    ensures (Extract(w, 0, 0x8000_0000) != 0) == (w & 0x8000_0000 != 0)
  {
  }

  lemma SImmClosed(w: bv32)
    ensures SImm(w) == ((w >> 20) & 0x7E0) | ((w >> 7) & 0x1F) | (if w & 0x8000_0000 != 0 then 0xFFFF_F800 else 0)
  {
    var raw := ((w >> 20) & 0x7E0) | ((w >> 7) & 0x1F);
    SImmRaw(w);
    if w & 0x8000_0000 != 0 {
      SignExtend11(raw, true);
    } else {
      SignExtend11(raw, false);
    }
  }

  lemma BImmRaw(w: bv32)
    ensures (Extract(w, 7, 0x1) << 11) | (Extract(w, 25, C_6_BITS) << 5) | (Extract(w, 8, C_4_BITS) << 1)
         == ((w << 4) & 0x800) | ((w >> 20) & 0x7E0) | ((w >> 7) & 0x1E)
  {
  }

  lemma BImmClosed(w: bv32)
    ensures BImm(w) == ((w << 4) & 0x800) | ((w >> 20) & 0x7E0) | ((w >> 7) & 0x1E)
                       | (if w & 0x8000_0000 != 0 then 0xFFFF_F000 else 0)
  {
    var raw := ((w << 4) & 0x800) | ((w >> 20) & 0x7E0) | ((w >> 7) & 0x1E);
    BImmRaw(w);
    if w & 0x8000_0000 != 0 {
      SignExtend12(raw, true);
    } else {
      SignExtend12(raw, false);
    }
  }

  lemma JImmRaw(w: bv32)
    ensures (Extract(w, 12, C_8_BITS) << 12) | (Extract(w, 20, 0x1) << 11) | (Extract(w, 21, C_10_BITS) << 1)
         == (w & 0xF_F000) | ((w >> 9) & 0x800) | ((w >> 20) & 0x7FE)
  {
  }

  lemma JImmClosed(w: bv32)
    ensures JImm(w) == (w & 0xF_F000) | ((w >> 9) & 0x800) | ((w >> 20) & 0x7FE)
                       | (if w & 0x8000_0000 != 0 then 0xFFF0_0000 else 0)
  {
    var raw := (w & 0xF_F000) | ((w >> 9) & 0x800) | ((w >> 20) & 0x7FE);
    JImmRaw(w);
    if w & 0x8000_0000 != 0 {
      SignExtend20(raw, true);
    } else {
      SignExtend20(raw, false);
    }
  }

  /** I-type: imm[10:0] is inst[30:20] and bits 11..31 copy inst[31]. */
  lemma IImmFields(w: bv32)
    ensures IImm(w) & 0x7FF == (w >> 20) & 0x7FF
    ensures IImm(w) >> 11 == (if w & 0x8000_0000 != 0 then 0x1F_FFFF else 0)
  {
    IImmClosed(w);
    if w & 0x8000_0000 != 0 {
    } else {
    }
  }

  /** S-type: imm[4:0] is inst[11:7], imm[10:5] is inst[30:25] and bits 11..31 copy inst[31]. */
  lemma SImmFields(w: bv32)
    ensures SImm(w) & 0x1F == (w >> 7) & 0x1F
    ensures (SImm(w) >> 5) & 0x3F == (w >> 25) & 0x3F
    ensures SImm(w) >> 11 == (if w & 0x8000_0000 != 0 then 0x1F_FFFF else 0)
  {
    SImmClosed(w);
  }

  /**
   * B-type: the offset is even; imm[4:1] is inst[11:8], imm[10:5] is inst[30:25], imm[11] is
   * inst[7] and bits 12..31 copy inst[31].
   */
  lemma BImmFields(w: bv32)
    ensures BImm(w) & 1 == 0
    ensures (BImm(w) >> 1) & 0xF == (w >> 8) & 0xF
    ensures (BImm(w) >> 5) & 0x3F == (w >> 25) & 0x3F
    ensures (BImm(w) >> 11) & 1 == (w >> 7) & 1
    ensures BImm(w) >> 12 == (if w & 0x8000_0000 != 0 then 0xF_FFFF else 0)
  {
    BImmClosed(w);
  }

  /**
   * J-type: the offset is even; imm[10:1] is inst[30:21], imm[11] is inst[20], imm[19:12] is
   * inst[19:12] and bits 20..31 copy inst[31].
   */
  lemma JImmFields(w: bv32)
    ensures JImm(w) & 1 == 0
    ensures (JImm(w) >> 1) & 0x3FF == (w >> 21) & 0x3FF
    ensures (JImm(w) >> 11) & 1 == (w >> 20) & 1
    ensures (JImm(w) >> 12) & 0xFF == (w >> 12) & 0xFF
    ensures JImm(w) >> 20 == (if w & 0x8000_0000 != 0 then 0xFFF else 0)
  {
    JImmClosed(w);
  }

  /** The I-type immediate lies in [-2048, 2047]. */
  lemma IImmRange(w: bv32)
    ensures -0x800 <= Signed(IImm(w)) <= 0x7FF
  {
    var imm := IImm(w);
    IImmClosed(w);
    if w & 0x8000_0000 != 0 {
      assert imm >= 0xFFFF_F800;
    } else {
      assert imm <= 0x7FF;
    }
  }

  /** The S-type immediate lies in [-2048, 2047]. */
  lemma SImmRange(w: bv32)
    ensures -0x800 <= Signed(SImm(w)) <= 0x7FF
  {
    var imm := SImm(w);
    SImmClosed(w);
    if w & 0x8000_0000 != 0 {
      assert imm >= 0xFFFF_F800;
    } else {
      assert imm <= 0x7FF;
    }
  }

  /** The B-type immediate lies in [-4096, 4094]. */
  lemma BImmRange(w: bv32)
    ensures -0x1000 <= Signed(BImm(w)) <= 0xFFE
  {
    var imm := BImm(w);
    BImmClosed(w);
    if w & 0x8000_0000 != 0 {
      assert imm >= 0xFFFF_F000;
    } else {
      assert imm <= 0xFFE;
    }
  }

  /** The J-type immediate lies in [-2^20, 2^20 - 2]. */
  lemma JImmRange(w: bv32)
    ensures -0x10_0000 <= Signed(JImm(w)) <= 0xF_FFFE
  {
    var imm := JImm(w);
    JImmClosed(w);
    if w & 0x8000_0000 != 0 {
      assert imm >= 0xFFF0_0000;
    } else {
      assert imm <= 0xF_FFFE;
    }
  }

  /**
   * The U-type immediate as the decoder computes it: the mask 0xFFFF_E000 keeps bits 31:13
   * and clears bit 12, although section 2.3 of the RISC-V Unprivileged ISA places imm[31:12]
   * in bits 31:12.
   */
  function UImmAsWritten(w: bv32): (r: bv32)
    ensures r & 0x1FFF == 0
    ensures r >> 13 == w >> 13
  {
    w & 0xFFFF_E000
  }

  /** The U-type immediate of section 2.3 of the RISC-V Unprivileged ISA: bits 31:12 of the instruction, low 12 bits zero. */
  function UImm(w: bv32): (r: bv32)
    ensures r & 0xFFF == 0
    ensures r >> 12 == w >> 12
  {
    w & 0xFFFF_F000
  }

  /** The two masks differ exactly in bit 12 of the instruction word. */
  lemma UImmAsWrittenDropsBit12(w: bv32)
    ensures UImmAsWritten(w) ^ UImm(w) == w & 0x1000
  {
  }

  /** LUI x0, 0x00001: the as-written immediate is 0 where the RISC-V Unprivileged ISA (section 2.3) gives 0x1000. */
  lemma UImmAsWrittenCounterexample()
    ensures UImmAsWritten(0x0000_1037) == 0 && UImm(0x0000_1037) == 0x1000
  {
  }

  /** The u_type_immediate cases the repository checks, which the as-written mask satisfies. */
  lemma UImmAsWrittenExamples()
    ensures UImmAsWritten(0x0000_1556) == 0
    ensures Signed(UImmAsWritten(0x7FFF_E556)) == 0x7FFF_FFFF - 0x1FFF
    ensures Signed(UImmAsWritten(0xFFFF_E270)) == -0x1FFF - 1
  {
  }

  /** Instruction words from the repository's decoder cases, with unrelated bits set. */
  lemma ImmediateExamples()
    ensures Signed(IImm(0x000F_1556 | (250 << 20))) == 250
    ensures Signed(IImm(0x000F_1556 | ((0 - 250) << 20))) == -250
    ensures Signed(IImm(0x000F_1556 | ((0 - 2048) << 20))) == -2048
    ensures Signed(IImm(0x000F_1556 | (2047 << 20))) == 2047
  {
    IImmClosed(0x000F_1556 | (250 << 20));
    IImmClosed(0x000F_1556 | ((0 - 250) << 20));
    IImmClosed(0x000F_1556 | ((0 - 2048) << 20));
    IImmClosed(0x000F_1556 | (2047 << 20));
  }
}
