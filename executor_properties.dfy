/**
 * What one step of the executor promises, stated over `Executor.Execute` for every machine
 * and every instruction word: the shape of the state, which register and which bytes can
 * change, pc moving to the next word, the faults that come before any write, the value each
 * instruction class writes, and where the two revisions differ. The last lemmas replay the
 * repository's own executor tests on concrete words.
 */
module ExecutorProperties {
  import opened Words
  import opened Decoder
  import Opcodes
  import F3 = Funct3
  import opened Alu
  import opened ByteMemory
  import opened RegisterFile
  import opened Executor

  /** The machine after `w`. */
  function After(rev: Revision, m: Machine, w: bv32): Machine
    requires WellFormed(m)
  {
    Execute(rev, m, w).next
  }

  /** x0 reads zero after every step that starts with x0 reading zero. */
  lemma ExecuteKeepsX0Zero(rev: Revision, m: Machine, w: bv32)
    requires WellFormed(m) && m.regs[0] == 0
    ensures After(rev, m, w).regs[0] == 0
  {
    var opcode := Opcode(w);
    if opcode == Opcodes.OP {
    } else if opcode == Opcodes.OP_IMM {
    } else if opcode == Opcodes.JAL {
    } else if opcode == Opcodes.JALR {
      if IndirectTarget(m.regs[Src1(w)], w) & 3 == 0 {
        assert After(rev, m, w) == ExecuteJalrAsWritten(m, w).next;
      }
    } else if opcode == Opcodes.LUI {
    } else if opcode == Opcodes.AUIPC {
    } else if opcode == Opcodes.BRANCH {
    } else if opcode == Opcodes.LOAD {
    } else if opcode == Opcodes.STORE {
    } else {
    }
  }

  /**
   * Only rd can change among the general registers, and only a store can change memory:
   * every handler writes registers through `set`, and only `store` writes memory.
   */
  lemma ExecuteWritesOnlyRd(rev: Revision, m: Machine, w: bv32)
    requires WellFormed(m)
    ensures forall i :: 0 < i < 32 && i != Dest(w) ==> After(rev, m, w).regs[i] == m.regs[i]
    ensures Opcode(w) != Opcodes.STORE ==> After(rev, m, w).mem == m.mem
  {
    var next := After(rev, m, w);
    assert next.regs == m.regs || exists v :: next.regs == AfterSet(m.regs, Dest(w), v);
    if next.regs != m.regs {
      var v :| next.regs == AfterSet(m.regs, Dest(w), v);
      AfterSetSpec(m.regs, Dest(w), v);
    }
  }

  /**
   * The faults that come before any write change nothing: an unknown opcode, a funct3/funct7
   * the handler rejects, a misaligned JALR target and a load from outside memory. A store that
   * fails keeps the registers and pc; its memory holds the bytes written before the failing one.
   */
  lemma FaultsBeforeWritesChangeNothing(rev: Revision, m: Machine, w: bv32)
    requires WellFormed(m)
    ensures Execute(rev, m, w).outcome in {Fault(IllegalOpcode), Fault(IllegalFunct)} ==> After(rev, m, w) == m
    ensures Execute(rev, m, w).outcome.Fault? && Execute(rev, m, w).outcome.trap.MisalignedTarget? ==>
              Opcode(w) == Opcodes.JALR && After(rev, m, w) == m
    ensures Execute(rev, m, w).outcome.Fault? && Execute(rev, m, w).outcome.trap.MemoryAccess? ==>
              After(rev, m, w).regs == m.regs && After(rev, m, w).pc == m.pc
              && (Opcode(w) == Opcodes.LOAD ==> After(rev, m, w).mem == m.mem)
  {
  }

  /**
   * `trap_opcode`: a step traps with `IllegalOpcode` and changes nothing exactly when the
   * opcode is none of the ten the step dispatches on; SYSTEM is one of those that trap.
   */
  lemma UnknownOpcodesTrap(rev: Revision, m: Machine, w: bv32)
    requires WellFormed(m)
    ensures Execute(rev, m, w) == Transition(Fault(IllegalOpcode), m) <==>
              Opcode(w) !in {Opcodes.OP, Opcodes.OP_IMM, Opcodes.BRANCH, Opcodes.LOAD, Opcodes.STORE,
                             Opcodes.LUI, Opcodes.AUIPC, Opcodes.JAL, Opcodes.JALR, Opcodes.FENCE}
    ensures Opcode(w) == Opcodes.SYSTEM ==> Execute(rev, m, w).outcome == Fault(IllegalOpcode)
  {
  }

  /** The opcodes whose handlers end with `pc += 4`. */
  predicate Sequential(opcode: bv8)
  {
    opcode in {Opcodes.OP, Opcodes.OP_IMM, Opcodes.LUI, Opcodes.AUIPC, Opcodes.LOAD, Opcodes.STORE, Opcodes.FENCE}
  }

  /**
   * Every instruction other than a jump or a branch that completes its update moves pc to the
   * next word (the predecessor's AUIPC panics only after the update).
   */
  lemma SequentialInstructionsAdvancePc(rev: Revision, m: Machine, w: bv32)
    requires WellFormed(m)
    requires Sequential(Opcode(w))
    ensures Execute(rev, m, w).outcome in {Continue, Fault(UnhandledJump)} ==> After(rev, m, w).pc == m.pc + 4
  {
    var opcode := Opcode(w);
    if opcode == Opcodes.OP {
      assert Execute(rev, m, w) == ExecuteOp(rev, m, w);
    } else if opcode == Opcodes.OP_IMM {
      assert Execute(rev, m, w) == ExecuteOpImm(m, w);
    } else if opcode == Opcodes.LUI {
      assert Execute(rev, m, w) == ExecuteLui(m, w);
    } else if opcode == Opcodes.AUIPC {
      assert Execute(rev, m, w) == ExecuteAuipc(rev, m, w);
    } else if opcode == Opcodes.LOAD {
      assert Execute(rev, m, w) == ExecuteLoad(m, w);
    } else if opcode == Opcodes.STORE {
      assert Execute(rev, m, w) == ExecuteStore(m, w);
    }
  }

  /** Jumps and branches are the only instructions that can move pc anywhere but the next word. */
  lemma OnlyControlTransfersJump(rev: Revision, m: Machine, w: bv32)
    requires WellFormed(m)
    ensures After(rev, m, w).pc != m.pc && After(rev, m, w).pc != m.pc + 4 ==>
              Opcode(w) in {Opcodes.JAL, Opcodes.JALR, Opcodes.BRANCH}
  {
  }

  // ---- what each instruction class writes ---------------------------------------------------

  /**
   * OP and OP-IMM: the ALU result of the sources as they were before the step lands in rd,
   * so rd may name a source; a rejected funct3/funct7 traps.
   */
  lemma AluInstructionsWriteResult(rev: Revision, m: Machine, w: bv32)
    requires WellFormed(m)
    ensures Opcode(w) == Opcodes.OP ==>
              var v := OpValue(rev, Decoder.Funct3(w), Funct7(w), m.regs[Src1(w)], m.regs[Src2(w)]);
              (Execute(rev, m, w).outcome == Continue <==> v.Some?)
              && (v.Some? && Dest(w) != 0 ==> After(rev, m, w).regs[Dest(w)] == v.value)
    ensures Opcode(w) == Opcodes.OP_IMM ==>
              var v := OpImmValue(Decoder.Funct3(w), Funct7(w), m.regs[Src1(w)], IImm(w));
              (Execute(rev, m, w).outcome == Continue <==> v.Some?)
              && (v.Some? && Dest(w) != 0 ==> After(rev, m, w).regs[Dest(w)] == v.value)
  {
    if Opcode(w) == Opcodes.OP {
      var v := OpValue(rev, Decoder.Funct3(w), Funct7(w), m.regs[Src1(w)], m.regs[Src2(w)]);
      if v.Some? {
        AfterSetSpec(m.regs, Dest(w), v.value);
      }
    } else if Opcode(w) == Opcodes.OP_IMM {
      var v := OpImmValue(Decoder.Funct3(w), Funct7(w), m.regs[Src1(w)], IImm(w));
      if v.Some? {
        AfterSetSpec(m.regs, Dest(w), v.value);
      }
    }
  }

  /**
   * `add rd, rs1, rs2` followed by `sub rd, rd, rs2` leaves rs1's old value in rd, whatever
   * the values, since both wrap modulo 2^32; rd must not be x0 or rs2.
   */
  lemma AddThenSubRestores(rev: Revision, m: Machine, add: bv32, sub: bv32)
    requires WellFormed(m) && m.regs[0] == 0
    requires Opcode(add) == Opcodes.OP && Decoder.Funct3(add) == F3.ADD_OR_SUB && Funct7(add) == 0
    requires Opcode(sub) == Opcodes.OP && Decoder.Funct3(sub) == F3.ADD_OR_SUB && Funct7(sub) == FUNCT7_SWITCH
    requires Dest(add) != 0 && Dest(add) != Src2(add)
    requires Dest(sub) == Dest(add) && Src1(sub) == Dest(add) && Src2(sub) == Src2(add)
    ensures Execute(rev, m, add).outcome == Continue
    ensures Execute(rev, After(rev, m, add), sub).outcome == Continue
    ensures After(rev, After(rev, m, add), sub).regs[Dest(add)] == m.regs[Src1(add)]
  {
    var a, b := m.regs[Src1(add)], m.regs[Src2(add)];
    AddSubSpec(rev, 0, a, b);
    assert OpValue(rev, Decoder.Funct3(add), Funct7(add), a, b) == Some(a + b);
    OpStep(rev, m, add, Some(a + b));
    var m1 := After(rev, m, add);
    AfterSetSpec(m.regs, Dest(add), a + b);
    assert m1.regs[Src1(sub)] == a + b && m1.regs[Src2(sub)] == b;
    SubUndoesAdd(rev, a, b);
    assert OpValue(rev, Decoder.Funct3(sub), Funct7(sub), a + b, b) == Some(a);
    OpStep(rev, m1, sub, Some(a));
    AfterSetSpec(m1.regs, Dest(sub), a);
  }

  /** One OP step whose ALU value is known: it continues and writes that value through `set`. */
  lemma OpStep(rev: Revision, m: Machine, w: bv32, v: Option<bv32>)
    requires WellFormed(m) && Opcode(w) == Opcodes.OP
    requires v == OpValue(rev, Decoder.Funct3(w), Funct7(w), m.regs[Src1(w)], m.regs[Src2(w)]) && v.Some?
    ensures Execute(rev, m, w).outcome == Continue
    ensures After(rev, m, w).regs == AfterSet(m.regs, Dest(w), v.value)
  {
    assert Execute(rev, m, w) == ExecuteOp(rev, m, w);
  }

  /**
   * A load reads at rs1 plus the I-immediate: it completes exactly when funct3 names a width
   * and the bytes fit, and then rd holds the value read; otherwise it traps.
   */
  lemma LoadWritesValue(rev: Revision, m: Machine, w: bv32)
    requires WellFormed(m) && Opcode(w) == Opcodes.LOAD
    ensures !IsLoadWidth(Decoder.Funct3(w)) ==> Execute(rev, m, w).outcome == Fault(IllegalFunct)
    ensures IsLoadWidth(Decoder.Funct3(w)) ==>
              var addr := m.regs[Src1(w)] + IImm(w);
              var v := LoadValue(Decoder.Funct3(w), m.mem, addr as nat);
              (v.Err? ==> Execute(rev, m, w).outcome == Fault(MemoryAccess(addr)))
              && (v.Ok? ==> Execute(rev, m, w).outcome == Continue)
              && (v.Ok? && Dest(w) != 0 ==> After(rev, m, w).regs[Dest(w)] == v.value)
  {
    if IsLoadWidth(Decoder.Funct3(w)) {
      var v := LoadValue(Decoder.Funct3(w), m.mem, LoadAddress(m.regs[Src1(w)], w) as nat);
      if v.Ok? {
        AfterSetSpec(m.regs, Dest(w), v.value);
      }
    }
  }

  /**
   * A store writes the low 1, 2 or 4 bytes of rs2 at rs1 plus the S-immediate and completes
   * exactly when they fit; a failing one traps with the bytes written so far.
   */
  lemma StoreWritesMemory(rev: Revision, m: Machine, w: bv32)
    requires WellFormed(m) && Opcode(w) == Opcodes.STORE
    ensures Decoder.Funct3(w) > F3.SW ==> Execute(rev, m, w) == Transition(Fault(IllegalFunct), m)
    ensures Decoder.Funct3(w) <= F3.SW ==>
              var addr := m.regs[Src1(w)] + SImm(w);
              var written := StoreValue(Decoder.Funct3(w), m.mem, addr as nat, m.regs[Src2(w)]);
              After(rev, m, w).mem == written.bytes
              && (Execute(rev, m, w).outcome == Continue <==> written.result.Ok?)
              && (written.result.Err? ==> Execute(rev, m, w).outcome == Fault(MemoryAccess(addr)))
  {
    var funct3 := Decoder.Funct3(w);
    if funct3 == F3.SB {
      assert Execute(rev, m, w) == ExecuteStore(m, w);
    } else if funct3 == F3.SH {
      assert Execute(rev, m, w) == ExecuteStore(m, w);
    } else if funct3 == F3.SW {
      assert Execute(rev, m, w) == ExecuteStore(m, w);
    }
  }

  /**
   * The widths a load and a store agree on: a byte, half-word or word stored and then loaded
   * zero-extended (or whole) at the same address gives back the low bits of the stored value;
   * loaded sign-extended, it gives them back with their top bit copied upward.
   */
  lemma StoreThenLoad(mem: seq<bv8>, addr: nat, value: bv32)
    ensures Fits(|mem|, addr, 1) ==>
              LoadValue(F3.LBU, StoreValue(F3.SB, mem, addr, value).bytes, addr) == Ok(value & 0xFF)
    ensures Fits(|mem|, addr, 2) ==>
              LoadValue(F3.LHU, StoreValue(F3.SH, mem, addr, value).bytes, addr) == Ok(value & 0xFFFF)
    ensures Fits(|mem|, addr, 4) ==>
              LoadValue(F3.LW, StoreValue(F3.SW, mem, addr, value).bytes, addr) == Ok(value)
    ensures Fits(|mem|, addr, 1) ==>
              LoadValue(F3.LB, StoreValue(F3.SB, mem, addr, value).bytes, addr) == Ok(SignExtend8((value & 0xFF) as bv8))
    ensures Fits(|mem|, addr, 2) ==>
              LoadValue(F3.LH, StoreValue(F3.SH, mem, addr, value).bytes, addr) == Ok(SignExtend16((value & 0xFFFF) as bv16))
  {
    if Fits(|mem|, addr, 1) {
      StoreByteThenLoad(mem, addr, value);
      Store8Spec(mem, addr, (value & 0xFF) as bv8);
    }
    if Fits(|mem|, addr, 2) {
      StoreHalfThenLoad(mem, addr, value);
      Store16RoundTrip(mem, addr, (value & 0xFFFF) as bv16);
    }
    if Fits(|mem|, addr, 4) {
      Store32RoundTrip(mem, addr, value);
    }
  }

  lemma StoreByteThenLoad(mem: seq<bv8>, addr: nat, value: bv32)
    requires Fits(|mem|, addr, 1)
    ensures LoadValue(F3.LBU, StoreValue(F3.SB, mem, addr, value).bytes, addr) == Ok(value & 0xFF)
  {
    var b := (value & 0xFF) as bv8;
    Store8Spec(mem, addr, b);
    assert b as bv32 == value & 0xFF;
  }

  lemma StoreHalfThenLoad(mem: seq<bv8>, addr: nat, value: bv32)
    requires Fits(|mem|, addr, 2)
    ensures LoadValue(F3.LHU, StoreValue(F3.SH, mem, addr, value).bytes, addr) == Ok(value & 0xFFFF)
  {
    var h := (value & 0xFFFF) as bv16;
    Store16RoundTrip(mem, addr, h);
    assert h as bv32 == value & 0xFFFF;
  }

  /** LUI puts the U-immediate in rd; AUIPC puts pc plus the U-immediate there. */
  lemma UpperImmediatesWriteRd(rev: Revision, m: Machine, w: bv32)
    requires WellFormed(m)
    ensures Opcode(w) == Opcodes.LUI && Dest(w) != 0 ==> After(rev, m, w).regs[Dest(w)] == UImm(w)
    ensures Opcode(w) == Opcodes.AUIPC && Dest(w) != 0 ==> After(rev, m, w).regs[Dest(w)] == PcRelative(m.pc, w)
  {
    if Opcode(w) == Opcodes.LUI {
      AfterSetSpec(m.regs, Dest(w), UImm(w));
    } else if Opcode(w) == Opcodes.AUIPC {
      AfterSetSpec(m.regs, Dest(w), PcRelative(m.pc, w));
    }
  }

  // ---- jumps and branches -----------------------------------------------------------------

  /** JAL links the old pc + 4 in rd and moves pc by the J-immediate, and then always traps. */
  lemma JalLinksThenTraps(rev: Revision, m: Machine, w: bv32)
    requires WellFormed(m) && Opcode(w) == Opcodes.JAL
    ensures Execute(rev, m, w).outcome == Fault(UnhandledJump)
    ensures After(rev, m, w).pc == JumpTarget(m.pc, w)
    ensures Dest(w) != 0 ==> After(rev, m, w).regs[Dest(w)] == m.pc + 4
  {
    AfterSetSpec(m.regs, Dest(w), NextWord(m.pc));
  }

  /**
   * JALR computes rs1 plus the I-immediate with bit 0 cleared. A target off a 4-byte boundary
   * traps and changes nothing; otherwise pc moves there and rd links the old pc + 4. rs1 is
   * read before rd is written, so rd may be rs1.
   */
  lemma JalrLinksAndJumps(rev: Revision, m: Machine, w: bv32)
    requires WellFormed(m) && Opcode(w) == Opcodes.JALR
    ensures var target := (m.regs[Src1(w)] + IImm(w)) & 0xFFFF_FFFE;
            && (Execute(rev, m, w).outcome == Continue <==> target & 3 == 0)
            && (target & 3 != 0 ==> Execute(rev, m, w) == Transition(Fault(MisalignedTarget(target)), m))
            && (target & 3 == 0 ==> After(rev, m, w).pc == target)
            && (target & 3 == 0 && Dest(w) != 0 ==> After(rev, m, w).regs[Dest(w)] == m.pc + 4)
  {
    AfterSetSpec(m.regs, Dest(w), NextWord(m.pc));
  }

  /**
   * The JALR of the source never traps: its target is only ever even, and it is off a 4-byte
   * boundary exactly when bit 1 is set, which is when the checked JALR traps instead.
   */
  lemma JalrAsWrittenNeverTraps(m: Machine, w: bv32)
    requires WellFormed(m)
    ensures ExecuteJalrAsWritten(m, w).outcome == Continue
    ensures ExecuteJalrAsWritten(m, w).next.pc & 1 == 0
    ensures ExecuteJalr(m, w) != ExecuteJalrAsWritten(m, w) <==> ExecuteJalrAsWritten(m, w).next.pc & 2 != 0
  {
    var target := IndirectTarget(m.regs[Src1(w)], w);
    assert target & 3 != 0 <==> target & 2 != 0;
  }

  /**
   * A branch with a known funct3 moves pc by the B-immediate when its condition holds and to
   * the next word when it does not, and changes no register; funct3 2, 3 and above 7 trap.
   */
  lemma BranchMovesPc(rev: Revision, m: Machine, w: bv32)
    requires WellFormed(m) && Opcode(w) == Opcodes.BRANCH
    ensures var taken := BranchCondition(Decoder.Funct3(w), m.regs[Src1(w)], m.regs[Src2(w)]);
            && (taken.None? ==> Execute(rev, m, w) == Transition(Fault(IllegalFunct), m))
            && (taken == Some(true) ==> Execute(rev, m, w) == Transition(Continue, m.(pc := m.pc + BImm(w))))
            && (taken == Some(false) ==> Execute(rev, m, w) == Transition(Continue, m.(pc := m.pc + 4)))
  {
    BranchNextPcSpec(m.pc, BImm(w));
  }

  // ---- the two revisions ------------------------------------------------------------------

  /**
   * The predecessor table and `InstructionSet` agree on every word except the register shifts
   * right, which they swap, and AUIPC, after which the predecessor traps with the same state.
   */
  lemma RevisionsAgree(m: Machine, w: bv32)
    requires WellFormed(m)
    ensures Opcode(w) != Opcodes.OP && Opcode(w) != Opcodes.AUIPC ==> Execute(Rv32i, m, w) == Execute(R32Table, m, w)
    ensures Opcode(w) == Opcodes.OP && Decoder.Funct3(w) != F3.SRL_OR_SRA ==> Execute(Rv32i, m, w) == Execute(R32Table, m, w)
    ensures Opcode(w) == Opcodes.AUIPC ==>
              After(Rv32i, m, w) == After(R32Table, m, w)
              && Execute(Rv32i, m, w).outcome == Continue
              && Execute(R32Table, m, w).outcome == Fault(UnhandledJump)
  {
    if Opcode(w) == Opcodes.OP {
      RevisionsSwapShifts(Decoder.Funct3(w), Funct7(w), m.regs[Src1(w)], m.regs[Src2(w)]);
    }
  }

  // ---- the repository's executor tests, on the words its encoder produces -------------------

  /** `execute_no_op`: `addi x0, x0, 0` (0x00000013) only moves pc to the next word. */
  lemma NoOpAdvancesPc(rev: Revision, m: Machine)
    requires WellFormed(m) && m.regs[0] == 0
    ensures Execute(rev, m, 0x0000_0013) == Transition(Continue, m.(pc := NextWord(m.pc)))
  {
    Opcodes.OpcodeValues();
    assert AfterSet(m.regs, 0, 0) == m.regs;
  }

  /**
   * `execute_addi_overflow`: `addi x1, x1, 1` (0x00108093) takes i32::MAX to i32::MIN and
   * `addi x1, x1, -1` (0xFFF08093) takes i32::MIN to i32::MAX, wrapping as a release build does.
   */
  lemma AddiOverflowWraps(rev: Revision, m: Machine)
    requires WellFormed(m)
    ensures m.regs[1] == 0x7FFF_FFFF ==> After(rev, m, 0x0010_8093).regs[1] == 0x8000_0000
    ensures m.regs[1] == 0x8000_0000 ==> After(rev, m, 0xFFF0_8093).regs[1] == 0x7FFF_FFFF
  {
    Opcodes.OpcodeValues();
  }

  /**
   * `execute_lui` and `execute_auipc`: `lui x1, 0xDF5A5000` (0xDF5A50B7) loads the value, and
   * `auipc x1, 0xDF5A5000` (0xDF5A5097) at pc 0xAAA adds pc to it.
   */
  lemma UpperImmediateExamples(rev: Revision, m: Machine)
    requires WellFormed(m)
    ensures After(rev, m, 0xDF5A_50B7).regs[1] == 0xDF5A_5000
    ensures m.pc == 0xAAA ==> After(rev, m, 0xDF5A_5097).regs[1] == 0xDF5A_5AAA
  {
    Opcodes.OpcodeValues();
  }

  /**
   * `execute_jal`: `jal x1, 500` (0x1F4000EF) at pc 5000 moves pc to 5500 and links 5004, as
   * the test expects, and then traps, which the test does not expect.
   */
  lemma JalExample(rev: Revision, m: Machine)
    requires WellFormed(m) && m.pc == 5000
    ensures After(rev, m, 0x1F40_00EF).pc == 5500 && After(rev, m, 0x1F40_00EF).regs[1] == 5004
    ensures Execute(rev, m, 0x1F40_00EF).outcome == Fault(UnhandledJump)
  {
    Opcodes.OpcodeValues();
  }

  /**
   * `execute_jalr`: `jalr x1, x1, 500` (0x1F4080E7) at pc 5000 with x1 = 9000 jumps to 9500
   * and links 5004. With x1 = 9001 the target is 9501 with bit 0 cleared, a 4-aligned 9500,
   * so the step goes on where `execute_jalr_result_is_misaligned_1_bit` expects a trap.
   */
  lemma JalrExamples(rev: Revision, m: Machine)
    requires WellFormed(m) && m.pc == 5000
    ensures m.regs[1] == 9000 ==> After(rev, m, 0x1F40_80E7).pc == 9500 && After(rev, m, 0x1F40_80E7).regs[1] == 5004
    ensures m.regs[1] == 9001 ==> Execute(rev, m, 0x1F40_80E7) == Transition(Continue, After(rev, m, 0x1F40_80E7))
                                  && After(rev, m, 0x1F40_80E7).pc == 9500
  {
    Opcodes.OpcodeValues();
  }

  /**
   * `execute_jalr_result_is_misaligned_2_bit`: with x1 = 9002, `jalr x1, x1, 500` lands on
   * 9502, which is not 4-aligned. As written the step goes on there and links 5004; the
   * checked JALR traps and leaves the machine as it was.
   */
  lemma JalrMisalignedCounterexample(rev: Revision, m: Machine)
    requires WellFormed(m) && m.pc == 5000 && m.regs[1] == 9002
    ensures ExecuteJalrAsWritten(m, 0x1F40_80E7).outcome == Continue
    ensures ExecuteJalrAsWritten(m, 0x1F40_80E7).next.pc == 9502
    ensures Execute(rev, m, 0x1F40_80E7) == Transition(Fault(MisalignedTarget(9502)), m)
  {
    Opcodes.OpcodeValues();
  }

  /**
   * `execute_beq`: `beq x1, x0, 500` (0x1E008A63) at pc 5000 goes to 5500 when x1 is zero and
   * to the next word when x1 is 500.
   */
  lemma BeqExample(rev: Revision, m: Machine)
    requires WellFormed(m) && m.pc == 5000 && m.regs[0] == 0
    ensures m.regs[1] == 0 ==> After(rev, m, 0x1E00_8A63).pc == 5500
    ensures m.regs[1] == 500 ==> After(rev, m, 0x1E00_8A63).pc == 5004
  {
    Opcodes.OpcodeValues();
  }

  /**
   * `execute_lw`: with the bytes 0xAA, 0x5C, 0x00, 0xFF at 500..503 and x1 = 500,
   * `lw x2, 0(x1)` (0x0000A103) puts 0xFF005CAA in x2 and keeps x1.
   */
  lemma LwExample(rev: Revision, m: Machine)
    requires WellFormed(m) && m.regs[1] == 500 && |m.mem| == 4096
    requires m.mem[500] == 0xAA && m.mem[501] == 0x5C && m.mem[502] == 0x00 && m.mem[503] == 0xFF
    ensures Execute(rev, m, 0x0000_A103).outcome == Continue
    ensures After(rev, m, 0x0000_A103).regs[2] == 0xFF00_5CAA && After(rev, m, 0x0000_A103).regs[1] == 500
  {
    Opcodes.OpcodeValues();
    LoadWritesValue(rev, m, 0x0000_A103);
    Load32Spec(m.mem, 500);
  }

  /**
   * `execute_lh` and `execute_lhu`: with 0xAA at 500, 0xDC at 501 and x1 = 500,
   * `lh x2, 0(x1)` (0x00009103) puts the sign-extended 0xFFFFDCAA in x2 and `lhu x2, 0(x1)`
   * (0x0000D103) the zero-extended 0x0000DCAA.
   */
  lemma HalfLoadExamples(rev: Revision, m: Machine)
    requires WellFormed(m) && m.regs[1] == 500 && |m.mem| == 4096
    requires m.mem[500] == 0xAA && m.mem[501] == 0xDC
    ensures Execute(rev, m, 0x0000_9103).outcome == Continue
    ensures After(rev, m, 0x0000_9103).regs[2] == 0xFFFF_DCAA
    ensures Execute(rev, m, 0x0000_D103).outcome == Continue
    ensures After(rev, m, 0x0000_D103).regs[2] == 0x0000_DCAA
  {
    Opcodes.OpcodeValues();
    LoadWritesValue(rev, m, 0x0000_9103);
    LoadWritesValue(rev, m, 0x0000_D103);
    Load16Spec(m.mem, 500);
  }

  /**
   * `execute_sw`: with x1 = 500 and x2 = 0xDEADBEFF, `sw x2, 0(x1)` (0x0020A023) leaves
   * 0xDEADBEFF at 500 for `get32` to read back.
   */
  lemma SwExample(rev: Revision, m: Machine)
    requires WellFormed(m) && m.regs[1] == 500 && m.regs[2] == 0xDEAD_BEFF && |m.mem| == 4096
    ensures Execute(rev, m, 0x0020_A023).outcome == Continue
    ensures Load32(After(rev, m, 0x0020_A023).mem, 500) == Ok(0xDEAD_BEFF)
  {
    Opcodes.OpcodeValues();
    StoreWritesMemory(rev, m, 0x0020_A023);
    Store32RoundTrip(m.mem, 500, 0xDEAD_BEFF);
  }
}
