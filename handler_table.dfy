/**
 * The first table-driven executor (lib/src/instruction/r32i_instruction_table.rs): an array
 * of 32 handlers indexed by the 7-bit opcode, where only OP-IMM has a handler of its own and
 * every other slot holds `trap_opcode`. Opcodes 32..127 index past the array, which is a Rust
 * bounds panic. Each `panic!` is a `Panic` outcome with the state unchanged: every panic of
 * this table comes before any write.
 */
module HandlerTable {
  import opened Words
  import opened Decoder
  import Opcodes
  import F3 = Funct3
  import opened Alu
  import opened ByteMemory
  import opened RegisterFile
  import opened Executor

  /** `OpcodeHandler`: the two functions the table holds. */
  datatype Handler = TrapOpcode | OpImm

  /** Why a step of the table panics. */
  datatype TablePanic =
    | IndexOutOfBounds   // `self.handlers[opcode]` with an opcode of 32 or more
    | TrapCalled         // `trap_opcode`
    | Funct3Rejected     // the `_` arm of `op_imm`: SLLI and SRLI/SRAI

  datatype TableOutcome = Handled | Panic(reason: TablePanic)

  datatype TableTransition = TableTransition(outcome: TableOutcome, next: Machine)

  /** The number of slots. */
  const SLOTS: nat := 32

  /** `InstructionTable::new`: `trap_opcode` everywhere, then `op_imm` in slot OP_IMM. */
  function InitialSlots(): (s: seq<Handler>)
    ensures |s| == SLOTS
    ensures forall i :: 0 <= i < |s| ==> (s[i] == OpImm <==> i == Opcodes.OP_IMM as int)
  {
    seq(SLOTS, i => if i == Opcodes.OP_IMM as int then OpImm else TrapOpcode)
  }

  /** The handler in slot `opcode`, or `None` where the index is past the array. */
  function Lookup(slots: seq<Handler>, opcode: bv8): (h: Option<Handler>)
    ensures h.Some? <==> (opcode as int) < |slots|
  {
    if (opcode as int) < |slots| then Some(slots[opcode]) else None
  }

  /**
   * The value `op_imm` writes to rd: the closures of the six funct3 arms it has, and `None`
   * for the `_` arm, which catches SLLI (funct3 1) and SRLI/SRAI (funct3 5).
   */
  function TableOpImmValue(funct3: bv8, a: bv32, imm: bv32): Option<bv32>
  {
    if funct3 == F3.ADDI then Some(a + imm)
    else if funct3 == F3.SLTI then Some(Flag(SignedLess(a, imm)))
    else if funct3 == F3.SLTIU then Some(Flag(a < imm))
    else if funct3 == F3.ANDI then Some(a & imm)
    else if funct3 == F3.ORI then Some(a | imm)
    else if funct3 == F3.XORI then Some(a ^ imm)
    else None
  }

  /** `op_imm`: rs1 and the I-immediate through the arm's closure, then `pc += 4`. */
  function TableOpImm(m: Machine, w: bv32): (t: TableTransition)
    requires WellFormed(m)
    ensures WellFormed(t.next)
  {
    var value := TableOpImmValue(Decoder.Funct3(w), m.regs[Src1(w)], IImm(w));
    if value.None? then TableTransition(Panic(Funct3Rejected), m)
    else TableTransition(Handled, WriteRd(m, w, value.value, NextWord(m.pc)))
  }

  /** `InstructionTable::step` on a table holding `slots`. */
  function TableStep(slots: seq<Handler>, m: Machine, w: bv32): (t: TableTransition)
    requires WellFormed(m)
    ensures WellFormed(t.next)
  {
    var h := Lookup(slots, Opcode(w));
    if h.None? then TableTransition(Panic(IndexOutOfBounds), m)
    else if h.value == TrapOpcode then TableTransition(Panic(TrapCalled), m)
    else TableOpImm(m, w)
  }

  class InstructionTable {
    /** The handler array; `step` only reads it, so after `new` it is a fixed sequence. */
    const handlers: seq<Handler>

    /** The table holds the slots `new` builds. */
    predicate Valid()
    {
      handlers == InitialSlots()
    }

    /** `InstructionTable::new`: an array of `trap_opcode`, then slot OP_IMM overwritten. */
    constructor()
      ensures Valid()
    {
      var slots := new Handler[SLOTS](_ => TrapOpcode);
      slots[Opcodes.OP_IMM] := OpImm;
      handlers := slots[..];
      assert slots[..] == InitialSlots();
    }

    /** `InstructionTable::step`: the handler in the opcode's slot, called on the state. */
    method Step(registers: Registers, memory: Memory, w: bv32) returns (outcome: TableOutcome)
      requires Valid() && registers.general.Length == 32
      modifies registers, registers.general
      ensures TableTransition(outcome, State(registers, memory))
              == TableStep(InitialSlots(), old(State(registers, memory)), w)
    {
      var opcode := Opcode(w);
      if opcode as int >= |handlers| {
        return Panic(IndexOutOfBounds);
      }
      var handler := handlers[opcode];
      if handler == TrapOpcode {
        return Panic(TrapCalled);
      }
      outcome := TableOpImmHandler(registers, memory, w);
    }
  }

  /** `op_imm` through `apply_op_imm`: the arm is chosen before any register is touched. */
  method TableOpImmHandler(registers: Registers, memory: Memory, w: bv32) returns (outcome: TableOutcome)
    requires registers.general.Length == 32
    modifies registers, registers.general
    ensures TableTransition(outcome, State(registers, memory)) == TableOpImm(old(State(registers, memory)), w)
  {
    var value := TableOpImmValue(Decoder.Funct3(w), registers.Get(Src1(w)), IImm(w));
    if value.None? {
      return Panic(Funct3Rejected);
    }
    registers.Set(Dest(w), value.value);
    registers.pc := NextWord(registers.pc);
    return Handled;
  }

  // ---- what the table does -----------------------------------------------------------------

  /**
   * A step is handled exactly when the word is OP-IMM with one of the six funct3 values the
   * handler has an arm for; opcodes from 32 up run past the array, and every other opcode
   * below 32 reaches `trap_opcode`.
   */
  lemma TableStepOutcome(m: Machine, w: bv32)
    requires WellFormed(m)
    ensures TableStep(InitialSlots(), m, w).outcome == Handled <==>
              Opcode(w) == Opcodes.OP_IMM && Decoder.Funct3(w) !in {F3.SLLI, F3.SRLI_OR_SRAI}
    ensures TableStep(InitialSlots(), m, w).outcome == Panic(IndexOutOfBounds) <==> Opcode(w) >= 32
    ensures TableStep(InitialSlots(), m, w).outcome == Panic(TrapCalled) <==>
              Opcode(w) < 32 && Opcode(w) != Opcodes.OP_IMM
    ensures TableStep(InitialSlots(), m, w).outcome.Panic? ==> TableStep(InitialSlots(), m, w).next == m
  {
    Opcodes.OpcodeValues();
    var f3 := Decoder.Funct3(w);
    assert f3 < 8;
  }

  /**
   * OP, JAL, JALR, LUI, BRANCH, STORE and SYSTEM have opcodes of 32 or more, so they index
   * past the array; LOAD, AUIPC and FENCE have slots, which hold `trap_opcode`.
   */
  lemma TableCoversFewOpcodes(m: Machine, w: bv32)
    requires WellFormed(m)
    ensures (Opcode(w) in {Opcodes.OP, Opcodes.JAL, Opcodes.JALR, Opcodes.LUI, Opcodes.BRANCH, Opcodes.STORE, Opcodes.SYSTEM})
              ==> TableStep(InitialSlots(), m, w).outcome == Panic(IndexOutOfBounds)
    ensures (Opcode(w) in {Opcodes.LOAD, Opcodes.AUIPC, Opcodes.FENCE})
              ==> TableStep(InitialSlots(), m, w).outcome == Panic(TrapCalled)
  {
    Opcodes.OpcodeValues();
  }

  /**
   * Where the table handles a word, it does what the later executor does with it: the same
   * register written with the same value and pc moved to the next word. The two part only on
   * the shift-immediates, which the later executor has arms for.
   */
  lemma TableAgreesWithExecutor(rev: Revision, m: Machine, w: bv32)
    requires WellFormed(m)
    requires TableStep(InitialSlots(), m, w).outcome == Handled
    ensures Execute(rev, m, w).outcome == Continue
    ensures Execute(rev, m, w).next == TableStep(InitialSlots(), m, w).next
  {
    TableStepOutcome(m, w);
    Opcodes.OpcodeValues();
    assert Execute(rev, m, w) == ExecuteOpImm(m, w);
    TableValueAgrees(Decoder.Funct3(w), Funct7(w), m.regs[Src1(w)], IImm(w));
  }

  /** On the six arms `op_imm` has, its closures compute what `OpImmValue` computes. */
  lemma TableValueAgrees(funct3: bv8, funct7: bv8, a: bv32, imm: bv32)
    requires TableOpImmValue(funct3, a, imm).Some?
    ensures TableOpImmValue(funct3, a, imm) == OpImmValue(funct3, funct7, a, imm)
  {
  }

  /** The shift-immediates panic in the table, before anything is written. */
  lemma TableRejectsShiftImmediates(m: Machine, w: bv32)
    requires WellFormed(m)
    requires Opcode(w) == Opcodes.OP_IMM && Decoder.Funct3(w) in {F3.SLLI, F3.SRLI_OR_SRAI}
    ensures TableStep(InitialSlots(), m, w) == TableTransition(Panic(Funct3Rejected), m)
  {
    Opcodes.OpcodeValues();
  }

  // ---- the repository's table tests ---------------------------------------------------------

  /** The last three steps of `execute_addi`, from pc 12 with x1 holding 3. */
  method AddiScenarioTail(table: InstructionTable, registers: Registers, memory: Memory)
    requires table.Valid() && registers.general.Length == 32
    requires registers.pc == 12 && registers.Get(1) == 3
    modifies registers, registers.general
    ensures registers.pc == 24 && registers.Get(1) == 3 && registers.Get(2) == 2 && registers.Get(3) == 6
  {
    AddiScenarioWords();
    var o4 := table.Step(registers, memory, 0x0010_8113);
    assert registers.pc == 16 && registers.Get(1) == 3 && registers.Get(2) == 4;
    var o5 := table.Step(registers, memory, 0xFFF0_8113);
    assert registers.pc == 20 && registers.Get(1) == 3 && registers.Get(2) == 2;
    var o6 := table.Step(registers, memory, 0x0041_0193);
  }

  /** `execute_no_op`: the no-op word 0x00000013 on a fresh state moves pc to 4 and keeps x0 zero. */
  method NoOpScenario() returns (outcome: TableOutcome, pc: bv32, x0: bv32)
    ensures outcome == Handled && pc == 4 && x0 == 0
  {
    var table := new InstructionTable();
    var registers := new Registers(32);
    var memory := new Memory(4096);
    outcome := table.Step(registers, memory, 0x0000_0013);
    pc := registers.pc;
    x0 := registers.Get(0);
  }

  /** The fields of the words `execute_addi` steps through. */
  lemma AddiScenarioWords()
    ensures Opcode(0x0010_8093) == Opcodes.OP_IMM && Decoder.Funct3(0x0010_8093) == F3.ADDI
    ensures Dest(0x0010_8093) == 1 && Src1(0x0010_8093) == 1 && IImm(0x0010_8093) == 1
    ensures Opcode(0x0010_8113) == Opcodes.OP_IMM && Decoder.Funct3(0x0010_8113) == F3.ADDI
    ensures Dest(0x0010_8113) == 2 && Src1(0x0010_8113) == 1 && IImm(0x0010_8113) == 1
    ensures Opcode(0xFFF0_8113) == Opcodes.OP_IMM && Decoder.Funct3(0xFFF0_8113) == F3.ADDI
    ensures Dest(0xFFF0_8113) == 2 && Src1(0xFFF0_8113) == 1 && IImm(0xFFF0_8113) == 0xFFFF_FFFF
    ensures Opcode(0x0041_0193) == Opcodes.OP_IMM && Decoder.Funct3(0x0041_0193) == F3.ADDI
    ensures Dest(0x0041_0193) == 3 && Src1(0x0041_0193) == 2 && IImm(0x0041_0193) == 4
  {
    Opcodes.OpcodeValues();
  }

  /**
   * `execute_addi`: three `addi x1, x1, 1`, then `addi x2, x1, 1`, `addi x2, x1, -1` (the raw
   * immediate 0xFFF) and `addi x3, x2, 4`, each moving pc by 4.
   */
  method AddiScenario() returns (pc: bv32, x1: bv32, x2: bv32, x3: bv32)
    ensures pc == 24 && x1 == 3 && x2 == 2 && x3 == 6
  {
    var table := new InstructionTable();
    var registers := new Registers(32);
    var memory := new Memory(4096);
    AddiScenarioWords();
    var o1 := table.Step(registers, memory, 0x0010_8093);
    assert registers.pc == 4 && registers.Get(1) == 1;
    var o2 := table.Step(registers, memory, 0x0010_8093);
    assert registers.pc == 8 && registers.Get(1) == 2;
    var o3 := table.Step(registers, memory, 0x0010_8093);
    AddiScenarioTail(table, registers, memory);
    pc := registers.pc;
    x1 := registers.Get(1);
    x2 := registers.Get(2);
    x3 := registers.Get(3);
  }
}
