/**
 * The RV32I executor (lib/src/cpu/instruction_sets/rv32i.rs) and its predecessor
 * (lib/src/instruction/r32_instruction_table.rs): one instruction word applied to a register
 * file of 32 registers and a byte memory.
 *
 * `Execute` states what one step does to a `Machine` value; `Step` and its handlers do it in
 * place on a `Registers` and a `Memory` object and are proved to agree with `Execute`. Each
 * `panic!` of the source is a `Fault` outcome carrying the state at the point of the panic:
 * the state is unchanged where the panic comes before any write, and holds the writes done so
 * far where it comes after them (JAL, the predecessor's AUIPC, a store that fails half way).
 *
 * Arithmetic on pc and on addresses wraps modulo 2^32, as the release build computes it.
 */
module Executor {
  import opened Words
  import opened Decoder
  import Opcodes
  import F3 = Funct3
  import opened Alu
  import opened ByteMemory
  import opened RegisterFile

  /** The `panic!`s of the executor. */
  datatype Trap =
    | IllegalOpcode            // `trap_opcode`
    | IllegalFunct             // a funct3/funct7 combination the match arms reject
    | MemoryAccess(address: bv32) // `trap_memory_access`
    | UnhandledJump            // "BUG: TODO: Handle unaligned jumps", after the update
    | MisalignedTarget(target: bv32) // a JALR target off a 4-byte boundary, before any write

  datatype Outcome = Continue | Fault(trap: Trap)

  /** The state one step works on: the general registers, pc and the memory contents. */
  datatype Machine = Machine(regs: seq<bv32>, pc: bv32, mem: seq<bv8>)

  datatype Transition = Transition(outcome: Outcome, next: Machine)

  /** `CpuState<u32, 32>`: 32 general registers. */
  predicate WellFormed(m: Machine)
  {
    |m.regs| == 32
  }

  /** `OpArgs::rd`, as a register index. */
  function Dest(w: bv32): (i: nat)
    ensures i < 32
  {
    Rd(w) as nat
  }

  /** `OpArgs::rs1`, as a register index. */
  function Src1(w: bv32): (i: nat)
    ensures i < 32
  {
    Rs1(w) as nat
  }

  /** `OpArgs::rs2`, as a register index. */
  function Src2(w: bv32): (i: nat)
    ensures i < 32
  {
    Rs2(w) as nat
  }

  /** The machine after writing `value` to rd (through `set`, so x0 stays zero) and moving pc. */
  function WriteRd(m: Machine, w: bv32, value: bv32, pc: bv32): Machine
    requires WellFormed(m)
  {
    m.(regs := AfterSet(m.regs, Dest(w), value), pc := pc)
  }

  // The address and pc sums, named so that the handlers and the functions below compute them
  // with the same terms. All of them wrap modulo 2^32.

  /** The pc of the next instruction word. */
  function NextWord(pc: bv32): bv32
  {
    pc + 4
  }

  /** The effective address of a load, and the first half of a JALR target: rs1 plus the I-immediate. */
  function LoadAddress(base: bv32, w: bv32): bv32
  {
    base + IImm(w)
  }

  /** The effective address of a store: rs1 plus the S-immediate. */
  function StoreAddress(base: bv32, w: bv32): bv32
  {
    base + SImm(w)
  }

  /** AUIPC's value: pc plus the U-immediate. */
  function PcRelative(pc: bv32, w: bv32): bv32
  {
    pc + UImm(w)
  }

  /** JAL's target: pc plus the J-immediate. */
  function JumpTarget(pc: bv32, w: bv32): bv32
  {
    pc + JImm(w)
  }

  /** JALR's target: rs1 plus the I-immediate, with bit 0 cleared. */
  function IndirectTarget(base: bv32, w: bv32): bv32
  {
    LoadAddress(base, w) & 0xFFFF_FFFE
  }

  // ---- the handlers, as functions of the machine -----------------------------------------

  /** `op`: rs1 and rs2 are read, the ALU result goes to rd, pc moves to the next word. */
  function ExecuteOp(rev: Revision, m: Machine, w: bv32): (t: Transition)
    requires WellFormed(m)
    ensures WellFormed(t.next) && |t.next.mem| == |m.mem|
  {
    var value := OpValue(rev, Decoder.Funct3(w), Funct7(w), m.regs[Src1(w)], m.regs[Src2(w)]);
    if value.None? then Transition(Fault(IllegalFunct), m)
    else Transition(Continue, WriteRd(m, w, value.value, NextWord(m.pc)))
  }

  /** `op_imm`: rs1 and the I-immediate. */
  function ExecuteOpImm(m: Machine, w: bv32): (t: Transition)
    requires WellFormed(m)
    ensures WellFormed(t.next) && |t.next.mem| == |m.mem|
  {
    var value := OpImmValue(Decoder.Funct3(w), Funct7(w), m.regs[Src1(w)], IImm(w));
    if value.None? then Transition(Fault(IllegalFunct), m)
    else Transition(Continue, WriteRd(m, w, value.value, NextWord(m.pc)))
  }

  /** `branch`, with the next pc of section 2.5 of the RISC-V Unprivileged ISA (see `Alu.BranchNextPcAsWritten`). */
  function ExecuteBranch(m: Machine, w: bv32): (t: Transition)
    requires WellFormed(m)
    ensures WellFormed(t.next) && |t.next.mem| == |m.mem|
  {
    var taken := BranchCondition(Decoder.Funct3(w), m.regs[Src1(w)], m.regs[Src2(w)]);
    if taken.None? then Transition(Fault(IllegalFunct), m)
    else Transition(Continue, m.(pc := BranchNextPc(m.pc, taken.value, BImm(w))))
  }

  /** The funct3 values `load` accepts. */
  predicate IsLoadWidth(funct3: bv8)
  {
    funct3 == F3.LB || funct3 == F3.LH || funct3 == F3.LW
    || funct3 == F3.LBU || funct3 == F3.LHU
  }

  /**
   * The closures of `load`: LB and LH sign-extend the byte or half-word read, LBU and LHU
   * zero-extend it, LW reads the whole word; a read past the end fails.
   */
  function LoadValue(funct3: bv8, mem: seq<bv8>, addr: nat): (r: Result<bv32>)
    requires IsLoadWidth(funct3)
    ensures r.Ok? <==> Fits(|mem|, addr, if funct3 == F3.LB || funct3 == F3.LBU then 1
                                           else if funct3 == F3.LW then 4 else 2)
    ensures r.Ok? && funct3 == F3.LB ==> Signed(r.value) == Signed8(mem[addr])
    ensures r.Ok? && funct3 == F3.LBU ==> r.value == mem[addr] as bv32
    ensures r.Ok? && funct3 == F3.LH ==> r.value == SignExtend16(Le16(mem[addr], mem[addr + 1]))
    ensures r.Ok? && funct3 == F3.LHU ==> r.value == Le16(mem[addr], mem[addr + 1]) as bv32
    ensures r.Ok? && funct3 == F3.LW ==> r.value == Le32(mem[addr], mem[addr + 1], mem[addr + 2], mem[addr + 3])
  {
    Load16Spec(mem, addr);
    Load32Spec(mem, addr);
    if funct3 == F3.LB then
      var b :- Load8(mem, addr); Ok(SignExtend8(b))
    else if funct3 == F3.LH then
      var h :- Load16(mem, addr); Ok(SignExtend16(h))
    else if funct3 == F3.LW then
      Load32(mem, addr)
    else if funct3 == F3.LBU then
      var b :- Load8(mem, addr); Ok(b as bv32)
    else
      var h :- Load16(mem, addr); Ok(h as bv32)
  }

  /**
   * `load`: the address is rs1 plus the I-immediate; a failed read traps before anything is
   * written, otherwise the value goes to rd and pc moves on.
   */
  function ExecuteLoad(m: Machine, w: bv32): (t: Transition)
    requires WellFormed(m)
    ensures WellFormed(t.next) && |t.next.mem| == |m.mem|
  {
    if !IsLoadWidth(Decoder.Funct3(w)) then Transition(Fault(IllegalFunct), m)
    else
      var addr := LoadAddress(m.regs[Src1(w)], w);
      var value := LoadValue(Decoder.Funct3(w), m.mem, addr as nat);
      if value.Err? then Transition(Fault(MemoryAccess(addr)), m)
      else Transition(Continue, WriteRd(m, w, value.value, NextWord(m.pc)))
  }

  /** The closures of `store`: the low byte, the low half-word or the whole of rs2. */
  function StoreValue(funct3: bv8, mem: seq<bv8>, addr: nat, value: bv32): Written
    requires funct3 <= F3.SW
  {
    if funct3 == F3.SB then Store8(mem, addr, (value & 0xFF) as bv8)
    else if funct3 == F3.SH then Store16(mem, addr, (value & 0xFFFF) as bv16)
    else Store32(mem, addr, value)
  }

  /**
   * `store`: the address is rs1 plus the S-immediate. A failing write traps with the bytes
   * already written left in memory; registers and pc stay.
   */
  function ExecuteStore(m: Machine, w: bv32): (t: Transition)
    requires WellFormed(m)
    ensures WellFormed(t.next) && |t.next.mem| == |m.mem|
  {
    if Decoder.Funct3(w) > F3.SW then Transition(Fault(IllegalFunct), m)
    else
      var addr := StoreAddress(m.regs[Src1(w)], w);
      var written := StoreValue(Decoder.Funct3(w), m.mem, addr as nat, m.regs[Src2(w)]);
      if written.result.Err? then Transition(Fault(MemoryAccess(addr)), m.(mem := written.bytes))
      else Transition(Continue, m.(mem := written.bytes, pc := NextWord(m.pc)))
  }

  /** `lui`: the U-immediate into rd. */
  function ExecuteLui(m: Machine, w: bv32): (t: Transition)
    requires WellFormed(m)
    ensures WellFormed(t.next) && |t.next.mem| == |m.mem|
  {
    Transition(Continue, WriteRd(m, w, UImm(w), NextWord(m.pc)))
  }

  /**
   * `auipc`: pc plus the U-immediate into rd. The predecessor panics once rd and pc are
   * updated.
   */
  function ExecuteAuipc(rev: Revision, m: Machine, w: bv32): (t: Transition)
    requires WellFormed(m)
    ensures WellFormed(t.next) && |t.next.mem| == |m.mem|
  {
    var next := WriteRd(m, w, PcRelative(m.pc, w), NextWord(m.pc));
    Transition(if rev == Rv32i then Continue else Fault(UnhandledJump), next)
  }

  /** `jal`: links pc + 4 in rd, jumps by the J-immediate, then panics. */
  function ExecuteJal(m: Machine, w: bv32): (t: Transition)
    requires WellFormed(m)
    ensures WellFormed(t.next) && |t.next.mem| == |m.mem|
  {
    Transition(Fault(UnhandledJump), WriteRd(m, w, NextWord(m.pc), JumpTarget(m.pc, w)))
  }

  /**
   * `jalr` as written: the target is rs1 plus the I-immediate with bit 0 cleared; rd links
   * pc + 4. Nothing checks that the target is 4-aligned.
   */
  function ExecuteJalrAsWritten(m: Machine, w: bv32): (t: Transition)
    requires WellFormed(m)
    ensures WellFormed(t.next) && |t.next.mem| == |m.mem|
  {
    Transition(Continue, WriteRd(m, w, NextWord(m.pc), IndirectTarget(m.regs[Src1(w)], w)))
  }

  /**
   * `jalr` with the instruction-address-misaligned exception of section 2.5 of the RISC-V
   * Unprivileged ISA: a target off a 4-byte boundary traps before rd or pc change.
   */
  function ExecuteJalr(m: Machine, w: bv32): (t: Transition)
    requires WellFormed(m)
    ensures WellFormed(t.next) && |t.next.mem| == |m.mem|
  {
    var target := IndirectTarget(m.regs[Src1(w)], w);
    if target & 3 != 0 then Transition(Fault(MisalignedTarget(target)), m)
    else ExecuteJalrAsWritten(m, w)
  }

  /** `InstructionSet::step`: dispatch on the opcode; FENCE only moves pc. */
  function Execute(rev: Revision, m: Machine, w: bv32): (t: Transition)
    requires WellFormed(m)
    ensures WellFormed(t.next) && |t.next.mem| == |m.mem|
  {
    var opcode := Opcode(w);
    if opcode == Opcodes.OP then ExecuteOp(rev, m, w)
    else if opcode == Opcodes.OP_IMM then ExecuteOpImm(m, w)
    else if opcode == Opcodes.JAL then ExecuteJal(m, w)
    else if opcode == Opcodes.JALR then ExecuteJalr(m, w)
    else if opcode == Opcodes.LUI then ExecuteLui(m, w)
    else if opcode == Opcodes.AUIPC then ExecuteAuipc(rev, m, w)
    else if opcode == Opcodes.BRANCH then ExecuteBranch(m, w)
    else if opcode == Opcodes.LOAD then ExecuteLoad(m, w)
    else if opcode == Opcodes.STORE then ExecuteStore(m, w)
    else if opcode == Opcodes.FENCE then Transition(Continue, m.(pc := NextWord(m.pc)))
    else Transition(Fault(IllegalOpcode), m)
  }

  // ---- the handlers, in place -------------------------------------------------------------

  /** The machine a register file and a memory hold together. */
  function State(registers: Registers, memory: Memory): Machine
    reads registers, registers.general, memory.bytes
  {
    Machine(registers.Contents(), registers.pc, memory.Contents())
  }

  /** `op` through `apply_op`: both sources are read before rd is written. */
  method OpHandler(rev: Revision, registers: Registers, memory: Memory, w: bv32) returns (outcome: Outcome)
    requires registers.general.Length == 32
    modifies registers, registers.general
    ensures Transition(outcome, State(registers, memory)) == ExecuteOp(rev, old(State(registers, memory)), w)
  {
    var value := OpValue(rev, Decoder.Funct3(w), Funct7(w), registers.Get(Src1(w)), registers.Get(Src2(w)));
    if value.None? {
      return Fault(IllegalFunct);
    }
    registers.Set(Dest(w), value.value);
    registers.pc := NextWord(registers.pc);
    return Continue;
  }

  /** `op_imm` through `apply_op_imm`. */
  method OpImmHandler(registers: Registers, memory: Memory, w: bv32) returns (outcome: Outcome)
    requires registers.general.Length == 32
    modifies registers, registers.general
    ensures Transition(outcome, State(registers, memory)) == ExecuteOpImm(old(State(registers, memory)), w)
  {
    var value := OpImmValue(Decoder.Funct3(w), Funct7(w), registers.Get(Src1(w)), IImm(w));
    if value.None? {
      return Fault(IllegalFunct);
    }
    registers.Set(Dest(w), value.value);
    registers.pc := NextWord(registers.pc);
    return Continue;
  }

  /** `branch` through `apply_branch`. */
  method BranchHandler(registers: Registers, memory: Memory, w: bv32) returns (outcome: Outcome)
    requires registers.general.Length == 32
    modifies registers
    ensures Transition(outcome, State(registers, memory)) == ExecuteBranch(old(State(registers, memory)), w)
  {
    var taken := BranchCondition(Decoder.Funct3(w), registers.Get(Src1(w)), registers.Get(Src2(w)));
    if taken.None? {
      return Fault(IllegalFunct);
    }
    registers.pc := BranchNextPc(registers.pc, taken.value, BImm(w));
    return Continue;
  }

  /** The closures of `load`, reading the memory object in place. */
  method Read(memory: Memory, funct3: bv8, addr: nat) returns (value: Result<bv32>)
    requires IsLoadWidth(funct3)
    ensures value == LoadValue(funct3, memory.Contents(), addr)
  {
    if funct3 == F3.LB {
      var b := memory.Get8(addr);
      value := if b.Err? then Err(b.error) else Ok(SignExtend8(b.value));
    } else if funct3 == F3.LH {
      var h := memory.Get16(addr);
      value := if h.Err? then Err(h.error) else Ok(SignExtend16(h.value));
    } else if funct3 == F3.LW {
      value := memory.Get32(addr);
    } else if funct3 == F3.LBU {
      var b := memory.Get8(addr);
      value := if b.Err? then Err(b.error) else Ok(b.value as bv32);
    } else {
      var h := memory.Get16(addr);
      value := if h.Err? then Err(h.error) else Ok(h.value as bv32);
    }
  }

  /** `load` through `apply_load`: the read comes first, rd and pc change only when it succeeds. */
  method LoadHandler(registers: Registers, memory: Memory, w: bv32) returns (outcome: Outcome)
    requires registers.general.Length == 32
    modifies registers, registers.general
    ensures Transition(outcome, State(registers, memory)) == ExecuteLoad(old(State(registers, memory)), w)
  {
    var funct3 := Decoder.Funct3(w);
    if !IsLoadWidth(funct3) {
      return Fault(IllegalFunct);
    }
    var addr := LoadAddress(registers.Get(Src1(w)), w);
    var value := Read(memory, funct3, addr as nat);
    if value.Err? {
      return Fault(MemoryAccess(addr));
    }
    registers.Set(Dest(w), value.value);
    registers.pc := NextWord(registers.pc);
    return Continue;
  }

  /** The closures of `store`, writing the memory object in place. */
  method Write(memory: Memory, funct3: bv8, addr: nat, value: bv32) returns (r: Result<()>)
    requires funct3 <= F3.SW
    modifies memory.bytes
    ensures Written(memory.Contents(), r) == StoreValue(funct3, old(memory.Contents()), addr, value)
  {
    if funct3 == F3.SB {
      r := memory.Set8(addr, (value & 0xFF) as bv8);
    } else if funct3 == F3.SH {
      r := memory.Set16(addr, (value & 0xFFFF) as bv16);
    } else {
      r := memory.Set32(addr, value);
    }
  }

  /** `store` through `apply_store`: a failing write traps after the bytes it managed to write. */
  method StoreHandler(registers: Registers, memory: Memory, w: bv32) returns (outcome: Outcome)
    requires registers.general.Length == 32
    modifies registers, memory.bytes
    ensures Transition(outcome, State(registers, memory)) == ExecuteStore(old(State(registers, memory)), w)
  {
    var funct3 := Decoder.Funct3(w);
    if funct3 > F3.SW {
      return Fault(IllegalFunct);
    }
    var addr := StoreAddress(registers.Get(Src1(w)), w);
    var r := Write(memory, funct3, addr as nat, registers.Get(Src2(w)));
    if r.Err? {
      return Fault(MemoryAccess(addr));
    }
    registers.pc := NextWord(registers.pc);
    return Continue;
  }

  /** `lui`. */
  method LuiHandler(registers: Registers, memory: Memory, w: bv32) returns (outcome: Outcome)
    requires registers.general.Length == 32
    modifies registers, registers.general
    ensures Transition(outcome, State(registers, memory)) == ExecuteLui(old(State(registers, memory)), w)
  {
    registers.Set(Dest(w), UImm(w));
    registers.pc := NextWord(registers.pc);
    return Continue;
  }

  /** `auipc`; the predecessor panics after the update. */
  method AuipcHandler(rev: Revision, registers: Registers, memory: Memory, w: bv32) returns (outcome: Outcome)
    requires registers.general.Length == 32
    modifies registers, registers.general
    ensures Transition(outcome, State(registers, memory)) == ExecuteAuipc(rev, old(State(registers, memory)), w)
  {
    registers.Set(Dest(w), PcRelative(registers.pc, w));
    registers.pc := NextWord(registers.pc);
    if rev == R32Table {
      return Fault(UnhandledJump);
    }
    return Continue;
  }

  /** `jal`: the target is computed from the old pc, then rd and pc are written, then it panics. */
  method JalHandler(registers: Registers, memory: Memory, w: bv32) returns (outcome: Outcome)
    requires registers.general.Length == 32
    modifies registers, registers.general
    ensures Transition(outcome, State(registers, memory)) == ExecuteJal(old(State(registers, memory)), w)
  {
    var target := JumpTarget(registers.pc, w);
    registers.Set(Dest(w), NextWord(registers.pc));
    registers.pc := target;
    return Fault(UnhandledJump);
  }

  /**
   * `jalr`: rs1 is read before rd is written, so rd may be rs1; a misaligned target traps
   * before either write.
   */
  method JalrHandler(registers: Registers, memory: Memory, w: bv32) returns (outcome: Outcome)
    requires registers.general.Length == 32
    modifies registers, registers.general
    ensures Transition(outcome, State(registers, memory)) == ExecuteJalr(old(State(registers, memory)), w)
  {
    var target := IndirectTarget(registers.Get(Src1(w)), w);
    if target & 3 != 0 {
      return Fault(MisalignedTarget(target));
    }
    registers.Set(Dest(w), NextWord(registers.pc));
    registers.pc := target;
    return Continue;
  }

  /**
   * `InstructionSet::step` (`InstructionTable::step` for the predecessor): decode the opcode
   * and run its handler on the register file and memory in place.
   */
  method Step(rev: Revision, registers: Registers, memory: Memory, w: bv32) returns (outcome: Outcome)
    requires registers.general.Length == 32
    modifies registers, registers.general, memory.bytes
    ensures Transition(outcome, State(registers, memory)) == Execute(rev, old(State(registers, memory)), w)
  {
    var opcode := Opcode(w);
    if opcode == Opcodes.OP {
      outcome := OpHandler(rev, registers, memory, w);
    } else if opcode == Opcodes.OP_IMM {
      outcome := OpImmHandler(registers, memory, w);
    } else if opcode == Opcodes.JAL {
      outcome := JalHandler(registers, memory, w);
    } else if opcode == Opcodes.JALR {
      outcome := JalrHandler(registers, memory, w);
    } else if opcode == Opcodes.LUI {
      outcome := LuiHandler(registers, memory, w);
    } else if opcode == Opcodes.AUIPC {
      outcome := AuipcHandler(rev, registers, memory, w);
    } else if opcode == Opcodes.BRANCH {
      outcome := BranchHandler(registers, memory, w);
    } else if opcode == Opcodes.LOAD {
      outcome := LoadHandler(registers, memory, w);
    } else if opcode == Opcodes.STORE {
      outcome := StoreHandler(registers, memory, w);
    } else if opcode == Opcodes.FENCE {
      registers.pc := NextWord(registers.pc);
      outcome := Continue;
    } else {
      outcome := Fault(IllegalOpcode);
    }
  }
}
