/**
 * The CPU of the command-line emulator (lib/src/cpu/rv32i.rs): a register file and the RV32I
 * instruction set. One step fetches the word at pc from memory and executes it; the ECALL
 * word is handed to the emulator's environment call, which branches on x10: 0 ends the
 * program, 1 prints the low byte of x11 as a character, anything else is an illegal call.
 *
 * The printed character and the end of the program are outcomes of the step here, and so is
 * every `panic!`. The executor itself is `Executor.Execute` on revision `Rv32i`.
 */
module Cpu {
  import opened Words
  import opened Decoder
  import Opcodes
  import opened Alu
  import opened ByteMemory
  import opened RegisterFile
  import opened Executor

  /** Why a step of the CPU panics. */
  datatype CpuPanic =
    | PcOutOfRange              // `expect("PC out of range")`: pc..pc+3 not all in memory
    | IllegalEcall              // ECALL with x10 neither 0 nor 1
    | ExecutorTrap(trap: Trap)  // a panic of the instruction set

  datatype CpuOutcome =
    | Running                   // the instruction ran and the CPU can step again
    | Emitted(printed: bv8)      // ECALL with x10 = 1: this byte was printed
    | Terminated                // ECALL with x10 = 0: "program terminated"
    | Panicked(reason: CpuPanic)

  datatype CpuTransition = CpuTransition(outcome: CpuOutcome, next: Machine)

  /** `ecall`: SYSTEM with every other field zero. */
  const ECALL_WORD: bv32 := 0x0000_0073

  /** Register a0, which selects the environment call. */
  const A0: nat := 10

  /** Register a1, which holds the call's argument. */
  const A1: nat := 11

  /** The closure `Cpu::step` passes as the environment call, then `pc += 4` as for ECALL. */
  function EnvironmentCall(m: Machine): (t: CpuTransition)
    requires WellFormed(m)
    ensures WellFormed(t.next)
  {
    var call := m.regs[A0];
    if call == 0 then CpuTransition(Terminated, m)
    else if call == 1 then CpuTransition(Emitted((m.regs[A1] & 0xFF) as bv8), m.(pc := NextWord(m.pc)))
    else CpuTransition(Panicked(IllegalEcall), m)
  }

  /** An outcome of the instruction set as an outcome of the CPU. */
  function FromExecutor(outcome: Outcome): (r: CpuOutcome)
    ensures r == Running <==> outcome == Continue
    ensures outcome.Fault? ==> r == Panicked(ExecutorTrap(outcome.trap))
  {
    match outcome
    case Continue => Running
    case Fault(trap) => Panicked(ExecutorTrap(trap))
  }

  /** `Cpu::step`: fetch the word at pc, then run it. */
  function CpuStep(m: Machine): (t: CpuTransition)
    requires WellFormed(m)
    ensures WellFormed(t.next) && |t.next.mem| == |m.mem|
  {
    var fetched := Load32(m.mem, m.pc as nat);
    if fetched.Err? then CpuTransition(Panicked(PcOutOfRange), m)
    else if fetched.value == ECALL_WORD then EnvironmentCall(m)
    else
      var t := Execute(Rv32i, m, fetched.value);
      CpuTransition(FromExecutor(t.outcome), t.next)
  }

  class Cpu {
    /** `state`: the register file of the CPU. */
    const registers: Registers

    /** `CpuState<u32, 32>`. */
    predicate Valid()
      reads registers
    {
      registers.general.Length == 32
    }

    /** `Cpu::new`: 32 zero registers and pc 0. */
    constructor()
      ensures Valid() && fresh(registers) && fresh(registers.general)
      ensures registers.Contents() == seq(32, _ => 0) && registers.pc == 0
    {
      registers := new Registers(32);
    }

    /** `Cpu::step` on a memory object, in place. */
    method Step(memory: Memory) returns (outcome: CpuOutcome)
      requires Valid()
      modifies registers, registers.general, memory.bytes
      ensures CpuTransition(outcome, State(registers, memory)) == CpuStep(old(State(registers, memory)))
    {
      var fetched := memory.Get32(registers.pc as nat);
      if fetched.Err? {
        return Panicked(PcOutOfRange);
      }
      if fetched.value == ECALL_WORD {
        var call := registers.Get(A0);
        if call == 0 {
          return Terminated;
        } else if call == 1 {
          outcome := Emitted((registers.Get(A1) & 0xFF) as bv8);
          registers.pc := NextWord(registers.pc);
          return;
        } else {
          return Panicked(IllegalEcall);
        }
      }
      var executed := Executor.Step(Rv32i, registers, memory, fetched.value);
      outcome := FromExecutor(executed);
    }
  }

  // ---- what one step of the CPU does -------------------------------------------------------

  /**
   * The fetch panics exactly when the four bytes at pc are not all in memory, and the state
   * is then unchanged; otherwise the step is that of the fetched word, little-endian.
   */
  lemma FetchOutOfRange(m: Machine)
    requires WellFormed(m)
    ensures CpuStep(m).outcome == Panicked(PcOutOfRange) <==> !Fits(|m.mem|, m.pc as nat, 4)
    ensures !Fits(|m.mem|, m.pc as nat, 4) ==> CpuStep(m).next == m
  {
    Load32Spec(m.mem, m.pc as nat);
  }

  /**
   * An environment call changes no register and no byte: it ends the program with the state
   * as it was, prints the low byte of a1 and moves pc to the next word, or panics.
   */
  lemma EnvironmentCallSpec(m: Machine)
    requires WellFormed(m) && Load32(m.mem, m.pc as nat) == Ok(ECALL_WORD)
    ensures CpuStep(m).next.regs == m.regs && CpuStep(m).next.mem == m.mem
    ensures CpuStep(m).outcome == Terminated <==> m.regs[A0] == 0
    ensures CpuStep(m).outcome.Emitted? <==> m.regs[A0] == 1
    ensures m.regs[A0] == 1 ==>
              CpuStep(m).outcome.printed as bv32 == m.regs[A1] & 0xFF && CpuStep(m).next.pc == NextWord(m.pc)
    ensures m.regs[A0] != 1 ==> CpuStep(m).next == m
    ensures m.regs[A0] != 0 && m.regs[A0] != 1 ==> CpuStep(m).outcome == Panicked(IllegalEcall)
  {
  }

  /**
   * Every word other than ECALL is the instruction set's: the state after the step is the
   * executor's, and the CPU keeps running exactly when the executor continues.
   */
  lemma OtherWordsExecute(m: Machine, w: bv32)
    requires WellFormed(m) && Load32(m.mem, m.pc as nat) == Ok(w) && w != ECALL_WORD
    ensures CpuStep(m).next == Execute(Rv32i, m, w).next
    ensures CpuStep(m).outcome == Running <==> Execute(Rv32i, m, w).outcome == Continue
  {
  }

  /** Only an ECALL produces output or ends the program. */
  lemma OnlyEcallTalks(m: Machine)
    requires WellFormed(m)
    requires CpuStep(m).outcome.Emitted? || CpuStep(m).outcome == Terminated
    ensures Load32(m.mem, m.pc as nat) == Ok(ECALL_WORD)
  {
  }

  // ---- the repository's CPU test, and a printed character --------------------------------

  /** `test_step`: a no-op stored at address 0 of an 8-byte memory moves a new CPU's pc to 4. */
  method StepScenario() returns (outcome: CpuOutcome, pc: bv32)
    ensures outcome == Running && pc == 4
  {
    var cpu := new Cpu();
    var memory := new Memory(8);
    var stored := memory.Set32(0, 0x0000_0013);
    Store32RoundTrip(Zeroes(8), 0, 0x0000_0013);
    outcome := cpu.Step(memory);
    pc := cpu.registers.pc;
  }

  /** With a0 = 1 and a1 = 'H', an ECALL at address 0 prints 'H' and moves pc to 4. */
  method EmitScenario() returns (outcome: CpuOutcome, pc: bv32)
    ensures outcome == Emitted(0x48) && pc == 4
  {
    var cpu := new Cpu();
    var memory := new Memory(8);
    var stored := memory.Set32(0, ECALL_WORD);
    Store32RoundTrip(Zeroes(8), 0, ECALL_WORD);
    cpu.registers.Set(A0, 1);
    cpu.registers.Set(A1, 0x48);
    outcome := cpu.Step(memory);
    pc := cpu.registers.pc;
  }
}
