/**
 * The register file (lib/src/cpu/registers.rs; src/registers.rs is an earlier copy of the
 * same `General`/`Registers` code without the CSR field and the signed accessors).
 *
 * N general registers and a program counter. Writing a register writes its slot and then
 * writes zero to slot 0, which is how x0 stays hardwired to zero (section 2.1 of the RISC-V
 * Unprivileged ISA). Slots past N are a Rust index panic, so every access requires an index
 * below N. Register values are the u32 instantiation the executor uses; `geti`/`seti` are
 * `as i32`/`as u32` casts, which keep the bit pattern, so they are `Get`/`Set` here.
 */
module RegisterFile {
  /** The register contents after writing `value` to `slot`: the slot, then slot 0 cleared. */
  function AfterSet(regs: seq<bv32>, slot: nat, value: bv32): (r: seq<bv32>)
    requires slot < |regs|
  {
    regs[slot := value][0 := 0]
  }

  /**
   * A write replaces exactly the written register unless it is x0, which reads 0 afterwards;
   * no other register changes.
   */
  lemma AfterSetSpec(regs: seq<bv32>, slot: nat, value: bv32)
    requires slot < |regs|
    ensures |AfterSet(regs, slot, value)| == |regs|
    ensures AfterSet(regs, slot, value)[0] == 0
    ensures slot != 0 ==> AfterSet(regs, slot, value)[slot] == value
    ensures forall i :: 0 < i < |regs| && i != slot ==> AfterSet(regs, slot, value)[i] == regs[i]
  {
  }

  /** A later write to the same register replaces the earlier one. */
  lemma AfterSetTwice(regs: seq<bv32>, slot: nat, v1: bv32, v2: bv32)
    requires slot < |regs|
    ensures AfterSet(AfterSet(regs, slot, v1), slot, v2) == AfterSet(regs, slot, v2)
  {
  }

  /**
   * Writes to different registers commute; with x0 reading zero, writing it is the same as
   * not writing at all.
   */
  lemma AfterSetCommutes(regs: seq<bv32>, i: nat, j: nat, vi: bv32, vj: bv32)
    requires i < |regs| && j < |regs| && i != j
    ensures AfterSet(AfterSet(regs, i, vi), j, vj) == AfterSet(AfterSet(regs, j, vj), i, vi)
    ensures |regs| > 0 && regs[0] == 0 ==> AfterSet(regs, 0, vi) == regs
  {
  }

  class Registers {
    const general: array<bv32>
    var pc: bv32

    /** `Registers::new`: n general registers, all zero, and pc zero. */
    constructor(n: nat)
      ensures general[..] == seq(n, _ => 0)
      ensures pc == 0
      ensures fresh(general)
    {
      general := new bv32[n](_ => 0);
      pc := 0;
    }

    /** The general registers, as a sequence. */
    function Contents(): seq<bv32>
      reads general
    {
      general[..]
    }

    /** `get`: the value in a slot below N. */
    function Get(slot: nat): (r: bv32)
      requires slot < general.Length
      reads general
      ensures r == Contents()[slot]
    {
      general[slot]
    }

    /** `set`: the slot, then slot 0 back to zero; pc is a separate field and stays. */
    method Set(slot: nat, value: bv32)
      requires slot < general.Length
      modifies general
      ensures Contents() == AfterSet(old(Contents()), slot, value)
    {
      general[slot] := value;
      general[0] := 0;
    }
  }
}
