# RV32I emulator core in Dafny

This project models the core of a small RISC-V emulator written in Rust. The emulator runs
base-integer (RV32I) programs on a register file of 32 general registers and a flat
little-endian byte memory. The model covers:

- the instruction codec: the bit helpers, the field extractors and immediate decoders, the
  encoder of `Instruction` values, and the earlier codec files it grew out of;
- the byte memory and the register file, each as a class over an array, with functions that
  specify them;
- the executor: one instruction word applied to a machine, with two revisions. `Rv32i` is the
  current `InstructionSet`; `R32Table` is its predecessor, `r32_instruction_table`. It is
  written as the specification function `Executor.Execute` and as the in-place method
  `Executor.Step`, which is proved equal to it;
- the first jump table, `InstructionTable`, which dispatches on the opcode through 32 handler
  slots and knows only OP-IMM;
- the CPU wrapper, which fetches the word at pc and hands the ECALL word to its environment
  call: x10 = 0 ends the program, x10 = 1 prints the low byte of x11, anything else is illegal;
- the `Setbits` helper.

Each `panic!` of the source is an outcome value (`Fault`, `Panic`, `Panicked`), or `None` in
the encoder. The outcome carries the state the source leaves behind at the point of the panic.

Arithmetic on pc and on addresses wraps modulo 2^32, as a release build computes it. Where a
debug build panics instead (checked i32 `+`/`-`, an unmasked shift amount, a `Setbits` width
outside its range), the checked operation is modelled too. The difference is listed under
"## Findings" where a debug build would panic on inputs the program meets.

## Model

| member | source | states |
|---|---|---|
| `Words.SignExtend8` | lib/src/cpu/instruction_sets/rv32i.rs:231-236 | `b as i8 as i32` has the byte's i8 value and keeps the byte as its low 8 bits |
| `Words.SignExtend16` | lib/src/cpu/instruction_sets/rv32i.rs:237-242 | `h as i16 as i32` keeps the half-word as its low 16 bits and copies bit 15 into every higher bit |
| `Words.SignExtend64` | lib/src/cpu/instruction_sets/rv32i.rs:106 | widening an i32 to i64 keeps the low 32 bits and copies bit 31 into every higher bit, so a 64-bit sum of two is the exact i32 sum |
| `InstructionUtil.ConstructOpcode` | src/instruction/util.rs:2-6 | the opcode built from a column and a row is a 7-bit value ending in 0b11, with the column's low 3 bits in bits 4:2 and the row's low 2 bits in bits 6:5 |
| `InstructionUtil.ConstructOpcodeInjective` | src/instruction/util.rs:2-6 | two (column, row) pairs give the same opcode exactly when they agree on the column's low 3 bits and the row's low 2 bits |
| `InstructionUtil.Extract` | src/instruction/util.rs:8-10 | an extracted field has no bit outside its mask |
| `InstructionUtil.MaskConstants` | src/instruction/util.rs:12-20 | each `C_n_BITS` is 2^n − 1 and `SIGN_BIT` is bit 31 |
| `Opcodes.OpcodeValues` | lib/src/instruction/opcodes.rs:3-8 | the major opcodes built from their map coordinates are 0x33, 0x13, 0x6F, 0x67, 0x37, 0x17 |
| `Opcodes.OpcodesDistinctAndWellFormed` | lib/src/instruction/opcodes.rs:3-8 | the eleven major opcodes are pairwise distinct 7-bit values ending in 0b11 |
| `Opcodes.OpcodesAgainstThirtyTwoSlots` | lib/src/instruction/r32i_instruction_table.rs:59-62 | only OP-IMM, AUIPC, LOAD and FENCE index inside a table of 32 handlers; OP, JAL, JALR, LUI, BRANCH, STORE and SYSTEM lie beyond it |
| `Decoder.Opcode` | src/instruction/decoder.rs:7-9 | the opcode is bits 6:0 of the word |
| `Decoder.Rd` | src/instruction/decoder.rs:12-14 | rd is the 5-bit field at bits 11:7 |
| `Decoder.Rs1` | src/instruction/decoder.rs:17-19 | rs1 is the 5-bit field at bits 19:15 |
| `Decoder.Rs2` | src/instruction/decoder.rs:22-24 | rs2 is the 5-bit field at bits 24:20 |
| `Decoder.Funct3` | src/instruction/decoder.rs:28-30 | funct3 is the 3-bit field at bits 14:12 |
| `Decoder.Funct7` | src/instruction/decoder.rs:34-36 | funct7 is the 7-bit field at bits 31:25 |
| `Decoder.FieldsTileTheWord` | src/instruction/decoder.rs:7-36 | opcode, rd, funct3, rs1, rs2 and funct7, shifted back into place, give back the whole word |
| `Decoder.IImm` | src/instruction/decoder.rs:65-73 | the I-immediate decoder; its bits and range are stated by `IImmClosed`, `IImmFields` and `IImmRange` |
| `Decoder.SImm` | src/instruction/decoder.rs:77-84 | the S-immediate decoder; stated by `SImmClosed`, `SImmFields` and `SImmRange` |
| `Decoder.BImm` | src/instruction/decoder.rs:89-95 | the B-immediate decoder; stated by `BImmClosed`, `BImmFields` and `BImmRange` |
| `Decoder.JImm` | src/instruction/decoder.rs:100-106 | the J-immediate decoder; stated by `JImmClosed`, `JImmFields` and `JImmRange` |
| `Decoder.SignExtend32` | src/instruction/decoder.rs:49-61 | every bit at or above the width is the sign |
| `Decoder.SignExtend11` | src/instruction/decoder.rs:49-61 | at width 11 the result is the raw value's low 11 bits, with the bits above all set when the sign is set and all clear otherwise |
| `Decoder.SignExtend12` | src/instruction/decoder.rs:49-61 | the same at width 12 |
| `Decoder.SignExtend20` | src/instruction/decoder.rs:49-61 | the same at width 20 |
| `Decoder.SignExtendExamples` | src/instruction/decoder.rs:186-191 | the repository's sign-extension cases: 1 and 127 stay positive, and 1 and 0x3F with the sign set are −1 and −65 |
| `Decoder.IImmClosed` | src/instruction/decoder.rs:65-73 | the I-immediate is bits 30:20 with bit 31 copied into bits 31:11 |
| `Decoder.IImmFields` | src/instruction/decoder.rs:65-73 | the low 11 bits of the I-immediate are the word's bits 30:20 and every bit above is its sign |
| `Decoder.IImmRange` | src/instruction/decoder.rs:65-73 | the I-immediate, read as an i32, is in [−2048, 2047] |
| `Decoder.SImmClosed` | src/instruction/decoder.rs:77-84 | the S-immediate joins bits 31:25 and 11:7 and is sign-extended from bit 31 |
| `Decoder.SImmFields` | src/instruction/decoder.rs:77-84 | imm[4:0] come from bits 11:7, imm[10:5] from bits 30:25, and every bit above is the sign |
| `Decoder.SImmRange` | src/instruction/decoder.rs:77-84 | the S-immediate, read as an i32, is in [−2048, 2047] |
| `Decoder.BImmClosed` | src/instruction/decoder.rs:89-95 | the B-immediate gathers bits 7, 30:25 and 11:8 into imm[11], imm[10:5] and imm[4:1], with imm[0] zero and sign extension from bit 31 |
| `Decoder.BImmFields` | src/instruction/decoder.rs:89-95 | the B-immediate is even, and each of its fields comes from the word's bit positions for that field |
| `Decoder.BImmRange` | src/instruction/decoder.rs:89-95 | the B-immediate, read as an i32, is in [−4096, 4094] |
| `Decoder.JImmClosed` | src/instruction/decoder.rs:100-106 | the J-immediate gathers bits 19:12, 20 and 30:21 into imm[19:12], imm[11] and imm[10:1], with sign extension from bit 31 |
| `Decoder.JImmFields` | src/instruction/decoder.rs:100-106 | the J-immediate is even, and each of its fields comes from the word's bit positions for that field |
| `Decoder.JImmRange` | src/instruction/decoder.rs:100-106 | the J-immediate, read as an i32, is in [−2^20, 2^20 − 2] |
| `Decoder.UImmAsWritten` | src/instruction/decoder.rs:44-46 | the decoder's U-immediate keeps bits 31:13 and clears bits 12:0 |
| `Decoder.UImm` | src/instruction/decoder.rs:44-46 | the U-immediate of the ISA keeps bits 31:12 and clears the low 12 bits |
| `Decoder.UImmAsWrittenDropsBit12` | src/instruction/decoder.rs:44-46 | the two U-immediates differ exactly in bit 12 of the word |
| `Decoder.UImmAsWrittenCounterexample` | src/instruction/decoder.rs:44-46 | `lui x0, 1` (0x00001037) decodes to 0 as written and to 0x1000 in the ISA |
| `Decoder.UImmAsWrittenExamples` | src/instruction/decoder.rs:194-214 | the repository's U-type cases, which expect bits 12:0 cleared, hold of the as-written decoder |
| `Decoder.ImmediateExamples` | src/instruction/decoder.rs:217-252 | the repository's I-type cases: 250, −250, −2048 and 2047 decode to themselves |
| `LegacyDecoders.OpcodeByMask` | src/instruction_decoder.rs:15-17 | the opcode by a plain 7-bit mask is below 0x80 |
| `LegacyDecoders.OpcodeByMaskAgrees` | src/instruction_decoder.rs:15-17 | the mask-based opcode equals the extractor-based one for every word |
| `LegacyDecoders.OpcodeIgnoresHighBits` | src/instruction_decoder.rs:29-49 | the opcode of OP or JALR is unchanged by any bits above bit 6, and OP never reads as JALR |
| `LegacyDecoders.Rd4` | src/instruction_decoder.rs:20-22 | the 4-bit rd is below 16 |
| `LegacyDecoders.Rd4DropsBit11` | src/instruction_decoder.rs:20-22 | the 4-bit rd is the 5-bit rd without its top bit, and the two agree exactly when bit 11 is clear |
| `LegacyDecoders.Rd4Counterexample` | src/instruction_decoder.rs:20-22 | the word 0x00000800 names rd = x16 but the 4-bit rd reads it as x0 |
| `LegacyDecoders.RegisterFieldExamples` | src/instruction_util.rs:73-92 | the repository's rd, rs1 and rs2 vectors |
| `ByteMemory.Le16Bytes` | lib/src/memory.rs:32-37 | a half-word is two bytes |
| `ByteMemory.Le32Bytes` | lib/src/memory.rs:49-56 | a word is four bytes |
| `ByteMemory.LeRoundTrip` | lib/src/memory.rs:27-56 | splitting a half-word or word into little-endian bytes and joining them gives it back |
| `ByteMemory.LeBytesRoundTrip` | lib/src/memory.rs:27-56 | joining bytes and splitting the value again gives the same bytes |
| `ByteMemory.Le32Halves` | lib/src/memory.rs:39-47 | a little-endian word is its low half-word with its high half-word shifted up by 16 |
| `ByteMemory.Zeroes` | lib/src/memory.rs:9-11 | a new memory of size n holds n zero bytes |
| `ByteMemory.Overwrite` | lib/src/memory.rs:49-56 | writing bytes at an address keeps the length, changes the bytes in range to the new ones and leaves every other byte alone |
| `ByteMemory.StoreBytes` | lib/src/memory.rs:17-25 | writing bytes one at a time never changes the memory's size |
| `ByteMemory.StoreBytesClosed` | lib/src/memory.rs:32-56 | byte-at-a-time writes, which stop at the first out-of-range byte, leave the bytes written before it, and succeed exactly when all of them fit |
| `ByteMemory.Load8` | lib/src/memory.rs:13-15 | `get8`: the byte at the address, or `OutOfBounds` past the end; `Memory.Get8` reads it in place and `Store8Spec` reads back what `Store8` wrote |
| `ByteMemory.Load16` | lib/src/memory.rs:27-30 | `get16`; stated by `Load16Spec`, and by `Store16RoundTrip` against `Store16` |
| `ByteMemory.Load32` | lib/src/memory.rs:39-47 | `get32`; stated by `Load32Spec`, and by `Store32RoundTrip` against `Store32` |
| `ByteMemory.Store8` | lib/src/memory.rs:17-25 | `set8`; stated by `Store8Spec` |
| `ByteMemory.Store16` | lib/src/memory.rs:32-37 | `set16`; stated by `StoreBytesClosed`, `Store16RoundTrip` and `Store16AtLastByte` |
| `ByteMemory.Store32` | lib/src/memory.rs:49-56 | `set32`; stated by `StoreBytesClosed`, `Store32RoundTrip` and `Store32NearEnd` |
| `ByteMemory.Load16Spec` | lib/src/memory.rs:27-30 | a half-word read succeeds exactly when both bytes are in memory, and is then their little-endian value |
| `ByteMemory.Load32Spec` | lib/src/memory.rs:39-47 | a word read succeeds exactly when all four bytes are in memory, and is then their little-endian value |
| `ByteMemory.Store8Spec` | lib/src/memory.rs:17-25 | a byte write succeeds exactly in range; it is then read back and every other byte is unchanged, and out of range nothing changes |
| `ByteMemory.Store16RoundTrip` | lib/src/memory.rs:27-37 | a half-word written in range succeeds and is read back |
| `ByteMemory.Store32RoundTrip` | lib/src/memory.rs:39-56 | a word written in range succeeds and is read back |
| `ByteMemory.Store16AtLastByte` | lib/src/memory.rs:137-159 | at the last byte a half-word read fails, and a half-word write fails after writing its low byte |
| `ByteMemory.Store32NearEnd` | lib/src/memory.rs:185-206 | two bytes before the end a word read fails, and a word write fails after writing its two low bytes |
| `ByteMemory.Memory.constructor` | lib/src/memory.rs:9-11 | a fresh memory of the given size, all zero |
| `ByteMemory.Memory.Get8` | lib/src/memory.rs:13-15 | reads the byte at the address, failing out of range |
| `ByteMemory.Memory.Get16` | lib/src/memory.rs:27-30 | reads the little-endian half-word at the address, failing unless both bytes are in range |
| `ByteMemory.Memory.Get32` | lib/src/memory.rs:39-47 | reads the little-endian word at the address, failing unless all four bytes are in range |
| `ByteMemory.Memory.Set8` | lib/src/memory.rs:17-25 | the new contents and the result are those of a byte write on the old contents |
| `ByteMemory.Memory.Set16` | lib/src/memory.rs:32-37 | the new contents and the result are those of a half-word write, including the low byte left behind by a write that fails half way |
| `ByteMemory.Memory.Set32` | lib/src/memory.rs:49-56 | the new contents and the result are those of a word write, including the bytes left behind by a write that fails part way |
| `RegisterFile.AfterSetSpec` | lib/src/cpu/registers.rs:20-25 | setting a register keeps the count, puts the value in the slot unless it is x0, keeps every other register, and leaves x0 zero |
| `RegisterFile.AfterSetTwice` | lib/src/cpu/registers.rs:20-25 | the second of two writes to one register wins |
| `RegisterFile.AfterSetCommutes` | lib/src/cpu/registers.rs:20-25 | writes to different registers commute, and a write to x0 of a file whose x0 is zero changes nothing |
| `RegisterFile.AfterSet` | lib/src/cpu/registers.rs:20-25 | the register file after `set`; stated by `AfterSetSpec`, `AfterSetTwice` and `AfterSetCommutes` |
| `RegisterFile.Registers.constructor` | lib/src/cpu/registers.rs:37-43 | n registers, all zero, and pc zero |
| `RegisterFile.Registers.Get` | lib/src/cpu/registers.rs:45-47 | reads the register's current value |
| `RegisterFile.Registers.Set` | lib/src/cpu/registers.rs:49-51 | the new register contents are those of a register write on the old ones |
| `Alu.AddOverflowBothNonNegative` | lib/src/cpu/instruction_sets/rv32i.rs:106 | for two non-negative i32s, the checked add fails exactly when the wrapped sum is negative |
| `Alu.AddOverflowBothNegative` | lib/src/cpu/instruction_sets/rv32i.rs:106 | for two negative i32s, the checked add fails exactly when the wrapped sum is not negative |
| `Alu.AddOverflowMixedSigns` | lib/src/cpu/instruction_sets/rv32i.rs:106 | an i32 add of operands of opposite signs never overflows |
| `Alu.CheckedAddSpec` | lib/src/cpu/instruction_sets/rv32i.rs:106 | the checked i32 add fails exactly when both operands have one sign and the wrapped sum has the other |
| `Alu.CheckedAddOverflows` | lib/src/cpu/instruction_sets/rv32i.rs:132 | i32::MAX + 1 and i32::MIN − 1 fail when checked, and wrap to i32::MIN and i32::MAX |
| `Alu.CheckedAdd` | lib/src/cpu/instruction_sets/rv32i.rs:106 | i32 `+` with the debug-build overflow check; stated by `CheckedAddSpec` and the three `AddOverflow` lemmas |
| `Alu.CheckedSub` | lib/src/cpu/instruction_sets/rv32i.rs:132 | i32 `-` with the debug-build overflow check; `CheckedAddOverflows` shows i32::MIN − 1 failing |
| `Alu.ShiftAmount` | lib/src/cpu/instruction_sets/rv32i.rs:143 | the shift amount is below 32, and is the operand itself when that is below 32 |
| `Alu.CheckedShiftAmountSpec` | lib/src/cpu/instruction_sets/rv32i.rs:143-156 | where the unmasked amount is accepted it equals the masked one, and rs2 = 32 is rejected although it masks to a shift by 0 |
| `Alu.ShiftRightArithmeticSpec` | lib/src/cpu/instruction_sets/rv32i.rs:146-149 | the arithmetic shift agrees with the logical one on the bits shifted down, and fills the vacated bits with the sign |
| `Alu.ShiftRightArithmetic` | lib/src/cpu/instruction_sets/rv32i.rs:121 | the i32 `>>` of SRAI (and of SRA at line 148); stated by `ShiftRightArithmeticSpec` |
| `Alu.CheckedShiftAmount` | lib/src/cpu/instruction_sets/rv32i.rs:143-156 | the debug-build shift amount, rejected from 32 up; stated by `CheckedShiftAmountSpec` |
| `Alu.SignedLess` | lib/src/cpu/instruction_sets/rv32i.rs:107 | i32 `<` on the two words read as signed; stated by `SetLessThanSpec` |
| `Alu.Flag` | lib/src/cpu/instruction_sets/rv32i.rs:107 | `i32::from(bool)` is 0 or 1 |
| `Alu.SetLessThanSpec` | lib/src/cpu/instruction_sets/rv32i.rs:107-138 | SLT and SLTI compare as signed and SLTU and SLTIU as unsigned, writing 1 exactly when rs1 is below the other operand |
| `Alu.SltiuIdioms` | lib/src/cpu/instruction_sets/rv32i.rs:108-113 | `sltiu rd, rs, 1` tests rs = 0, and an immediate of −1 compares against u32::MAX |
| `Alu.AddSubSpec` | lib/src/cpu/instruction_sets/rv32i.rs:132 | ADD and ADDI write the wrapped sum, SUB (funct7 0b0100000) the wrapped difference, and any other funct7 is rejected |
| `Alu.SubUndoesAdd` | lib/src/cpu/instruction_sets/rv32i.rs:132 | SUB of the same rs2 gives back the value ADD started from, for every pair of operands |
| `Alu.OpImmValue` | lib/src/cpu/instruction_sets/rv32i.rs:104-127 | the value OP-IMM writes, or `None` where a funct7 is rejected; stated by `SetLessThanSpec`, `SltiuIdioms`, `AddSubSpec` and `ShiftImmediateSpec` |
| `Alu.OpValue` | lib/src/cpu/instruction_sets/rv32i.rs:130-162 | the value OP writes, or `None` where a funct7 is rejected; stated by `SetLessThanSpec`, `AddSubSpec`, `SubUndoesAdd`, `RegisterShiftSpec` and `RevisionsSwapShifts` |
| `Alu.ShiftImmediateSpec` | lib/src/cpu/instruction_sets/rv32i.rs:117-122 | SLLI shifts left by the immediate's low 5 bits when funct7 is 0 and is rejected otherwise; SRLI and SRAI shift right logically or arithmetically by funct7 |
| `Alu.RevisionsSwapShifts` | lib/src/instruction/r32_instruction_table.rs:125-148 | the two revisions agree on every OP except SRL/SRA, where each takes the other's funct7 |
| `Alu.RegisterShiftSpec` | lib/src/cpu/instruction_sets/rv32i.rs:143-157 | SLL shifts left by rs2's low 5 bits, and SRL/SRA shift right logically for funct7 0 and arithmetically for 0b0100000 |
| `Alu.BranchConditionPairs` | lib/src/cpu/instruction_sets/rv32i.rs:189-199 | exactly one of BEQ/BNE, BLT/BGE and BLTU/BGEU is taken; BLT compares as signed; funct3 2, 3 and 8 and above are rejected |
| `Alu.BranchCondition` | lib/src/cpu/instruction_sets/rv32i.rs:189-199 | whether a branch is taken, or `None` for funct3 2, 3 and 8 and above; stated by `BranchConditionPairs` |
| `Alu.BranchNextPc` | lib/src/cpu/instruction_sets/rv32i.rs:164-179 | the intended next pc, which `Executor.ExecuteBranch` uses; stated by `BranchNextPcSpec` |
| `Alu.BranchNextPcAsWritten` | lib/src/cpu/instruction_sets/rv32i.rs:164-202 | the next pc as `apply_branch` and then line 202 compute it; stated by `BranchNextPcAsWrittenOvershoots` |
| `Alu.BranchNextPcSpec` | lib/src/cpu/instruction_sets/rv32i.rs:164-179 | a taken branch moves pc by the offset, wrapping, and a branch not taken moves it to the next word |
| `Alu.BranchNextPcAsWrittenOvershoots` | lib/src/cpu/instruction_sets/rv32i.rs:202 | as written, every branch lands 4 bytes past where it should |
| `Alu.BranchNextPcAsWrittenCounterexample` | lib/src/instruction/r32_instruction_table.rs:188 | a branch at 5000 with offset 500 lands at 5504 taken and 5008 not taken, where 5500 and 5004 are intended |
| `Executor.Dest` | lib/src/cpu/instruction_sets/rv32i.rs:292 | rd is a register index below 32 |
| `Executor.Src1` | lib/src/cpu/instruction_sets/rv32i.rs:331 | rs1 is a register index below 32 |
| `Executor.Src2` | lib/src/cpu/instruction_sets/rv32i.rs:265 | rs2 is a register index below 32 |
| `Executor.LoadAddress` | lib/src/cpu/instruction_sets/rv32i.rs:207-211 | rs1 plus the I-immediate, wrapping; `ExecutorProperties.LoadWritesValue` states that a load reads there |
| `Executor.StoreAddress` | lib/src/cpu/instruction_sets/rv32i.rs:261-264 | rs1 plus the S-immediate, wrapping; `ExecutorProperties.StoreWritesMemory` states that a store writes there |
| `Executor.PcRelative` | lib/src/cpu/instruction_sets/rv32i.rs:302-309 | pc plus the U-immediate, wrapping; `ExecutorProperties.UpperImmediatesWriteRd` states that AUIPC writes it |
| `Executor.JumpTarget` | lib/src/cpu/instruction_sets/rv32i.rs:314-318 | pc plus the J-immediate, wrapping; `ExecutorProperties.JalLinksThenTraps` states that JAL jumps there |
| `Executor.IndirectTarget` | lib/src/cpu/instruction_sets/rv32i.rs:331-336 | rs1 plus the I-immediate with bit 0 cleared; `ExecutorProperties.JalrLinksAndJumps` states that JALR jumps there and `JalrAsWrittenNeverTraps` that it is even |
| `Executor.WriteRd` | lib/src/cpu/instruction_sets/rv32i.rs:33-42 | the machine after `set(rd, value)` and a new pc; what it changes is stated by `RegisterFile.AfterSetSpec` and `ExecutorProperties.ExecuteWritesOnlyRd` |
| `Executor.LoadValue` | lib/src/cpu/instruction_sets/rv32i.rs:229-256 | a load succeeds exactly when its 1, 2 or 4 bytes fit; LB has the byte's i8 value, LH is the little-endian half-word sign-extended, LBU and LHU zero-extend the byte and the half-word, and LW is the little-endian word |
| `Executor.ExecuteOp` | lib/src/cpu/instruction_sets/rv32i.rs:130-162 | OP keeps 32 registers and the memory size |
| `Executor.ExecuteOpImm` | lib/src/cpu/instruction_sets/rv32i.rs:104-127 | OP-IMM keeps 32 registers and the memory size |
| `Executor.ExecuteBranch` | lib/src/cpu/instruction_sets/rv32i.rs:189-203 | BRANCH keeps 32 registers and the memory size |
| `Executor.ExecuteLoad` | lib/src/cpu/instruction_sets/rv32i.rs:207-221 | LOAD keeps 32 registers and the memory size |
| `Executor.StoreValue` | lib/src/cpu/instruction_sets/rv32i.rs:272-287 | the bytes and result of SB, SH or SW; stated by `ExecutorProperties.StoreWritesMemory` and `StoreThenLoad` |
| `Executor.ExecuteStore` | lib/src/cpu/instruction_sets/rv32i.rs:261-287 | STORE keeps 32 registers and the memory size |
| `Executor.ExecuteLui` | lib/src/cpu/instruction_sets/rv32i.rs:291-298 | LUI keeps 32 registers and the memory size |
| `Executor.ExecuteAuipc` | lib/src/cpu/instruction_sets/rv32i.rs:302-310 | AUIPC keeps 32 registers and the memory size |
| `Executor.ExecuteJal` | lib/src/cpu/instruction_sets/rv32i.rs:314-324 | JAL keeps 32 registers and the memory size |
| `Executor.ExecuteJalr` | lib/src/cpu/instruction_sets/rv32i.rs:330-341 | JALR keeps 32 registers and the memory size; what it does, including the trap on a target off a 4-byte boundary, is stated by `ExecutorProperties.JalrLinksAndJumps` |
| `Executor.ExecuteJalrAsWritten` | lib/src/cpu/instruction_sets/rv32i.rs:330-341 | JALR as written keeps 32 registers and the memory size; `ExecutorProperties.JalrAsWrittenNeverTraps` states that it never traps |
| `Executor.Execute` | lib/src/cpu/instruction_sets/rv32i.rs:356-383 | a step of either revision keeps 32 registers and the memory size; what it does is stated by the lemmas of `ExecutorProperties`, the opcodes it does not dispatch on by `ExecutorProperties.UnknownOpcodesTrap` |
| `Executor.OpHandler` | lib/src/cpu/instruction_sets/rv32i.rs:130-162 | in place, OP leaves the registers, pc and the outcome that `ExecuteOp` gives |
| `Executor.OpImmHandler` | lib/src/cpu/instruction_sets/rv32i.rs:104-127 | in place, OP-IMM agrees with `ExecuteOpImm` |
| `Executor.BranchHandler` | lib/src/cpu/instruction_sets/rv32i.rs:189-203 | in place, BRANCH agrees with `ExecuteBranch` |
| `Executor.Read` | lib/src/cpu/instruction_sets/rv32i.rs:229-256 | reading a load width from the memory object gives the value `LoadValue` specifies |
| `Executor.LoadHandler` | lib/src/cpu/instruction_sets/rv32i.rs:207-221 | in place, LOAD agrees with `ExecuteLoad` |
| `Executor.Write` | lib/src/cpu/instruction_sets/rv32i.rs:272-287 | writing a store width to the memory object leaves the bytes and result of `StoreValue` |
| `Executor.StoreHandler` | lib/src/cpu/instruction_sets/rv32i.rs:261-270 | in place, STORE agrees with `ExecuteStore`, including the bytes left by a failing write |
| `Executor.LuiHandler` | lib/src/cpu/instruction_sets/rv32i.rs:291-298 | in place, LUI agrees with `ExecuteLui` |
| `Executor.AuipcHandler` | lib/src/cpu/instruction_sets/rv32i.rs:302-310 | in place, AUIPC agrees with `ExecuteAuipc` in either revision |
| `Executor.JalHandler` | lib/src/cpu/instruction_sets/rv32i.rs:314-324 | in place, JAL agrees with `ExecuteJal` |
| `Executor.JalrHandler` | lib/src/cpu/instruction_sets/rv32i.rs:330-341 | in place, JALR agrees with `ExecuteJalr`, trapping before any write on a misaligned target |
| `Executor.Step` | lib/src/cpu/instruction_sets/rv32i.rs:356-383 | one in-place step on a register file and a memory object leaves exactly the machine and outcome `Execute` specifies |
| `ExecutorProperties.ExecuteKeepsX0Zero` | lib/src/cpu/registers.rs:20-25 | x0 still reads zero after any step |
| `ExecutorProperties.ExecuteWritesOnlyRd` | lib/src/cpu/instruction_sets/rv32i.rs:356-383 | a step changes no general register other than rd, and only a store changes memory |
| `ExecutorProperties.FaultsBeforeWritesChangeNothing` | lib/src/cpu/instruction_sets/rv32i.rs:16-26 | an illegal opcode or funct, or a misaligned JALR target, leaves the machine as it was; a memory fault keeps the registers and pc, and a failed load also keeps memory |
| `ExecutorProperties.UnknownOpcodesTrap` | lib/src/cpu/instruction_sets/rv32i.rs:367-379 | in either revision a step traps with `IllegalOpcode` and changes nothing exactly when the opcode is none of OP, OP-IMM, BRANCH, LOAD, STORE, LUI, AUIPC, JAL, JALR and FENCE; SYSTEM traps |
| `ExecutorProperties.SequentialInstructionsAdvancePc` | lib/src/cpu/instruction_sets/rv32i.rs:126 | OP, OP-IMM, LUI, AUIPC, LOAD, STORE and FENCE that complete their update move pc to the next word |
| `ExecutorProperties.OnlyControlTransfersJump` | lib/src/cpu/instruction_sets/rv32i.rs:314-341 | pc moves anywhere other than itself or the next word only for JAL, JALR or a branch |
| `ExecutorProperties.AluInstructionsWriteResult` | lib/src/cpu/instruction_sets/rv32i.rs:33-75 | OP and OP-IMM complete exactly when the ALU accepts funct3/funct7, and rd then holds the ALU result of the sources as read before the step |
| `ExecutorProperties.AddThenSubRestores` | lib/src/cpu/instruction_sets/rv32i.rs:132 | `add rd, rs1, rs2` then `sub rd, rd, rs2` both complete and leave rs1's old value in rd, when rd is neither x0 nor rs2 |
| `ExecutorProperties.LoadWritesValue` | lib/src/cpu/instruction_sets/rv32i.rs:207-256 | a load with a bad width traps; otherwise it reads at rs1 + I-immediate, traps with that address exactly when the read fails, and else puts the value in rd |
| `ExecutorProperties.StoreWritesMemory` | lib/src/cpu/instruction_sets/rv32i.rs:261-287 | a store with a bad width traps and changes nothing; otherwise memory is the write of rs2 at rs1 + S-immediate, and the store completes exactly when the write succeeds |
| `ExecutorProperties.StoreThenLoad` | lib/src/cpu/instruction_sets/rv32i.rs:229-287 | SB then LBU, SH then LHU and SW then LW at one address give back the low 8, 16 or 32 bits stored; SB then LB and SH then LH give them back sign-extended |
| `ExecutorProperties.UpperImmediatesWriteRd` | lib/src/cpu/instruction_sets/rv32i.rs:291-310 | LUI puts the U-immediate in rd and AUIPC puts pc plus the U-immediate there |
| `ExecutorProperties.JalLinksThenTraps` | lib/src/cpu/instruction_sets/rv32i.rs:314-324 | JAL links pc + 4 in rd, moves pc by the J-immediate, and then always traps |
| `ExecutorProperties.JalrLinksAndJumps` | lib/src/cpu/instruction_sets/rv32i.rs:330-341 | JALR's target is rs1 + I-immediate with bit 0 cleared; it completes exactly when that target is 4-aligned, then moves pc there and links the old pc + 4 in rd, and otherwise traps with the machine unchanged |
| `ExecutorProperties.JalrAsWrittenNeverTraps` | lib/src/cpu/instruction_sets/rv32i.rs:330-341 | the source's JALR always continues to an even pc, and differs from the checked one exactly when bit 1 of that pc is set |
| `ExecutorProperties.BranchMovesPc` | lib/src/cpu/instruction_sets/rv32i.rs:164-203 | a branch moves pc by the B-immediate when taken and to the next word when not, changes no register, and traps on funct3 2, 3 and above 7 |
| `ExecutorProperties.RevisionsAgree` | lib/src/instruction/r32_instruction_table.rs:343-370 | the two revisions agree on every word except SRL/SRA, which they swap, and AUIPC, after which the predecessor traps with the same state |
| `ExecutorProperties.NoOpAdvancesPc` | lib/src/cpu/instruction_sets/tests/rv32i.rs:77-81 | `addi x0, x0, 0` only moves pc to the next word |
| `ExecutorProperties.AddiOverflowWraps` | lib/src/cpu/instruction_sets/tests/rv32i.rs:113-123 | `addi x1, x1, 1` takes i32::MAX to i32::MIN, and `addi x1, x1, -1` takes it back |
| `ExecutorProperties.UpperImmediateExamples` | lib/src/cpu/instruction_sets/tests/rv32i.rs:464-480 | the repository's LUI and AUIPC cases |
| `ExecutorProperties.JalExample` | lib/src/cpu/instruction_sets/tests/rv32i.rs:483-494 | JAL by 500 at 5000 sets pc 5500 and x1 5004, and then traps |
| `ExecutorProperties.JalrExamples` | lib/src/cpu/instruction_sets/tests/rv32i.rs:497-520 | JALR by 500 from x1 = 9000 at pc 5000 sets pc 9500 and x1 5004; from the odd 9001 the target with bit 0 cleared is the aligned 9500, so the step continues there |
| `ExecutorProperties.JalrMisalignedCounterexample` | lib/src/cpu/instruction_sets/tests/rv32i.rs:522-531 | JALR by 500 from x1 = 9002 at pc 5000: as written the step continues to 9502; the checked JALR traps on 9502 and changes nothing |
| `ExecutorProperties.BeqExample` | lib/src/cpu/instruction_sets/tests/rv32i.rs:534-548 | BEQ by 500 at 5000 lands at 5500 when taken and 5004 when not |
| `ExecutorProperties.LwExample` | lib/src/cpu/instruction_sets/tests/rv32i.rs:729-745 | LW reads the stored little-endian word into rd |
| `ExecutorProperties.HalfLoadExamples` | lib/src/cpu/instruction_sets/tests/rv32i.rs:694-725 | with 0xAA, 0xDC at 500 and x1 = 500, LH puts the sign-extended 0xFFFFDCAA in x2 and LHU the zero-extended 0x0000DCAA |
| `ExecutorProperties.SwExample` | lib/src/cpu/instruction_sets/tests/rv32i.rs:834-845 | SW writes rs2 to memory, where it reads back |
| `HandlerTable.InitialSlots` | lib/src/instruction/r32i_instruction_table.rs:65-69 | the new table has 32 slots, and a slot holds the OP-IMM handler exactly at index OP_IMM |
| `HandlerTable.Lookup` | lib/src/instruction/r32i_instruction_table.rs:71-73 | indexing the handler array succeeds exactly for an opcode below the table's length |
| `HandlerTable.TableOpImm` | lib/src/instruction/r32i_instruction_table.rs:33-57 | the table's OP-IMM handler keeps 32 registers |
| `HandlerTable.TableOpImmValue` | lib/src/instruction/r32i_instruction_table.rs:33-57 | the value each funct3 arm of the table writes, or `None` for the shift-immediates; stated by `TableValueAgrees` |
| `HandlerTable.TableStep` | lib/src/instruction/r32i_instruction_table.rs:71-73 | a step of the table keeps 32 registers |
| `HandlerTable.InstructionTable.constructor` | lib/src/instruction/r32i_instruction_table.rs:65-69 | the new table holds the trap in every slot but OP_IMM |
| `HandlerTable.InstructionTable.Step` | lib/src/instruction/r32i_instruction_table.rs:71-73 | one in-place step leaves exactly the machine and outcome `TableStep` specifies |
| `HandlerTable.TableOpImmHandler` | lib/src/instruction/r32i_instruction_table.rs:23-57 | in place, the OP-IMM handler agrees with `TableOpImm` |
| `HandlerTable.TableStepOutcome` | lib/src/instruction/r32i_instruction_table.rs:15-73 | the table handles a word exactly when it is OP-IMM with funct3 other than SLLI and SRLI/SRAI; opcodes of 32 and above index out of bounds; other opcodes below 32 reach the trap; a panic changes nothing |
| `HandlerTable.TableCoversFewOpcodes` | lib/src/instruction/r32i_instruction_table.rs:59-69 | OP, JAL, JALR, LUI, BRANCH, STORE and SYSTEM index out of bounds; LOAD, AUIPC and FENCE reach the trap |
| `HandlerTable.TableValueAgrees` | lib/src/instruction/r32i_instruction_table.rs:33-57 | each funct3 arm of the table computes the same value as the executor's OP-IMM |
| `HandlerTable.TableAgreesWithExecutor` | lib/src/instruction/r32i_instruction_table.rs:71-73 | whenever the table handles a word, the executor of either revision continues to the same machine |
| `HandlerTable.TableRejectsShiftImmediates` | lib/src/instruction/r32i_instruction_table.rs:53 | the table panics on SLLI, SRLI and SRAI and leaves the machine as it was |
| `HandlerTable.NoOpScenario` | lib/src/instruction/r32i_instruction_table.rs:99-104 | a no-op on a new table is handled, moves pc to 4 and leaves x0 zero |
| `HandlerTable.AddiScenarioWords` | lib/src/instruction/r32i_instruction_table.rs:107-149 | the words of the ADDI test decode to OP-IMM/ADDI with the test's registers and immediates |
| `HandlerTable.AddiScenarioTail` | lib/src/instruction/r32i_instruction_table.rs:107-149 | from pc 12 with x1 = 3, the last three ADDIs of the test leave pc 24 and x1, x2, x3 = 3, 2, 6 |
| `HandlerTable.AddiScenario` | lib/src/instruction/r32i_instruction_table.rs:107-149 | the six ADDIs of the test leave pc 24 and x1, x2, x3 = 3, 2, 6 |
| `Cpu.EnvironmentCall` | lib/src/cpu/rv32i.rs:29-35 | the environment call keeps 32 registers |
| `Cpu.FromExecutor` | lib/src/cpu/rv32i.rs:28-35 | the CPU keeps running exactly when the executor continues, and an executor fault becomes a CPU panic carrying that trap |
| `Cpu.CpuStep` | lib/src/cpu/rv32i.rs:24-36 | a CPU step keeps 32 registers and the memory size |
| `Cpu.Cpu.constructor` | lib/src/cpu/rv32i.rs:17-22 | a new CPU has 32 zero registers and pc 0 |
| `Cpu.Cpu.Step` | lib/src/cpu/rv32i.rs:24-36 | one in-place step of the CPU leaves exactly the machine and outcome `CpuStep` specifies |
| `Cpu.FetchOutOfRange` | lib/src/cpu/rv32i.rs:25-27 | the fetch panics exactly when the four bytes at pc are not all in memory, and then nothing changes |
| `Cpu.EnvironmentCallSpec` | lib/src/cpu/rv32i.rs:29-35 | ECALL changes no register and no byte; it terminates exactly when x10 = 0 and prints exactly when x10 = 1, the low byte of x11, moving pc to the next word; any other x10 panics with an illegal ecall and changes nothing |
| `Cpu.OtherWordsExecute` | lib/src/cpu/rv32i.rs:28-35 | any other word leaves the executor's machine, and the CPU runs on exactly when the executor continues |
| `Cpu.OnlyEcallTalks` | lib/src/cpu/rv32i.rs:29-35 | only the ECALL word prints or ends the program |
| `Cpu.StepScenario` | lib/src/cpu/rv32i.rs:49-56 | a no-op stored at address 0 of an 8-byte memory moves a new CPU's pc to 4 |
| `Cpu.EmitScenario` | lib/src/cpu/instruction_sets/tests/rv32i.rs:860-868 | an ECALL with x10 = 1 and x11 = 'H' prints 'H' and moves pc to 4 |
| `Encoder.ConvertI16ToI12` | lib/src/instruction/encoder.rs:9-22 | the conversion accepts an i16 exactly when it fits 12 signed bits or has its top four bits clear, and yields its low 12 bits |
| `Encoder.IType` | lib/src/instruction/encoder.rs:48-53 | the I-type layout that `i_type_opcode` packs; `ITypeTiles` states that it rebuilds any word from its fields, and the `Encode*Decodes` lemmas that each field lands in place |
| `Encoder.ITypeOpcode` | lib/src/instruction/encoder.rs:24-54 | `i_type_opcode` with its `> 32` register guard; stated by `EncodeOpImmDecodes`, `EncodeJalrDecodes`, `EncodeLoadDecodes` and `RegisterGuardAdmits32` |
| `Encoder.RType` | lib/src/instruction/encoder.rs:77-82 | the R-type layout that `op_opcode` packs; stated by `EncodeOpDecodes` and `OpReencodes` |
| `Encoder.OpOpcode` | lib/src/instruction/encoder.rs:56-83 | `op_opcode` with its `> 32` register guard; stated by `EncodeOpDecodes` |
| `Encoder.EncodeUpper` | lib/src/instruction/encoder.rs:85-107 | `encode_lui` and `encode_auipc`; stated by `EncodeUpperDecodes` |
| `Encoder.JType` | lib/src/instruction/encoder.rs:142 | the J-type layout `encode_jal` packs around its immediate; stated by `EncodeJalDecodes` |
| `Encoder.EncodeJTypeImmediateAsWritten` | lib/src/instruction/encoder.rs:109-135 | the J-immediate as written; `EncodeJalAsWrittenCounterexample` shows that it misplaces offset bit 10 and accepts 2^20 |
| `Encoder.BType` | lib/src/instruction/encoder.rs:192-196 | the B-type layout `encode_branch` packs; stated by `EncodeBranchDecodes` |
| `Encoder.EncodeBranch` | lib/src/instruction/encoder.rs:174-197 | `encode_branch`; stated by `EncodeBranchDecodes` |
| `Encoder.EncodeLoad` | lib/src/instruction/encoder.rs:199-224 | `encode_load`; stated by `EncodeLoadDecodes` and `LoadReencodes` |
| `Encoder.SType` | lib/src/instruction/encoder.rs:244-253 | the S-type layout `encode_store` packs; stated by `EncodeStoreDecodes` |
| `Encoder.EncodeStore` | lib/src/instruction/encoder.rs:226-254 | `encode_store`; stated by `EncodeStoreDecodes` |
| `Encoder.EncodeCsr` | lib/src/instruction/encoder.rs:280-307 | `encode_csr`; stated by `EncodeCsrDecodes` |
| `Encoder.Encode` | lib/src/instruction/encoder.rs:373-452 | `Instruction::encode` corrected, with the ISA's J-type and fence layouts in the JAL and FENCE/FENCE.I arms; stated class by class by the `Encode*Decodes` round-trips and the `*Reencodes` lemmas |
| `Encoder.EncodeAsWritten` | lib/src/instruction/encoder.rs:373-452 | `Instruction::encode` as written: every arm but JAL and FENCE.I encodes as `Encode` does, FENCE.I gives 0x0000008F where `Encode` gives 0x0000100F, and `jal x0, 1024` gives a word whose J-immediate is 3072 |
| `Encoder.EncodeJal` | lib/src/instruction/encoder.rs:137-143 | `encode_jal` with the ISA's J-type layout; stated by `EncodeJalDecodes` |
| `Encoder.EncodeJalAsWritten` | lib/src/instruction/encoder.rs:137-143 | `encode_jal` with the J-type layout as written; `EncodeJalAsWrittenCounterexample` shows it misplacing bits |
| `Encoder.EncodeFence` | lib/src/instruction/encoder.rs:256-270 | `encode_fence` with funct3 at bits 14:12; stated by `EncodeFenceDecodes` |
| `Encoder.EncodeFenceAsWritten` | lib/src/instruction/encoder.rs:256-270 | `encode_fence` as written; stated by `EncodeFenceAsWrittenMisplacesFunct3` |
| `Encoder.ShiftImmediate` | lib/src/instruction/encoder.rs:513-549 | the guard and immediate the three shift-immediate constructors share; stated by `ShiftImmediateDecodes` |
| `Encoder.Slli` | lib/src/instruction/encoder.rs:513-519 | `slli`: `ShiftImmediate` with SLLI and funct7 0 |
| `Encoder.Srli` | lib/src/instruction/encoder.rs:523-534 | `srli`: `ShiftImmediate` with SRLI_OR_SRAI and funct7 0 |
| `Encoder.Srai` | lib/src/instruction/encoder.rs:538-549 | `srai`: `ShiftImmediate` with SRLI_OR_SRAI and funct7 0b0100000; `EncoderExamples` gives its encoding |
| `Encoder.EncodeBTypeImmediate` | lib/src/instruction/encoder.rs:147-172 | the B-immediate is accepted exactly when it is even and fits 13 signed bits, and then touches only the immediate bits of a B-type word |
| `Encoder.EncodeJTypeImmediate` | lib/src/instruction/encoder.rs:109-135 | the J-immediate is accepted exactly when it is even and fits 21 signed bits, and then touches only bits 31:12 |
| `Encoder.EncodeOpImmDecodes` | lib/src/instruction/encoder.rs:455-467 | an OP-IMM instruction with registers below 32 and a 12-bit immediate encodes to a word that decodes to the same opcode, rd, funct3, rs1 and immediate |
| `Encoder.EncodeJalrDecodes` | lib/src/instruction/encoder.rs:747-757 | JALR encodes to a word that decodes to the same registers and offset |
| `Encoder.EncodeLoadDecodes` | lib/src/instruction/encoder.rs:199-224 | a load encodes to a word that decodes to the same width, registers and offset |
| `Encoder.EncodeOpDecodes` | lib/src/instruction/encoder.rs:56-83 | an OP instruction encodes to a word that decodes to the same registers, funct3 and funct7 |
| `Encoder.EncodeUpperDecodes` | lib/src/instruction/encoder.rs:85-107 | LUI and AUIPC encode exactly when rd is below 32 and the value has its low 12 bits clear, to a word whose U-immediate is the value |
| `Encoder.EncodeStoreDecodes` | lib/src/instruction/encoder.rs:226-254 | a store encodes to a word that decodes to the same width, registers and offset |
| `Encoder.EncodeBranchDecodes` | lib/src/instruction/encoder.rs:174-197 | a branch encodes to a word that decodes to the same condition, registers and offset |
| `Encoder.EncodeJalDecodes` | lib/src/instruction/encoder.rs:137-143 | JAL with the ISA's J-type layout encodes to a word that decodes to the same rd and offset |
| `Encoder.EncodeJalAsWrittenCounterexample` | lib/src/instruction/encoder.rs:109-135 | as written, `jal x0, 1024` encodes to a word that jumps by 3072, and an offset of 2^20 is accepted although it does not fit |
| `Encoder.ITypeFunct7` | lib/src/instruction/encoder.rs:24-54 | the funct7 field of an I-type word is the top 7 bits of its immediate |
| `Encoder.ShiftImmediateDecodes` | lib/src/instruction/encoder.rs:513-549 | the shift-immediate constructors refuse exactly the non-negative amounts above 31; the word carries the amount in its low 5 bits and funct7 0x20 exactly for SRAI |
| `Encoder.EncodeFenceDecodes` | lib/src/instruction/encoder.rs:256-270 | a fence encodes exactly when funct3 is 0 or 1 and pred and succ fit 4 bits, to a word with those fields |
| `Encoder.EncodeFenceAsWrittenMisplacesFunct3` | lib/src/instruction/encoder.rs:256-270 | as written, the fence is accepted for the same inputs but funct3 lands in the rd field |
| `Encoder.FenceIAsWrittenCounterexample` | lib/src/instruction/encoder.rs:945-952 | as written, FENCE.I encodes as a FENCE with rd = x1; with funct3 in place it is 0x0000100F |
| `Encoder.SystemWords` | lib/src/instruction/encoder.rs:272-278 | ECALL and EBREAK are the SYSTEM words 0x00000073 and 0x00100073 |
| `Encoder.EncodeCsrDecodes` | lib/src/instruction/encoder.rs:280-307 | CSRRW encodes exactly when the registers are below 32 and the CSR number fits 12 bits, to a word with those fields |
| `Encoder.RegisterGuardAdmits32` | lib/src/instruction/encoder.rs:24-54 | the `> 32` guard admits register 32, whose top bit spills into funct3: `addi x32` reads back as SLLI x0 |
| `Encoder.ConvertAdmitsTwelveBitUnsigned` | lib/src/instruction/encoder.rs:9-22 | an immediate of 2048 is accepted and decodes as −2048 |
| `Encoder.EncoderExamples` | lib/src/instruction/encoder.rs:1075-1194 | the repository's encodings of the no-op, SRAI, LUI and JAL by ±500 |
| `Encoder.IImm16Fits` | lib/src/instruction/encoder.rs:9-22 | the decoded I-immediate as an i16 fits 12 signed bits and has the word's raw immediate as its low 12 bits |
| `Encoder.ITypeTiles` | lib/src/instruction/encoder.rs:24-54 | packing the decoded fields of any word as an I-type word gives the word back |
| `Encoder.OpImmReencodes` | lib/src/instruction/encoder.rs:373-452 | every OP-IMM word is the encoding of the instruction its fields decode to |
| `Encoder.LoadReencodes` | lib/src/instruction/encoder.rs:373-452 | every LOAD word is the encoding of the instruction its fields decode to |
| `Encoder.JalrReencodes` | lib/src/instruction/encoder.rs:373-452 | every JALR word with funct3 0 is the encoding of the instruction its fields decode to |
| `Encoder.OpReencodes` | lib/src/instruction/encoder.rs:373-452 | every OP word is the encoding of the instruction its fields decode to |
| `Encoder.UpperReencodes` | lib/src/instruction/encoder.rs:373-452 | every LUI and AUIPC word is the encoding of the instruction its rd and U-immediate decode to |
| `LegacyEncoder.Addi` | src/instruction/encoder.rs:4-25 | `addi` with its immediate check corrected to bits 15:12: it accepts exactly registers up to 32 and immediates of 12 bits; the source's check is `LegacyEncoder.AddiAsWritten` |
| `LegacyEncoder.AddiAsWritten` | src/instruction/encoder.rs:4-25 | `addi` with the immediate check as written; stated by `AddiAsWrittenCounterexample` and `AddiAsWrittenAgrees` |
| `LegacyEncoder.NoOp` | src/instruction/encoder.rs:27-29 | the no-op is the word 0x00000013 |
| `LegacyEncoder.Widen12` | src/instruction/encoder.rs:4-25 | a raw 12-bit immediate widens to an i16 that fits 12 signed bits and has the same low 12 bits |
| `LegacyEncoder.ITypeRawImmediate` | src/instruction/encoder.rs:4-25 | the I-immediate of a packed word is its raw 12-bit immediate sign-extended |
| `LegacyEncoder.AddiDecodes` | src/instruction/encoder.rs:4-25 | with registers below 32 and a 12-bit immediate, `addi` encodes a word that decodes to OP-IMM/ADDI with the same registers and the immediate |
| `LegacyEncoder.AddiAsWrittenCounterexample` | src/instruction/encoder.rs:13-15 | as written, the immediate 0x800 (−2048) is refused and 0x8000, which does not fit, is accepted and encodes a plain no-op |
| `LegacyEncoder.AddiAsWrittenAgrees` | src/instruction/encoder.rs:13-15 | the written check and the 12-bit one agree on every immediate with bits 11 and 15 clear |
| `LegacyEncoder.AddiAdmitsRegister32` | src/instruction/encoder.rs:9-11 | register 32 gets through the guard and turns `addi` into SLLI |
| `LegacyEncoder.AddiExamples` | src/instruction/encoder.rs:37-51 | the repository's cases: the no-op and `addi x2, x4, 100` encode to 0x00000013 and 0x06420113 and decode back |
| `Setbits.SetBits32` | lib/src/util.rs:6-8 | `u32::setbits` succeeds exactly for widths 1 to 32 after the cast to u32 |
| `Setbits.SetBits64` | lib/src/util.rs:12-14 | `u64::setbits` succeeds exactly for widths 1 to 64 after the cast to u32 |
| `Setbits.SetBitsI32` | lib/src/util.rs:17-21 | `i32::setbits` succeeds exactly for widths 1 to 32, and its value is negative exactly at width 32 |
| `Setbits.SetBitsI64` | lib/src/util.rs:23-27 | `i64::setbits` succeeds exactly for widths 1 to 64, and its sign bit is set exactly at width 64 |
| `Setbits.SetBits32Spec` | lib/src/util.rs:6-8 | for a width b the result is a run of set bits from bit 0 whose highest set bit is bit b − 1 |
| `Setbits.SetBits64Spec` | lib/src/util.rs:12-14 | the same for u64 |
| `Setbits.SetBits32PlusOne` | lib/src/util.rs:6-8 | below the full width, the result plus one is exactly bit b |
| `Setbits.SetBits32Release` | lib/src/util.rs:6-8 | a release build of `u32::setbits` agrees with the debug result wherever that one is defined |
| `Setbits.SetBits64Release` | lib/src/util.rs:12-14 | the same for `u64::setbits` |
| `Setbits.SetBits32ReleaseWraps` | lib/src/util.rs:6-8 | in a release build width 0 gives u32::MAX, and a width b in 33..63 gives the mask of b − 32 bits |
| `Setbits.SetBitsExamples` | lib/src/util.rs:6-26 | width 32 is u32::MAX (−1 as i32), 31 is i32::MAX; 0 and 33 panic in a debug build and give u32::MAX and 1 in a release build; the upper half of a usize width is dropped |

## Left out

- The `rdtime`, `rdcycle` and `rdinstret` counters that `InstructionSet::step` updates are left out. They read the system clock, and no instruction in the model reads them.
- The CSR bank (`Csrs`) inside the register file is left out. The executor never touches it.
- The command-line loop that loads a program and calls `Cpu::step` repeatedly is left out; it is I/O.
- Printing and process termination are outcomes of `Cpu.CpuStep` (`Emitted`, `Terminated`), not effects.
- `Cpu::step` passes an environment-call closure to a four-argument `InstructionSet::step`. That variant is not part of this model: the `InstructionSet::step` shown takes three arguments and traps every SYSTEM word. The model handles the exact ECALL word at the CPU layer. Per the repository's `ecall` test, pc moves to the next word after a call that returns.
- `usize` addresses are `nat`, so memory is unbounded in the model; the widths of `usize` only matter in `Setbits`, where `bits` is a `bv64`.
- The one-line instruction constructors of the encoder (`addi`, `slti`, …, `beq`, `lw`, `sw`) are left out. Each only builds an `Instruction` variant, which the model writes directly. `slli`, `srli`, `srai` and `no_op` have logic of their own and are modelled.
- The `OpArgs` accessors (`rd()`, `rs1()`, `i_imm()`, …) are left out. Each only delegates to the decoder.
- `HandlerTable.InstructionTable` holds its handlers as a sequence fixed at construction. The source's array is never written after `new`, so only its contents are modelled.
- The `memory` argument of the table's handlers is unused by the source and by the model.
- `RegisterFile.Registers.Set` and `Get` require a slot inside the register file. The source panics on an index out of bounds; every caller passes a 5-bit register field, so that panic is unreachable from the executor.
- `Decoder.SignExtend32`: its contract states only the bits at and above the width. The low bits are stated per width by `SignExtend11`, `SignExtend12`, `SignExtend20` and the `*Closed` lemmas of each immediate.
- `Executor.Execute`: its own contract states only the shape of the machine. Its behaviour is stated by the lemmas of `ExecutorProperties`, instruction class by instruction class, and for every other opcode by `ExecutorProperties.UnknownOpcodesTrap`.
- `Encoder.Encode` uses the ISA's J-type layout in its JAL arm and puts funct3 at bits 14:12 in its FENCE/FENCE.I arms, where the source's `encode` calls `encode_jal` and `encode_fence` as written (lib/src/instruction/encoder.rs:409-412 and 442-443). The source's arms are `Encoder.EncodeAsWritten`, and "## Findings" records both layouts.
- `HandlerTable.TableOpImmValue` wraps the table's ADDI sum `r + i` (lib/src/instruction/r32i_instruction_table.rs:35), which a debug build checks like the executor's ADDI. The checked sum is `Alu.CheckedAdd`, and the "## Findings" row for lib/src/cpu/instruction_sets/rv32i.rs:106 applies to the table as well.
- `LegacyEncoder.Addi` and `LegacyEncoder.NoOp` use the corrected immediate check, bits 15:12, where the source's `addi` masks bits 14:11 (src/instruction/encoder.rs:13-15) and its `no_op` calls that `addi`. The check as written is `LegacyEncoder.AddiAsWritten`, and "## Findings" records it. For the no-op both checks give 0x00000013 (`LegacyEncoder.AddiAsWrittenAgrees`).
- `Executor.ExecuteBranch` and `Executor.BranchHandler` move pc to the intended target in both revisions. The source's extra `pc += 4` (lib/src/cpu/instruction_sets/rv32i.rs:202 and lib/src/instruction/r32_instruction_table.rs:188) is modelled only by `Alu.BranchNextPcAsWritten`, and "## Findings" records it.
- `Executor.ExecuteLui` and `Executor.ExecuteAuipc` read the U-immediate of the ISA, bits 31:12 (`Decoder.UImm`). The decoder behind `OpArgs::u_imm` is not part of this model. The only U-immediate decoder among the sources (src/instruction/decoder.rs:44-46) clears bit 12. The model follows the executor test `execute_lui` (lib/src/cpu/instruction_sets/tests/rv32i.rs:464-470), whose value 0xDF5A5000 has bit 12 set; `ExecutorProperties.UpperImmediateExamples` states that case.
- `Executor.ExecuteJalr` and `Executor.JalrHandler` trap on a target off a 4-byte boundary, before any write, as "## Findings" explains; the source's JALR, which never traps, is `Executor.ExecuteJalrAsWritten`. With x1 = 9001 the target with bit 0 cleared is the aligned 9500, so the model continues there, although `execute_jalr_result_is_misaligned_1_bit` expects a panic.
- `Executor.IndirectTarget` adds rs1 and the immediate with wrap-around; the source's `source_value + imm_value` is a checked i32 `+` in a debug build.
- `Executor.LoadAddress`, `Executor.StoreAddress`, `Executor.PcRelative` and `Executor.JumpTarget` wrap modulo 2^32, as a release build does. A debug build checks these sums (`geti(rs1) + offset` in `apply_load` and `apply_store`, `pc + immediate` in `auipc` and `jal`) and panics on overflow.
- The predecessor `r32_instruction_table` is modelled through the `R32Table` revision of `Executor.Execute`. Its in-place handlers are not duplicated.

## Findings

| source | as written | input that shows it | evidently intended | confidence | as-written member | corrected member |
|---|---|---|---|---|---|---|
| lib/src/cpu/instruction_sets/rv32i.rs:106 | ADDI adds two i32s with `+`, which panics on overflow in a debug build | x1 = 0x7FFFFFFF, `addi x1, x1, 1` | the wrapping sum 0x80000000, as the test at lib/src/cpu/instruction_sets/tests/rv32i.rs:113-123 expects | not executed | `Alu.CheckedAddOverflows` | `ExecutorProperties.AddiOverflowWraps` |
| lib/src/cpu/instruction_sets/rv32i.rs:132 | ADD and SUB use i32 `+` and `-`, which panic on overflow in a debug build | x1 = 0x80000000, x2 = 1, `sub` | the wrapping difference 0x7FFFFFFF | not executed | `Alu.CheckedAddOverflows` | `Alu.AddSubSpec` |
| lib/src/cpu/instruction_sets/rv32i.rs:143-156 | SLL, SRL and SRA shift by the whole of rs2 (`as u32` for SLL and SRL, the i32 itself for SRA), which panics in a debug build once the amount is 32 or more, or negative for SRA | rs2 = 32 | a shift by rs2's low 5 bits, here 0 | not executed | `Alu.CheckedShiftAmountSpec` | `Alu.RegisterShiftSpec` |
| lib/src/cpu/instruction_sets/rv32i.rs:202 | `branch` adds 4 to pc after `apply_branch` has already set it | BEQ by 500 at pc 5000 | pc 5500 when taken and 5004 when not, as the test at lib/src/cpu/instruction_sets/tests/rv32i.rs:534-548 expects | not executed | `Alu.BranchNextPcAsWrittenOvershoots` | `ExecutorProperties.BranchMovesPc` |
| lib/src/instruction/r32_instruction_table.rs:188 | the predecessor's `branch` also adds 4 again | BEQ by 500 at pc 5000 | pc 5500 or 5004 | not executed | `Alu.BranchNextPcAsWrittenCounterexample` | `Alu.BranchNextPcSpec` |
| lib/src/cpu/instruction_sets/rv32i.rs:330-341 | `jalr` never checks that its target is 4-aligned, although `trap_unaligned_instruction` (lines 28-31) is there for it and the tests at lib/src/cpu/instruction_sets/tests/rv32i.rs:511-531 expect a trap | x1 = 9002, `jalr x1, x1, 500` at pc 5000, whose target is 9502 | a misaligned-target trap before rd and pc change, as section 2.5 of the RISC-V Unprivileged ISA requires | not executed | `ExecutorProperties.JalrMisalignedCounterexample` | `ExecutorProperties.JalrLinksAndJumps` |
| lib/src/instruction/encoder.rs:109-135 | the J-type immediate puts offset bit 10 into imm[11] and bits 18:11 into 19:12, and its range check admits 2^20 | `jal x0, 1024` | the ISA layout, so the word decodes back to 1024 | not executed | `Encoder.EncodeJalAsWrittenCounterexample` | `Encoder.EncodeJalDecodes` |
| src/instruction/decoder.rs:44-46 | the U-immediate mask clears bit 12; the file's own tests at lines 194-214 expect that, but the later executor test `execute_lui` needs bit 12 | `lui x0, 1` (0x00001037) | 0x1000, bits 31:12 of the word, as the RISC-V Unprivileged ISA (section 2.3) places the U-immediate | not executed | `Decoder.UImmAsWrittenCounterexample` | `Encoder.UpperReencodes` |
| lib/src/instruction/encoder.rs:256-270 | the fence shifts funct3 by 7, into the rd field | FENCE.I | funct3 = 1 at bits 14:12 (0x0000100F) | not executed | `Encoder.FenceIAsWrittenCounterexample` | `Encoder.EncodeFenceDecodes` |
| src/instruction/encoder.rs:13-15 | the immediate check masks bits 14:11 instead of 15:12 | immediate 0x800, and immediate 0x8000 | accept every 12-bit immediate and refuse wider ones | not executed | `LegacyEncoder.AddiAsWrittenCounterexample` | `LegacyEncoder.AddiDecodes` |
| src/instruction_decoder.rs:20-22 | rd is read with a 4-bit mask, although its doc comment names bits 7 to 11 | the word 0x00000800 (rd = x16) | the 5-bit field, x16 | not executed | `LegacyDecoders.Rd4Counterexample` | `Decoder.Rd` |
