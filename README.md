# alternate8888 CPU core in Dafny

This project models the processor core of the alternate8888 Altair 8800
simulator. That core is an interpreter for a subset of the Intel 8080
instruction set. The model covers:

- the status register's five flags packed into one byte;
- the register cells: a plain 8-bit cell, the masked 16-bit registers used for PC and SP, the 16-bit register that can advance and decrement, and the register pair that is a view over two 8-bit cells;
- main memory, addressed directly by a high and a low byte or indirectly through a register plus an offset;
- the CPU: the shared increment, decrement and flag-refresh helpers, the stack push and pop, every instruction handler, and `executeInstruction`, which fetches, decodes, dispatches and steps PC.

The model has two layers:

- **Values.** `CpuSpec` describes the whole machine as a `State` value. It has one function per handler, `Decode` (the switch's case labels), `Execute`, and `Step` for one whole instruction.
- **Objects.** `Cpu.Machine` holds the same registers as fields and objects and updates them in place, one method per handler. Each handler's contract says that it turns `old(State())` into the state the matching `CpuSpec` function computes. `ExecuteInstruction` is proved to perform exactly `Step`.

`CpuProperties` and `StepProperties` prove what those functions mean. This includes the flags each instruction leaves, the stack layout, the round trips between instructions, the decoder against an independent encoding, and what one step does to PC, IR and the interrupt flag.

The `CpuSpec` functions only compute, so the "## Model" table names the lemma that states what each one means. Where each function comes from in CPU.java, and which lemmas give its meaning:

| CpuSpec function | CPU.java lines | meaning stated by |
|---|---|---|
| `IncrementValue`, `IncrementStatus` | 62-75 (`increment`) | `CpuProperties.StepsWrapAround`, `IncrementFlags`, `StepsInverse` |
| `DecrementValue`, `DecrementStatus` | 77-90 (`decrement`) | `CpuProperties.StepsWrapAround`, `DecrementClearsAuxCarry`, `StepsInverse` |
| `ParityAsWritten` | 92-104 (`getParity`) | `Bits.SomeLowBit`, `CpuProperties.ParityAsWrittenExamples` |
| `Refresh` | 56-60 (`checkAndSetStatusBits`) | its own ensures |
| `Reg`, `SetReg` | 249-270 (`getSingleRegister`) | `CpuProperties.SetRegRestore`, `SetRegKeepsValid` |
| `PairHigh`, `PairLow`, `Pair`, `SetPairHigh`, `SetPairLow`, `SetPair` | 364-377 (`getRegisterPair`) | `CpuProperties.PairHalvesAreBytes`, `SetPairReadsBack`, `PairWriteTwice`, `PswWriteKeeps13Bits` |
| `StackPush` | 37-47 (`stackPush`) | `CpuProperties.PushLayout` |
| `PopDataOffStack` | 49-54 and 416-418 (`stackPop`, POP) | `CpuProperties.PopLayout`, `PopPswLayout`, `PushPopRoundTrip` |
| `IncPc` | 602 (the trailing PC step) | `StepProperties.StepControl` |
| `RestartInstruction` | 204-207 (RST) | `CpuProperties.RestartPushesOwnAddress` |
| `IncrementRegisterOrMemory`, `DecrementRegisterOrMemory` | 283-304 (INR, DCR) | `CpuProperties.IncrementRegisterOrMemoryCell`, `IncrementRegisterOrMemoryFlags`, `DecrementRegisterOrMemoryCell`, `DecrementRegisterOrMemoryFlags`, `IncrementThenDecrement` |
| `ComplementAccumulator` | 312-314 (CMA) | `CpuProperties.ComplementAccumulatorInvolution` |
| `NibbleAdjustment`, `DecimalAdjustAccumulator` | 343-358 (DAA) | `NibbleAdjustment`'s own ensures, `CpuProperties.DecimalAdjustResult`, `DecimalAdjustNeverClearsCarries`, `DecimalAdjustKeepsBcd`, `DecimalAdjustExample` |
| `PushDataOntoStack` | 395-397 (PUSH) | `CpuProperties.PushLayout`, `PushPopRoundTrip` |
| `DoubleAdd` | 427-432 (DAD) | `CpuProperties.DoubleAddSum`, `DoubleAddCarry` |
| `IncrementRegisterPair`, `DecrementRegisterPair` | 440-452 (INX, DCX) | `CpuProperties.IncrementRegisterPairEffect`, `DecrementRegisterPairEffect`, `RegisterPairStepsInverse`, `PswStepsModulo` |
| `ExchangeRegisters` | 461-465 (XCHG) | `CpuProperties.ExchangeRegistersSwaps` |
| `ExchangeStack` | 475-485 (XTHL) | `CpuProperties.ExchangeStackSwaps` |
| `LoadSpFromHAndL` | 494-496 (SPHL) | `CpuProperties.LoadSpCopiesHL` |
| `Decode`, `Encode` | 500-600 (the switch) | `StepProperties.DecodeEncode`, `EncodeDecode` |
| `Execute`, `Fetch`, `Step` | 498-603 (`executeInstruction`) | `StepProperties.ExecuteKeepsValid`, `StepKeepsValid`, `ExecuteControl`, `StepControl`, and `Cpu.Machine.ExecuteInstruction` |

The model follows the Java code, not the 8080 data sheet, wherever the two differ:

- **Parity.** `getParity` tests whether any of the three low bits is set. It does not count one bits.
- **DCR and AuxCarry.** DCR's AuxCarry test `(data & 0x0F) == 0x10` can never hold.
- **16-bit steps clear AuxCarry.** Every non-wrapping 16-bit increment or decrement writes AuxCarry := false. That includes the trailing PC step and the SP moves of PUSH and POP.
- **RST.** RST loads PC with `exp` rather than `8 * exp`. It pushes the address of its own opcode.
- **HLT, IN and OUT** advance PC twice.
- **Pair selector 3** is PSW for DAD, INX and DCX too.

Modules, one per file:

| module | file | models |
|---|---|---|
| Bits | bits.dfy | Java's `&`, `\|` and `^` on non-negative ints, and the mask facts the simulator relies on |
| Words | words.dfy | bytes, words, `(high << 8) \| low`, `(v >> 8) & 0xff` |
| StatusBits | status_bits.dfy | StatusBitRegister.java |
| Registers | registers.dfy | Register8Bit.java, Register16Bit.java, SpecialRegister.java, RegisterPair.java |
| MemoryCells | memory.dfy | Memory.java |
| CpuSpec | cpu_spec.dfy | CPU.java as functions on a machine state |
| CpuProperties | cpu_properties.dfy | properties of the handlers |
| StepProperties | step_properties.dfy | decoding and one whole step |
| Cpu | cpu.dfy | CPU.java as a class updated in place |

All source paths below are relative to the repository root and lie under `src/main/java/alternate8888/machine/`.

## Model

| member | source | states |
|---|---|---|
| Bits.SomeLowBit | src/main/java/alternate8888/machine/CPU.java:92-104 | some `data & i` with `i` in 0..7 is non-zero exactly when `data % 8 != 0`: the loop's test is a test of the three low bits |
| Bits.Bit7 | src/main/java/alternate8888/machine/CPU.java:56-60 | `v & 0x80` is 128 when bit 7 of v is set and 0 otherwise |
| Bits.LowNibble | src/main/java/alternate8888/machine/CPU.java:343-358 | `a & 0x0F` is `a % 16`, the nibble masks of DAA and of the AuxCarry tests |
| Bits.LowWord | src/main/java/alternate8888/machine/CPU.java:427-432 | `a & 0xFFFF` is `a % 0x10000`, DAD's mask |
| Bits.ComplementByte | src/main/java/alternate8888/machine/CPU.java:312-314 | for a byte, `a ^ 0xFF` is `0xFF - a` |
| Bits.BitsThreeToFive | src/main/java/alternate8888/machine/CPU.java:605-607 | `a & 0070` keeps bits 3..5 |
| Bits.BitsFourToFive | src/main/java/alternate8888/machine/CPU.java:609-611 | `a & 0060` keeps bits 4..5 |
| Bits.OrHighLow | src/main/java/alternate8888/machine/Register16Bit.java:15-17 | `(h << 4) \| l` and `(h << 8) \| l` are sums when l fits below the shift |
| Bits.AndLowOnes | src/main/java/alternate8888/machine/CPU.java:343-358 | `a & (2^k - 1)` is `a % 2^k`, proved by induction on k |
| Words.SplitJoin | src/main/java/alternate8888/machine/Register16Bit.java:28-31 | the two stored bytes `(v >> 8) & 0xff` and `v & 0xff` are bytes and recombine to `v % 0x10000` |
| Words.JoinSplit | src/main/java/alternate8888/machine/Register16Bit.java:15-17 | splitting a word built from two bytes gives those bytes back |
| StatusBits.Bit | src/main/java/alternate8888/machine/StatusBitRegister.java:16-41 | each flag's mask is a single non-zero bit within 0x1F |
| StatusBits.BitsDisjoint | src/main/java/alternate8888/machine/StatusBitRegister.java:16-41 | distinct flags have disjoint masks |
| StatusBits.SetBit | src/main/java/alternate8888/machine/StatusBitRegister.java:58-60 | `status \|= bit` sets the flag, keeps the other four and stays within 0x1F |
| StatusBits.ClearBit | src/main/java/alternate8888/machine/StatusBitRegister.java:62-64 | `status & (0x1F ^ bit)` clears the flag, keeps the other four and lands within 0x1F |
| StatusBits.ToggleBit | src/main/java/alternate8888/machine/StatusBitRegister.java:66-68 | `status ^= bit` flips the flag, keeps the other four and stays within 0x1F |
| StatusBits.AssignBit | src/main/java/alternate8888/machine/StatusBitRegister.java:49-56 | `assign(bit, b)` leaves the flag equal to b and keeps the other four |
| StatusBits.FlagAfterAssign | src/main/java/alternate8888/machine/StatusBitRegister.java:49-56 | after an assignment a flag is the assigned value if it is the assigned flag, and otherwise what it was |
| StatusBits.FlagsDetermineStatus | src/main/java/alternate8888/machine/StatusBitRegister.java:43-47 | two status bytes within 0x1F with the same five flags are equal |
| StatusBits.ToggleTwice | src/main/java/alternate8888/machine/StatusBitRegister.java:66-68 | toggling a flag twice restores the status byte |
| StatusBits.NoFlagsInZero | src/main/java/alternate8888/machine/StatusBitRegister.java:43 | every flag is clear in the initial status 0 |
| StatusBits.StatusBitRegister.constructor | src/main/java/alternate8888/machine/StatusBitRegister.java:43 | a fresh register has status 0 and all five flags false |
| StatusBits.StatusBitRegister.Set | src/main/java/alternate8888/machine/StatusBitRegister.java:110-128 | `setX` makes `isX` true and leaves the other flags |
| StatusBits.StatusBitRegister.Clear | src/main/java/alternate8888/machine/StatusBitRegister.java:130-148 | `clearX` makes `isX` false and leaves the other flags |
| StatusBits.StatusBitRegister.Toggle | src/main/java/alternate8888/machine/StatusBitRegister.java:150-168 | `toggleX` flips `isX` and leaves the other flags |
| StatusBits.StatusBitRegister.Assign | src/main/java/alternate8888/machine/StatusBitRegister.java:90-108 | `assignX(b)` leaves `isX() == b` and the other flags as they were |
| Registers.Register8Bit.constructor | src/main/java/alternate8888/machine/Register8Bit.java:8 | a fresh cell holds 0 |
| Registers.Register8Bit.Set | src/main/java/alternate8888/machine/Register8Bit.java:15-17 | `set` stores its argument unmasked |
| Registers.Register16Bit.constructor | src/main/java/alternate8888/machine/Register16Bit.java:4-5 | both halves start at 0 |
| Registers.Register16Bit.Get | src/main/java/alternate8888/machine/Register16Bit.java:15-17 | `(high << 8) \| low` is `high * 256 + low`, a word |
| Registers.Register16Bit.SetHigh | src/main/java/alternate8888/machine/Register16Bit.java:19-21 | the high half becomes `val & 0xff`; the low half stays |
| Registers.Register16Bit.SetLow | src/main/java/alternate8888/machine/Register16Bit.java:23-25 | the low half becomes `val & 0xff`; the high half stays |
| Registers.Register16Bit.Set | src/main/java/alternate8888/machine/Register16Bit.java:28-31 | after `setLow(v & 0xff)` and `setHigh((v >> 8) & 0xff)` both halves are bytes and the register reads `v & 0xFFFF` |
| Registers.SpecialRegister.constructor | src/main/java/alternate8888/machine/SpecialRegister.java:4-5 | both halves start at 0 |
| Registers.SpecialRegister.Get | src/main/java/alternate8888/machine/SpecialRegister.java:16-18 | `(high << 8) \| low` is `high * 256 + low`, a word |
| Registers.SpecialRegister.SetHigh | src/main/java/alternate8888/machine/SpecialRegister.java:20-22 | the high half becomes `val & 0xff`; the low half stays |
| Registers.SpecialRegister.SetLow | src/main/java/alternate8888/machine/SpecialRegister.java:24-26 | the low half becomes `val & 0xff`; the high half stays |
| Registers.SpecialRegister.Set | src/main/java/alternate8888/machine/SpecialRegister.java:29-32 | after `setLow(v & 0xff)` and `setHigh((v >> 8) & 0xff)` both halves are bytes and the register reads `v & 0xFFFF` |
| Registers.SpecialRegister.Advance | src/main/java/alternate8888/machine/SpecialRegister.java:34-45 | the word goes up by one modulo 2^16, the carry between the halves included; both halves stay bytes |
| Registers.SpecialRegister.Decrement | src/main/java/alternate8888/machine/SpecialRegister.java:47-58 | the word goes down by one modulo 2^16, the borrow between the halves included; both halves stay bytes |
| Registers.AdvanceThenDecrement | src/main/java/alternate8888/machine/SpecialRegister.java:34-58 | advance then decrement restores both halves of the register |
| Registers.DecrementThenAdvance | src/main/java/alternate8888/machine/SpecialRegister.java:34-58 | decrement then advance restores both halves of the register |
| Registers.RegisterPair.constructor | src/main/java/alternate8888/machine/RegisterPair.java:7-11 | the pair refers to the two given cells, not to copies |
| Registers.RegisterPair.Get | src/main/java/alternate8888/machine/RegisterPair.java:14-16 | `(high.get() << 8) \| low.get()` is `high * 256 + low` over the cells' current values |
| Registers.RegisterPair.Set | src/main/java/alternate8888/machine/RegisterPair.java:27-30 | writes `(v >> 8) & 0xff` to the high cell and `v & 0xff` to the low cell; with distinct cells the pair then reads `v & 0xFFFF` |
| Registers.RegisterPair.SetHigh | src/main/java/alternate8888/machine/RegisterPair.java:32-34 | writes the high cell, unmasked |
| Registers.RegisterPair.SetLow | src/main/java/alternate8888/machine/RegisterPair.java:36-38 | writes the low cell, unmasked |
| MemoryCells.Index | src/main/java/alternate8888/machine/Memory.java:30-33 | direct addressing uses `(high << 8) \| low`, which is `high * 256 + low` for a byte low half |
| MemoryCells.ZeroedCells | src/main/java/alternate8888/machine/Memory.java:14-19 | the constructor's loop gives `numBytes` fresh cells, each 0 |
| MemoryCells.Memory.Default | src/main/java/alternate8888/machine/Memory.java:10-12 | the default memory has 8096 cells, all 0 |
| MemoryCells.Memory.constructor | src/main/java/alternate8888/machine/Memory.java:14-19 | `numBytes` cells, all 0 |
| MemoryCells.Memory.Get | src/main/java/alternate8888/machine/Memory.java:35-38 | reads the cell at `(high << 8) \| low` |
| MemoryCells.Memory.Set | src/main/java/alternate8888/machine/Memory.java:44-48 | writes the cell at `(high << 8) \| low`; every other cell is unchanged |
| MemoryCells.Memory.GetAddressed | src/main/java/alternate8888/machine/Memory.java:21-24 | reads the cell at `register.get() + offset`, with no wrap-around |
| MemoryCells.Memory.SetAddressed | src/main/java/alternate8888/machine/Memory.java:21-24 | writes the cell at `register.get() + offset`; every other cell is unchanged |
| MemoryCells.Memory.GetIndirect | src/main/java/alternate8888/machine/Memory.java:40-42 | reads the cell at the register's value (offset 0) |
| MemoryCells.Memory.SetIndirect | src/main/java/alternate8888/machine/Memory.java:50-53 | writes the cell at the register's value (offset 0); every other cell is unchanged |
| MemoryCells.DefaultCapacityBounds | src/main/java/alternate8888/machine/Memory.java:10-12 | with 8096 cells, (0x1F, 0x9F) is the last cell and (0x1F, 0xA0) and (0x20, 0x00) are past the end |
| MemoryCells.StoreThenLoad | src/main/java/alternate8888/machine/Memory.java:35-48 | `set(high, low, v)` then `get(high, low)` returns v, and no other cell changes |
| CpuSpec.Refresh | src/main/java/alternate8888/machine/CPU.java:56-60 | Sign is bit 7, Zero is `v == 0`, Parity is the parity as written; Carry and AuxCarry are kept; the byte stays within 0x1F |
| CpuSpec.PswHigh | src/main/java/alternate8888/machine/CPU.java:25 | the PSW high half read from the status register is a byte within 0x1F |
| CpuSpec.PswStore | src/main/java/alternate8888/machine/CPU.java:25 | a PSW high-half write leaves a status byte within 0x1F |
| CpuSpec.Get3BitParamMask | src/main/java/alternate8888/machine/CPU.java:605-607 | `(num & 0070) >> 3` is bits 3..5 of num, `(num / 8) % 8`, the field the decoder reads |
| CpuSpec.Get2BitParamMask | src/main/java/alternate8888/machine/CPU.java:609-611 | `(num & 0060) >> 4` is bits 4..5 of num, `(num / 16) % 4`, the field the decoder reads |
| CpuSpec.Encode | src/main/java/alternate8888/machine/CPU.java:500-600 | every well-formed instruction has an opcode below 0x100 |
| CpuProperties.StepsWrapAround | src/main/java/alternate8888/machine/CPU.java:66-90 | `increment` and `decrement` are +1 and -1 modulo 2^8 or 2^16 and stay in range |
| CpuProperties.StepsInverse | src/main/java/alternate8888/machine/CPU.java:66-90 | `increment` and `decrement` undo each other at either width |
| CpuProperties.IncrementFlags | src/main/java/alternate8888/machine/CPU.java:66-75 | a wrapping increment leaves the flags alone; otherwise only AuxCarry is written, true exactly for an 8-bit value whose low nibble is 9 |
| CpuProperties.DecrementClearsAuxCarry | src/main/java/alternate8888/machine/CPU.java:81-90 | a wrapping decrement leaves the flags alone; any other decrement clears AuxCarry and keeps the other flags |
| CpuProperties.ParityAsWrittenExamples | src/main/java/alternate8888/machine/CPU.java:92-104 | the Parity flag disagrees with bit-count parity: 0 and 3 have even counts but differ, 1 and 8 have odd counts but differ |
| CpuProperties.SignOfByte | src/main/java/alternate8888/machine/CPU.java:57 | for a byte, Sign is set exactly for 0x80..0xFF |
| CpuProperties.SetRegKeepsValid | src/main/java/alternate8888/machine/CPU.java:249-270 | writing a byte to the selected cell keeps the machine valid |
| CpuProperties.IncrementRegisterOrMemoryCell | src/main/java/alternate8888/machine/CPU.java:283-287 | INR changes only the selected cell, by +1 modulo 256, and the flags |
| CpuProperties.IncrementRegisterOrMemoryFlags | src/main/java/alternate8888/machine/CPU.java:283-287 | after INR, Sign, Zero and Parity describe the new value and Carry is kept; AuxCarry is set exactly when the old low nibble is 9, and is kept when the cell wraps from 0xFF |
| CpuProperties.DecrementRegisterOrMemoryCell | src/main/java/alternate8888/machine/CPU.java:300-304 | DCR changes only the selected cell, by -1 modulo 256, and the flags |
| CpuProperties.DecrementRegisterOrMemoryFlags | src/main/java/alternate8888/machine/CPU.java:300-304 | after DCR, Sign, Zero and Parity describe the new value and Carry is kept; AuxCarry ends clear, except that DCR of a zero cell, which wraps to 0xFF, keeps it |
| CpuProperties.IncrementThenDecrement | src/main/java/alternate8888/machine/CPU.java:283-304 | INR then DCR of the same cell restores everything but the flags |
| CpuProperties.CellRoundTrip | src/main/java/alternate8888/machine/CPU.java:249-270 | writing a cell and then writing back its old value is the identity, flags aside |
| CpuProperties.SetRegRestore | src/main/java/alternate8888/machine/CPU.java:249-270 | the selected cell reads back what was written, and writing back the old value restores the state |
| CpuProperties.ComplementAccumulatorInvolution | src/main/java/alternate8888/machine/CPU.java:312-314 | CMA replaces A by `0xFF - A`, touches nothing else, and undoes itself |
| CpuProperties.ComplementCarryInvolution | src/main/java/alternate8888/machine/CPU.java:219-221 | CMC flips Carry, keeps the other flags and registers, and undoes itself |
| CpuProperties.SetCarryIdempotent | src/main/java/alternate8888/machine/CPU.java:228-230 | STC sets Carry, keeps the other flags and registers, and is idempotent |
| CpuProperties.DecimalAdjustNeverClearsCarries | src/main/java/alternate8888/machine/CPU.java:343-358 | DAA keeps the state valid, touches only A and the flags, and never clears AuxCarry or Carry |
| CpuProperties.DecimalAdjustResult | src/main/java/alternate8888/machine/CPU.java:343-358 | for every accumulator, each nibble of the new A is the old one plus 6 modulo 16 exactly when it exceeds 9 or its carry flag (AuxCarry low, Carry high) is set, and is unchanged otherwise; AuxCarry and Carry end set exactly then; Sign, Zero and Parity describe the new A |
| CpuProperties.DecimalAdjustKeepsBcd | src/main/java/alternate8888/machine/CPU.java:343-358 | a packed-BCD accumulator with both carries clear is left unchanged, carries still clear |
| CpuProperties.DecimalAdjustExample | src/main/java/alternate8888/machine/CPU.java:328-358 | 0xA4 with both carries clear becomes 0x04 with Carry set |
| CpuProperties.TwoStepsClearAuxCarry | src/main/java/alternate8888/machine/CPU.java:41-54 | a status-byte identity used by the PUSH and POP proofs: writing AuxCarry := false twice, as two non-wrapping SP steps do, is one clear of AuxCarry that keeps every other flag |
| CpuProperties.PswRoundTrip | src/main/java/alternate8888/machine/CPU.java:25 | storing the status byte through the PSW view and reading it back gives the same byte |
| CpuProperties.PairHalvesAreBytes | src/main/java/alternate8888/machine/CPU.java:364-377 | every selected pair's halves are bytes, and the pair's word splits back into them |
| CpuProperties.PushLayout | src/main/java/alternate8888/machine/CPU.java:41-47 | PUSH stores the high half at SP - 1 and the low half at SP - 2, leaves SP two lower, clears AuxCarry, and changes nothing else |
| CpuProperties.PopSteps | src/main/java/alternate8888/machine/CPU.java:49-54 | the intermediate states of `stackPop`: each SP step is +1 and clears AuxCarry |
| CpuProperties.PopLayout | src/main/java/alternate8888/machine/CPU.java:49-54 | POP of B, D or H loads the low half from SP and the high half from SP + 1, leaves SP two higher and AuxCarry clear |
| CpuProperties.PopPswLayout | src/main/java/alternate8888/machine/CPU.java:416-418 | POP PSW loads A from SP and the flags from SP + 1, then clears AuxCarry |
| CpuProperties.StackPushKeepsValid | src/main/java/alternate8888/machine/CPU.java:41-47 | pushing two bytes keeps the machine valid |
| CpuProperties.PopKeepsValid | src/main/java/alternate8888/machine/CPU.java:49-54 | POP keeps the machine valid |
| CpuProperties.PairWriteKeepsValid | src/main/java/alternate8888/machine/RegisterPair.java:32-38 | writing a byte to either half of a pair keeps the machine valid |
| CpuProperties.StatusStepsBounded | src/main/java/alternate8888/machine/CPU.java:66-90 | the shared steps keep the status byte within 0x1F |
| CpuProperties.WordStepClearsAuxCarry | src/main/java/alternate8888/machine/CPU.java:66-90 | a non-wrapping 16-bit step is exactly a clear of AuxCarry |
| CpuProperties.PushPopRoundTrip | src/main/java/alternate8888/machine/CPU.java:395-418 | PUSH then POP of the same pair restores every register and SP; AuxCarry ends clear |
| CpuProperties.RestartPushesOwnAddress | src/main/java/alternate8888/machine/CPU.java:204-207 | RST pushes the address of its own opcode, high byte first, and sets PC to exp |
| CpuProperties.SetPairReadsBack | src/main/java/alternate8888/machine/RegisterPair.java:27-30 | writing v through B, D or H keeps the machine valid, and the pair then reads `v & 0xFFFF` |
| CpuProperties.SetPairIgnoresStatus | src/main/java/alternate8888/machine/CPU.java:364-377 | a write through B, D or H does not depend on the status byte |
| CpuProperties.DoubleAddSum | src/main/java/alternate8888/machine/CPU.java:427-432 | DAD sets HL to `(rp + HL) & 0xFFFF` and touches only H, L and the flags |
| CpuProperties.DoubleAddCarry | src/main/java/alternate8888/machine/CPU.java:427-432 | DAD sets Carry exactly when the sum exceeds 0xFFFF and keeps the other flags |
| CpuProperties.IncrementRegisterPairEffect | src/main/java/alternate8888/machine/CPU.java:440-442 | INX of B, D or H adds 1 modulo 2^16 to the pair and otherwise only clears AuxCarry (or nothing, when the pair wraps) |
| CpuProperties.DecrementRegisterPairEffect | src/main/java/alternate8888/machine/CPU.java:450-452 | DCX of B, D or H subtracts 1 modulo 2^16 and otherwise only clears AuxCarry (or nothing, when the pair wraps) |
| CpuProperties.RegisterPairStepsInverse | src/main/java/alternate8888/machine/CPU.java:440-452 | INX and DCX of the same pair undo each other for all four selectors, flags aside; for PSW, whose high half is the status byte, they restore the flags as well |
| CpuProperties.PairWriteTwice | src/main/java/alternate8888/machine/RegisterPair.java:27-30 | a second write through a pair replaces the first |
| CpuProperties.PairWriteOwn | src/main/java/alternate8888/machine/RegisterPair.java:14-30 | writing a pair's own value back changes nothing |
| CpuProperties.IncrementPswStepsAccumulator | src/main/java/alternate8888/machine/CPU.java:364-377 | INX with selector 3 works on PSW: below 0xFF, A goes up by one and the status is written back unchanged |
| CpuProperties.PswStepsModulo | src/main/java/alternate8888/machine/CPU.java:440-452 | INX and DCX with selector 3 step the PSW word, five flag bits above A, by +1 and -1 modulo 2^13, given the PSW assumption under "Left out" |
| CpuProperties.IncrementPswModulo | src/main/java/alternate8888/machine/CPU.java:440-442 | INX PSW keeps the state valid, changes only A and the status byte, and steps the PSW word up modulo 2^13, carrying from A into the flags at A = 0xFF |
| CpuProperties.DecrementPswModulo | src/main/java/alternate8888/machine/CPU.java:450-452 | DCX PSW keeps the state valid, changes only A and the status byte, and steps the PSW word down modulo 2^13, 0 going to 0x1FFF |
| CpuProperties.PswWriteKeeps13Bits | src/main/java/alternate8888/machine/CPU.java:364-377 | a word written through PSW sets A to its low byte and the status to the five low bits of its high byte, so PSW then reads the word modulo 2^13 |
| CpuProperties.PswDeterminesHalves | src/main/java/alternate8888/machine/CPU.java:364-377 | in a valid state the PSW word determines A and the status byte |
| CpuProperties.PswStepsInverse | src/main/java/alternate8888/machine/CPU.java:440-452 | INX PSW and DCX PSW undo each other in both orders, flags included |
| CpuProperties.ExchangeRegistersSwaps | src/main/java/alternate8888/machine/CPU.java:461-465 | XCHG swaps HL and DE, changes nothing else, and undoes itself |
| CpuProperties.ExchangeStackSwaps | src/main/java/alternate8888/machine/CPU.java:475-485 | XTHL swaps L with the cell at SP and H with the cell at SP + 1; SP, every other register, the flags and every other cell stay; XTHL undoes itself |
| CpuProperties.LoadSpCopiesHL | src/main/java/alternate8888/machine/CPU.java:494-496 | SPHL copies HL into SP, keeps HL, and changes nothing else |
| StepProperties.DecodeEncode | src/main/java/alternate8888/machine/CPU.java:500-600 | every well-formed instruction is decoded back from its opcode, operand field included |
| StepProperties.EncodeDecode | src/main/java/alternate8888/machine/CPU.java:500-600 | every opcode the switch names is the encoding of what it decodes to |
| StepProperties.DecodeRst | src/main/java/alternate8888/machine/CPU.java:517-525 | the eight RST opcodes decode to RST with bits 3..5 as exp |
| StepProperties.DecodeInr | src/main/java/alternate8888/machine/CPU.java:536-544 | the eight INR opcodes decode to INR with bits 3..5 as the register |
| StepProperties.DecodeDcr | src/main/java/alternate8888/machine/CPU.java:546-554 | the eight DCR opcodes decode to DCR with bits 3..5 as the register |
| StepProperties.DecodePush | src/main/java/alternate8888/machine/CPU.java:562-566 | the four PUSH opcodes decode to PUSH with bits 4..5 as the pair |
| StepProperties.DecodePop | src/main/java/alternate8888/machine/CPU.java:568-572 | the four POP opcodes decode to POP with bits 4..5 as the pair |
| StepProperties.DecodeDad | src/main/java/alternate8888/machine/CPU.java:574-578 | the four DAD opcodes decode to DAD with bits 4..5 as the pair |
| StepProperties.DecodeInx | src/main/java/alternate8888/machine/CPU.java:580-584 | the four INX opcodes decode to INX with bits 4..5 as the pair |
| StepProperties.DecodeDcx | src/main/java/alternate8888/machine/CPU.java:586-590 | the four DCX opcodes decode to DCX with bits 4..5 as the pair |
| StepProperties.IncPcKeepsValid | src/main/java/alternate8888/machine/CPU.java:602 | the trailing PC step keeps the machine valid |
| StepProperties.ExecuteKeepsValid | src/main/java/alternate8888/machine/CPU.java:501-601 | every handler keeps the machine valid |
| StepProperties.SetPairKeepsValid | src/main/java/alternate8888/machine/CPU.java:364-377 | any write through any pair, PSW included, keeps the machine valid |
| StepProperties.IncrementRegisterPairKeepsValid | src/main/java/alternate8888/machine/CPU.java:440-442 | INX keeps the machine valid |
| StepProperties.DecrementRegisterPairKeepsValid | src/main/java/alternate8888/machine/CPU.java:450-452 | DCX keeps the machine valid |
| StepProperties.StepKeepsValid | src/main/java/alternate8888/machine/CPU.java:498-603 | `executeInstruction` keeps the machine valid |
| StepProperties.ExecuteControl | src/main/java/alternate8888/machine/CPU.java:122-207 | no handler touches IR; IN, OUT and HLT step PC once, RST loads exp, the rest keep PC; only EI and DI write the interrupt flag |
| StepProperties.PairWritesKeepControl | src/main/java/alternate8888/machine/CPU.java:364-377 | writes through a pair leave IR, PC and the interrupt flag alone |
| StepProperties.PopKeepsControl | src/main/java/alternate8888/machine/CPU.java:416-418 | POP leaves IR, PC and the interrupt flag alone |
| StepProperties.StepControl | src/main/java/alternate8888/machine/CPU.java:498-603 | for a PC below 0xFFFE (every opcode address of the 8096-cell memory), a step loads `mem[PC]` into IR; PC ends past the opcode, twice past it for IN, OUT and HLT, at `exp + 1` for RST; EI and DI alone move the interrupt flag; AuxCarry ends clear |
| StepProperties.StepUnmatched | src/main/java/alternate8888/machine/CPU.java:498-603 | an opcode the switch does not name only loads IR, steps PC and clears AuxCarry |
| StepProperties.IncrementBExample | src/main/java/alternate8888/machine/CPU.java:283-287 | INR B at address 0 with B = 0xFF leaves B = 0, PC = 1, Zero set, Sign and Parity clear, Carry kept |
| Cpu.Machine.constructor | src/main/java/alternate8888/machine/CPU.java:10-31 | every register is 0, interrupts are disabled, and memory is the default 8096 zeroed cells |
| Cpu.Machine.Increment | src/main/java/alternate8888/machine/CPU.java:66-75 | returns `increment(data, bits)` and leaves the status it writes |
| Cpu.Machine.Decrement | src/main/java/alternate8888/machine/CPU.java:81-90 | returns `decrement(data, bits)` and leaves the status it writes |
| Cpu.Machine.GetParity | src/main/java/alternate8888/machine/CPU.java:92-104 | the loop answers true exactly when some `data & i`, `i < bits`, is non-zero |
| Cpu.Machine.CheckAndSetStatusBits | src/main/java/alternate8888/machine/CPU.java:56-60 | the status becomes the refresh of Sign, Zero and Parity from the value |
| Cpu.Machine.IncrementWord | src/main/java/alternate8888/machine/CPU.java:62-64 | `increment(register)` on PC or SP: the word becomes the incremented value, the status the one `increment` leaves |
| Cpu.Machine.DecrementWord | src/main/java/alternate8888/machine/CPU.java:77-79 | `decrement(register)` on PC or SP: the word becomes the decremented value, the status the one `decrement` leaves |
| Cpu.Machine.GetRegisterPair | src/main/java/alternate8888/machine/CPU.java:364-377 | reads the selected pair, PSW for selector 3 |
| Cpu.Machine.GetPairHigh | src/main/java/alternate8888/machine/CPU.java:364-377 | reads the selected pair's high half |
| Cpu.Machine.GetPairLow | src/main/java/alternate8888/machine/CPU.java:364-377 | reads the selected pair's low half |
| Cpu.Machine.SetPairHighCell | src/main/java/alternate8888/machine/RegisterPair.java:32-34 | writes the selected pair's high half and nothing else |
| Cpu.Machine.SetPairLowCell | src/main/java/alternate8888/machine/RegisterPair.java:36-38 | writes the selected pair's low half and nothing else |
| Cpu.Machine.SetRegisterPair | src/main/java/alternate8888/machine/RegisterPair.java:27-30 | writes both halves of the selected pair, high first |
| Cpu.Machine.GetSingleRegister | src/main/java/alternate8888/machine/CPU.java:249-270 | reads B, C, D, E, H, L, the cell at HL or A; the value is a byte |
| Cpu.Machine.SetSingleRegister | src/main/java/alternate8888/machine/CPU.java:249-270 | writes the selected cell and nothing else |
| Cpu.Machine.StackPush | src/main/java/alternate8888/machine/CPU.java:41-47 | performs `stackPush(high, low)` on the machine and keeps it valid |
| Cpu.Machine.StackPop | src/main/java/alternate8888/machine/CPU.java:49-54 | performs `stackPop(pair)` on the machine and keeps it valid |
| Cpu.Machine.IncrementProgramCounter | src/main/java/alternate8888/machine/CPU.java:602 | steps PC as `increment(programCounter)` does |
| Cpu.Machine.Input | src/main/java/alternate8888/machine/CPU.java:122-127 | IN only steps PC past the device byte |
| Cpu.Machine.Output | src/main/java/alternate8888/machine/CPU.java:137-140 | OUT only steps PC past the device byte |
| Cpu.Machine.EnableInterrupts | src/main/java/alternate8888/machine/CPU.java:152-154 | EI sets the interrupt flag and nothing else |
| Cpu.Machine.DisableInterrupts | src/main/java/alternate8888/machine/CPU.java:162-164 | DI clears the interrupt flag and nothing else |
| Cpu.Machine.HaltInstruction | src/main/java/alternate8888/machine/CPU.java:173-181 | HLT steps PC once (the wait is not modelled) |
| Cpu.Machine.RestartInstruction | src/main/java/alternate8888/machine/CPU.java:204-207 | RST pushes PC's two bytes and sets PC to exp |
| Cpu.Machine.ComplementCarry | src/main/java/alternate8888/machine/CPU.java:219-221 | CMC toggles Carry |
| Cpu.Machine.SetCarry | src/main/java/alternate8888/machine/CPU.java:228-230 | STC sets Carry |
| Cpu.Machine.NoOperation | src/main/java/alternate8888/machine/CPU.java:242-243 | NOP changes nothing |
| Cpu.Machine.IncrementRegisterOrMemory | src/main/java/alternate8888/machine/CPU.java:283-287 | INR on the machine; the properties of the function it meets are CpuProperties.IncrementRegisterOrMemoryCell and IncrementRegisterOrMemoryFlags |
| Cpu.Machine.DecrementRegisterOrMemory | src/main/java/alternate8888/machine/CPU.java:300-304 | DCR on the machine; see CpuProperties.DecrementRegisterOrMemoryCell and DecrementRegisterOrMemoryFlags |
| Cpu.Machine.ComplementAccumulator | src/main/java/alternate8888/machine/CPU.java:312-314 | CMA sets A to `A ^ 0xFF` |
| CpuSpec.NibbleAdjustment | src/main/java/alternate8888/machine/CPU.java:346-355 | one nibble step of DAA leaves its flag set exactly when the nibble exceeds 9 or the flag was set, never clears it, keeps the other flags, and keeps a nibble below 16 |
| Cpu.Machine.AdjustNibble | src/main/java/alternate8888/machine/CPU.java:346-355 | the in-place nibble step (`+= 6`, set the flag, `&= 0x0f`) returns the nibble and leaves the status CpuSpec.NibbleAdjustment gives |
| Cpu.Machine.AdjustNibbles | src/main/java/alternate8888/machine/CPU.java:344-356 | both nibble adjustments and `(msn << 4) \| lsn` give DAA's new A and the flags before the refresh |
| Cpu.Machine.DecimalAdjustAccumulator | src/main/java/alternate8888/machine/CPU.java:343-358 | DAA on the machine; see CpuProperties.DecimalAdjustResult and DecimalAdjustNeverClearsCarries |
| Cpu.Machine.PushDataOntoStack | src/main/java/alternate8888/machine/CPU.java:395-397 | PUSH rp on the machine; see CpuProperties.PushLayout |
| Cpu.Machine.PopDataOffStack | src/main/java/alternate8888/machine/CPU.java:416-418 | POP rp on the machine; see CpuProperties.PopLayout |
| Cpu.Machine.DoubleAdd | src/main/java/alternate8888/machine/CPU.java:427-432 | DAD on the machine; see CpuProperties.DoubleAddSum and DoubleAddCarry |
| Cpu.Machine.IncrementRegisterPair | src/main/java/alternate8888/machine/CPU.java:440-442 | INX on the machine; see CpuProperties.IncrementRegisterPairEffect |
| Cpu.Machine.DecrementRegisterPair | src/main/java/alternate8888/machine/CPU.java:450-452 | DCX on the machine; see CpuProperties.DecrementRegisterPairEffect |
| Cpu.Machine.ExchangeRegisters | src/main/java/alternate8888/machine/CPU.java:461-465 | XCHG on the machine; see CpuProperties.ExchangeRegistersSwaps |
| Cpu.Machine.ExchangeStack | src/main/java/alternate8888/machine/CPU.java:475-485 | XTHL on the machine; see CpuProperties.ExchangeStackSwaps |
| Cpu.Machine.LoadSpFromHAndL | src/main/java/alternate8888/machine/CPU.java:494-496 | SPHL on the machine; see CpuProperties.LoadSpCopiesHL |
| Cpu.Machine.Dispatch | src/main/java/alternate8888/machine/CPU.java:501-601 | the switch runs the handler of the decoded instruction, and an unnamed opcode runs none |
| Cpu.Machine.ExecuteInstruction | src/main/java/alternate8888/machine/CPU.java:498-603 | one instruction on the machine is exactly `Step`: fetch into IR, run the handler, step PC; the machine stays valid |

## Left out

- The HLT wait is left out (CPU.java:175-180). It is a `synchronized` wait on the interrupt flag object, which is concurrency; HLT is modelled as its PC steps only.
- IN and OUT device access is left out: the handlers are stubs, and only their PC step is modelled.
- `volatile` on the interrupt flag is left out; the flag is a plain field.
- StatusLeds.java is not part of this model. CPU does not use it.
- The `Register` interface is not part of this model, and neither is Java object identity between registers. The eight 8-bit registers are fields of `Machine`, and `CPU`'s pairs are computed views over them (`CpuSpec.Pair`, `Cpu.Machine.GetRegisterPair`). `Registers.RegisterPair` models the class on its own, over `Register8Bit` cells.
- The PSW pair is an explicit assumption. StatusBitRegister.java has no `get`/`set` of its own, so the model assumes that reading the high half of PSW gives the status byte (`CpuSpec.PswHigh`) and that writing it keeps the value's five flag bits (`CpuSpec.PswStore`).
- Registers.RegisterPair.Get: requires the cells to hold a non-negative high half and a byte low half. For those cells, `(high << 8) | low` is an arithmetic sum; other values are not modelled.
- Registers.RegisterPair.Set: states the pair's value after the write only for two distinct cells. When both halves are one cell, only the low byte survives, which is what the ensures says.
- The 25 flag methods of StatusBitRegister (`isCarry` … `toggleAuxCarry`) are modelled as five methods that take a `Flag` parameter.
- Memory's `MemoryRegister` cells are modelled as the cells of one `array<int>`, and `address(...)` as the index it selects. `getWidth` is a constant `Width` on each register class.
- Out-of-range memory accesses, which throw in Java, are preconditions. This covers the fetch, INR/DCR M, PUSH/POP/RST and XTHL. The invalid-selector `RuntimeException` of `getSingleRegister` and `getRegisterPair` is a precondition too; the decoder only produces selectors in range.
- Negative data values are not modelled. Every cell of a valid machine holds a byte and every 16-bit register a word; memory is required to hold bytes.
- The memory's capacity is not bounded by 0x10000 in the machine invariant. An access beyond the array is excluded by the preconditions above.
- Cpu.Machine.HaltInstruction: does not model the blocking wait; only its PC step is stated.
- Program loading and a run loop do not exist in the modelled code and are not modelled.
