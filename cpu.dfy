/**
 * The processor as an object: the 8-bit registers, the status register, the
 * program counter and stack pointer, the interrupt flag and main memory,
 * updated in place by one method per instruction handler. Every handler is
 * proved to leave the machine in the state the matching function of CpuSpec
 * computes from the state before, and to keep the machine valid.
 */
module Cpu {
  import opened Bits
  import opened Words
  import opened StatusBits
  import opened Registers
  import opened MemoryCells
  import opened CpuSpec
  import opened CpuProperties

  class Machine {
    var ir: int
    var a: int
    var b: int
    var c: int
    var d: int
    var e: int
    var h: int
    var l: int
    var interruptsEnabled: bool
    const statusBits: StatusBitRegister
    const programCounter: Register16Bit
    const stackPointer: Register16Bit
    const ram: Memory

    /** The whole machine as a value. */
    ghost function State(): State
      reads this, statusBits, programCounter, stackPointer, ram.bytes
    {
      CpuSpec.State(ir, a, b, c, d, e, h, l, statusBits.status,
                    Word(programCounter.high, programCounter.low),
                    Word(stackPointer.high, stackPointer.low),
                    interruptsEnabled, ram.bytes[..])
    }

    ghost predicate Valid()
      reads this, statusBits, programCounter, stackPointer, ram.bytes
    {
      && programCounter != stackPointer
      && programCounter.Valid() && stackPointer.Valid()
      && CpuSpec.Valid(State())
    }

    /** `new CPU()`: every register zero, interrupts disabled, the default memory of zeroed cells. */
    constructor ()
      ensures Valid() && fresh(ram.bytes)
      ensures State() == CpuSpec.State(0, 0, 0, 0, 0, 0, 0, 0, 0, 0, 0, false, seq(DEFAULT_CAPACITY, _ => 0))
    {
      ir, a, b, c, d, e, h, l := 0, 0, 0, 0, 0, 0, 0, 0;
      statusBits := new StatusBitRegister();
      programCounter := new Register16Bit();
      stackPointer := new Register16Bit();
      ram := new Memory.Default();
      interruptsEnabled := false;
      new;
      assert ram.bytes[..] == seq(DEFAULT_CAPACITY, _ => 0);
    }

    // -------------------------------------------------------------------
    // The shared helpers
    // -------------------------------------------------------------------

    /** `increment(data, bits)`: the next value, wrapping to 0; AuxCarry is written unless it wraps. */
    method Increment(data: nat, bits: int) returns (r: nat)
      requires statusBits.Valid()
      modifies statusBits
      ensures statusBits.Valid()
      ensures statusBits.status == IncrementStatus(old(statusBits.status), data, bits)
      ensures r == IncrementValue(data, bits)
    {
      if data == (if bits == 8 then 0xFF else 0xFFFF) {
        r := 0;
      } else {
        LowNibble(data);
        statusBits.Assign(AuxCarry, bits == 8 && And(data, 0x0F) == 0x09);
        r := data + 1;
      }
    }

    /** `decrement(data, bits)`: the previous value, wrapping to the maximum; AuxCarry is written unless it wraps. */
    method Decrement(data: nat, bits: int) returns (r: nat)
      requires statusBits.Valid()
      modifies statusBits
      ensures statusBits.Valid()
      ensures statusBits.status == DecrementStatus(old(statusBits.status), data, bits)
      ensures r == DecrementValue(data, bits)
    {
      if data == 0x00 {
        r := if bits == 8 then 0xFF else 0xFFFF;
      } else {
        LowNibble(data);
        statusBits.Assign(AuxCarry, bits == 8 && And(data, 0x0F) == 0x10);
        r := data - 1;
      }
    }

    /**
     * `getParity(data, bits)`: counts the non-zero `data & i` for i from
     * bits - 1 down to 0 and answers as soon as the count is odd, so the
     * answer is whether any of them is non-zero.
     */
    method GetParity(data: nat, bits: nat) returns (r: bool)
      ensures r <==> exists i: nat :: i < bits && And(data, i) != 0
    {
      var parityCount := 0;
      var i := bits;
      while i > 0
        invariant 0 <= i <= bits
        invariant parityCount == 0
        invariant forall j: nat :: i <= j < bits ==> And(data, j) == 0
      {
        i := i - 1;
        if And(data, i) > 0 {
          parityCount := parityCount + 1;
        }
        if parityCount % 2 != 0 {
          assert And(data, i) != 0;
          return true;
        }
      }
      return false;
    }

    /** `checkAndSetStatusBits(register)` for the register's value `v`. */
    method CheckAndSetStatusBits(v: nat)
      requires statusBits.Valid()
      modifies statusBits
      ensures statusBits.Valid() && statusBits.status == Refresh(old(statusBits.status), v)
    {
      Bit7(v);
      statusBits.Assign(Sign, And(v, 0x80) > 0);
      statusBits.Assign(Zero, v == 0);
      var parity := GetParity(v, 8);
      SomeLowBit(v);
      statusBits.Assign(Parity, parity);
    }

    /** `increment(register)` for the program counter or the stack pointer. */
    method IncrementWord(register: Register16Bit)
      requires register.Valid() && statusBits.Valid()
      modifies register, statusBits
      ensures register.Valid() && statusBits.Valid()
      ensures Word(register.high, register.low) == IncrementValue(old(Word(register.high, register.low)), 16)
      ensures statusBits.status == IncrementStatus(old(statusBits.status), old(Word(register.high, register.low)), 16)
    {
      var before := register.Get();
      var v := Increment(before, 16);
      WordStepsInRange(before);
      WordKeepsValue(v);
      register.Set(v);
    }

    /** `decrement(register)` for the program counter or the stack pointer. */
    method DecrementWord(register: Register16Bit)
      requires register.Valid() && statusBits.Valid()
      modifies register, statusBits
      ensures register.Valid() && statusBits.Valid()
      ensures Word(register.high, register.low) == DecrementValue(old(Word(register.high, register.low)), 16)
      ensures statusBits.status == DecrementStatus(old(statusBits.status), old(Word(register.high, register.low)), 16)
    {
      var before := register.Get();
      var v := Decrement(before, 16);
      WordStepsInRange(before);
      WordKeepsValue(v);
      register.Set(v);
    }

    // -------------------------------------------------------------------
    // Registers and pairs
    // -------------------------------------------------------------------

    /** `getRegisterPair(rp).get()`: `(high << 8) | low` over the pair's two cells. */
    method GetRegisterPair(rp: int) returns (v: int)
      requires Valid() && 0 <= rp < 4
      ensures v == Pair(State(), rp)
    {
      var high := GetPairHigh(rp);
      var low := GetPairLow(rp);
      OrHighLow(high, low, 8);
      v := Or(high * 0x100, low);
    }

    /** `getRegisterPair(rp).getHigh()` */
    method GetPairHigh(rp: int) returns (v: nat)
      requires Valid() && 0 <= rp < 4
      ensures v == PairHigh(State(), rp) && v < 0x100
    {
      match rp
      case 0 => v := b;
      case 1 => v := d;
      case 2 => v := h;
      case _ => v := PswHigh(statusBits.status);
    }

    /** `getRegisterPair(rp).getLow()` */
    method GetPairLow(rp: int) returns (v: nat)
      requires Valid() && 0 <= rp < 4
      ensures v == PairLow(State(), rp) && v < 0x100
    {
      match rp
      case 0 => v := c;
      case 1 => v := e;
      case 2 => v := l;
      case _ => v := a;
    }

    /** `getRegisterPair(rp).setHigh(v)`; for PSW the status register keeps the five flag bits of v. */
    method SetPairHighCell(rp: int, v: int)
      requires Valid() && 0 <= rp < 4 && IsByte(v)
      modifies this, statusBits
      ensures Valid() && State() == SetPairHigh(old(State()), rp, v)
    {
      match rp
      case 0 => b := v;
      case 1 => d := v;
      case 2 => h := v;
      case _ => statusBits.status := PswStore(v);
    }

    /** `getRegisterPair(rp).setLow(v)` */
    method SetPairLowCell(rp: int, v: int)
      requires Valid() && 0 <= rp < 4 && IsByte(v)
      modifies this
      ensures Valid() && State() == SetPairLow(old(State()), rp, v)
    {
      match rp
      case 0 => c := v;
      case 1 => e := v;
      case 2 => l := v;
      case _ => a := v;
    }

    /** `getRegisterPair(rp).set(value)`: `(value >> 8) & 0xff` to the high cell, then `value & 0xff` to the low one. */
    method SetRegisterPair(rp: int, value: int)
      requires Valid() && 0 <= rp < 4
      modifies this, statusBits
      ensures Valid() && State() == SetPair(old(State()), rp, value)
    {
      SplitJoin(value);
      SetPairHighCell(rp, (value / 0x100) % 0x100);
      SetPairLowCell(rp, value % 0x100);
    }

    /** `getSingleRegister(r).get()`: B, C, D, E, H, L, the memory cell HL addresses, A. */
    method GetSingleRegister(r: int) returns (v: int)
      requires Valid() && 0 <= r < 8 && (r == 6 ==> HL(State()) < ram.bytes.Length)
      ensures v == Reg(State(), r) && IsByte(v)
    {
      match r
      case 0 => v := b;
      case 1 => v := c;
      case 2 => v := d;
      case 3 => v := e;
      case 4 => v := h;
      case 5 => v := l;
      case 6 =>
        var address := GetRegisterPair(2);
        v := ram.GetIndirect(address);
      case _ => v := a;
    }

    /** `getSingleRegister(r).set(v)` */
    method SetSingleRegister(r: int, v: int)
      requires Valid() && 0 <= r < 8 && (r == 6 ==> HL(State()) < ram.bytes.Length) && IsByte(v)
      modifies this, ram.bytes
      ensures Valid() && State() == SetReg(old(State()), r, v)
    {
      ghost var s := State();
      SetRegKeepsValid(s, r, v, s.status);
      assert CpuSpec.Valid(SetReg(s, r, v));
      match r {
        case 0 => b := v; assert State() == s.(b := v);
        case 1 => c := v; assert State() == s.(c := v);
        case 2 => d := v; assert State() == s.(d := v);
        case 3 => e := v; assert State() == s.(e := v);
        case 4 => h := v; assert State() == s.(h := v);
        case 5 => l := v; assert State() == s.(l := v);
        case 6 =>
          var address := GetRegisterPair(2);
          ram.SetIndirect(address, v);
          assert State() == s.(mem := s.mem[HL(s) := v]);
        case _ => a := v; assert State() == s.(a := v);
      }
      assert State() == SetReg(s, r, v);
    }

    // -------------------------------------------------------------------
    // The stack
    // -------------------------------------------------------------------

    /** `stackPush(high, low)`: decrement SP, store high; decrement SP, store low. */
    method StackPush(high: int, low: int)
      requires Valid() && CanPush(State()) && IsByte(high) && IsByte(low)
      modifies statusBits, stackPointer, ram.bytes
      ensures Valid() && State() == CpuSpec.StackPush(old(State()), high, low)
    {
      StackPushKeepsValid(State(), high, low);
      DecrementWord(stackPointer);
      var sp := stackPointer.Get();
      ram.SetIndirect(sp, high);
      DecrementWord(stackPointer);
      sp := stackPointer.Get();
      ram.SetIndirect(sp, low);
    }

    /** `stackPop(pair)`: the low cell from SP, increment SP; the high cell from SP, increment SP. */
    method StackPop(rp: int)
      requires Valid() && 0 <= rp < 4 && CanPop(State())
      modifies this, statusBits, stackPointer
      ensures Valid() && State() == CpuSpec.PopDataOffStack(old(State()), rp)
    {
      var sp := stackPointer.Get();
      var v := ram.GetIndirect(sp);
      SetPairLowCell(rp, v);
      IncrementWord(stackPointer);
      sp := stackPointer.Get();
      v := ram.GetIndirect(sp);
      SetPairHighCell(rp, v);
      IncrementWord(stackPointer);
    }

    // -------------------------------------------------------------------
    // The instruction handlers
    // -------------------------------------------------------------------

    /** `increment(programCounter)` */
    method IncrementProgramCounter()
      requires Valid()
      modifies statusBits, programCounter
      ensures Valid() && State() == IncPc(old(State()))
    {
      IncrementWord(programCounter);
    }

    /** IN: no device is attached; the device number byte is skipped. */
    method Input()
      requires Valid()
      modifies statusBits, programCounter
      ensures Valid() && State() == Execute(old(State()), In)
    {
      IncrementProgramCounter();
    }

    /** OUT: no device is attached; the device number byte is skipped. */
    method Output()
      requires Valid()
      modifies statusBits, programCounter
      ensures Valid() && State() == Execute(old(State()), Out)
    {
      IncrementProgramCounter();
    }

    /** EI */
    method EnableInterrupts()
      requires Valid()
      modifies this
      ensures Valid() && State() == Execute(old(State()), Ei)
    {
      interruptsEnabled := true;
    }

    /** DI */
    method DisableInterrupts()
      requires Valid()
      modifies this
      ensures Valid() && State() == Execute(old(State()), Di)
    {
      interruptsEnabled := false;
    }

    /** HLT: steps PC; the wait for an interrupt that follows is not modelled. */
    method HaltInstruction()
      requires Valid()
      modifies statusBits, programCounter
      ensures Valid() && State() == Execute(old(State()), Hlt)
    {
      IncrementProgramCounter();
    }

    /** RST exp: push PC's two bytes, then PC := exp. */
    method RestartInstruction(exp: int)
      requires Valid() && CanPush(State())
      modifies statusBits, programCounter, stackPointer, ram.bytes
      ensures Valid() && State() == CpuSpec.RestartInstruction(old(State()), exp)
    {
      JoinSplit(programCounter.high, programCounter.low);
      StackPush(programCounter.high, programCounter.low);
      programCounter.Set(exp);
    }

    /** CMC */
    method ComplementCarry()
      requires Valid()
      modifies statusBits
      ensures Valid() && State() == Execute(old(State()), Cmc)
    {
      statusBits.Toggle(Carry);
    }

    /** STC */
    method SetCarry()
      requires Valid()
      modifies statusBits
      ensures Valid() && State() == Execute(old(State()), Stc)
    {
      statusBits.Set(Carry);
    }

    /** NOP */
    method NoOperation()
      requires Valid()
      ensures Valid() && State() == Execute(old(State()), Nop)
    {
    }

    /** INR r: increment the selected cell, then refresh the flags from it. */
    method IncrementRegisterOrMemory(r: int)
      requires Valid() && 0 <= r < 8 && (r == 6 ==> HL(State()) < ram.bytes.Length)
      modifies this, statusBits, ram.bytes
      ensures Valid() && State() == CpuSpec.IncrementRegisterOrMemory(old(State()), r)
    {
      ghost var s := State();
      var v := GetSingleRegister(r);
      var w := Increment(v, 8);
      ghost var st := IncrementStatus(s.status, v, 8);
      assert State() == s.(status := st);
      SetRegIgnoresStatus(s, r, w, st);
      SetSingleRegister(r, w);
      assert State() == SetReg(s, r, w).(status := st);
      var now := GetSingleRegister(r);
      assert now == w by {
        SetRegRestore(s, r, w);
        SetRegIgnoresStatus(SetReg(s, r, w), r, w, st);
      }
      CheckAndSetStatusBits(now);
    }

    /** DCR r: decrement the selected cell, then refresh the flags from it. */
    method DecrementRegisterOrMemory(r: int)
      requires Valid() && 0 <= r < 8 && (r == 6 ==> HL(State()) < ram.bytes.Length)
      modifies this, statusBits, ram.bytes
      ensures Valid() && State() == CpuSpec.DecrementRegisterOrMemory(old(State()), r)
    {
      ghost var s := State();
      var v := GetSingleRegister(r);
      var w := Decrement(v, 8);
      ghost var st := DecrementStatus(s.status, v, 8);
      assert State() == s.(status := st);
      SetRegIgnoresStatus(s, r, w, st);
      SetSingleRegister(r, w);
      assert State() == SetReg(s, r, w).(status := st);
      var now := GetSingleRegister(r);
      assert now == w by {
        SetRegRestore(s, r, w);
        SetRegIgnoresStatus(SetReg(s, r, w), r, w, st);
      }
      CheckAndSetStatusBits(now);
    }

    /** CMA: `A ^ 0xFF` */
    method ComplementAccumulator()
      requires Valid()
      modifies this
      ensures Valid() && State() == CpuSpec.ComplementAccumulator(old(State()))
    {
      ComplementByte(a);
      a := Xor(a, 0xFF);
    }

    /** One of DAA's two nibble adjustments: add 6 and set the flag when the nibble exceeds 9 or the flag is set. */
    method AdjustNibble(nibble: nat, f: Flag) returns (r: nat)
      requires statusBits.Valid()
      modifies statusBits
      ensures statusBits.Valid()
      ensures (r, statusBits.status) == NibbleAdjustment(nibble, old(statusBits.status), f)
    {
      r := nibble;
      if r > 9 || statusBits.Is(f) {
        r := r + 6;
        statusBits.Set(f);
        LowNibble(r);
        r := And(r, 0x0F);
      }
    }

    /** DAA */
    method DecimalAdjustAccumulator()
      requires Valid()
      modifies this, statusBits
      ensures Valid() && State() == CpuSpec.DecimalAdjustAccumulator(old(State()))
    {
      ghost var s := State();
      var adjusted := AdjustNibbles(a, s);
      assert State() == s.(status := statusBits.status);
      a := adjusted;
      CheckAndSetStatusBits(a);
    }

    /** DAA up to the flag refresh: both nibble adjustments, recombined into `(msn << 4) | lsn`. */
    method AdjustNibbles(acc: nat, ghost s: State) returns (adjusted: nat)
      requires statusBits.Valid() && CpuSpec.Valid(s) && s.a == acc && s.status == statusBits.status
      modifies statusBits
      ensures statusBits.Valid()
      ensures var t := CpuSpec.DecimalAdjustAccumulator(s);
        && CpuSpec.Valid(t) && t == s.(a := adjusted, status := Refresh(statusBits.status, adjusted))
    {
      var msn := And(acc / 16, 0x0F);
      var lsn := And(acc, 0x0F);
      assert msn == (acc / 0x10) % 0x10 && lsn == acc % 0x10 by {
        LowNibble(acc / 16);
        LowNibble(acc);
      }
      ghost var low := NibbleAdjustment(acc % 0x10, s.status, AuxCarry);
      lsn := AdjustNibble(lsn, AuxCarry);
      assert (lsn, statusBits.status) == low;
      ghost var high := NibbleAdjustment((acc / 0x10) % 0x10, low.1, Carry);
      msn := AdjustNibble(msn, Carry);
      assert (msn, statusBits.status) == high;
      assert Or(msn * 0x10, lsn) == msn * 0x10 + lsn by {
        assert lsn < Pow2(4) by { assert Pow2(4) == 16; }
        OrHighLow(msn, lsn, 4);
      }
      adjusted := Or(msn * 0x10, lsn);
      DecimalAdjustNeverClearsCarries(s);
      assert CpuSpec.DecimalAdjustAccumulator(s) == s.(a := adjusted, status := Refresh(statusBits.status, adjusted));
    }

    /** PUSH rp */
    method PushDataOntoStack(rp: int)
      requires Valid() && 0 <= rp < 4 && CanPush(State())
      modifies statusBits, stackPointer, ram.bytes
      ensures Valid() && State() == CpuSpec.PushDataOntoStack(old(State()), rp)
    {
      var high := GetPairHigh(rp);
      var low := GetPairLow(rp);
      StackPush(high, low);
    }

    /** POP rp */
    method PopDataOffStack(rp: int)
      requires Valid() && 0 <= rp < 4 && CanPop(State())
      modifies this, statusBits, stackPointer
      ensures Valid() && State() == CpuSpec.PopDataOffStack(old(State()), rp)
    {
      StackPop(rp);
    }

    /** DAD rp */
    method DoubleAdd(rp: int)
      requires Valid() && 0 <= rp < 4
      modifies this, statusBits
      ensures Valid() && State() == CpuSpec.DoubleAdd(old(State()), rp)
    {
      ghost var s := State();
      var x := GetRegisterPair(rp);
      var hl := GetRegisterPair(2);
      var result := x + hl;
      DoubleAddFromSum(s, rp, result);
      ghost var st := AssignBit(s.status, Carry, result > 0xFFFF);
      ghost var w := result % 0x10000;
      ghost var t := SetPair(s.(status := st), 2, w);
      statusBits.Assign(Carry, result > 0xFFFF);
      assert State() == s.(status := st);
      LowWord(result);
      result := And(result, 0xFFFF);
      assert result == w;
      SetRegisterPair(2, result);
      assert State() == t;
    }

    /** INX rp */
    method IncrementRegisterPair(rp: int)
      requires Valid() && 0 <= rp < 4
      modifies this, statusBits
      ensures Valid() && State() == CpuSpec.IncrementRegisterPair(old(State()), rp)
    {
      var v := GetRegisterPair(rp);
      var w := Increment(v, 16);
      SetRegisterPair(rp, w);
    }

    /** DCX rp */
    method DecrementRegisterPair(rp: int)
      requires Valid() && 0 <= rp < 4
      modifies this, statusBits
      ensures Valid() && State() == CpuSpec.DecrementRegisterPair(old(State()), rp)
    {
      var v := GetRegisterPair(rp);
      var w := Decrement(v, 16);
      SetRegisterPair(rp, w);
    }

    /** XCHG */
    method ExchangeRegisters()
      requires Valid()
      modifies this, statusBits
      ensures Valid() && State() == CpuSpec.ExchangeRegisters(old(State()))
    {
      var temp := GetRegisterPair(2);
      var de := GetRegisterPair(1);
      SetRegisterPair(2, de);
      SetRegisterPair(1, temp);
    }

    /** XTHL */
    method ExchangeStack()
      requires Valid() && Word(stackPointer.high, stackPointer.low) + 1 < ram.bytes.Length
      modifies this, ram.bytes
      ensures Valid() && State() == CpuSpec.ExchangeStack(old(State()))
    {
      ghost var s := State();
      ExchangeStackSwaps(s);
      var sp := stackPointer.Get();
      var temp := l;
      var cell := ram.GetAddressed(sp, 0);
      l := cell;
      ram.SetAddressed(sp, 0, temp);
      assert State() == s.(l := s.mem[s.sp], mem := s.mem[s.sp := s.l]);
      temp := h;
      cell := ram.GetAddressed(sp, 1);
      h := cell;
      ram.SetAddressed(sp, 1, temp);
      assert State() == CpuSpec.ExchangeStack(s);
    }

    /** SPHL */
    method LoadSpFromHAndL()
      requires Valid()
      modifies stackPointer
      ensures Valid() && State() == CpuSpec.LoadSpFromHAndL(old(State()))
    {
      var hl := GetRegisterPair(2);
      stackPointer.Set(hl);
    }

    // -------------------------------------------------------------------
    // One instruction
    // -------------------------------------------------------------------

    /** The switch of `executeInstruction`: run the handler of a decoded instruction. */
    method Dispatch(instr: Instr)
      requires Valid() && Ready(State(), instr)
      modifies this, statusBits, programCounter, stackPointer, ram.bytes
      ensures Valid() && State() == Execute(old(State()), instr)
    {
      match instr
      case In => Input();
      case Out => Output();
      case Ei => EnableInterrupts();
      case Di => DisableInterrupts();
      case Hlt => HaltInstruction();
      case Rst(exp) => RestartInstruction(exp);
      case Cmc => ComplementCarry();
      case Stc => SetCarry();
      case Nop => NoOperation();
      case Inr(r) => IncrementRegisterOrMemory(r);
      case Dcr(r) => DecrementRegisterOrMemory(r);
      case Cma => ComplementAccumulator();
      case Daa => DecimalAdjustAccumulator();
      case Push(rp) => PushDataOntoStack(rp);
      case Pop(rp) => PopDataOffStack(rp);
      case Dad(rp) => DoubleAdd(rp);
      case Inx(rp) => IncrementRegisterPair(rp);
      case Dcx(rp) => DecrementRegisterPair(rp);
      case Xchg => ExchangeRegisters();
      case Xthl => ExchangeStack();
      case Sphl => LoadSpFromHAndL();
      case Unmatched =>
    }

    /** `executeInstruction()`: load `ram[PC]` into IR, run its handler, then increment PC. */
    method ExecuteInstruction()
      requires Valid() && CanStep(State())
      modifies this, statusBits, programCounter, stackPointer, ram.bytes
      ensures Valid() && State() == Step(old(State()))
    {
      ghost var s := State();
      var pc := programCounter.Get();
      var op := ram.GetIndirect(pc);
      ir := op;
      assert State() == Fetch(s);
      Dispatch(Decode(ir));
      IncrementProgramCounter();
    }
  }
}
