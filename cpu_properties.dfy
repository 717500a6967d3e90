/**
 * What the instruction functions of CpuSpec mean: the arithmetic behind the
 * shared increment and decrement, the flags each instruction leaves, the
 * stack layout, and the round trips and inverses between instructions.
 */
module CpuProperties {
  import opened Bits
  import opened Words
  import opened StatusBits
  import opened CpuSpec

  // ---------------------------------------------------------------------
  // increment / decrement
  // ---------------------------------------------------------------------

  /** Both helpers wrap around at the register width and are otherwise +1 and -1. */
  lemma StepsWrapAround(data: int, bits: int)
    requires bits == 8 || bits == 16
    requires 0 <= data <= MaxValue(bits)
    ensures IncrementValue(data, bits) == (data + 1) % (MaxValue(bits) + 1)
    ensures DecrementValue(data, bits) == (data - 1) % (MaxValue(bits) + 1)
    ensures 0 <= IncrementValue(data, bits) <= MaxValue(bits)
    ensures 0 <= DecrementValue(data, bits) <= MaxValue(bits)
  {
  }

  /** A 16-bit step keeps a word a word. */
  lemma WordStepsInRange(data: int)
    requires IsWord(data)
    ensures IsWord(IncrementValue(data, 16)) && IsWord(DecrementValue(data, 16))
  {
  }

  /** On a word the 16-bit steps are +1 and -1 modulo 2^16. */
  lemma WordStepsModulo(data: int)
    requires IsWord(data)
    ensures IncrementValue(data, 16) == (data + 1) % 0x10000
    ensures DecrementValue(data, 16) == (data - 1) % 0x10000
  {
  }

  /** Incrementing and decrementing undo each other at either width. */
  lemma StepsInverse(data: int, bits: int)
    requires bits == 8 || bits == 16
    requires 0 <= data <= MaxValue(bits)
    ensures DecrementValue(IncrementValue(data, bits), bits) == data
    ensures IncrementValue(DecrementValue(data, bits), bits) == data
  {
  }

  /**
   * A wrapping step leaves the flags alone; a non-wrapping one writes AuxCarry
   * only: true exactly for an 8-bit value whose low nibble is 9.
   */
  lemma IncrementFlags(status: bv8, data: int, bits: int, g: Flag)
    ensures data == MaxValue(bits) ==> IncrementStatus(status, data, bits) == status
    ensures data != MaxValue(bits) ==>
      IsSet(IncrementStatus(status, data, bits), AuxCarry) == (bits == 8 && data % 16 == 9)
    ensures g != AuxCarry ==> IsSet(IncrementStatus(status, data, bits), g) == IsSet(status, g)
  {
    if data != MaxValue(bits) {
      FlagAfterAssign(status, AuxCarry, bits == 8 && data % 16 == 9, g);
    }
  }

  /** The decrement's AuxCarry test can never hold: a non-wrapping decrement always clears AuxCarry. */
  lemma DecrementClearsAuxCarry(status: bv8, data: int, bits: int, g: Flag)
    ensures data == 0 ==> DecrementStatus(status, data, bits) == status
    ensures data != 0 ==> !IsSet(DecrementStatus(status, data, bits), AuxCarry)
    ensures g != AuxCarry ==> IsSet(DecrementStatus(status, data, bits), g) == IsSet(status, g)
  {
    if data != 0 {
      assert data % 0x10 != 0x10;
      FlagAfterAssign(status, AuxCarry, false, g);
    }
  }

  // ---------------------------------------------------------------------
  // checkAndSetStatusBits
  // ---------------------------------------------------------------------

  /** The even-parity flag of the 8080 data sheet, for comparison: an even number of one bits. */
  ghost function OneBits(v: nat): nat
  {
    if v == 0 then 0 else v % 2 + OneBits(v / 2)
  }

  /** The parity the handler computes is not bit-count parity: 0 and 3 have even counts, 8 and 1 odd ones. */
  lemma ParityAsWrittenExamples()
    ensures !ParityAsWritten(0) && OneBits(0) % 2 == 0
    ensures ParityAsWritten(1) && OneBits(1) % 2 == 1
    ensures ParityAsWritten(3) && OneBits(3) % 2 == 0
    ensures !ParityAsWritten(8) && OneBits(8) % 2 == 1
  {
    assert OneBits(1) == 1;
    assert OneBits(3) == 2;
    assert OneBits(8) == 1 by {
      assert OneBits(4) == 1 by { assert OneBits(2) == 1; }
    }
  }

  /** For a byte, bit 7 is the sign: Sign is set exactly for 0x80..0xFF. */
  lemma SignOfByte(v: int)
    requires IsByte(v)
    ensures ((v / 0x80) % 2 == 1) == (v >= 0x80)
  {
  }

  // ---------------------------------------------------------------------
  // INR / DCR
  // ---------------------------------------------------------------------

  /** In a valid state every selectable cell holds a byte. */
  lemma RegIsByte(s: State, r: int)
    requires Valid(s) && 0 <= r < 8 && (r == 6 ==> 0 <= HL(s) < |s.mem|)
    ensures IsByte(Reg(s, r))
  {
  }

  /** Writing a byte to a selected cell and a five-flag status keeps the state valid. */
  lemma SetRegKeepsValid(s: State, r: int, v: int, st: bv8)
    requires Valid(s) && 0 <= r < 8 && (r == 6 ==> 0 <= HL(s) < |s.mem|)
    requires IsByte(v) && st <= ALL_FLAGS
    ensures Valid(SetReg(s, r, v).(status := st))
    ensures IsByte(Reg(s, r))
  {
    if r == 6 {
      var m := s.mem[HL(s) := v];
      assert forall i :: 0 <= i < |m| ==> IsByte(m[i]);
    }
  }

  /** INR changes only the selected cell, by +1 modulo 256, and the status byte. */
  lemma IncrementRegisterOrMemoryCell(s: State, r: int)
    requires Valid(s) && 0 <= r < 8 && (r == 6 ==> 0 <= HL(s) < |s.mem|)
    ensures var t := IncrementRegisterOrMemory(s, r);
      Valid(t) && t == SetReg(s, r, (Reg(s, r) + 1) % 0x100).(status := t.status)
  {
    var v := Reg(s, r);
    var w := IncrementValue(v, 8);
    assert w == (v + 1) % 0x100;
    SetRegKeepsValid(s, r, w, Refresh(IncrementStatus(s.status, v, 8), w));
  }

  /**
   * After INR, Sign, Zero and Parity describe the new value, Carry is kept,
   * and AuxCarry is the low-nibble-9 test unless the cell wrapped.
   */
  lemma IncrementRegisterOrMemoryFlags(s: State, r: int)
    requires Valid(s) && 0 <= r < 8 && (r == 6 ==> 0 <= HL(s) < |s.mem|)
    ensures var t := IncrementRegisterOrMemory(s, r);
      && IsSet(t.status, Zero) == (Reg(s, r) == 0xFF)
      && IsSet(t.status, Sign) == ((Reg(s, r) + 1) % 0x100 >= 0x80)
      && IsSet(t.status, Parity) == ParityAsWritten((Reg(s, r) + 1) % 0x100)
      && IsSet(t.status, Carry) == IsSet(s.status, Carry)
      && IsSet(t.status, AuxCarry)
         == (if Reg(s, r) == 0xFF then IsSet(s.status, AuxCarry) else Reg(s, r) % 0x10 == 9)
  {
    var v := Reg(s, r);
    RegIsByte(s, r);
    var w := IncrementValue(v, 8);
    assert w == (v + 1) % 0x100;
    IncrementFlags(s.status, v, 8, Carry);
    SignOfByte(w);
  }

  /** DCR changes only the selected cell, by -1 modulo 256, and the status byte. */
  lemma DecrementRegisterOrMemoryCell(s: State, r: int)
    requires Valid(s) && 0 <= r < 8 && (r == 6 ==> 0 <= HL(s) < |s.mem|)
    ensures var t := DecrementRegisterOrMemory(s, r);
      Valid(t) && t == SetReg(s, r, (Reg(s, r) - 1) % 0x100).(status := t.status)
  {
    var v := Reg(s, r);
    var w := DecrementValue(v, 8);
    RegIsByte(s, r);
    assert w == (v - 1) % 0x100;
    SetRegKeepsValid(s, r, w, Refresh(DecrementStatus(s.status, v, 8), w));
  }

  /** After DCR, Sign, Zero and Parity describe the new value, Carry is kept, and AuxCarry is cleared unless the cell wraps from 0, which keeps it. */
  lemma DecrementRegisterOrMemoryFlags(s: State, r: int)
    requires Valid(s) && 0 <= r < 8 && (r == 6 ==> 0 <= HL(s) < |s.mem|)
    ensures var t := DecrementRegisterOrMemory(s, r);
      && IsSet(t.status, Zero) == (Reg(s, r) == 1)
      && IsSet(t.status, Sign) == ((Reg(s, r) - 1) % 0x100 >= 0x80)
      && IsSet(t.status, Parity) == ParityAsWritten((Reg(s, r) - 1) % 0x100)
      && IsSet(t.status, Carry) == IsSet(s.status, Carry)
      && IsSet(t.status, AuxCarry) == (Reg(s, r) == 0 && IsSet(s.status, AuxCarry))
  {
    var v := Reg(s, r);
    RegIsByte(s, r);
    var w := DecrementValue(v, 8);
    assert w == (v - 1) % 0x100;
    DecrementClearsAuxCarry(s.status, v, 8, Carry);
    DecrementClearsAuxCarry(s.status, v, 8, AuxCarry);
    SignOfByte(w);
  }

  /** INR followed by DCR of the same cell restores everything but the flags. */
  lemma IncrementThenDecrement(s: State, r: int)
    requires Valid(s) && 0 <= r < 8 && (r == 6 ==> 0 <= HL(s) < |s.mem|)
    ensures var t := IncrementRegisterOrMemory(s, r);
      && Valid(t) && (r == 6 ==> 0 <= HL(t) < |t.mem|)
      && DecrementRegisterOrMemory(t, r).(status := s.status) == s
  {
    var v := Reg(s, r);
    RegIsByte(s, r);
    StepsInverse(v, 8);
    var w := IncrementValue(v, 8);
    var st := Refresh(IncrementStatus(s.status, v, 8), w);
    var t := SetReg(s, r, w).(status := st);
    assert IncrementRegisterOrMemory(s, r) == t;
    StatusStepsBounded(s.status, v, 8);
    SetRegKeepsValid(s, r, w, st);
    SetRegRestore(s, r, w);
    SetRegIgnoresStatus(SetReg(s, r, w), r, v, st);
    var u := SetReg(t, r, v).(status := Refresh(DecrementStatus(st, w, 8), v));
    assert DecrementRegisterOrMemory(t, r) == u;
    CellRoundTrip(s, t, u, r, w);
  }

  /** Writing w to a cell and then writing back the cell's old value, flags aside, is the identity. */
  lemma CellRoundTrip(s: State, t: State, u: State, r: int, w: int)
    requires 0 <= r < 8 && (r == 6 ==> 0 <= HL(s) < |s.mem|)
    requires t == SetReg(s, r, w).(status := t.status)
    requires (r == 6 ==> 0 <= HL(t) < |t.mem|) && Reg(t, r) == w
    requires u == SetReg(t, r, Reg(s, r)).(status := u.status)
    ensures u.(status := s.status) == s
  {
    SetRegRestore(s, r, w);
    SetRegIgnoresStatus(SetReg(s, r, w), r, Reg(s, r), t.status);
  }

  /** Selecting and writing a cell do not look at the status byte. */
  lemma SetRegIgnoresStatus(s: State, r: int, v: int, st: bv8)
    requires 0 <= r < 8 && (r == 6 ==> 0 <= HL(s) < |s.mem|)
    ensures HL(s.(status := st)) == HL(s)
    ensures Reg(s.(status := st), r) == Reg(s, r)
    ensures SetReg(s.(status := st), r, v) == SetReg(s, r, v).(status := st)
  {
  }

  /** Writing a cell and then writing back its old value restores the state; the cell is not H or L, so HL stays. */
  lemma SetRegRestore(s: State, r: int, w: int)
    requires 0 <= r < 8 && (r == 6 ==> 0 <= HL(s) < |s.mem|)
    ensures HL(SetReg(s, r, w)) == HL(s) || r == 4 || r == 5
    ensures |SetReg(s, r, w).mem| == |s.mem|
    ensures Reg(SetReg(s, r, w), r) == w
    ensures SetReg(SetReg(s, r, w), r, Reg(s, r)) == s
  {
  }

  // ---------------------------------------------------------------------
  // CMA, CMC, STC
  // ---------------------------------------------------------------------

  /** CMA complements every bit of A and nothing else; doing it twice restores A. */
  lemma ComplementAccumulatorInvolution(s: State)
    requires Valid(s)
    ensures var t := ComplementAccumulator(s);
      && Valid(t) && t == s.(a := t.a) && t.a + s.a == 0xFF
      && ComplementAccumulator(t) == s
  {
  }

  /** CMC flips Carry and keeps every other flag; doing it twice restores the status. */
  lemma ComplementCarryInvolution(s: State, g: Flag)
    requires Valid(s)
    ensures var t := Execute(s, Cmc);
      && Valid(t) && t == s.(status := t.status)
      && IsSet(t.status, Carry) == !IsSet(s.status, Carry)
      && (g != Carry ==> IsSet(t.status, g) == IsSet(s.status, g))
      && Execute(t, Cmc) == s
  {
    ToggleTwice(s.status, Carry);
  }

  /** STC sets Carry, keeps the other flags, and is idempotent. */
  lemma SetCarryIdempotent(s: State, g: Flag)
    requires Valid(s)
    ensures var t := Execute(s, Stc);
      && Valid(t) && t == s.(status := t.status)
      && IsSet(t.status, Carry)
      && (g != Carry ==> IsSet(t.status, g) == IsSet(s.status, g))
      && Execute(t, Stc) == t
  {
  }

  // ---------------------------------------------------------------------
  // DAA
  // ---------------------------------------------------------------------

  /**
   * DAA never clears Carry or AuxCarry: it sets AuxCarry when the low nibble
   * exceeds 9 and Carry when the high nibble does, and touches nothing but A
   * and the flags.
   */
  lemma DecimalAdjustNeverClearsCarries(s: State)
    requires Valid(s)
    ensures var t := DecimalAdjustAccumulator(s);
      && Valid(t) && t == s.(a := t.a, status := t.status)
      && (IsSet(s.status, AuxCarry) || s.a % 0x10 > 9 ==> IsSet(t.status, AuxCarry))
      && (IsSet(s.status, Carry) || (s.a / 0x10) % 0x10 > 9 ==> IsSet(t.status, Carry))
  {
    var low := NibbleAdjustment(s.a % 0x10, s.status, AuxCarry);
    var high := NibbleAdjustment((s.a / 0x10) % 0x10, low.1, Carry);
    assert IsSet(low.1, Carry) == IsSet(s.status, Carry);
    assert IsSet(high.1, AuxCarry) == IsSet(low.1, AuxCarry);
    assert IsByte(high.0 * 0x10 + low.0);
  }

  /**
   * DAA's result for every accumulator: each nibble goes up by 6 modulo 16
   * exactly when it exceeds 9 or its carry flag is set, AuxCarry and Carry
   * end set exactly then, and Sign, Zero and Parity describe the new A.
   */
  lemma DecimalAdjustResult(s: State)
    requires Valid(s)
    ensures var lsn, msn := s.a % 0x10, s.a / 0x10;
      var adjustLow := lsn > 9 || IsSet(s.status, AuxCarry);
      var adjustHigh := msn > 9 || IsSet(s.status, Carry);
      var t := DecimalAdjustAccumulator(s);
      && t.a % 0x10 == (if adjustLow then (lsn + 6) % 0x10 else lsn)
      && t.a / 0x10 == (if adjustHigh then (msn + 6) % 0x10 else msn)
      && IsSet(t.status, AuxCarry) == adjustLow
      && IsSet(t.status, Carry) == adjustHigh
      && IsSet(t.status, Zero) == (t.a == 0)
      && IsSet(t.status, Sign) == (t.a >= 0x80)
      && IsSet(t.status, Parity) == ParityAsWritten(t.a)
  {
    var low := NibbleAdjustment(s.a % 0x10, s.status, AuxCarry);
    var high := NibbleAdjustment((s.a / 0x10) % 0x10, low.1, Carry);
    assert IsSet(low.1, Carry) == IsSet(s.status, Carry);
    assert (s.a / 0x10) % 0x10 == s.a / 0x10;
    var a' := high.0 * 0x10 + low.0;
    assert a' % 0x10 == low.0 && a' / 0x10 == high.0;
    SignOfByte(a');
  }

  /** A packed-BCD accumulator with both carries clear is left as it is. */
  lemma DecimalAdjustKeepsBcd(s: State)
    requires Valid(s) && s.a % 0x10 <= 9 && (s.a / 0x10) % 0x10 <= 9
    requires !IsSet(s.status, Carry) && !IsSet(s.status, AuxCarry)
    ensures var t := DecimalAdjustAccumulator(s);
      t.a == s.a && !IsSet(t.status, Carry) && !IsSet(t.status, AuxCarry)
  {
  }

  /** The documented example: 0xA4 with both carries clear becomes 0x04 with Carry set. */
  lemma DecimalAdjustExample(s: State)
    requires Valid(s) && s.a == 0xA4
    requires !IsSet(s.status, Carry) && !IsSet(s.status, AuxCarry)
    ensures var t := DecimalAdjustAccumulator(s);
      && t.a == 0x04 && IsSet(t.status, Carry) && !IsSet(t.status, AuxCarry)
      && !IsSet(t.status, Zero) && !IsSet(t.status, Sign) && IsSet(t.status, Parity)
  {
    assert !IsSet(SetBit(s.status, Carry), AuxCarry);
  }

  // ---------------------------------------------------------------------
  // The stack: PUSH, POP, RST
  // ---------------------------------------------------------------------

  /** Two non-wrapping 16-bit decrements (or increments) clear AuxCarry. */
  lemma TwoStepsClearAuxCarry(status: bv8)
    ensures AssignBit(AssignBit(status, AuxCarry, false), AuxCarry, false) == ClearBit(status, AuxCarry)
  {
  }

  /** Storing the status byte in the PSW view and reading it back gives the same byte. */
  lemma PswRoundTrip(status: bv8)
    requires status <= ALL_FLAGS
    ensures PswStore(PswHigh(status)) == status
  {
    assert PswHigh(status) % 0x20 == PswHigh(status);
  }

  /** Every half of a valid pair is a byte. */
  lemma PairHalvesAreBytes(s: State, rp: int)
    requires Valid(s) && 0 <= rp < 4
    ensures IsByte(PairHigh(s, rp)) && IsByte(PairLow(s, rp))
    ensures IsWord(Pair(s, rp)) && HighByte(Pair(s, rp)) == PairHigh(s, rp) && LowByte(Pair(s, rp)) == PairLow(s, rp)
  {
    JoinSplit(PairHigh(s, rp), PairLow(s, rp));
  }

  /**
   * PUSH stores the pair's high half at SP - 1 and its low half at SP - 2,
   * leaves SP two lower and clears AuxCarry; nothing else changes.
   */
  lemma PushLayout(s: State, rp: int)
    requires Valid(s) && 0 <= rp < 4 && 2 <= s.sp <= |s.mem|
    ensures CanPush(s)
    ensures var t := PushDataOntoStack(s, rp);
      && Valid(t)
      && t == s.(sp := s.sp - 2, status := ClearBit(s.status, AuxCarry),
                 mem := s.mem[s.sp - 1 := PairHigh(s, rp)][s.sp - 2 := PairLow(s, rp)])
  {
    TwoStepsClearAuxCarry(s.status);
    PairHalvesAreBytes(s, rp);
    var t := PushDataOntoStack(s, rp);
    assert forall i :: 0 <= i < |t.mem| ==> IsByte(t.mem[i]);
  }

  /** The intermediate states of `stackPop`: two non-wrapping SP steps, each clearing AuxCarry. */
  lemma PopSteps(s: State, rp: int)
    requires Valid(s) && 0 <= rp < 4 && s.sp + 2 <= |s.mem| && s.sp + 2 <= 0xFFFF
    ensures CanPop(s)
    ensures var t1 := SetPairLow(s, rp, s.mem[s.sp]).(sp := s.sp + 1, status := ClearBit(s.status, AuxCarry));
      var t3 := SetPairHigh(t1, rp, s.mem[s.sp + 1]);
      PopDataOffStack(s, rp) == t3.(sp := s.sp + 2, status := ClearBit(t3.status, AuxCarry))
  {
    WordStepClearsAuxCarry(s.status, s.sp);
    var t1 := SetPairLow(s, rp, s.mem[s.sp]).(sp := s.sp + 1, status := ClearBit(s.status, AuxCarry));
    var t3 := SetPairHigh(t1, rp, s.mem[s.sp + 1]);
    WordStepClearsAuxCarry(t3.status, s.sp + 1);
  }

  /**
   * POP of B, D or H loads the low half from SP and the high half from
   * SP + 1 and leaves SP two higher with AuxCarry clear.
   */
  lemma PopLayout(s: State, rp: int)
    requires Valid(s) && 0 <= rp < 3 && s.sp + 2 <= |s.mem| && s.sp + 2 <= 0xFFFF
    ensures CanPop(s)
    ensures PopDataOffStack(s, rp)
         == SetPairLow(SetPairHigh(s, rp, s.mem[s.sp + 1]), rp, s.mem[s.sp])
              .(sp := s.sp + 2, status := ClearBit(s.status, AuxCarry))
  {
    PopSteps(s, rp);
    ClearTwice(s.status, AuxCarry);
    PairWritesCommute(s, rp, s.mem[s.sp + 1], s.mem[s.sp], s.sp + 1, ClearBit(s.status, AuxCarry));
  }

  /** POP PSW loads A from SP and the flags from SP + 1, then clears AuxCarry. */
  lemma PopPswLayout(s: State)
    requires Valid(s) && s.sp + 2 <= |s.mem| && s.sp + 2 <= 0xFFFF
    ensures CanPop(s)
    ensures PopDataOffStack(s, 3)
         == s.(a := s.mem[s.sp], sp := s.sp + 2, status := ClearBit(PswStore(s.mem[s.sp + 1]), AuxCarry))
  {
    PopSteps(s, 3);
  }

  /** `stackPush` of two bytes keeps the state valid, wherever SP points. */
  lemma StackPushKeepsValid(s: State, high: int, low: int)
    requires Valid(s) && CanPush(s) && IsByte(high) && IsByte(low)
    ensures Valid(StackPush(s, high, low))
  {
    var sp1 := DecrementValue(s.sp, 16);
    WordStepsInRange(s.sp);
    WordStepsInRange(sp1);
    StatusStepsBounded(s.status, s.sp, 16);
    StatusStepsBounded(DecrementStatus(s.status, s.sp, 16), sp1, 16);
    var t := StackPush(s, high, low);
    assert forall i :: 0 <= i < |t.mem| ==> IsByte(t.mem[i]);
  }

  /** POP keeps the state valid: it loads bytes, and the PSW view keeps five flag bits. */
  lemma PopKeepsValid(s: State, rp: int)
    requires Valid(s) && 0 <= rp < 4 && CanPop(s)
    ensures Valid(PopDataOffStack(s, rp))
  {
    var sp1 := IncrementValue(s.sp, 16);
    var m0, m1 := s.mem[s.sp], s.mem[sp1];
    assert IsByte(m0) && IsByte(m1);
    var t1 := SetPairLow(s, rp, m0);
    PairWriteKeepsValid(s, rp, m0);
    StatusStepsBounded(t1.status, s.sp, 16);
    var t2 := t1.(sp := sp1, status := IncrementStatus(t1.status, s.sp, 16));
    var t3 := SetPairHigh(t2, rp, m1);
    PairWriteKeepsValid(t2, rp, m1);
    StatusStepsBounded(t3.status, sp1, 16);
  }

  /** Writing a byte to either half of a pair keeps the state valid. */
  lemma PairWriteKeepsValid(s: State, rp: int, v: int)
    requires Valid(s) && 0 <= rp < 4 && IsByte(v)
    ensures Valid(SetPairHigh(s, rp, v)) && Valid(SetPairLow(s, rp, v))
  {
  }

  /** The shared steps keep the status within the five flag bits. */
  lemma StatusStepsBounded(status: bv8, data: int, bits: int)
    requires status <= ALL_FLAGS
    ensures IncrementStatus(status, data, bits) <= ALL_FLAGS
    ensures DecrementStatus(status, data, bits) <= ALL_FLAGS
  {
  }

  lemma ClearTwice(status: bv8, f: Flag)
    ensures ClearBit(ClearBit(status, f), f) == ClearBit(status, f)
  {
  }

  /** For B, D and H, writing the low half, SP and the status, then the high half, is writing them in any order. */
  lemma PairWritesCommute(s: State, rp: int, high: int, low: int, sp: int, st: bv8)
    requires 0 <= rp < 3
    ensures SetPairHigh(SetPairLow(s, rp, low).(sp := sp, status := st), rp, high)
         == SetPairLow(SetPairHigh(s, rp, high), rp, low).(sp := sp, status := st)
  {
    if rp == 0 {
      assert SetPairLow(s, rp, low) == s.(c := low);
    } else if rp == 1 {
      assert SetPairLow(s, rp, low) == s.(e := low);
    } else {
      assert SetPairLow(s, rp, low) == s.(l := low);
    }
  }

  /** A non-wrapping 16-bit step writes AuxCarry := false and nothing else. */
  lemma WordStepClearsAuxCarry(status: bv8, data: int)
    ensures data != 0xFFFF ==> IncrementStatus(status, data, 16) == ClearBit(status, AuxCarry)
    ensures data != 0 ==> DecrementStatus(status, data, 16) == ClearBit(status, AuxCarry)
  {
  }

  /** A PUSH followed by a POP of the same pair restores every register and SP; AuxCarry ends clear. */
  lemma PushPopRoundTrip(s: State, rp: int)
    requires Valid(s) && 0 <= rp < 4 && 2 <= s.sp <= |s.mem|
    ensures CanPush(s)
    ensures var t := PushDataOntoStack(s, rp);
      && CanPop(t)
      && PopDataOffStack(t, rp) == s.(mem := t.mem, status := ClearBit(s.status, AuxCarry))
  {
    var t := PushDataOntoStack(s, rp);
    assert Valid(t) && t.sp == s.sp - 2 && t.mem[t.sp] == PairLow(s, rp) && t.mem[t.sp + 1] == PairHigh(s, rp) by {
      PushLayout(s, rp);
    }
    assert t.status == ClearBit(s.status, AuxCarry) by {
      PushLayout(s, rp);
    }
    if rp == 3 {
      PopPswLayout(t);
      PswRoundTrip(s.status);
    } else {
      PopLayout(t, rp);
    }
  }

  /**
   * RST pushes the address of its own opcode, high byte first, and jumps to
   * `exp`: the two bytes on top of the stack read back as the old PC.
   */
  lemma RestartPushesOwnAddress(s: State, exp: int)
    requires Valid(s) && 0 <= exp < 8 && 2 <= s.sp <= |s.mem|
    ensures CanPush(s)
    ensures var t := RestartInstruction(s, exp);
      && Valid(t) && t.pc == exp && t.sp == s.sp - 2
      && Word(t.mem[t.sp + 1], t.mem[t.sp]) == s.pc
      && t == s.(pc := exp, sp := s.sp - 2, status := ClearBit(s.status, AuxCarry), mem := t.mem)
  {
    TwoStepsClearAuxCarry(s.status);
    SplitJoin(s.pc);
    var t := RestartInstruction(s, exp);
    assert forall i :: 0 <= i < |t.mem| ==> IsByte(t.mem[i]);
  }

  // ---------------------------------------------------------------------
  // DAD, INX, DCX
  // ---------------------------------------------------------------------

  /** Writing a value through B, D or H keeps the state valid and the pair then reads the value modulo 2^16. */
  lemma SetPairReadsBack(s: State, rp: int, v: int)
    requires Valid(s) && 0 <= rp < 3
    ensures Valid(SetPair(s, rp, v)) && Pair(SetPair(s, rp, v), rp) == v % 0x10000
    ensures SetPair(s, rp, v).status == s.status
  {
    SplitJoin(v);
  }

  /** Writing a pair of B, D or H does not look at the status byte. */
  lemma SetPairIgnoresStatus(s: State, rp: int, v: int, st: bv8)
    requires 0 <= rp < 3
    ensures SetPair(s.(status := st), rp, v) == SetPair(s, rp, v).(status := st)
  {
    if rp == 0 {
      assert SetPair(s, rp, v) == s.(b := HighByte(v), c := LowByte(v));
    } else if rp == 1 {
      assert SetPair(s, rp, v) == s.(d := HighByte(v), e := LowByte(v));
    } else {
      assert SetPair(s, rp, v) == s.(h := HighByte(v), l := LowByte(v));
    }
  }

  /** DAD adds the pair to HL modulo 2^16 and touches only H, L and the status. */
  lemma DoubleAddSum(s: State, rp: int)
    requires Valid(s) && 0 <= rp < 4
    ensures var t := DoubleAdd(s, rp);
      && Valid(t) && t == s.(h := t.h, l := t.l, status := t.status)
      && HL(t) == (Pair(s, rp) + HL(s)) % 0x10000
  {
    var sum := Pair(s, rp) + HL(s);
    var st := AssignBit(s.status, Carry, sum > 0xFFFF);
    var w := sum % 0x10000;
    var t := SetPair(s.(status := st), 2, w);
    assert DoubleAdd(s, rp) == t;
    SetPairReadsBack(s.(status := st), 2, w);
    PairWordReadsBack(s.(status := st), 2, w);
    assert t == s.(h := HighByte(w), l := LowByte(w), status := st);
  }

  /** DAD's new state from the sum of the two pairs as the handler reads them. */
  lemma DoubleAddFromSum(s: State, rp: int, sum: int)
    requires Valid(s) && 0 <= rp < 4 && sum == Pair(s, rp) + Pair(s, 2)
    ensures 0 <= sum
    ensures DoubleAdd(s, rp) == SetPair(s.(status := AssignBit(s.status, Carry, sum > 0xFFFF)), 2, sum % 0x10000)
  {
    assert Pair(s, 2) == HL(s);
    assert 0 <= PairHigh(s, rp) && 0 <= PairLow(s, rp);
  }

  /** DAD sets Carry exactly when the sum exceeds 0xFFFF and keeps every other flag. */
  lemma DoubleAddCarry(s: State, rp: int, g: Flag)
    requires Valid(s) && 0 <= rp < 4
    ensures var t := DoubleAdd(s, rp);
      && IsSet(t.status, Carry) == (Pair(s, rp) + HL(s) > 0xFFFF)
      && (g != Carry ==> IsSet(t.status, g) == IsSet(s.status, g))
  {
    var sum := Pair(s, rp) + HL(s);
    var st := AssignBit(s.status, Carry, sum > 0xFFFF);
    SetPairReadsBack(s.(status := st), 2, sum % 0x10000);
    FlagAfterAssign(s.status, Carry, sum > 0xFFFF, g);
    FlagAfterAssign(s.status, Carry, sum > 0xFFFF, Carry);
  }

  /** Writing a word through B, D or H after a bounded status update: the state INX and DCX reach. */
  lemma PairStepWrite(s: State, rp: int, st: bv8, w: int)
    requires Valid(s) && 0 <= rp < 3 && st <= ALL_FLAGS && IsWord(w)
    ensures var t := SetPair(s.(status := st), rp, w);
      && Valid(t) && Pair(t, rp) == w && t.status == st
      && t == SetPair(s, rp, w).(status := st)
  {
    SetPairReadsBack(s.(status := st), rp, w);
    PairWordReadsBack(s.(status := st), rp, w);
    SetPairIgnoresStatus(s, rp, w, st);
  }

  /** INX of B, D or H adds 1 modulo 2^16 to the pair; AuxCarry is cleared unless the pair wrapped. */
  lemma IncrementRegisterPairEffect(s: State, rp: int)
    requires Valid(s) && 0 <= rp < 3
    ensures var t := IncrementRegisterPair(s, rp);
      && Valid(t)
      && Pair(t, rp) == (Pair(s, rp) + 1) % 0x10000
      && t == SetPair(s, rp, (Pair(s, rp) + 1) % 0x10000).(status := t.status)
      && t.status == if Pair(s, rp) == 0xFFFF then s.status else ClearBit(s.status, AuxCarry)
  {
    var v := Pair(s, rp);
    PairHalvesAreBytes(s, rp);
    WordStepsModulo(v);
    WordStepsInRange(v);
    var w := IncrementValue(v, 16);
    var st := IncrementStatus(s.status, v, 16);
    assert IncrementRegisterPair(s, rp) == SetPair(s.(status := st), rp, w);
    WordStepClearsAuxCarry(s.status, v);
    StatusStepsBounded(s.status, v, 16);
    PairStepWrite(s, rp, st, w);
  }

  /** DCX of B, D or H subtracts 1 modulo 2^16 from the pair; AuxCarry is cleared unless the pair wrapped. */
  lemma DecrementRegisterPairEffect(s: State, rp: int)
    requires Valid(s) && 0 <= rp < 3
    ensures var t := DecrementRegisterPair(s, rp);
      && Valid(t)
      && Pair(t, rp) == (Pair(s, rp) - 1) % 0x10000
      && t == SetPair(s, rp, (Pair(s, rp) - 1) % 0x10000).(status := t.status)
      && t.status == if Pair(s, rp) == 0 then s.status else ClearBit(s.status, AuxCarry)
  {
    var v := Pair(s, rp);
    PairHalvesAreBytes(s, rp);
    WordStepsModulo(v);
    WordStepsInRange(v);
    var w := DecrementValue(v, 16);
    var st := DecrementStatus(s.status, v, 16);
    assert DecrementRegisterPair(s, rp) == SetPair(s.(status := st), rp, w);
    WordStepClearsAuxCarry(s.status, v);
    StatusStepsBounded(s.status, v, 16);
    PairStepWrite(s, rp, st, w);
  }

  /** A word written through B, D or H reads back unchanged. */
  lemma PairWordReadsBack(s: State, rp: int, w: int)
    requires 0 <= rp < 3 && IsWord(w)
    ensures Pair(SetPair(s, rp, w), rp) == w
  {
    SplitJoin(w);
  }

  /** Two pair writes with status changes in between amount to the last write and the last status. */
  lemma PairOverwrite(s: State, rp: int, w: int, v: int, st1: bv8, st2: bv8)
    requires 0 <= rp < 3
    ensures SetPair(SetPair(s.(status := st1), rp, w).(status := st2), rp, v) == SetPair(s, rp, v).(status := st2)
  {
    var x := SetPair(s.(status := st1), rp, w);
    SetPairIgnoresStatus(x, rp, v, st2);
    SetPairIgnoresStatus(s, rp, w, st1);
    PairWriteTwice(s.(status := st1), rp, w, v);
    SetPairIgnoresStatus(s, rp, v, st1);
  }

  /** DCX undoes INX of the same pair, flags aside. */
  lemma IncrementPairThenDecrement(s: State, rp: int)
    requires Valid(s) && 0 <= rp < 3
    ensures DecrementRegisterPair(IncrementRegisterPair(s, rp), rp).(status := s.status) == s
  {
    var v := Pair(s, rp);
    PairHalvesAreBytes(s, rp);
    var w := IncrementValue(v, 16);
    StepsInverse(v, 16);
    WordStepsInRange(v);
    var st1 := IncrementStatus(s.status, v, 16);
    var t := SetPair(s.(status := st1), rp, w);
    PairWordReadsBack(s.(status := st1), rp, w);
    var st2 := DecrementStatus(t.status, w, 16);
    PairOverwrite(s, rp, w, v, st1, st2);
    PairWriteOwn(s, rp);
  }

  /** INX undoes DCX of the same pair, flags aside. */
  lemma DecrementPairThenIncrement(s: State, rp: int)
    requires Valid(s) && 0 <= rp < 3
    ensures IncrementRegisterPair(DecrementRegisterPair(s, rp), rp).(status := s.status) == s
  {
    var v := Pair(s, rp);
    PairHalvesAreBytes(s, rp);
    var w := DecrementValue(v, 16);
    StepsInverse(v, 16);
    WordStepsInRange(v);
    var st1 := DecrementStatus(s.status, v, 16);
    var u := SetPair(s.(status := st1), rp, w);
    PairWordReadsBack(s.(status := st1), rp, w);
    var st2 := IncrementStatus(u.status, w, 16);
    PairOverwrite(s, rp, w, v, st1, st2);
    PairWriteOwn(s, rp);
  }

  /**
   * INX and DCX of the same pair undo each other, flags aside; for PSW,
   * whose high half is the status byte, they restore the flags as well.
   */
  lemma RegisterPairStepsInverse(s: State, rp: int)
    requires Valid(s) && 0 <= rp < 4
    ensures DecrementRegisterPair(IncrementRegisterPair(s, rp), rp).(status := s.status) == s
    ensures IncrementRegisterPair(DecrementRegisterPair(s, rp), rp).(status := s.status) == s
    ensures rp == 3 ==>
      && DecrementRegisterPair(IncrementRegisterPair(s, rp), rp) == s
      && IncrementRegisterPair(DecrementRegisterPair(s, rp), rp) == s
  {
    if rp < 3 {
      IncrementPairThenDecrement(s, rp);
      DecrementPairThenIncrement(s, rp);
    } else {
      PswStepsInverse(s);
    }
  }

  /** A second write to a pair of B, D or H replaces the first. */
  lemma PairWriteTwice(s: State, rp: int, v: int, w: int)
    requires 0 <= rp < 3
    ensures SetPair(SetPair(s, rp, v), rp, w) == SetPair(s, rp, w)
  {
    if rp == 0 {
      assert SetPair(SetPair(s, rp, v), rp, w) == s.(b := HighByte(w), c := LowByte(w));
    } else if rp == 1 {
      assert SetPair(SetPair(s, rp, v), rp, w) == s.(d := HighByte(w), e := LowByte(w));
    } else {
      assert SetPair(SetPair(s, rp, v), rp, w) == s.(h := HighByte(w), l := LowByte(w));
    }
  }

  /** Writing a pair of B, D or H back with its own value changes nothing. */
  lemma PairWriteOwn(s: State, rp: int)
    requires Valid(s) && 0 <= rp < 3
    ensures SetPair(s, rp, Pair(s, rp)) == s
  {
    PairHalvesAreBytes(s, rp);
    if rp == 0 {
      JoinSplit(s.b, s.c);
    } else if rp == 1 {
      JoinSplit(s.d, s.e);
    } else {
      JoinSplit(s.h, s.l);
    }
  }

  lemma WordStepsInverse(v: int)
    requires IsWord(v)
    ensures ((v + 1) % 0x10000 - 1) % 0x10000 == v
    ensures ((v - 1) % 0x10000 + 1) % 0x10000 == v
  {
    if v == 0xFFFF {
      assert (v + 1) % 0x10000 == 0;
    } else {
      assert (v + 1) % 0x10000 == v + 1;
    }
    if v == 0 {
      assert (v - 1) % 0x10000 == 0xFFFF;
    } else {
      assert (v - 1) % 0x10000 == v - 1;
    }
  }

  /**
   * With selector 3 INX works on PSW: below 0xFF the accumulator goes up by
   * one and the status is written back unchanged, so the AuxCarry write is lost.
   */
  lemma IncrementPswStepsAccumulator(s: State)
    requires Valid(s) && s.a < 0xFF
    ensures IncrementRegisterPair(s, 3) == s.(a := s.a + 1)
  {
    var v := Pair(s, 3);
    PairHalvesAreBytes(s, 3);
    assert HighByte(v + 1) == PswHigh(s.status) && LowByte(v + 1) == s.a + 1;
    PswRoundTrip(s.status);
  }

  /** The PSW view reads back the five low bits of what was stored through it. */
  lemma PswStoreKeepsFlagBits(v: int)
    ensures PswHigh(PswStore(v)) == v % 0x20
  {
  }

  /** Five bits of the high byte above the low byte make the word modulo 2^13. */
  lemma LowThirteenBits(w: int)
    requires IsWord(w)
    ensures Word(HighByte(w) % 0x20, LowByte(w)) == w % 0x2000
  {
    var q := w / 0x100;
    assert HighByte(w) == q;
    assert w == 0x2000 * (q / 0x20) + (q % 0x20) * 0x100 + LowByte(w);
  }

  /** A word written through PSW keeps its low 13 bits: the five flag bits above A. */
  lemma PswWriteKeeps13Bits(s: State, st: bv8, w: int)
    requires IsWord(w)
    ensures var t := SetPair(s.(status := st), 3, w);
      && t == s.(status := PswStore(HighByte(w)), a := LowByte(w))
      && Pair(t, 3) == w % 0x2000
  {
    var t := s.(status := PswStore(HighByte(w)), a := LowByte(w));
    assert SetPair(s.(status := st), 3, w) == t;
    PswStoreKeepsFlagBits(HighByte(w));
    LowThirteenBits(w);
  }

  /**
   * PSW holds the five flag bits above A, so INX PSW steps it modulo 2^13
   * and changes nothing but A and the status byte.
   */
  lemma IncrementPswModulo(s: State)
    requires Valid(s)
    ensures var t := IncrementRegisterPair(s, 3);
      && Valid(t) && t == s.(status := t.status, a := t.a)
      && Pair(t, 3) == (Pair(s, 3) + 1) % 0x2000
  {
    var v := Pair(s, 3);
    assert 0 <= v < 0x2000;
    var st := IncrementStatus(s.status, v, 16);
    assert IncrementRegisterPair(s, 3) == SetPair(s.(status := st), 3, v + 1);
    PswWriteKeeps13Bits(s, st, v + 1);
  }

  /** DCX PSW steps PSW down modulo 2^13 and changes nothing but A and the status byte. */
  lemma DecrementPswModulo(s: State)
    requires Valid(s)
    ensures var t := DecrementRegisterPair(s, 3);
      && Valid(t) && t == s.(status := t.status, a := t.a)
      && Pair(t, 3) == (Pair(s, 3) - 1) % 0x2000
  {
    var v := Pair(s, 3);
    assert 0 <= v < 0x2000;
    var st := DecrementStatus(s.status, v, 16);
    var w := DecrementValue(v, 16);
    assert DecrementRegisterPair(s, 3) == SetPair(s.(status := st), 3, w);
    PswWriteKeeps13Bits(s, st, w);
    if v == 0 {
      assert w % 0x2000 == 0x1FFF;
    } else {
      assert w == v - 1;
    }
  }

  /** INX and DCX of PSW step the 13-bit word made of the flags and A. */
  lemma PswStepsModulo(s: State)
    requires Valid(s)
    ensures Pair(IncrementRegisterPair(s, 3), 3) == (Pair(s, 3) + 1) % 0x2000
    ensures Pair(DecrementRegisterPair(s, 3), 3) == (Pair(s, 3) - 1) % 0x2000
  {
    IncrementPswModulo(s);
    DecrementPswModulo(s);
  }

  /** A valid state's A and status byte are determined by the PSW word. */
  lemma PswDeterminesHalves(s: State, u: State)
    requires Valid(s) && Valid(u) && u == s.(status := u.status, a := u.a)
    requires Pair(u, 3) == Pair(s, 3)
    ensures u == s
  {
    JoinSplit(PswHigh(s.status), s.a);
    JoinSplit(PswHigh(u.status), u.a);
    assert s.status as int == u.status as int;
  }

  /**
   * A step up and a step down of the 13-bit PSW word, each changing only A
   * and the status byte, give back the starting state.
   */
  lemma PswStepsCancel(s: State, t: State, u: State, up: bool)
    requires Valid(s) && Valid(t) && Valid(u)
    requires t == s.(status := t.status, a := t.a)
    requires u == t.(status := u.status, a := u.a)
    requires Pair(t, 3) == (if up then Pair(s, 3) + 1 else Pair(s, 3) - 1) % 0x2000
    requires Pair(u, 3) == (if up then Pair(t, 3) - 1 else Pair(t, 3) + 1) % 0x2000
    ensures u == s
  {
    ThirteenBitStepsCancel(Pair(s, 3), up);
    PswDeterminesHalves(s, u);
  }

  /** A step up and a step down modulo 2^13 cancel, in either order. */
  lemma ThirteenBitStepsCancel(v: int, up: bool)
    requires 0 <= v < 0x2000
    ensures var w := (if up then v + 1 else v - 1) % 0x2000;
      (if up then w - 1 else w + 1) % 0x2000 == v
  {
    if up && v == 0x1FFF {
      assert (v + 1) % 0x2000 == 0;
    } else if !up && v == 0 {
      assert (v - 1) % 0x2000 == 0x1FFF;
    }
  }

  /** DCX PSW undoes INX PSW, flags included. */
  lemma IncrementPswThenDecrement(s: State)
    requires Valid(s)
    ensures DecrementRegisterPair(IncrementRegisterPair(s, 3), 3) == s
  {
    IncrementPswModulo(s);
    DecrementPswModulo(IncrementRegisterPair(s, 3));
    PswStepsCancel(s, IncrementRegisterPair(s, 3), DecrementRegisterPair(IncrementRegisterPair(s, 3), 3), true);
  }

  /** INX PSW undoes DCX PSW, flags included. */
  lemma DecrementPswThenIncrement(s: State)
    requires Valid(s)
    ensures IncrementRegisterPair(DecrementRegisterPair(s, 3), 3) == s
  {
    DecrementPswModulo(s);
    IncrementPswModulo(DecrementRegisterPair(s, 3));
    PswStepsCancel(s, DecrementRegisterPair(s, 3), IncrementRegisterPair(DecrementRegisterPair(s, 3), 3), false);
  }

  /** INX PSW and DCX PSW undo each other, flags included. */
  lemma PswStepsInverse(s: State)
    requires Valid(s)
    ensures DecrementRegisterPair(IncrementRegisterPair(s, 3), 3) == s
    ensures IncrementRegisterPair(DecrementRegisterPair(s, 3), 3) == s
  {
    IncrementPswThenDecrement(s);
    DecrementPswThenIncrement(s);
  }

  // ---------------------------------------------------------------------
  // XCHG, XTHL, SPHL
  // ---------------------------------------------------------------------

  /** XCHG swaps HL with DE and nothing else; doing it twice is the identity. */
  lemma ExchangeRegistersSwaps(s: State)
    requires Valid(s)
    ensures var t := ExchangeRegisters(s);
      && t == s.(h := s.d, l := s.e, d := s.h, e := s.l)
      && Valid(t) && ExchangeRegisters(t) == s
  {
    PairHalvesAreBytes(s, 1);
    PairHalvesAreBytes(s, 2);
  }

  /** XTHL swaps L with the cell at SP and H with the cell above it; SP, the other registers and the flags stay; doing it twice is the identity. */
  lemma ExchangeStackSwaps(s: State)
    requires Valid(s) && s.sp + 1 < |s.mem|
    ensures var t := ExchangeStack(s);
      && Valid(t) && t == s.(l := t.l, h := t.h, mem := t.mem) && |t.mem| == |s.mem|
      && t.l == s.mem[s.sp] && t.h == s.mem[s.sp + 1]
      && t.mem[s.sp] == s.l && t.mem[s.sp + 1] == s.h
      && (forall i :: 0 <= i < |s.mem| && i != s.sp && i != s.sp + 1 ==> t.mem[i] == s.mem[i])
      && ExchangeStack(t) == s
  {
    var t := ExchangeStack(s);
    assert forall i :: 0 <= i < |t.mem| ==> IsByte(t.mem[i]);
    assert t.mem[s.sp := t.l][s.sp + 1 := t.h] == s.mem;
  }

  /** SPHL copies HL into SP and changes nothing else. */
  lemma LoadSpCopiesHL(s: State)
    requires Valid(s)
    ensures var t := LoadSpFromHAndL(s);
      Valid(t) && t.sp == HL(s) && HL(t) == HL(s) && t == s.(sp := t.sp)
  {
    JoinSplit(s.h, s.l);
  }
}
