/**
 * The decoder and one whole `executeInstruction` step: every opcode the
 * switch names decodes to the instruction whose encoding it is, a step keeps
 * the machine valid, and the program counter moves as the handlers say.
 */
module StepProperties {
  import opened Bits
  import opened Words
  import opened StatusBits
  import opened CpuSpec
  import opened CpuProperties

  // ---------------------------------------------------------------------
  // Decoding
  // ---------------------------------------------------------------------

  /** The eight opcodes `base + 8 * k` of a group with a 3-bit field carry `k` in bits 3..5. */
  lemma ThreeBitField(base: nat, k: nat)
    requires base < 8 || base == 0xC7
    requires k < 8
    ensures Get3BitParam(base + 8 * k) == k
  {
    assert (base + 8 * k) / 8 == base / 8 + k;
  }

  /** The four opcodes `base + 16 * k` of a group with a 2-bit field carry `k` in bits 4..5. */
  lemma TwoBitField(base: nat, k: nat)
    requires base < 16 || base == 0xC1 || base == 0xC5
    requires k < 4
    ensures Get2BitParam(base + 16 * k) == k
  {
    assert (base + 16 * k) / 16 == base / 16 + k;
  }

  /** The 8 opcodes of RST exp decode to it, field and all. */
  lemma DecodeRst(k: nat)
    requires k < 8
    ensures Decode(0xC7 + 8 * k) == Rst(k)
  {
    var op := 0xC7 + 8 * k;
    ThreeBitField(0xC7, k);
    assert op == 0xC7 || op == 0xCF || op == 0xD7 || op == 0xDF || op == 0xE7 || op == 0xEF || op == 0xF7 || op == 0xFF;
  }

  /** The 8 opcodes of INR r decode to it, field and all. */
  lemma DecodeInr(k: nat)
    requires k < 8
    ensures Decode(0x04 + 8 * k) == Inr(k)
  {
    var op := 0x04 + 8 * k;
    ThreeBitField(0x04, k);
    assert op == 0x04 || op == 0x0C || op == 0x14 || op == 0x1C || op == 0x24 || op == 0x2C || op == 0x34 || op == 0x3C;
  }

  /** The 8 opcodes of DCR r decode to it, field and all. */
  lemma DecodeDcr(k: nat)
    requires k < 8
    ensures Decode(0x05 + 8 * k) == Dcr(k)
  {
    var op := 0x05 + 8 * k;
    ThreeBitField(0x05, k);
    assert op == 0x05 || op == 0x0D || op == 0x15 || op == 0x1D || op == 0x25 || op == 0x2D || op == 0x35 || op == 0x3D;
  }

  /** The 4 opcodes of PUSH rp decode to it, field and all. */
  lemma DecodePush(k: nat)
    requires k < 4
    ensures Decode(0xC5 + 16 * k) == Push(k)
  {
    var op := 0xC5 + 16 * k;
    TwoBitField(0xC5, k);
    assert op == 0xC5 || op == 0xD5 || op == 0xE5 || op == 0xF5;
  }

  /** The 4 opcodes of POP rp decode to it, field and all. */
  lemma DecodePop(k: nat)
    requires k < 4
    ensures Decode(0xC1 + 16 * k) == Pop(k)
  {
    var op := 0xC1 + 16 * k;
    TwoBitField(0xC1, k);
    assert op == 0xC1 || op == 0xD1 || op == 0xE1 || op == 0xF1;
  }

  /** The 4 opcodes of DAD rp decode to it, field and all. */
  lemma DecodeDad(k: nat)
    requires k < 4
    ensures Decode(0x09 + 16 * k) == Dad(k)
  {
    var op := 0x09 + 16 * k;
    TwoBitField(0x09, k);
    assert op == 0x09 || op == 0x19 || op == 0x29 || op == 0x39;
  }

  /** The 4 opcodes of INX rp decode to it, field and all. */
  lemma DecodeInx(k: nat)
    requires k < 4
    ensures Decode(0x03 + 16 * k) == Inx(k)
  {
    var op := 0x03 + 16 * k;
    TwoBitField(0x03, k);
    assert op == 0x03 || op == 0x13 || op == 0x23 || op == 0x33;
  }

  /** The 4 opcodes of DCX rp decode to it, field and all. */
  lemma DecodeDcx(k: nat)
    requires k < 4
    ensures Decode(0x0B + 16 * k) == Dcx(k)
  {
    var op := 0x0B + 16 * k;
    TwoBitField(0x0B, k);
    assert op == 0x0B || op == 0x1B || op == 0x2B || op == 0x3B;
  }

  /** Every well-formed instruction is decoded back from its opcode. */
  lemma DecodeEncode(instr: Instr)
    requires WellFormed(instr)
    ensures Decode(Encode(instr)) == instr
  {
    if instr.Rst? || instr.Inr? || instr.Dcr? {
      DecodeEncodeRegisterField(instr);
    } else if instr.Push? || instr.Pop? || instr.Dad? || instr.Inx? || instr.Dcx? {
      DecodeEncodePairField(instr);
    } else {
      DecodeEncodeSingle(instr);
    }
  }

  /** RST, INR and DCR decode back from their opcodes, 3-bit field and all. */
  lemma DecodeEncodeRegisterField(instr: Instr)
    requires WellFormed(instr) && (instr.Rst? || instr.Inr? || instr.Dcr?)
    ensures Decode(Encode(instr)) == instr
  {
    match instr
    case Rst(k) => DecodeRst(k);
    case Inr(k) => DecodeInr(k);
    case Dcr(k) => DecodeDcr(k);
  }

  /** PUSH, POP, DAD, INX and DCX decode back from their opcodes, 2-bit field and all. */
  lemma DecodeEncodePairField(instr: Instr)
    requires WellFormed(instr) && (instr.Push? || instr.Pop? || instr.Dad? || instr.Inx? || instr.Dcx?)
    ensures Decode(Encode(instr)) == instr
  {
    match instr
    case Push(k) => DecodePush(k);
    case Pop(k) => DecodePop(k);
    case Dad(k) => DecodeDad(k);
    case Inx(k) => DecodeInx(k);
    case Dcx(k) => DecodeDcx(k);
  }

  /** The instructions without an operand field each have one opcode, which decodes back to them. */
  lemma DecodeEncodeSingle(instr: Instr)
    requires WellFormed(instr)
    requires !(instr.Rst? || instr.Inr? || instr.Dcr? || instr.Push? || instr.Pop? || instr.Dad? || instr.Inx? || instr.Dcx?)
    ensures Decode(Encode(instr)) == instr
  {
  }

  /** Every opcode the switch names is the encoding of what it decodes to; any other is unmatched. */
  lemma EncodeDecode(op: nat)
    ensures Decode(op) != Unmatched ==> WellFormed(Decode(op)) && Encode(Decode(op)) == op
  {
    if op == 0xC7 || op == 0xCF || op == 0xD7 || op == 0xDF || op == 0xE7 || op == 0xEF || op == 0xF7 || op == 0xFF {
      RstOpcodes(op);
    } else if op == 0x04 || op == 0x0C || op == 0x14 || op == 0x1C || op == 0x24 || op == 0x2C || op == 0x34 || op == 0x3C {
      InrOpcodes(op);
    } else if op == 0x05 || op == 0x0D || op == 0x15 || op == 0x1D || op == 0x25 || op == 0x2D || op == 0x35 || op == 0x3D {
      DcrOpcodes(op);
    } else if op == 0xC5 || op == 0xD5 || op == 0xE5 || op == 0xF5 {
      PushOpcodes(op);
    } else if op == 0xC1 || op == 0xD1 || op == 0xE1 || op == 0xF1 {
      PopOpcodes(op);
    } else if op == 0x09 || op == 0x19 || op == 0x29 || op == 0x39 {
      DadOpcodes(op);
    } else if op == 0x03 || op == 0x13 || op == 0x23 || op == 0x33 {
      InxOpcodes(op);
    } else if op == 0x0B || op == 0x1B || op == 0x2B || op == 0x3B {
      DcxOpcodes(op);
    } else {
      DecodeSingles(op);
    }
  }

  /** Each RST opcode is the encoding of what it decodes to. */
  lemma RstOpcodes(op: nat)
    requires op == 0xC7 || op == 0xCF || op == 0xD7 || op == 0xDF || op == 0xE7 || op == 0xEF || op == 0xF7 || op == 0xFF
    ensures WellFormed(Decode(op)) && Encode(Decode(op)) == op
  {
    var k := GroupIndex(op, 0xC7, 8, 8);
    DecodeRst(k);
  }

  /** Each INR opcode is the encoding of what it decodes to. */
  lemma InrOpcodes(op: nat)
    requires op == 0x04 || op == 0x0C || op == 0x14 || op == 0x1C || op == 0x24 || op == 0x2C || op == 0x34 || op == 0x3C
    ensures WellFormed(Decode(op)) && Encode(Decode(op)) == op
  {
    var k := GroupIndex(op, 0x04, 8, 8);
    DecodeInr(k);
  }

  /** Each DCR opcode is the encoding of what it decodes to. */
  lemma DcrOpcodes(op: nat)
    requires op == 0x05 || op == 0x0D || op == 0x15 || op == 0x1D || op == 0x25 || op == 0x2D || op == 0x35 || op == 0x3D
    ensures WellFormed(Decode(op)) && Encode(Decode(op)) == op
  {
    var k := GroupIndex(op, 0x05, 8, 8);
    DecodeDcr(k);
  }

  /** Each PUSH opcode is the encoding of what it decodes to. */
  lemma PushOpcodes(op: nat)
    requires op == 0xC5 || op == 0xD5 || op == 0xE5 || op == 0xF5
    ensures WellFormed(Decode(op)) && Encode(Decode(op)) == op
  {
    var k := GroupIndex(op, 0xC5, 16, 4);
    DecodePush(k);
  }

  /** Each POP opcode is the encoding of what it decodes to. */
  lemma PopOpcodes(op: nat)
    requires op == 0xC1 || op == 0xD1 || op == 0xE1 || op == 0xF1
    ensures WellFormed(Decode(op)) && Encode(Decode(op)) == op
  {
    var k := GroupIndex(op, 0xC1, 16, 4);
    DecodePop(k);
  }

  /** Each DAD opcode is the encoding of what it decodes to. */
  lemma DadOpcodes(op: nat)
    requires op == 0x09 || op == 0x19 || op == 0x29 || op == 0x39
    ensures WellFormed(Decode(op)) && Encode(Decode(op)) == op
  {
    var k := GroupIndex(op, 0x09, 16, 4);
    DecodeDad(k);
  }

  /** Each INX opcode is the encoding of what it decodes to. */
  lemma InxOpcodes(op: nat)
    requires op == 0x03 || op == 0x13 || op == 0x23 || op == 0x33
    ensures WellFormed(Decode(op)) && Encode(Decode(op)) == op
  {
    var k := GroupIndex(op, 0x03, 16, 4);
    DecodeInx(k);
  }

  /** Each DCX opcode is the encoding of what it decodes to. */
  lemma DcxOpcodes(op: nat)
    requires op == 0x0B || op == 0x1B || op == 0x2B || op == 0x3B
    ensures WellFormed(Decode(op)) && Encode(Decode(op)) == op
  {
    var k := GroupIndex(op, 0x0B, 16, 4);
    DecodeDcx(k);
  }

  /** The position of an opcode within its group of `n` opcodes `stride` apart. */
  lemma GroupIndex(op: nat, base: nat, stride: nat, n: nat) returns (k: nat)
    requires 0 < stride && base <= op < base + stride * n && (op - base) % stride == 0
    ensures k < n && op == base + stride * k
  {
    k := (op - base) / stride;
  }

  /** The opcodes outside the eight groups decode to a fixed instruction or to Unmatched. */
  lemma DecodeSingles(op: nat)
    requires !(op == 0xC7 || op == 0xCF || op == 0xD7 || op == 0xDF || op == 0xE7 || op == 0xEF || op == 0xF7 || op == 0xFF)
    requires !(op == 0x04 || op == 0x0C || op == 0x14 || op == 0x1C || op == 0x24 || op == 0x2C || op == 0x34 || op == 0x3C)
    requires !(op == 0x05 || op == 0x0D || op == 0x15 || op == 0x1D || op == 0x25 || op == 0x2D || op == 0x35 || op == 0x3D)
    requires !(op == 0xC5 || op == 0xD5 || op == 0xE5 || op == 0xF5)
    requires !(op == 0xC1 || op == 0xD1 || op == 0xE1 || op == 0xF1)
    requires !(op == 0x09 || op == 0x19 || op == 0x29 || op == 0x39)
    requires !(op == 0x03 || op == 0x13 || op == 0x23 || op == 0x33)
    requires !(op == 0x0B || op == 0x1B || op == 0x2B || op == 0x3B)
    ensures Decode(op) != Unmatched ==> WellFormed(Decode(op)) && Encode(Decode(op)) == op
  {
  }

  // ---------------------------------------------------------------------
  // One step
  // ---------------------------------------------------------------------

  /** The trailing PC step keeps the state valid. */
  lemma IncPcKeepsValid(s: State)
    requires Valid(s)
    ensures Valid(IncPc(s))
  {
    WordStepsInRange(s.pc);
    StatusStepsBounded(s.status, s.pc, 16);
  }

  /** Every handler keeps the state valid. */
  lemma ExecuteKeepsValid(s: State, instr: Instr)
    requires Valid(s) && Ready(s, instr)
    ensures Valid(Execute(s, instr))
  {
    match instr
    case In => IncPcKeepsValid(s);
    case Out => IncPcKeepsValid(s);
    case Hlt => IncPcKeepsValid(s);
    case Rst(exp) =>
      SplitJoin(s.pc);
      StackPushKeepsValid(s, HighByte(s.pc), LowByte(s.pc));
    case Inr(r) => IncrementRegisterOrMemoryCell(s, r);
    case Dcr(r) => DecrementRegisterOrMemoryCell(s, r);
    case Cma => ComplementAccumulatorInvolution(s);
    case Daa => DecimalAdjustNeverClearsCarries(s);
    case Push(rp) =>
      PairHalvesAreBytes(s, rp);
      StackPushKeepsValid(s, PairHigh(s, rp), PairLow(s, rp));
    case Pop(rp) => PopKeepsValid(s, rp);
    case Dad(rp) => DoubleAddSum(s, rp);
    case Inx(rp) => IncrementRegisterPairKeepsValid(s, rp);
    case Dcx(rp) => DecrementRegisterPairKeepsValid(s, rp);
    case Xchg => ExchangeRegistersSwaps(s);
    case Xthl => ExchangeStackSwaps(s);
    case Sphl => LoadSpCopiesHL(s);
    case _ =>
  }

  /** Writing any value through any pair, PSW included, keeps a valid state valid. */
  lemma SetPairKeepsValid(s: State, rp: int, v: int)
    requires Valid(s) && 0 <= rp < 4
    ensures Valid(SetPair(s, rp, v))
  {
    SplitJoin(v);
  }

  lemma IncrementRegisterPairKeepsValid(s: State, rp: int)
    requires Valid(s) && 0 <= rp < 4
    ensures Valid(IncrementRegisterPair(s, rp))
  {
    var v := Pair(s, rp);
    StatusStepsBounded(s.status, v, 16);
    SetPairKeepsValid(s.(status := IncrementStatus(s.status, v, 16)), rp, IncrementValue(v, 16));
  }

  lemma DecrementRegisterPairKeepsValid(s: State, rp: int)
    requires Valid(s) && 0 <= rp < 4
    ensures Valid(DecrementRegisterPair(s, rp))
  {
    var v := Pair(s, rp);
    StatusStepsBounded(s.status, v, 16);
    SetPairKeepsValid(s.(status := DecrementStatus(s.status, v, 16)), rp, DecrementValue(v, 16));
  }

  /** `executeInstruction` keeps the machine valid. */
  lemma StepKeepsValid(s: State)
    requires CanStep(s)
    ensures Valid(Step(s))
  {
    var f := Fetch(s);
    ExecuteKeepsValid(f, Decode(f.ir));
    IncPcKeepsValid(Execute(f, Decode(f.ir)));
  }

  /** Where PC points after a whole step: past the opcode, past it twice for IN, OUT and HLT, or to `exp + 1` for RST. */
  function PcAfterStep(pc: int, instr: Instr): int
  {
    match instr
    case In | Out | Hlt => pc + 2
    case Rst(exp) => exp + 1
    case _ => pc + 1
  }

  /** The interrupt flag after a step: EI sets it, DI clears it, nothing else writes it. */
  function InterruptsAfterStep(enabled: bool, instr: Instr): bool
  {
    match instr
    case Ei => true
    case Di => false
    case _ => enabled
  }

  /**
   * What a handler does to the control state: no handler touches the
   * instruction register; IN, OUT and HLT step PC, RST loads it; EI and DI
   * alone write the interrupt flag.
   */
  lemma ExecuteControl(s: State, instr: Instr)
    requires Valid(s) && Ready(s, instr) && s.pc < 0xFFFF
    requires instr.Rst? ==> 0 <= instr.exp < 8
    ensures var t := Execute(s, instr);
      && t.ir == s.ir
      && t.pc + 1 == PcAfterStep(s.pc, instr)
      && t.interruptsEnabled == InterruptsAfterStep(s.interruptsEnabled, instr)
  {
    if instr.Pop? || instr.Dad? || instr.Inx? || instr.Dcx? || instr.Xchg? {
      PairHandlersKeepControl(s, instr);
    }
  }

  /** POP, DAD, INX, DCX and XCHG write only through pairs, so IR, PC and the interrupt flag stay. */
  lemma PairHandlersKeepControl(s: State, instr: Instr)
    requires Valid(s) && Ready(s, instr)
    requires instr.Pop? || instr.Dad? || instr.Inx? || instr.Dcx? || instr.Xchg?
    ensures SameControl(s, Execute(s, instr))
  {
    match instr
    case Pop(rp) => PopKeepsControl(s, rp);
    case Dad(rp) =>
      var sum := Pair(s, rp) + HL(s);
      PairWritesKeepControl(s.(status := AssignBit(s.status, Carry, sum > 0xFFFF)), 2, sum % 0x10000);
    case Inx(rp) =>
      var v := Pair(s, rp);
      PairWritesKeepControl(s.(status := IncrementStatus(s.status, v, 16)), rp, IncrementValue(v, 16));
    case Dcx(rp) =>
      var v := Pair(s, rp);
      PairWritesKeepControl(s.(status := DecrementStatus(s.status, v, 16)), rp, DecrementValue(v, 16));
    case Xchg =>
      PairWritesKeepControl(s, 2, Pair(s, 1));
      PairWritesKeepControl(SetPair(s, 2, Pair(s, 1)), 1, Pair(s, 2));
  }

  /** Neither IR, PC nor the interrupt flag differs between `s` and `t`. */
  predicate SameControl(s: State, t: State)
  {
    t.ir == s.ir && t.pc == s.pc && t.interruptsEnabled == s.interruptsEnabled
  }

  /** Writes through a pair leave IR, PC and the interrupt flag alone. */
  lemma PairWritesKeepControl(s: State, rp: int, v: int)
    requires 0 <= rp < 4
    ensures SameControl(s, SetPairHigh(s, rp, v)) && SameControl(s, SetPairLow(s, rp, v))
    ensures SameControl(s, SetPair(s, rp, v))
  {
  }

  /** POP leaves IR, PC and the interrupt flag alone. */
  lemma PopKeepsControl(s: State, rp: int)
    requires 0 <= rp < 4 && CanPop(s)
    ensures SameControl(s, PopDataOffStack(s, rp))
  {
    var t1 := SetPairLow(s, rp, s.mem[s.sp]);
    PairWritesKeepControl(s, rp, s.mem[s.sp]);
    var sp1 := IncrementValue(s.sp, 16);
    var t2 := t1.(sp := sp1, status := IncrementStatus(t1.status, s.sp, 16));
    PairWritesKeepControl(t2, rp, s.mem[sp1]);
  }

  /**
   * One step away from the top of the address space: the opcode at PC is
   * loaded into IR, PC and the interrupt flag move as PcAfterStep and
   * InterruptsAfterStep say, and the trailing non-wrapping PC step always
   * leaves AuxCarry clear.
   */
  lemma StepControl(s: State)
    requires CanStep(s) && s.pc < 0xFFFE
    ensures Step(s).ir == s.mem[s.pc]
    ensures Step(s).pc == PcAfterStep(s.pc, Decode(s.mem[s.pc]))
    ensures Step(s).interruptsEnabled == InterruptsAfterStep(s.interruptsEnabled, Decode(s.mem[s.pc]))
    ensures !IsSet(Step(s).status, AuxCarry)
  {
    var f := Fetch(s);
    var instr := Decode(f.ir);
    assert instr.Rst? ==> 0 <= instr.exp < 8 by {
      EncodeDecode(f.ir);
    }
    var x := Execute(f, instr);
    ExecuteControl(f, instr);
    assert x.pc < 0xFFFF;
    WordStepClearsAuxCarry(x.status, x.pc);
  }

  /** An opcode the switch does not name only advances PC (and clears AuxCarry with that step). */
  lemma StepUnmatched(s: State)
    requires Valid(s) && s.pc < |s.mem| && s.pc < 0xFFFF
    requires Decode(s.mem[s.pc]) == Unmatched
    ensures CanStep(s)
    ensures Step(s) == s.(ir := s.mem[s.pc], pc := s.pc + 1, status := ClearBit(s.status, AuxCarry))
  {
    WordStepClearsAuxCarry(s.status, s.pc);
  }

  /** INR B at address 0 with B = 0xFF: B wraps to 0, Zero is set, Sign and Parity are clear, PC is 1. */
  lemma IncrementBExample(s: State)
    requires Valid(s) && s.pc == 0 && |s.mem| > 0 && s.mem[0] == 0x04 && s.b == 0xFF
    ensures CanStep(s)
    ensures var t := Step(s);
      && t.b == 0 && t.pc == 1 && t.ir == 0x04
      && IsSet(t.status, Zero) && !IsSet(t.status, Sign) && !IsSet(t.status, Parity)
      && IsSet(t.status, Carry) == IsSet(s.status, Carry)
  {
    DecodeInr(0);
    var f := Fetch(s);
    var x := IncrementRegisterOrMemory(f, 0);
    assert x.status == Refresh(f.status, 0);
    WordStepClearsAuxCarry(x.status, 0);
  }
}
