/**
 * What one instruction does to the whole machine, as a function on values.
 * Each function follows the order of writes of the corresponding handler in
 * CPU.java, including its departures from the 8080 data sheet: the parity
 * test, the AuxCarry writes of the shared increment and decrement, RST's
 * target address, PSW as pair 3 and HLT's extra PC step.
 */
module CpuSpec {
  import opened Bits
  import opened Words
  import opened StatusBits

  /** Every register, the five flags, PC, SP, the interrupt flip-flop and memory. */
  datatype State = State(
    ir: int, a: int, b: int, c: int, d: int, e: int, h: int, l: int,
    status: bv8, pc: int, sp: int, interruptsEnabled: bool, mem: seq<int>)

  /** The invariant every reachable state keeps: 8-bit cells hold bytes, 16-bit registers hold words. */
  ghost predicate Valid(s: State)
  {
    && IsByte(s.ir) && IsByte(s.a) && IsByte(s.b) && IsByte(s.c)
    && IsByte(s.d) && IsByte(s.e) && IsByte(s.h) && IsByte(s.l)
    && s.status <= ALL_FLAGS
    && IsWord(s.pc) && IsWord(s.sp)
    && (forall i :: 0 <= i < |s.mem| ==> IsByte(s.mem[i]))
  }

  // ---------------------------------------------------------------------
  // The shared helpers: increment, decrement and the flag refresh.
  // ---------------------------------------------------------------------

  /** `bits == 8 ? 0xff : 0xffff` */
  function MaxValue(bits: int): int
  {
    if bits == 8 then 0xFF else 0xFFFF
  }

  /** The value `increment(data, bits)` returns. */
  function IncrementValue(data: int, bits: int): int
  {
    if data == MaxValue(bits) then 0 else data + 1
  }

  /** The status `increment(data, bits)` leaves: AuxCarry is written unless the value wraps. */
  function IncrementStatus(status: bv8, data: int, bits: int): bv8
  {
    if data == MaxValue(bits) then status
    else AssignBit(status, AuxCarry, bits == 8 && data % 0x10 == 0x09)
  }

  /** The value `decrement(data, bits)` returns. */
  function DecrementValue(data: int, bits: int): int
  {
    if data == 0 then MaxValue(bits) else data - 1
  }

  /** The status `decrement(data, bits)` leaves: `(data & 0x0F) == 0x10` is what the handler tests. */
  function DecrementStatus(status: bv8, data: int, bits: int): bv8
  {
    if data == 0 then status
    else AssignBit(status, AuxCarry, bits == 8 && data % 0x10 == 0x10)
  }

  /** `getParity(v, 8)` as written: true as soon as some `v & i`, i in 7..0, is non-zero. */
  predicate ParityAsWritten(v: int)
  {
    v % 8 != 0
  }

  /** `checkAndSetStatusBits`: Sign from bit 7, Zero from `v == 0`, Parity as written. */
  function Refresh(status: bv8, v: int): (r: bv8)
    ensures IsSet(r, Sign) == ((v / 0x80) % 2 == 1)
    ensures IsSet(r, Zero) == (v == 0)
    ensures IsSet(r, Parity) == ParityAsWritten(v)
    ensures IsSet(r, Carry) == IsSet(status, Carry)
    ensures IsSet(r, AuxCarry) == IsSet(status, AuxCarry)
    ensures status <= ALL_FLAGS ==> r <= ALL_FLAGS
  {
    var sign, zero, parity := (v / 0x80) % 2 == 1, v == 0, ParityAsWritten(v);
    var s1 := AssignBit(status, Sign, sign);
    var s2 := AssignBit(s1, Zero, zero);
    var r := AssignBit(s2, Parity, parity);
    FlagAfterAssign(status, Sign, sign, Sign);
    FlagAfterAssign(status, Sign, sign, Carry);
    FlagAfterAssign(status, Sign, sign, AuxCarry);
    FlagAfterAssign(s1, Zero, zero, Sign);
    FlagAfterAssign(s1, Zero, zero, Zero);
    FlagAfterAssign(s1, Zero, zero, Carry);
    FlagAfterAssign(s1, Zero, zero, AuxCarry);
    FlagAfterAssign(s2, Parity, parity, Sign);
    FlagAfterAssign(s2, Parity, parity, Zero);
    FlagAfterAssign(s2, Parity, parity, Parity);
    FlagAfterAssign(s2, Parity, parity, Carry);
    FlagAfterAssign(s2, Parity, parity, AuxCarry);
    r
  }

  // ---------------------------------------------------------------------
  // Registers, pairs and the PSW view.
  // ---------------------------------------------------------------------

  function HL(s: State): int
  {
    Word(s.h, s.l)
  }

  /**
   * The status register seen as the high half of PSW. StatusBitRegister has
   * no `get`/`set` of its own; the model assumes that reading it gives the
   * status byte and that writing it keeps the five flag bits of the value.
   */
  function PswHigh(status: bv8): (v: int)
    ensures 0 <= v < 0x100 && (status <= ALL_FLAGS ==> v <= 0x1F)
  {
    status as int
  }

  function PswStore(v: int): (r: bv8)
    ensures r <= ALL_FLAGS
  {
    (v % 0x20) as bv8
  }

  /** `getSingleRegister(r)` read: B, C, D, E, H, L, the memory cell at HL, A. */
  function Reg(s: State, r: int): int
    requires 0 <= r < 8
    requires r == 6 ==> 0 <= HL(s) < |s.mem|
  {
    match r
    case 0 => s.b
    case 1 => s.c
    case 2 => s.d
    case 3 => s.e
    case 4 => s.h
    case 5 => s.l
    case 6 => s.mem[HL(s)]
    case _ => s.a
  }

  /** `getSingleRegister(r).set(v)` */
  function SetReg(s: State, r: int, v: int): State
    requires 0 <= r < 8
    requires r == 6 ==> 0 <= HL(s) < |s.mem|
  {
    match r
    case 0 => s.(b := v)
    case 1 => s.(c := v)
    case 2 => s.(d := v)
    case 3 => s.(e := v)
    case 4 => s.(h := v)
    case 5 => s.(l := v)
    case 6 => s.(mem := s.mem[HL(s) := v])
    case _ => s.(a := v)
  }

  /** `getRegisterPair(rp).getHigh()`: B, D, H, or the status register for PSW. */
  function PairHigh(s: State, rp: int): int
    requires 0 <= rp < 4
  {
    match rp
    case 0 => s.b
    case 1 => s.d
    case 2 => s.h
    case _ => PswHigh(s.status)
  }

  /** `getRegisterPair(rp).getLow()`: C, E, L, or A for PSW. */
  function PairLow(s: State, rp: int): int
    requires 0 <= rp < 4
  {
    match rp
    case 0 => s.c
    case 1 => s.e
    case 2 => s.l
    case _ => s.a
  }

  /** `getRegisterPair(rp).get()` */
  function Pair(s: State, rp: int): int
    requires 0 <= rp < 4
  {
    Word(PairHigh(s, rp), PairLow(s, rp))
  }

  /** `getRegisterPair(rp).setHigh(v)`, unmasked except through the PSW view. */
  function SetPairHigh(s: State, rp: int, v: int): State
    requires 0 <= rp < 4
  {
    match rp
    case 0 => s.(b := v)
    case 1 => s.(d := v)
    case 2 => s.(h := v)
    case _ => s.(status := PswStore(v))
  }

  /** `getRegisterPair(rp).setLow(v)` */
  function SetPairLow(s: State, rp: int, v: int): State
    requires 0 <= rp < 4
  {
    match rp
    case 0 => s.(c := v)
    case 1 => s.(e := v)
    case 2 => s.(l := v)
    case _ => s.(a := v)
  }

  /** `getRegisterPair(rp).set(v)`: the high byte is written first, then the low one. */
  function SetPair(s: State, rp: int, v: int): State
    requires 0 <= rp < 4
  {
    SetPairLow(SetPairHigh(s, rp, HighByte(v)), rp, LowByte(v))
  }

  // ---------------------------------------------------------------------
  // The stack.
  // ---------------------------------------------------------------------

  /** `stackPush(high, low)` can address both cells it writes. */
  predicate CanPush(s: State)
  {
    var sp1 := DecrementValue(s.sp, 16);
    0 <= sp1 < |s.mem| && 0 <= DecrementValue(sp1, 16) < |s.mem|
  }

  /** `stackPop(pair)` can address both cells it reads. */
  predicate CanPop(s: State)
  {
    0 <= s.sp < |s.mem| && 0 <= IncrementValue(s.sp, 16) < |s.mem|
  }

  /** Decrement SP, store high there, decrement SP again, store low there. */
  function StackPush(s: State, high: int, low: int): State
    requires CanPush(s)
  {
    var sp1 := DecrementValue(s.sp, 16);
    var st1 := DecrementStatus(s.status, s.sp, 16);
    var sp2 := DecrementValue(sp1, 16);
    var st2 := DecrementStatus(st1, sp1, 16);
    s.(sp := sp2, status := st2, mem := s.mem[sp1 := high][sp2 := low])
  }

  /** Load the pair's low half from SP, step SP, load the high half, step SP. */
  function PopDataOffStack(s: State, rp: int): State
    requires 0 <= rp < 4 && CanPop(s)
  {
    var t1 := SetPairLow(s, rp, s.mem[s.sp]);
    var sp1 := IncrementValue(s.sp, 16);
    var t2 := t1.(sp := sp1, status := IncrementStatus(t1.status, s.sp, 16));
    var t3 := SetPairHigh(t2, rp, s.mem[sp1]);
    t3.(sp := IncrementValue(sp1, 16), status := IncrementStatus(t3.status, sp1, 16))
  }

  // ---------------------------------------------------------------------
  // The instructions.
  // ---------------------------------------------------------------------

  /** `increment(programCounter)` */
  function IncPc(s: State): State
  {
    s.(pc := IncrementValue(s.pc, 16), status := IncrementStatus(s.status, s.pc, 16))
  }

  /** RST: push PC's two bytes, then PC := exp (the trailing PC step comes later). */
  function RestartInstruction(s: State, exp: int): State
    requires CanPush(s)
  {
    StackPush(s, HighByte(s.pc), LowByte(s.pc)).(pc := exp % 0x10000)
  }

  /** INR: increment the selected cell, then refresh Sign, Zero and Parity from it. */
  function IncrementRegisterOrMemory(s: State, r: int): State
    requires 0 <= r < 8 && (r == 6 ==> 0 <= HL(s) < |s.mem|)
    requires Valid(s)
  {
    var v := Reg(s, r);
    var w := IncrementValue(v, 8);
    SetReg(s, r, w).(status := Refresh(IncrementStatus(s.status, v, 8), w))
  }

  /** DCR: decrement the selected cell, then refresh Sign, Zero and Parity from it. */
  function DecrementRegisterOrMemory(s: State, r: int): State
    requires 0 <= r < 8 && (r == 6 ==> 0 <= HL(s) < |s.mem|)
    requires Valid(s)
  {
    var v := Reg(s, r);
    var w := DecrementValue(v, 8);
    SetReg(s, r, w).(status := Refresh(DecrementStatus(s.status, v, 8), w))
  }

  /** CMA: `A ^ 0xFF`, which for a byte is `0xFF - A`. */
  function ComplementAccumulator(s: State): State
    requires Valid(s)
  {
    s.(a := 0xFF - s.a)
  }

  /** One of DAA's nibble steps: add 6 modulo 16 and set flag f when the nibble exceeds 9 or f is set. */
  function NibbleAdjustment(nibble: int, status: bv8, f: Flag): (r: (int, bv8))
    ensures IsSet(r.1, f) == (nibble > 9 || IsSet(status, f))
    ensures forall g: Flag :: g != f ==> IsSet(r.1, g) == IsSet(status, g)
    ensures 0 <= nibble < 0x10 ==> 0 <= r.0 < 0x10
  {
    if nibble > 9 || IsSet(status, f) then ((nibble + 6) % 0x10, SetBit(status, f))
    else (nibble, status)
  }

  /** DAA: adjust the low nibble against AuxCarry, then the high one against Carry; refresh flags. */
  function DecimalAdjustAccumulator(s: State): State
    requires Valid(s)
  {
    var low := NibbleAdjustment(s.a % 0x10, s.status, AuxCarry);
    var high := NibbleAdjustment((s.a / 0x10) % 0x10, low.1, Carry);
    var a' := high.0 * 0x10 + low.0;
    s.(a := a', status := Refresh(high.1, a'))
  }

  /** PUSH rp: the pair's halves are read before SP moves. */
  function PushDataOntoStack(s: State, rp: int): State
    requires 0 <= rp < 4 && CanPush(s)
  {
    StackPush(s, PairHigh(s, rp), PairLow(s, rp))
  }

  /** DAD rp: HL := (rp + HL) & 0xFFFF, Carry := the sum exceeds 0xFFFF. */
  function DoubleAdd(s: State, rp: int): State
    requires 0 <= rp < 4 && Valid(s)
  {
    var sum := Pair(s, rp) + HL(s);
    SetPair(s.(status := AssignBit(s.status, Carry, sum > 0xFFFF)), 2, sum % 0x10000)
  }

  /** INX rp: the shared 16-bit increment, AuxCarry written before the pair is. */
  function IncrementRegisterPair(s: State, rp: int): State
    requires 0 <= rp < 4
  {
    var v := Pair(s, rp);
    SetPair(s.(status := IncrementStatus(s.status, v, 16)), rp, IncrementValue(v, 16))
  }

  /** DCX rp: the shared 16-bit decrement, AuxCarry written before the pair is. */
  function DecrementRegisterPair(s: State, rp: int): State
    requires 0 <= rp < 4
  {
    var v := Pair(s, rp);
    SetPair(s.(status := DecrementStatus(s.status, v, 16)), rp, DecrementValue(v, 16))
  }

  /** XCHG: HL := DE, then DE := the old HL, each through the pair's masked `set`. */
  function ExchangeRegisters(s: State): State
  {
    var temp := Pair(s, 2);
    SetPair(SetPair(s, 2, Pair(s, 1)), 1, temp)
  }

  /** XTHL: swap L with the cell at SP, then H with the cell at SP + 1. */
  function ExchangeStack(s: State): State
    requires 0 <= s.sp && s.sp + 1 < |s.mem|
  {
    s.(l := s.mem[s.sp], h := s.mem[s.sp + 1], mem := s.mem[s.sp := s.l][s.sp + 1 := s.h])
  }

  /** SPHL: SP := HL through the 16-bit register's masked `set`. */
  function LoadSpFromHAndL(s: State): State
  {
    s.(sp := HL(s) % 0x10000)
  }

  // ---------------------------------------------------------------------
  // Decoding and one step.
  // ---------------------------------------------------------------------

  datatype Instr =
    | In | Out | Ei | Di | Hlt | Rst(exp: int) | Cmc | Stc | Nop
    | Inr(r: int) | Dcr(r: int) | Cma | Daa
    | Push(rp: int) | Pop(rp: int) | Dad(rp: int) | Inx(rp: int) | Dcx(rp: int)
    | Xchg | Xthl | Sphl
    | Unmatched

  /** `(num & 0070) >> 3`: bits 3..5 of num, as Get3BitParamMask shows. */
  function Get3BitParam(num: nat): (r: nat)
    ensures r < 8
  {
    (num / 8) % 8
  }

  /** The field read by Get3BitParam is the source's mask and shift. */
  lemma Get3BitParamMask(num: nat)
    ensures Get3BitParam(num) == And(num, 0x38) / 8
  {
    BitsThreeToFive(num);
  }

  /** `(num & 0060) >> 4`: bits 4..5 of num, as Get2BitParamMask shows. */
  function Get2BitParam(num: nat): (r: nat)
    ensures r < 4
  {
    (num / 16) % 4
  }

  /** The field read by Get2BitParam is the source's mask and shift. */
  lemma Get2BitParamMask(num: nat)
    ensures Get2BitParam(num) == And(num, 0x30) / 16
  {
    BitsFourToFive(num);
  }

  /** The case labels of `executeInstruction`'s switch, in the order written. */
  function Decode(op: nat): (instr: Instr)
  {
    match op
    case 0xDB => In
    case 0xD3 => Out
    case 0xFB => Ei
    case 0xF3 => Di
    case 0x76 => Hlt
    case 0xC7 | 0xCF | 0xD7 | 0xDF | 0xE7 | 0xEF | 0xF7 | 0xFF => Rst(Get3BitParam(op))
    case 0x3F => Cmc
    case 0x37 => Stc
    case 0x00 => Nop
    case 0x04 | 0x0C | 0x14 | 0x1C | 0x24 | 0x2C | 0x34 | 0x3C => Inr(Get3BitParam(op))
    case 0x05 | 0x0D | 0x15 | 0x1D | 0x25 | 0x2D | 0x35 | 0x3D => Dcr(Get3BitParam(op))
    case 0x2F => Cma
    case 0x27 => Daa
    case 0xC5 | 0xD5 | 0xE5 | 0xF5 => Push(Get2BitParam(op))
    case 0xC1 | 0xD1 | 0xE1 | 0xF1 => Pop(Get2BitParam(op))
    case 0x09 | 0x19 | 0x29 | 0x39 => Dad(Get2BitParam(op))
    case 0x03 | 0x13 | 0x23 | 0x33 => Inx(Get2BitParam(op))
    case 0x0B | 0x1B | 0x2B | 0x3B => Dcx(Get2BitParam(op))
    case 0xEB => Xchg
    case 0xE3 => Xthl
    case 0xF9 => Sphl
    case _ => Unmatched
  }

  /** The operand fields a decoded instruction can carry. */
  predicate WellFormed(instr: Instr)
  {
    match instr
    case Rst(exp) => 0 <= exp < 8
    case Inr(r) => 0 <= r < 8
    case Dcr(r) => 0 <= r < 8
    case Push(rp) => 0 <= rp < 4
    case Pop(rp) => 0 <= rp < 4
    case Dad(rp) => 0 <= rp < 4
    case Inx(rp) => 0 <= rp < 4
    case Dcx(rp) => 0 <= rp < 4
    case Unmatched => false
    case _ => true
  }

  /** The opcode of a well-formed instruction: the reference the decoder is checked against. */
  function Encode(instr: Instr): (op: nat)
    requires WellFormed(instr)
    ensures op < 0x100
  {
    match instr
    case In => 0xDB
    case Out => 0xD3
    case Ei => 0xFB
    case Di => 0xF3
    case Hlt => 0x76
    case Rst(exp) => 0xC7 + 8 * exp
    case Cmc => 0x3F
    case Stc => 0x37
    case Nop => 0x00
    case Inr(r) => 0x04 + 8 * r
    case Dcr(r) => 0x05 + 8 * r
    case Cma => 0x2F
    case Daa => 0x27
    case Push(rp) => 0xC5 + 16 * rp
    case Pop(rp) => 0xC1 + 16 * rp
    case Dad(rp) => 0x09 + 16 * rp
    case Inx(rp) => 0x03 + 16 * rp
    case Dcx(rp) => 0x0B + 16 * rp
    case Xchg => 0xEB
    case Xthl => 0xE3
    case Sphl => 0xF9
  }

  /** The memory accesses the handler makes are within range. */
  predicate Ready(s: State, instr: Instr)
  {
    match instr
    case Rst(_) => CanPush(s)
    case Inr(r) => 0 <= r < 8 && (r == 6 ==> 0 <= HL(s) < |s.mem|)
    case Dcr(r) => 0 <= r < 8 && (r == 6 ==> 0 <= HL(s) < |s.mem|)
    case Push(rp) => 0 <= rp < 4 && CanPush(s)
    case Pop(rp) => 0 <= rp < 4 && CanPop(s)
    case Dad(rp) => 0 <= rp < 4
    case Inx(rp) => 0 <= rp < 4
    case Dcx(rp) => 0 <= rp < 4
    case Xthl => s.sp + 1 < |s.mem|
    case _ => true
  }

  /** The handler the switch runs, before the trailing PC step. */
  function Execute(s: State, instr: Instr): State
    requires Valid(s) && Ready(s, instr)
  {
    match instr
    case In => IncPc(s)
    case Out => IncPc(s)
    case Ei => s.(interruptsEnabled := true)
    case Di => s.(interruptsEnabled := false)
    case Hlt => IncPc(s)
    case Rst(exp) => RestartInstruction(s, exp)
    case Cmc => s.(status := ToggleBit(s.status, Carry))
    case Stc => s.(status := SetBit(s.status, Carry))
    case Nop => s
    case Inr(r) => IncrementRegisterOrMemory(s, r)
    case Dcr(r) => DecrementRegisterOrMemory(s, r)
    case Cma => ComplementAccumulator(s)
    case Daa => DecimalAdjustAccumulator(s)
    case Push(rp) => PushDataOntoStack(s, rp)
    case Pop(rp) => PopDataOffStack(s, rp)
    case Dad(rp) => DoubleAdd(s, rp)
    case Inx(rp) => IncrementRegisterPair(s, rp)
    case Dcx(rp) => DecrementRegisterPair(s, rp)
    case Xchg => ExchangeRegisters(s)
    case Xthl => ExchangeStack(s)
    case Sphl => LoadSpFromHAndL(s)
    case Unmatched => s
  }

  /** The state after loading `mem[PC]` into the instruction register. */
  function Fetch(s: State): State
    requires s.pc < |s.mem| && IsWord(s.pc)
  {
    s.(ir := s.mem[s.pc])
  }

  /** `executeInstruction` can run to completion from s. */
  ghost predicate CanStep(s: State)
  {
    && Valid(s) && s.pc < |s.mem|
    && Ready(Fetch(s), Decode(s.mem[s.pc]))
  }

  /** `executeInstruction`: fetch, run the handler, step PC. */
  function Step(s: State): State
    requires CanStep(s)
  {
    var f := Fetch(s);
    IncPc(Execute(f, Decode(f.ir)))
  }
}
