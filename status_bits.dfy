/**
 * The 8080 condition flags packed into one byte: Carry 0x01, Sign 0x02,
 * Zero 0x04, Parity 0x08, AuxCarry 0x10. The per-flag operations are written
 * once, over a `Flag`, both as functions on the packed byte (used by the
 * CPU) and as methods of `StatusBitRegister`.
 */
module StatusBits {

  datatype Flag = Carry | Sign | Zero | Parity | AuxCarry

  const CARRY_BIT: bv8 := 0x01
  const SIGN_BIT: bv8 := 0x02
  const ZERO_BIT: bv8 := 0x04
  const PARITY_BIT: bv8 := 0x08
  const AUX_CARRY_BIT: bv8 := 0x10

  /** The only bits a status byte is meant to use. */
  const ALL_FLAGS: bv8 := 0x1F

  /** The mask of a flag: a distinct single bit among the five low bits. */
  function Bit(f: Flag): (m: bv8)
    ensures m & ALL_FLAGS == m && m != 0 && m & (m - 1) == 0
  {
    match f
    case Carry => CARRY_BIT
    case Sign => SIGN_BIT
    case Zero => ZERO_BIT
    case Parity => PARITY_BIT
    case AuxCarry => AUX_CARRY_BIT
  }

  /** Distinct flags own distinct bits. */
  lemma BitsDisjoint(f: Flag, g: Flag)
    requires f != g
    ensures Bit(f) & Bit(g) == 0
  {
  }

  predicate IsSet(status: bv8, f: Flag)
  {
    status & Bit(f) != 0
  }

  /** `status |= bit` */
  function SetBit(status: bv8, f: Flag): (r: bv8)
    ensures IsSet(r, f)
    ensures forall g: Flag :: g != f ==> IsSet(r, g) == IsSet(status, g)
    ensures status <= ALL_FLAGS ==> r <= ALL_FLAGS
  {
    status | Bit(f)
  }

  /** `status = (byte) (status & (0x1F ^ bit))` */
  function ClearBit(status: bv8, f: Flag): (r: bv8)
    ensures !IsSet(r, f)
    ensures forall g: Flag :: g != f ==> IsSet(r, g) == IsSet(status, g)
    ensures r <= ALL_FLAGS
  {
    status & (ALL_FLAGS ^ Bit(f))
  }

  /** `status ^= bit` */
  function ToggleBit(status: bv8, f: Flag): (r: bv8)
    ensures IsSet(r, f) == !IsSet(status, f)
    ensures forall g: Flag :: g != f ==> IsSet(r, g) == IsSet(status, g)
    ensures status <= ALL_FLAGS ==> r <= ALL_FLAGS
  {
    status ^ Bit(f)
  }

  /** `if (set) set(bit) else clear(bit)` */
  function AssignBit(status: bv8, f: Flag, b: bool): (r: bv8)
    ensures IsSet(r, f) == b
    ensures forall g: Flag :: g != f ==> IsSet(r, g) == IsSet(status, g)
    ensures status <= ALL_FLAGS ==> r <= ALL_FLAGS
  {
    if b then SetBit(status, f) else ClearBit(status, f)
  }

  /** One flag after an assignment, without quantifiers: the assigned value, or the old one. */
  lemma FlagAfterAssign(status: bv8, f: Flag, b: bool, g: Flag)
    ensures IsSet(AssignBit(status, f, b), g) == if g == f then b else IsSet(status, g)
  {
  }

  /** A status byte within the five flag bits is determined by its five flags. */
  lemma FlagsDetermineStatus(s: bv8, t: bv8)
    requires s <= ALL_FLAGS && t <= ALL_FLAGS
    requires forall f: Flag :: IsSet(s, f) == IsSet(t, f)
    ensures s == t
  {
    assert IsSet(s, Carry) == IsSet(t, Carry);
    assert IsSet(s, Sign) == IsSet(t, Sign);
    assert IsSet(s, Zero) == IsSet(t, Zero);
    assert IsSet(s, Parity) == IsSet(t, Parity);
    assert IsSet(s, AuxCarry) == IsSet(t, AuxCarry);
  }

  /** Toggling a flag twice restores the status byte. */
  lemma ToggleTwice(s: bv8, f: Flag)
    ensures ToggleBit(ToggleBit(s, f), f) == s
  {
  }

  /** The zero byte has every flag clear. */
  lemma NoFlagsInZero(f: Flag)
    ensures !IsSet(0, f)
  {
  }

  class StatusBitRegister {
    var status: bv8

    ghost predicate Valid()
      reads this
    {
      status <= ALL_FLAGS
    }

    constructor ()
      ensures Valid() && status == 0
      ensures forall f: Flag :: !Is(f)
    {
      status := 0;
    }

    /** isCarry, isSign, isZero, isParity, isAuxCarry */
    predicate Is(f: Flag)
      reads this
    {
      IsSet(status, f)
    }

    /** setCarry ... setAuxCarry */
    method Set(f: Flag)
      requires Valid()
      modifies this
      ensures Valid() && status == SetBit(old(status), f)
      ensures Is(f) && forall g: Flag :: g != f ==> Is(g) == old(Is(g))
    {
      status := status | Bit(f);
    }

    /** clearCarry ... clearAuxCarry */
    method Clear(f: Flag)
      requires Valid()
      modifies this
      ensures Valid() && status == ClearBit(old(status), f)
      ensures !Is(f) && forall g: Flag :: g != f ==> Is(g) == old(Is(g))
    {
      status := status & (ALL_FLAGS ^ Bit(f));
    }

    /** toggleCarry ... toggleAuxCarry */
    method Toggle(f: Flag)
      requires Valid()
      modifies this
      ensures Valid() && status == ToggleBit(old(status), f)
      ensures Is(f) == !old(Is(f)) && forall g: Flag :: g != f ==> Is(g) == old(Is(g))
    {
      status := status ^ Bit(f);
    }

    /** assignCarry ... assignAuxCarry */
    method Assign(f: Flag, value: bool)
      requires Valid()
      modifies this
      ensures Valid() && status == AssignBit(old(status), f, value)
      ensures Is(f) == value && forall g: Flag :: g != f ==> Is(g) == old(Is(g))
    {
      if value {
        Set(f);
      } else {
        Clear(f);
      }
    }
  }
}
