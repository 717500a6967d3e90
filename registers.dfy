/**
 * The register cells: a plain 8-bit cell that stores whatever it is given,
 * two 16-bit registers kept as masked high and low bytes (one of them with
 * wrap-around advance and decrement), and a 16-bit pair that is a view over
 * two 8-bit cells rather than storage of its own.
 */
module Registers {
  import opened Bits
  import opened Words

  /** A plain cell: `set` stores its argument as given. */
  class Register8Bit {
    var data: int

    const Width: nat := 8

    constructor ()
      ensures data == 0
    {
      data := 0;
    }

    function Get(): int
      reads this
    {
      data
    }

    method Set(value: int)
      modifies this
      ensures data == value
    {
      data := value;
    }
  }

  /** The program counter and stack pointer: two bytes, masked on every write. */
  class Register16Bit {
    var high: int
    var low: int

    const Width: nat := 16

    ghost predicate Valid()
      reads this
    {
      IsByte(high) && IsByte(low)
    }

    constructor ()
      ensures Valid() && high == 0 && low == 0
    {
      high, low := 0, 0;
    }

    /** `(high << 8) | low` */
    method Get() returns (v: int)
      requires Valid()
      ensures IsWord(v) && v == Word(high, low)
    {
      OrHighLow(high, low, 8);
      JoinSplit(high, low);
      v := Or(high * 0x100, low);
    }

    method SetHigh(value: int)
      modifies this
      ensures high == LowByte(value) && low == old(low)
    {
      high := value % 0x100;
    }

    method SetLow(value: int)
      modifies this
      ensures low == LowByte(value) && high == old(high)
    {
      low := value % 0x100;
    }

    method Set(value: int)
      modifies this
      ensures Valid() && Word(high, low) == value % 0x10000
    {
      SetLow(value % 0x100);
      SetHigh((value / 0x100) % 0x100);
      SplitJoin(value);
    }
  }

  /**
   * The same two masked bytes, with an in-place increment and decrement that
   * carry and borrow between the halves and wrap around at 16 bits.
   */
  class SpecialRegister {
    var high: int
    var low: int

    const Width: nat := 16

    ghost predicate Valid()
      reads this
    {
      IsByte(high) && IsByte(low)
    }

    constructor ()
      ensures Valid() && high == 0 && low == 0
    {
      high, low := 0, 0;
    }

    /** `(high << 8) | low` */
    method Get() returns (v: int)
      requires Valid()
      ensures IsWord(v) && v == Word(high, low)
    {
      OrHighLow(high, low, 8);
      JoinSplit(high, low);
      v := Or(high * 0x100, low);
    }

    method SetHigh(value: int)
      modifies this
      ensures high == LowByte(value) && low == old(low)
    {
      high := value % 0x100;
    }

    method SetLow(value: int)
      modifies this
      ensures low == LowByte(value) && high == old(high)
    {
      low := value % 0x100;
    }

    method Set(value: int)
      modifies this
      ensures Valid() && Word(high, low) == value % 0x10000
    {
      SetLow(value % 0x100);
      SetHigh((value / 0x100) % 0x100);
      SplitJoin(value);
    }

    method Advance()
      requires Valid()
      modifies this
      ensures Valid() && Word(high, low) == (Word(old(high), old(low)) + 1) % 0x10000
    {
      ghost var before := Word(high, low);
      if low == 0xff {
        low := 0x00;
        if high == 0xff {
          high := 0x00;
          assert before + 1 == 0x10000;
        } else {
          high := high + 1;
        }
      } else {
        low := low + 1;
      }
      WrapWord(before + 1);
    }

    method Decrement()
      requires Valid()
      modifies this
      ensures Valid() && Word(high, low) == (Word(old(high), old(low)) - 1) % 0x10000
    {
      ghost var before := Word(high, low);
      if low == 0 {
        low := 0xff;
        if high == 0 {
          high := 0xff;
          assert before - 1 == -1;
        } else {
          high := high - 1;
        }
      } else {
        low := low - 1;
      }
      WrapWord(before - 1);
    }
  }

  lemma WrapWord(x: int)
    requires -1 <= x <= 0x10000
    ensures x % 0x10000 == if x == -1 then 0xFFFF else if x == 0x10000 then 0 else x
  {
  }

  /** Advancing and then decrementing restores the register. */
  method AdvanceThenDecrement(r: SpecialRegister)
    requires r.Valid()
    modifies r
    ensures r.Valid() && r.high == old(r.high) && r.low == old(r.low)
  {
    ghost var w := Word(r.high, r.low);
    r.Advance();
    r.Decrement();
    assert Word(r.high, r.low) == w by {
      WrapWord(w + 1);
      WrapWord((w + 1) % 0x10000 - 1);
    }
    JoinSplit(r.high, r.low);
    JoinSplit(old(r.high), old(r.low));
  }

  /** Decrementing and then advancing restores the register. */
  method DecrementThenAdvance(r: SpecialRegister)
    requires r.Valid()
    modifies r
    ensures r.Valid() && r.high == old(r.high) && r.low == old(r.low)
  {
    ghost var w := Word(r.high, r.low);
    r.Decrement();
    r.Advance();
    assert Word(r.high, r.low) == w by {
      WrapWord(w - 1);
      WrapWord((w - 1) % 0x10000 + 1);
    }
    JoinSplit(r.high, r.low);
    JoinSplit(old(r.high), old(r.low));
  }

  /**
   * A 16-bit view over two 8-bit cells: reads and writes go straight to the
   * cells, so a write through the pair is seen through the cells and the
   * other way round.
   */
  class RegisterPair {
    const high: Register8Bit
    const low: Register8Bit

    const Width: nat := 16

    constructor (high: Register8Bit, low: Register8Bit)
      ensures this.high == high && this.low == low
    {
      this.high := high;
      this.low := low;
    }

    /** `(high.get() << 8) | low.get()` */
    method Get() returns (v: int)
      requires 0 <= high.data && IsByte(low.data)
      ensures v == Word(high.data, low.data)
    {
      OrHighLow(high.data, low.data, 8);
      v := Or(high.data * 0x100, low.data);
    }

    function GetHigh(): int
      reads high
    {
      high.data
    }

    function GetLow(): int
      reads low
    {
      low.data
    }

    /** Writes `(value >> 8) & 0xff` to the high cell, then `value & 0xff` to the low one. */
    method Set(value: int)
      modifies high, low
      ensures low.data == LowByte(value)
      ensures high != low ==> high.data == HighByte(value) && Word(high.data, low.data) == value % 0x10000
    {
      high.Set((value / 0x100) % 0x100);
      low.Set(value % 0x100);
      SplitJoin(value);
    }

    /** Writes the high cell as given, unmasked. */
    method SetHigh(value: int)
      modifies high
      ensures high.data == value
    {
      high.Set(value);
    }

    /** Writes the low cell as given, unmasked. */
    method SetLow(value: int)
      modifies low
      ensures low.data == value
    {
      low.Set(value);
    }
  }
}
