/**
 * Main memory: a fixed array of cells, addressed either directly by a high
 * and a low byte or indirectly through the value held in a register. There
 * is no wrap-around at this level: an index outside the array is a fault,
 * which callers must rule out. A cell stores whatever value it is given.
 */
module MemoryCells {
  import opened Bits

  const DEFAULT_CAPACITY: nat := 8096

  /** The cell index for direct addressing, `(high << 8) | low`. */
  function Index(high: nat, low: nat): (i: nat)
    ensures low < 0x100 ==> i == high * 0x100 + low
  {
    if low < 0x100 then OrHighLow(high, low, 8); Or(high * 0x100, low)
    else Or(high * 0x100, low)
  }

  /** The cell index for indirect addressing, `register.get() + offset`, unwrapped. */
  function Address(registerValue: int, offset: int): int
  {
    registerValue + offset
  }

  /** `numBytes` fresh cells, each holding 0. */
  method ZeroedCells(numBytes: nat) returns (cells: array<int>)
    ensures fresh(cells) && cells.Length == numBytes
    ensures forall i :: 0 <= i < numBytes ==> cells[i] == 0
  {
    cells := new int[numBytes];
    for i := 0 to numBytes
      invariant forall j :: 0 <= j < i ==> cells[j] == 0
    {
      cells[i] := 0;
    }
  }

  class Memory {
    const bytes: array<int>

    /** `new Memory()`: the default 8096 cells. */
    constructor Default()
      ensures fresh(bytes) && bytes.Length == DEFAULT_CAPACITY
      ensures forall i :: 0 <= i < bytes.Length ==> bytes[i] == 0
    {
      var cells := ZeroedCells(DEFAULT_CAPACITY);
      bytes := cells;
    }

    /** `new Memory(numBytes)` */
    constructor (numBytes: nat)
      ensures fresh(bytes) && bytes.Length == numBytes
      ensures forall i :: 0 <= i < bytes.Length ==> bytes[i] == 0
    {
      var cells := ZeroedCells(numBytes);
      bytes := cells;
    }

    /** `get(high, low)` */
    method Get(high: nat, low: nat) returns (v: int)
      requires Index(high, low) < bytes.Length
      ensures v == bytes[Index(high, low)]
    {
      v := bytes[Index(high, low)];
    }

    /** `set(high, low, value)`: only the addressed cell changes. */
    method Set(high: nat, low: nat, value: int)
      requires Index(high, low) < bytes.Length
      modifies bytes
      ensures bytes[..] == old(bytes[..])[Index(high, low) := value]
    {
      bytes[Index(high, low)] := value;
    }

    /** `address(register, offset).get()`, given the register's value. */
    method GetAddressed(registerValue: int, offset: int) returns (v: int)
      requires 0 <= Address(registerValue, offset) < bytes.Length
      ensures v == bytes[registerValue + offset]
    {
      v := bytes[Address(registerValue, offset)];
    }

    /** `address(register, offset).set(value)`, given the register's value: only that cell changes. */
    method SetAddressed(registerValue: int, offset: int, value: int)
      requires 0 <= Address(registerValue, offset) < bytes.Length
      modifies bytes
      ensures bytes[..] == old(bytes[..])[registerValue + offset := value]
    {
      bytes[Address(registerValue, offset)] := value;
    }

    /** `get(register)`, given the register's value. */
    method GetIndirect(registerValue: int) returns (v: int)
      requires 0 <= registerValue < bytes.Length
      ensures v == bytes[registerValue]
    {
      v := GetAddressed(registerValue, 0);
    }

    /** `set(register, value)`, given the register's value: only that cell changes. */
    method SetIndirect(registerValue: int, value: int)
      requires 0 <= registerValue < bytes.Length
      modifies bytes
      ensures bytes[..] == old(bytes[..])[registerValue := value]
    {
      SetAddressed(registerValue, 0, value);
    }
  }

  /** With the default capacity, (0x1F, 0x9F) is the last cell; (0x1F, 0xA0) and (0x20, 0x00) are past the end. */
  lemma DefaultCapacityBounds()
    ensures Index(0x1F, 0x9F) == DEFAULT_CAPACITY - 1
    ensures Index(0x1F, 0xA0) == DEFAULT_CAPACITY
    ensures Index(0x20, 0x00) > DEFAULT_CAPACITY
  {
  }

  /** A store followed by a load of the same address gives the stored value; other cells keep theirs. */
  method StoreThenLoad(m: Memory, high: nat, low: nat, value: int) returns (v: int)
    requires Index(high, low) < m.bytes.Length
    modifies m.bytes
    ensures v == value
    ensures forall i :: 0 <= i < m.bytes.Length && i != Index(high, low) ==> m.bytes[i] == old(m.bytes[i])
  {
    m.Set(high, low, value);
    v := m.Get(high, low);
  }
}
