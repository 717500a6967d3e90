/**
 * The byte and word arithmetic shared by every 16-bit register: a word is
 * `(high << 8) | low`, and storing a word keeps `(v >> 8) & 0xff` and
 * `v & 0xff`. Java's `&` with a positive mask and its arithmetic `>>` agree
 * with Dafny's Euclidean `%` and `/` on every int, negative ones included.
 */
module Words {

  predicate IsByte(v: int) { 0 <= v < 0x100 }

  predicate IsWord(v: int) { 0 <= v < 0x10000 }

  /** `(high << 8) | low` for a byte-sized low half. */
  function Word(high: int, low: int): int { high * 0x100 + low }

  /** `(v >> 8) & 0xff` */
  function HighByte(v: int): int { (v / 0x100) % 0x100 }

  /** `v & 0xff` */
  function LowByte(v: int): int { v % 0x100 }

  /** Storing a value as two bytes keeps it modulo 2^16. */
  lemma SplitJoin(v: int)
    ensures IsByte(HighByte(v)) && IsByte(LowByte(v))
    ensures Word(HighByte(v), LowByte(v)) == v % 0x10000
  {
    var q := v / 0x100;
    assert v == 0x100 * q + LowByte(v);
    assert q == 0x100 * (q / 0x100) + HighByte(v);
    assert v == 0x10000 * (q / 0x100) + Word(HighByte(v), LowByte(v));
  }

  /** Storing a word keeps it whole. */
  lemma WordKeepsValue(v: int)
    requires IsWord(v)
    ensures v % 0x10000 == v
  {
  }

  /** Reading back the two bytes of a word gives the bytes it was made of. */
  lemma JoinSplit(high: int, low: int)
    requires IsByte(high) && IsByte(low)
    ensures IsWord(Word(high, low))
    ensures HighByte(Word(high, low)) == high && LowByte(Word(high, low)) == low
  {
  }
}
