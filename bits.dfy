/**
 * Java's bitwise operators on non-negative ints, written bit by bit, and the
 * facts that turn the masks the simulator uses (`& 0x0F`, `& 0070`, `^ 0xFF`,
 * `(h << 8) | l`) into ordinary arithmetic.
 */
module Bits {

  function Pow2(k: nat): (p: nat)
    ensures p >= 1
  {
    if k == 0 then 1 else 2 * Pow2(k - 1)
  }

  /** `a & b` */
  function And(a: nat, b: nat): (r: nat)
    ensures r <= a && r <= b
    decreases a
  {
    if a == 0 || b == 0 then 0
    else 2 * And(a / 2, b / 2) + (if a % 2 == 1 && b % 2 == 1 then 1 else 0)
  }

  /** `a | b` */
  function Or(a: nat, b: nat): (r: nat)
    ensures a <= r && b <= r && r <= a + b
    decreases a
  {
    if a == 0 then b
    else if b == 0 then a
    else 2 * Or(a / 2, b / 2) + (if a % 2 == 1 || b % 2 == 1 then 1 else 0)
  }

  /** `a ^ b` */
  function Xor(a: nat, b: nat): (r: nat)
    ensures r <= a + b
    decreases a
  {
    if a == 0 then b
    else if b == 0 then a
    else 2 * Xor(a / 2, b / 2) + (if a % 2 != b % 2 then 1 else 0)
  }

  lemma MulAtLeast(n: int, x: int)
    requires n > 0 && x > 0
    ensures n * x >= n
  {
    if x > 1 {
      MulAtLeast(n, x - 1);
      assert n * x == n * (x - 1) + n;
    }
  }

  lemma DoubleTimes(q: int, x: int)
    ensures (2 * q) * x == 2 * (q * x)
  {
  }

  /** Quotient and remainder are determined by any decomposition a == n * t + r with 0 <= r < n. */
  lemma DivModUnique(a: int, n: int, t: int, r: int)
    requires n > 0 && 0 <= r < n && a == n * t + r
    ensures a / n == t && a % n == r
  {
    var q, m := a / n, a % n;
    assert a == n * q + m;
    if t > q {
      MulAtLeast(n, t - q);
      assert false;
    } else if t < q {
      MulAtLeast(n, q - t);
      assert false;
    }
  }

  /** Splitting off the lowest bit: a % 2q and a / 2q in terms of a / 2. */
  lemma HalveDivMod(a: nat, q: nat)
    requires q > 0
    ensures a % (2 * q) == 2 * ((a / 2) % q) + a % 2
    ensures a / (2 * q) == (a / 2) / q
  {
    var m, t, u := a / 2, (a / 2) / q, (a / 2) % q;
    assert m == q * t + u;
    assert a == (2 * q) * t + (2 * u + a % 2);
    DivModUnique(a, 2 * q, t, 2 * u + a % 2);
  }

  /** `2^k - 1`, the mask of k one bits. */
  function Ones(k: nat): (m: nat)
    ensures m < Pow2(k)
  {
    if k == 0 then 0 else 2 * Ones(k - 1) + 1
  }

  /** The k low bits of a, taken one at a time. */
  function LowBits(a: nat, k: nat): (r: nat)
    ensures r <= Ones(k)
  {
    if k == 0 then 0 else 2 * LowBits(a / 2, k - 1) + a % 2
  }

  lemma {:induction false} OnesIsPow2(k: nat)
    ensures Ones(k) == Pow2(k) - 1
  {
    if k > 0 {
      OnesIsPow2(k - 1);
    }
  }

  lemma {:induction false} LowBitsIsMod(a: nat, k: nat)
    ensures LowBits(a, k) == a % Pow2(k)
  {
    if k > 0 {
      LowBitsIsMod(a / 2, k - 1);
      HalveDivMod(a, Pow2(k - 1));
    }
  }

  /** Masking with k one bits keeps the k low bits, bit by bit. */
  lemma {:induction false} AndOnes(a: nat, k: nat)
    ensures And(a, Ones(k)) == LowBits(a, k)
  {
    if k > 0 && a > 0 {
      AndOnes(a / 2, k - 1);
    } else if k > 0 {
      AndOnes(a, k - 1);
    }
  }

  /** `a & (2^k - 1)` keeps the k low bits. */
  lemma AndLowOnes(a: nat, k: nat)
    ensures And(a, Pow2(k) - 1) == a % Pow2(k)
  {
    OnesIsPow2(k);
    AndOnes(a, k);
    LowBitsIsMod(a, k);
  }

  /** A value whose k low bits are clear shares no bit with any b < 2^k. */
  lemma {:induction false} AndClearLow(a: nat, b: nat, k: nat)
    requires a % Pow2(k) == 0 && b < Pow2(k)
    ensures And(a, b) == 0
  {
    if k > 0 && a > 0 && b > 0 {
      var q := Pow2(k - 1);
      HalveDivMod(a, q);
      AndClearLow(a / 2, b / 2, k - 1);
    }
  }

  /** `a & (b << 1)` is `((a >> 1) & b) << 1`. */
  lemma AndDouble(a: nat, b: nat)
    ensures And(a, 2 * b) == 2 * And(a / 2, b)
  {
    if a > 0 && b > 0 {
      assert (2 * b) / 2 == b && (2 * b) % 2 == 0;
    }
  }

  /** `a ^ (2^k - 1)` complements the k low bits of a value below 2^k. */
  lemma {:induction false} XorLowOnes(a: nat, k: nat)
    requires a < Pow2(k)
    ensures Xor(a, Pow2(k) - 1) == Pow2(k) - 1 - a
  {
    if k > 0 && a > 0 {
      var q := Pow2(k - 1);
      assert (Pow2(k) - 1) / 2 == q - 1 && (Pow2(k) - 1) % 2 == 1;
      XorLowOnes(a / 2, k - 1);
    }
  }

  /** `(h << k) | l` is `h * 2^k + l` when l fits in k bits. */
  lemma {:induction false} OrShifted(h: nat, l: nat, k: nat)
    requires l < Pow2(k)
    ensures Or(h * Pow2(k), l) == h * Pow2(k) + l
  {
    if k > 0 && h > 0 && l > 0 {
      var q := Pow2(k - 1);
      assert h * Pow2(k) == 2 * (h * q);
      OrShifted(h, l / 2, k - 1);
    }
  }

  // The instances the simulator uses.

  lemma LowNibble(a: nat)
    ensures And(a, 0x0F) == a % 16
  {
    AndLowOnes(a, 4);
  }

  /** `a & 0xFFFF` keeps the low 16 bits. */
  lemma LowWord(a: nat)
    ensures And(a, 0xFFFF) == a % 0x10000
  {
    assert Pow2(8) == 0x100;
    assert Pow2(12) == 0x1000;
    assert Pow2(16) == 0x10000;
    AndLowOnes(a, 16);
  }

  /** `b << k` */
  function Shl(b: nat, k: nat): (r: nat)
    ensures b <= r
  {
    if k == 0 then b else 2 * Shl(b, k - 1)
  }

  /** `a >> k` */
  function Shr(a: nat, k: nat): (r: nat)
    ensures r <= a
  {
    if k == 0 then a else Shr(a / 2, k - 1)
  }

  /** Shifting left by k multiplies by 2^k. */
  lemma {:induction false} ShlIsMul(b: nat, k: nat)
    ensures Shl(b, k) == b * Pow2(k)
  {
    if k > 0 {
      ShlIsMul(b, k - 1);
      DoubleTimes(Pow2(k - 1), b);
    }
  }

  /** Shifting right by k divides by 2^k. */
  lemma {:induction false} ShrIsDiv(a: nat, k: nat)
    ensures Shr(a, k) == a / Pow2(k)
  {
    if k > 0 {
      ShrIsDiv(a / 2, k - 1);
      HalveDivMod(a, Pow2(k - 1));
    }
  }

  /** `a & (b << k)` is `((a >> k) & b) << k`. */
  lemma {:induction false} AndShifted(a: nat, b: nat, k: nat)
    ensures And(a, Shl(b, k)) == Shl(And(Shr(a, k), b), k)
  {
    if k > 0 {
      AndDouble(a, Shl(b, k - 1));
      AndShifted(a / 2, b, k - 1);
    }
  }

  /** `a & 0x80` tests bit 7. */
  lemma Bit7(a: nat)
    ensures And(a, 0x80) == 128 * ((a / 128) % 2)
  {
    assert Pow2(7) == 128 by { assert Pow2(4) == 16; }
    AndShifted(a, 1, 7);
    ShlIsMul(1, 7);
    ShrIsDiv(a, 7);
    ShlIsMul(And(a / 128, 1), 7);
    AndLowOnes(a / 128, 1);
  }

  /** `a & 0070` keeps bits 3..5. */
  lemma BitsThreeToFive(a: nat)
    ensures And(a, 0x38) == 8 * ((a / 8) % 8)
  {
    assert Pow2(3) == 8;
    AndShifted(a, 7, 3);
    ShlIsMul(7, 3);
    ShrIsDiv(a, 3);
    ShlIsMul(And(a / 8, 7), 3);
    AndLowOnes(a / 8, 3);
  }

  /** `a & 0060` keeps bits 4..5. */
  lemma BitsFourToFive(a: nat)
    ensures And(a, 0x30) == 16 * ((a / 16) % 4)
  {
    assert Pow2(2) == 4;
    assert Pow2(4) == 16;
    AndShifted(a, 3, 4);
    ShlIsMul(3, 4);
    ShrIsDiv(a, 4);
    ShlIsMul(And(a / 16, 3), 4);
    AndLowOnes(a / 16, 2);
  }

  lemma ComplementByte(a: nat)
    requires a < 0x100
    ensures Xor(a, 0xFF) == 0xFF - a
  {
    XorLowOnes(a, 8);
  }

  lemma OrHighLow(h: nat, l: nat, k: nat)
    requires k == 4 || k == 8
    requires l < Pow2(k)
    ensures k == 4 ==> Or(h * 0x10, l) == h * 0x10 + l
    ensures k == 8 ==> Or(h * 0x100, l) == h * 0x100 + l
  {
    if k == 4 {
      assert Pow2(4) == 0x10;
      OrShifted(h, l, 4);
    } else {
      assert Pow2(8) == 0x100 by { assert Pow2(4) == 0x10; }
      OrShifted(h, l, 8);
    }
  }

  /** Some `a & i` with i in 0..7 is non-zero exactly when one of a's three low bits is set. */
  lemma SomeLowBit(a: nat)
    ensures (exists i: nat :: i < 8 && And(a, i) != 0) <==> a % 8 != 0
  {
    assert Pow2(3) == 8;
    AndLowOnes(a, 3);
    if a % 8 == 0 {
      forall i: nat | i < 8
        ensures And(a, i) == 0
      {
        AndClearLow(a, i, 3);
      }
    }
  }
}
