/**
  Go's fixed-width integers as the counter registry uses them: `uint64`
  counters and tags, the platform `int` (64 bits) of lattice coordinates,
  and the three operations the tag packing applies to them — the
  `uint64(x)` conversion, `<<` on `uint64`, and bitwise `|`.

  Everything is stated over Dafny's unbounded integers with the wrap-around
  written out, so the arithmetic meaning of each operation is available to
  the proofs.
 */
module GoWords {

  const TWO_16: nat := 0x1_0000
  const TWO_32: nat := 0x1_0000_0000
  const TWO_64: nat := 0x1_0000_0000_0000_0000

  /** Go's `uint64`. */
  type uint64 = x: int | 0 <= x < TWO_64

  /** Go's `int` on a 64-bit platform. */
  type int64 = x: int | -0x8000_0000_0000_0000 <= x < 0x8000_0000_0000_0000

  function Pow2(n: nat): (r: nat)
    ensures r >= 1
  {
    if n == 0 then 1 else 2 * Pow2(n - 1)
  }

  lemma {:induction false} Pow2Add(a: nat, b: nat)
    ensures Pow2(a + b) == Pow2(a) * Pow2(b)
  {
    if a > 0 {
      Pow2Add(a - 1, b);
    }
  }

  /** The three powers of two the packing uses. */
  lemma Pow2Constants()
    ensures Pow2(16) == TWO_16 && Pow2(32) == TWO_32 && Pow2(64) == TWO_64
  {
    assert Pow2(2) == 4;
    Pow2Add(2, 2);
    Pow2Add(4, 4);
    Pow2Add(8, 8);
    Pow2Add(16, 16);
    Pow2Add(32, 32);
  }

  /** `uint64(x)` for a Go `int`: the two's-complement bits read as unsigned. */
  function ToUint64(x: int64): (r: uint64)
    ensures 0 <= x ==> r == x
    ensures x < 0 ==> r == TWO_64 + x
  {
    x % TWO_64
  }

  /** `x << n` on a `uint64`: the bits shifted past bit 63 are lost. */
  function ShiftLeft(x: uint64, n: nat): (r: uint64)
    ensures x * Pow2(n) < TWO_64 ==> r == x * Pow2(n)
  {
    (x * Pow2(n)) % TWO_64
  }

  /** `x + 1` on a `uint64`, which wraps from 2^64 - 1 to 0. */
  function Inc(x: uint64): (r: uint64)
    ensures x < TWO_64 - 1 ==> r == x + 1
    ensures x == TWO_64 - 1 ==> r == 0
  {
    (x + 1) % TWO_64
  }

  /** Division by a constant power of two, given the quotient and remainder. */
  lemma DivMod16(q: nat, r: nat)
    requires r < TWO_16
    ensures (q * TWO_16 + r) / TWO_16 == q && (q * TWO_16 + r) % TWO_16 == r
  {
  }

  lemma DivMod32(q: nat, r: nat)
    requires r < TWO_32
    ensures (q * TWO_32 + r) / TWO_32 == q && (q * TWO_32 + r) % TWO_32 == r
  {
  }

  /** One increment of a wrapped count is the wrapped successor. */
  lemma IncMod(c: nat)
    ensures Inc(c % TWO_64) == (c + 1) % TWO_64
  {
  }

  /** Bit n of x, counting from the least significant bit 0. */
  function Bit(x: nat, n: nat): (b: nat)
    ensures b < 2
  {
    if n == 0 then x % 2 else Bit(x / 2, n - 1)
  }

  /** Bitwise `|` on non-negative integers, one bit per step from the lowest. */
  function BitOr(a: nat, b: nat): (r: nat)
    ensures a <= r && b <= r && r <= a + b
    decreases a + b
  {
    if a == 0 then b
    else if b == 0 then a
    else 2 * BitOr(a / 2, b / 2) + (if a % 2 == 1 || b % 2 == 1 then 1 else 0)
  }

  lemma {:induction false} BitOfZero(n: nat)
    ensures Bit(0, n) == 0
  {
    if n > 0 {
      BitOfZero(n - 1);
    }
  }

  /**
    BitOr is bitwise or: bit n of the result is set exactly when bit n of
    either operand is set.
   */
  lemma {:induction false} BitOrBit(a: nat, b: nat, n: nat)
    ensures Bit(BitOr(a, b), n) == 1 <==> Bit(a, n) == 1 || Bit(b, n) == 1
    decreases n
  {
    if a == 0 {
      BitOfZero(n);
    } else if b == 0 {
      BitOfZero(n);
    } else {
      var q := BitOr(a / 2, b / 2);
      var low := if a % 2 == 1 || b % 2 == 1 then 1 else 0;
      assert BitOr(a, b) == 2 * q + low;
      if n != 0 {
        assert (2 * q + low) / 2 == q;
        BitOrBit(a / 2, b / 2, n - 1);
      }
    }
  }

  /** OR of two values that fit in n bits fits in n bits. */
  lemma {:induction false} BitOrBound(a: nat, b: nat, n: nat)
    requires a < Pow2(n) && b < Pow2(n)
    ensures BitOr(a, b) < Pow2(n)
  {
    if a != 0 && b != 0 {
      BitOrBound(a / 2, b / 2, n - 1);
    }
  }

  /**
    When a fits below bit n, OR-ing it with a value shifted up by n bits is
    plain addition: the two have no bit in common.
   */
  lemma {:induction false} BitOrDisjoint(a: nat, b: nat, n: nat)
    requires a < Pow2(n)
    ensures BitOr(a, b * Pow2(n)) == a + b * Pow2(n)
  {
    if n != 0 && a != 0 && b != 0 {
      var p := Pow2(n - 1);
      assert b * Pow2(n) == 2 * (b * p);
      assert (b * Pow2(n)) / 2 == b * p;
      assert (b * Pow2(n)) % 2 == 0;
      BitOrDisjoint(a / 2, b, n - 1);
    }
  }

  /** OR with a value whose low n bits are all set leaves it unchanged. */
  lemma {:induction false} BitOrAllOnes(b: nat, n: nat)
    requires b < Pow2(n)
    ensures BitOr(Pow2(n) - 1, b) == Pow2(n) - 1
  {
    if n > 0 && b > 0 {
      var p := Pow2(n - 1);
      var a := 2 * p - 1;
      assert Pow2(n) - 1 == a;
      assert a / 2 == p - 1 && a % 2 == 1;
      assert b / 2 < p;
      BitOrAllOnes(b / 2, n - 1);
      assert BitOr(a, b) == 2 * BitOr(p - 1, b / 2) + 1;
    }
  }

  /** Go's `|` on two `uint64` values; BitOrBit gives its bits. */
  function Or64(a: uint64, b: uint64): (r: uint64) {
    Pow2Constants();
    BitOrBound(a, b, 64);
    BitOr(a, b)
  }
}
