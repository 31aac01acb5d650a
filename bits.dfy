/** Bitwise operations on unbounded naturals, written bit by bit from the
    least significant end, and the facts about powers of two that the
    ring buffer's index wrapping and the AVX-512 lane mask rely on. */
module Bits {

  /** `x & y`. */
  function BitAnd(x: nat, y: nat): (r: nat)
    ensures r <= x && r <= y
  {
    if x == 0 || y == 0 then 0
    else 2 * BitAnd(x / 2, y / 2) + (if x % 2 == 1 && y % 2 == 1 then 1 else 0)
  }

  /** Bit `i` of `x` is set: `(x >> i) & 1 == 1`. */
  predicate Bit(x: nat, i: nat)
  {
    if i == 0 then x % 2 == 1 else Bit(x / 2, i - 1)
  }

  /** `1 << e`, without any width limit. */
  function Pow2(e: nat): (r: nat)
    ensures r >= 1
  {
    if e == 0 then 1 else 2 * Pow2(e - 1)
  }

  /** `(1 << e) - 1`: the `e` lowest bits set. */
  function LowMask(e: nat): nat
  {
    Pow2(e) - 1
  }

  /** `c` is one of 1, 2, 4, 8, ... */
  predicate IsPowerOfTwo(c: nat)
  {
    c == 1 || (c >= 2 && c % 2 == 0 && IsPowerOfTwo(c / 2))
  }

  /** Division with remainder is unique (Euclidean). */
  lemma DivModUnique(x: int, d: int, q: int, r: int)
    requires d > 0 && 0 <= r < d && x == d * q + r
    ensures x / d == q && x % d == r
  {
    var q0, r0 := x / d, x % d;
    assert d * (q0 - q) == r - r0;
    MulAtLeastFactor(d, q0 - q);
  }

  /** A nonzero multiple of `d` is at least `d` away from zero. */
  lemma MulAtLeastFactor(d: int, k: int)
    requires d > 0
    ensures k >= 1 ==> d * k >= d
    ensures k <= -1 ==> d * k <= -d
  {
  }

  /** The remainder modulo `2 * h` is made of the low bit and the
      remainder of the rest modulo `h`. */
  lemma ModOfDouble(x: nat, h: nat)
    requires h >= 1
    ensures x % (2 * h) == 2 * ((x / 2) % h) + x % 2
  {
    var m, s := (x / 2) / h, (x / 2) % h;
    assert x / 2 == h * m + s;
    assert x == 2 * (x / 2) + x % 2;
    assert x == (2 * h) * m + (2 * s + x % 2);
    DivModUnique(x, 2 * h, m, 2 * s + x % 2);
  }

  lemma {:induction false} BitAndSelf(x: nat)
    ensures BitAnd(x, x) == x
  {
    if x != 0 {
      BitAndSelf(x / 2);
    }
  }

  /** For a power of two `c`, masking with `c - 1` is reduction modulo `c`:
      `x & (c - 1) == x % c`. */
  lemma {:induction false} MaskIsMod(x: nat, c: nat)
    requires IsPowerOfTwo(c)
    ensures BitAnd(x, c - 1) == x % c
  {
    if c != 1 && x != 0 {
      var h := c / 2;
      assert (c - 1) / 2 == h - 1 && (c - 1) % 2 == 1;
      assert BitAnd(x, c - 1) == 2 * BitAnd(x / 2, h - 1) + x % 2;
      MaskIsMod(x / 2, h);
      ModOfDouble(x, h);
      assert c == 2 * h;
    }
  }

  /** The test `c != 0 && (c & (c - 1)) == 0` holds exactly for the powers
      of two. */
  lemma {:induction false} PowerOfTwoTest(c: nat)
    ensures (c != 0 && BitAnd(c, c - 1) == 0) <==> IsPowerOfTwo(c)
  {
    if c >= 2 {
      var h := c / 2;
      if c % 2 == 1 {
        assert (c - 1) / 2 == h && (c - 1) % 2 == 0;
        BitAndSelf(h);
        assert BitAnd(c, c - 1) == 2 * h;
      } else {
        assert (c - 1) / 2 == h - 1 && (c - 1) % 2 == 1;
        assert BitAnd(c, c - 1) == 2 * BitAnd(h, h - 1);
        PowerOfTwoTest(h);
      }
    }
  }

  lemma {:induction false} BitOfZero(i: nat)
    ensures !Bit(0, i)
  {
    if i != 0 {
      BitOfZero(i - 1);
    }
  }

  /** A bit of `x & y` is set exactly when it is set in both. */
  lemma {:induction false} BitOfAnd(x: nat, y: nat, i: nat)
    ensures Bit(BitAnd(x, y), i) <==> Bit(x, i) && Bit(y, i)
  {
    if i != 0 {
      if x == 0 || y == 0 {
        BitOfZero(i - 1);
      } else {
        assert BitAnd(x, y) / 2 == BitAnd(x / 2, y / 2);
        BitOfAnd(x / 2, y / 2, i - 1);
      }
    }
  }

  /** `(1 << e) - 1` has exactly the bits `0 .. e - 1` set. */
  lemma {:induction false} BitOfLowMask(e: nat, i: nat)
    ensures Bit(LowMask(e), i) <==> i < e
  {
    if i != 0 {
      if e == 0 {
        BitOfZero(i - 1);
      } else {
        assert LowMask(e) / 2 == LowMask(e - 1);
        BitOfLowMask(e - 1, i - 1);
      }
    }
  }
}
