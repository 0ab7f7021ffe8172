/**
 * Fixed-width unsigned integers and C's bitwise operators, stated as exact
 * arithmetic on natural numbers.
 *
 * A C `uint32_t`/`uint64_t` value is a natural number below 2^32 / 2^64.
 * `&`, `|` and `^` are defined bit by bit (lowest bit first), and the shifts and
 * `~` by powers of two, so that every mask computation of the cache model can
 * be carried out on the same integers the address bounds are stated on.
 */
module Bits {

  const TWO8: nat := 0x100
  const TWO32: nat := 0x1_0000_0000
  const TWO64: nat := 0x1_0000_0000_0000_0000

  type u8 = x: int | 0 <= x < 0x100
  type u32 = x: int | 0 <= x < 0x1_0000_0000
  type u64 = x: int | 0 <= x < 0x1_0000_0000_0000_0000

  function Pow2(k: nat): (r: nat)
    ensures r >= 1
  {
    if k == 0 then 1 else 2 * Pow2(k - 1)
  }

  /** C's `a & b` on non-negative operands. */
  function And(x: nat, y: nat): (r: nat)
    ensures r <= x && r <= y
  {
    if x == 0 || y == 0 then 0
    else 2 * And(x / 2, y / 2) + (if x % 2 == 1 && y % 2 == 1 then 1 else 0)
  }

  /** C's `a | b` on non-negative operands. */
  function Or(x: nat, y: nat): (r: nat)
    ensures x <= r && y <= r && r <= x + y
  {
    if x == 0 then y
    else if y == 0 then x
    else 2 * Or(x / 2, y / 2) + (if x % 2 == 1 || y % 2 == 1 then 1 else 0)
  }

  /** C's `a ^ b` on non-negative operands. */
  function Xor(x: nat, y: nat): (r: nat)
    ensures r <= x + y
  {
    if x == 0 then y
    else if y == 0 then x
    else 2 * Xor(x / 2, y / 2) + (if x % 2 != y % 2 then 1 else 0)
  }

  /** C's `x << k` on an unsigned integer `width` bits wide: high bits fall off. */
  function Shl(x: nat, k: nat, width: nat): (r: nat)
    ensures r < Pow2(width)
  {
    (x * Pow2(k)) % Pow2(width)
  }

  /** C's `x << k` on a `uint32_t`. */
  function Shl32(x: nat, k: nat): (r: u32)
    ensures r == Shl(x, k, 32)
  {
    Pow2Values();
    (x * Pow2(k)) % TWO32
  }

  /** C's `x >> k` on an unsigned integer: k single-bit shifts. */
  function Shr(x: nat, k: nat): (r: nat)
  {
    if k == 0 then x else Shr(x / 2, k - 1)
  }

  /** C's `~x` on an unsigned integer `width` bits wide. */
  function Not(x: nat, width: nat): (r: nat)
    requires x < Pow2(width)
    ensures r < Pow2(width) && x + r == Pow2(width) - 1
  {
    Pow2(width) - 1 - x
  }

  /** Unsigned addition with wrap-around, as C computes `uint32_t` sums. */
  function Add32(x: u32, y: u32): (r: u32)
  {
    (x + y) % TWO32
  }

  /** Unsigned addition with wrap-around, as C computes `uint64_t` sums. */
  function Add64(x: u64, y: u64): (r: u64)
  {
    (x + y) % TWO64
  }

  /** The unsigned 64-bit pattern of a signed value (two's complement). */
  function ToU64(x: int): (r: u64)
  {
    x % TWO64
  }

  /** C's `%` on signed operands: the quotient truncates toward zero. */
  function CRem(a: int, b: int): (r: int)
    requires b > 0
    ensures a >= 0 ==> r == a % b
  {
    if a >= 0 then a % b else -((-a) % b)
  }

  // ---------------------------------------------------------------------------
  // Powers of two

  lemma {:induction false} Pow2Add(a: nat, b: nat)
    ensures Pow2(a + b) == Pow2(a) * Pow2(b)
  {
    if a > 0 {
      Pow2Add(a - 1, b);
      assert Pow2(a + b) == 2 * Pow2(a - 1 + b);
    }
  }

  lemma {:induction false} Pow2Monotone(a: nat, b: nat)
    requires a <= b
    ensures Pow2(a) <= Pow2(b)
  {
    if a < b {
      Pow2Monotone(a, b - 1);
    }
  }

  lemma {:induction false} Pow2Less(a: nat, b: nat)
    requires a < b
    ensures Pow2(a) < Pow2(b)
  {
    if a < b - 1 {
      Pow2Less(a, b - 1);
    }
  }

  // The powers of two the masks and widths of the model use, a few at a time.

  lemma Pow2Byte()
    ensures Pow2(0) == 1 && Pow2(1) == 2 && Pow2(3) == 8 && Pow2(6) == 64 && Pow2(8) == TWO8
  {
  }

  lemma Pow2Mid()
    ensures Pow2(11) == 2048 && Pow2(14) == 0x4000 && Pow2(16) == 0x1_0000
  {
    Pow2Byte();
    Pow2Add(8, 3);
    Pow2Add(8, 6);
    Pow2Add(8, 8);
  }

  lemma Pow2Word()
    ensures Pow2(32) == TWO32
  {
    Pow2Mid();
    Pow2Add(16, 16);
  }

  lemma Pow2Wide()
    ensures Pow2(48) == 0x1_0000_0000_0000 && Pow2(64) == TWO64
  {
    Pow2Mid();
    Pow2Word();
    Pow2Add(32, 16);
    Pow2Add(32, 32);
  }

  lemma Pow2Values()
    ensures Pow2(0) == 1 && Pow2(1) == 2 && Pow2(3) == 8 && Pow2(8) == TWO8
    ensures Pow2(11) == 2048 && Pow2(14) == 0x4000 && Pow2(16) == 0x1_0000
    ensures Pow2(32) == TWO32 && Pow2(48) == 0x1_0000_0000_0000 && Pow2(64) == TWO64
  {
    Pow2Byte();
    Pow2Mid();
    Pow2Word();
    Pow2Wide();
  }

  // ---------------------------------------------------------------------------
  // Division facts used by the bitwise lemmas

  lemma ModUnique(x: int, m: int, q: int, r: int)
    requires m > 0 && 0 <= r < m && x == m * q + r
    ensures x % m == r && x / m == q
  {
    var q', r' := x / m, x % m;
    assert m * (q - q') == r' - r;
    if q > q' {
      MulAtLeast(m, q - q');
    } else if q < q' {
      MulAtLeast(m, q' - q);
    }
  }

  lemma MulAtLeast(m: int, d: int)
    requires m > 0 && d >= 1
    ensures m * d >= m
  {
    assert m * d == m * (d - 1) + m;
  }

  /** Splitting off the lowest bit: x mod 2m is twice (x/2 mod m) plus the low bit. */
  lemma ModDouble(x: nat, m: nat, m2: nat)
    requires m > 0 && m2 == 2 * m
    ensures x % m2 == 2 * ((x / 2) % m) + x % 2
    ensures x / m2 == (x / 2) / m
  {
    var q, b := x / 2, x % 2;
    var a, c := q / m, q % m;
    assert x == m2 * a + (2 * c + b);
    ModUnique(x, m2, a, 2 * c + b);
  }

  /** A right shift by k divides by 2^k, rounding down. */
  lemma {:induction false} ShrDiv(x: nat, k: nat)
    ensures Shr(x, k) == x / Pow2(k)
  {
    if k > 0 {
      ShrDiv(x / 2, k - 1);
      ModDouble(x, Pow2(k - 1), Pow2(k));
    }
  }

  // ---------------------------------------------------------------------------
  // `&` against contiguous masks

  lemma {:induction false} AndComm(x: nat, y: nat)
    ensures And(x, y) == And(y, x)
  {
    if x != 0 && y != 0 {
      AndComm(x / 2, y / 2);
    }
  }

  /** The number formed by the k lowest bits of x. */
  function LowBits(x: nat, k: nat): (r: nat)
  {
    if k == 0 then 0 else 2 * LowBits(x / 2, k - 1) + x % 2
  }

  /** The k lowest bits of x are x modulo 2^k. */
  lemma {:induction false} LowBitsMod(x: nat, k: nat)
    ensures LowBits(x, k) == x % Pow2(k)
  {
    if k > 0 {
      LowBitsMod(x / 2, k - 1);
      ModDouble(x, Pow2(k - 1), Pow2(k));
    }
  }

  lemma {:induction false} LowBitsOfZero(k: nat)
    ensures LowBits(0, k) == 0
  {
    if k > 0 {
      LowBitsOfZero(k - 1);
    }
  }

  /** Masking with k low one-bits (p being 2^k) keeps the k lowest bits. */
  lemma {:induction false} AndLowBits(x: nat, k: nat, p: nat)
    requires p == Pow2(k)
    decreases k, 1
    ensures And(x, p - 1) == LowBits(x, k)
  {
    if k > 0 && x == 0 {
      LowBitsOfZero(k);
    } else if k > 0 {
      AndLowStep(x, k, p);
    }
  }

  /** The inductive step of AndLowBits: the lowest bit, then k - 1 bits of x / 2. */
  lemma {:induction false} AndLowStep(x: nat, k: nat, p: nat)
    requires p == Pow2(k) && k > 0 && x != 0
    decreases k, 0
    ensures And(x, p - 1) == LowBits(x, k)
  {
    var q := Pow2(k - 1);
    AndLowBits(x / 2, k - 1, q);
    AndLowCombine(x, k, q - 1, p - 1);
  }

  /** One more bit inside the mask: the low bit is kept, the rest doubles. */
  lemma AndLowCombine(x: nat, k: nat, w: nat, mask: nat)
    requires k > 0 && x != 0 && mask == 2 * w + 1
    requires And(x / 2, w) == LowBits(x / 2, k - 1)
    ensures And(x, mask) == LowBits(x, k)
  {
    AndOdd(x, w, mask);
  }

  /** Masking with the one-bits lo..hi-1 (pl, ph being 2^lo, 2^hi) keeps bits lo..hi-1. */
  lemma {:induction false} AndFieldBits(x: nat, lo: nat, hi: nat, pl: nat, ph: nat)
    requires lo <= hi && pl == Pow2(lo) && ph == Pow2(hi)
    decreases lo, 1
    ensures pl <= ph
    ensures And(x, ph - pl) == LowBits(x, hi) - LowBits(x, lo)
  {
    Pow2Monotone(lo, hi);
    if lo == 0 {
      AndLowBits(x, hi, ph);
    } else if lo < hi && x == 0 {
      LowBitsOfZero(hi);
      LowBitsOfZero(lo);
    } else if lo < hi {
      AndFieldStep(x, lo, hi, pl, ph);
    }
  }

  /** The inductive step of AndFieldBits: the lowest bit lies below the field, the rest is a field of x / 2. */
  lemma {:induction false} AndFieldStep(x: nat, lo: nat, hi: nat, pl: nat, ph: nat)
    requires 0 < lo < hi && x != 0 && pl == Pow2(lo) && ph == Pow2(hi)
    decreases lo, 0
    ensures pl <= ph
    ensures And(x, ph - pl) == LowBits(x, hi) - LowBits(x, lo)
  {
    var ql, qh := Pow2(lo - 1), Pow2(hi - 1);
    Pow2Less(lo - 1, hi - 1);
    AndFieldBits(x / 2, lo - 1, hi - 1, ql, qh);
    AndFieldCombine(x, lo, hi, qh - ql, ph - pl);
  }

  /** One more bit below the field: both sides double. */
  lemma AndFieldCombine(x: nat, lo: nat, hi: nat, w: nat, mask: nat)
    requires 0 < lo < hi && x != 0 && w != 0 && mask == 2 * w
    requires And(x / 2, w) == LowBits(x / 2, hi - 1) - LowBits(x / 2, lo - 1)
    ensures And(x, mask) == LowBits(x, hi) - LowBits(x, lo)
  {
    AndEven(x, w, mask);
    LowBitsStep(x, lo, hi);
  }

  lemma LowBitsStep(x: nat, lo: nat, hi: nat)
    requires 0 < lo < hi
    ensures LowBits(x, hi) - LowBits(x, lo) == 2 * (LowBits(x / 2, hi - 1) - LowBits(x / 2, lo - 1))
  {
  }

  /** Masking with k low one-bits keeps the value modulo 2^k. */
  lemma AndLowMask(x: nat, k: nat)
    ensures And(x, Pow2(k) - 1) == x % Pow2(k)
  {
    AndLowBits(x, k, Pow2(k));
    LowBitsMod(x, k);
  }

  /** `&` with an odd mask: the lowest bit is kept and the rest shifted. */
  lemma AndOdd(x: nat, w: nat, mask: nat)
    requires x != 0 && mask == 2 * w + 1
    ensures And(x, mask) == 2 * And(x / 2, w) + x % 2
  {
    assert mask / 2 == w && mask % 2 == 1;
  }

  /** `x & 1` is the low bit. */
  lemma AndOne(x: nat)
    ensures And(x, 1) == x % 2
  {
  }

  /**
   * Masking with the one-bits lo..hi-1 keeps exactly those bits of x: the value
   * modulo 2^hi with the part below 2^lo removed.
   */
  lemma AndFieldMask(x: nat, lo: nat, hi: nat)
    requires lo <= hi
    ensures Pow2(lo) <= Pow2(hi)
    ensures And(x, Pow2(hi) - Pow2(lo)) == x % Pow2(hi) - x % Pow2(lo)
  {
    AndFieldBits(x, lo, hi, Pow2(lo), Pow2(hi));
    LowBitsMod(x, hi);
    LowBitsMod(x, lo);
  }

  /** `&` with an even mask: the lowest bit is dropped and the rest shifted. */
  lemma AndEven(x: nat, w: nat, mask: nat)
    requires x != 0 && w != 0 && mask == 2 * w
    ensures And(x, mask) == 2 * And(x / 2, w)
  {
    assert mask / 2 == w && mask % 2 == 0;
  }

  /** Consequence of AndFieldMask for a value already below 2^hi. */
  lemma AndHighMask(x: nat, lo: nat, hi: nat)
    requires lo <= hi && x < Pow2(hi)
    ensures Pow2(lo) <= Pow2(hi)
    ensures And(x, Pow2(hi) - Pow2(lo)) == x - x % Pow2(lo)
    ensures And(x, Pow2(hi) - Pow2(lo)) == x / Pow2(lo) * Pow2(lo)
  {
    AndFieldMask(x, lo, hi);
    ModBelow(x, Pow2(hi));
    RoundDown(x, Pow2(lo));
  }

  lemma ModBelow(x: nat, m: nat)
    requires x < m
    ensures x % m == x
  {
    ModUnique(x, m, 0, x);
  }

  lemma RoundDown(x: nat, p: nat)
    requires p > 0
    ensures x - x % p == x / p * p
  {
    assert x == p * (x / p) + x % p;
  }

  // ---------------------------------------------------------------------------
  // `|` and `^`

  /** `x | y` and `x & y` together hold every bit of x and of y once. */
  lemma {:induction false} OrPlusAnd(x: nat, y: nat)
    ensures Or(x, y) + And(x, y) == x + y
  {
    if x != 0 && y != 0 {
      OrPlusAnd(x / 2, y / 2);
    }
  }

  /** Two bit patterns that share no bit: `|` is their sum. */
  lemma OrDisjoint(x: nat, y: nat)
    requires And(x, y) == 0
    ensures Or(x, y) == x + y
  {
    OrPlusAnd(x, y);
  }

  lemma {:induction false} XorComm(x: nat, y: nat)
    ensures Xor(x, y) == Xor(y, x)
  {
    if x != 0 && y != 0 {
      XorComm(x / 2, y / 2);
    }
  }

  /** `^` with the same value twice cancels: x ^ (x ^ y) == y. */
  lemma {:induction false} XorCancel(x: nat, y: nat)
    ensures Xor(x, Xor(x, y)) == y
  {
    if y == 0 {
      XorSelf(x);
    } else if x != 0 {
      XorCancel(x / 2, y / 2);
      var z := Xor(x / 2, y / 2);
      var b := if x % 2 != y % 2 then 1 else 0;
      assert Xor(x, y) == 2 * z + b;
      if Xor(x, y) != 0 {
        assert Xor(x, y) / 2 == z && Xor(x, y) % 2 == b;
      } else {
        assert z == 0 && b == 0;
        XorSelfZero(x / 2, y / 2);
      }
    }
  }

  lemma {:induction false} XorSelf(x: nat)
    ensures Xor(x, x) == 0
  {
    if x != 0 {
      XorSelf(x / 2);
    }
  }

  /** x ^ y == 0 only when x == y. */
  lemma {:induction false} XorSelfZero(x: nat, y: nat)
    requires Xor(x, y) == 0
    ensures x == y
  {
    if x != 0 && y != 0 {
      XorSelfZero(x / 2, y / 2);
    }
  }

  /** `x ^ 1` flips the low bit. */
  lemma XorOne(x: nat)
    ensures Xor(x, 1) == if x % 2 == 0 then x + 1 else x - 1
  {
  }

  /** `^` of two k-bit values is a k-bit value. */
  lemma {:induction false} XorBelow(x: nat, y: nat, k: nat)
    requires x < Pow2(k) && y < Pow2(k)
    ensures Xor(x, y) < Pow2(k)
  {
    if x != 0 && y != 0 {
      assert k > 0;
      XorBelow(x / 2, y / 2, k - 1);
    }
  }

  /**
   * Two w-bit values that add up to all ones have no bit in common and
   * together set every bit: each is the bitwise complement of the other.
   */
  lemma {:induction false} ComplementBits(x: nat, y: nat, w: nat, p: nat)
    requires p == Pow2(w) && x + y == p - 1
    ensures And(x, y) == 0 && Or(x, y) == p - 1
    decreases w
  {
    if w > 0 && x != 0 && y != 0 {
      var q := Pow2(w - 1);
      ComplementBits(x / 2, y / 2, w - 1, q);
    }
  }

  /** `~x` is the bitwise complement of x: `x & ~x` is 0 and `x | ~x` is all ones. */
  lemma NotIsComplement(x: nat, w: nat)
    requires x < Pow2(w)
    ensures And(x, Not(x, w)) == 0 && Or(x, Not(x, w)) == Pow2(w) - 1
  {
    ComplementBits(x, Not(x, w), w, Pow2(w));
  }

  lemma AppendAssoc<T>(a: seq<T>, b: seq<T>, c: seq<T>)
    ensures a + b + c == a + (b + c)
  {
  }

  lemma ModTwoTwice(x: nat)
    ensures x % 2 % 2 == x % 2
  {
  }
}
