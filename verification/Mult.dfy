/** The shift-and-add multiplier of the simulated processor (Mult in mipssim.cc). */
module Mult {
  import opened Words

  lemma {:induction false} Pow2Grows(i: nat, j: nat)
    requires i <= j
    ensures Pow2(i) <= Pow2(j)
    decreases j - i
  {
    if i < j { Pow2Grows(i + 1, j); }
  }

  /** A double word. */
  function Double(hi: int, lo: int): int { hi * W + lo }

  /** The addition in the loop, with its test for a carry out of the low word. */
  method AddDouble(hi0: int, lo0: int, bHi: int, bLo: int) returns (hi: int, lo: int)
    requires IsUnsigned(hi0) && IsUnsigned(lo0) && IsUnsigned(bHi) && IsUnsigned(bLo)
    requires Double(hi0, lo0) + Double(bHi, bLo) < W * W
    ensures IsUnsigned(hi) && IsUnsigned(lo)
    ensures Double(hi, lo) == Double(hi0, lo0) + Double(bHi, bLo)
  {
    hi, lo := hi0, (lo0 + bLo) % W;
    if lo < bLo {
      hi := (hi + 1) % W;
    }
    hi := (hi + bHi) % W;
  }

  /** The shift of b in the loop, which moves the top bit of the low word into the high word. */
  method ShiftDouble(bHi0: int, bLo0: int) returns (bHi: int, bLo: int)
    requires IsUnsigned(bHi0) && IsUnsigned(bLo0) && 2 * Double(bHi0, bLo0) < W * W
    ensures IsUnsigned(bHi) && IsUnsigned(bLo) && Double(bHi, bLo) == 2 * Double(bHi0, bLo0)
  {
    bHi := (2 * bHi0) % W;
    if bLo0 >= HALF {
      bHi := bHi + 1;
    }
    bLo := (2 * bLo0) % W;
  }

  /** The two-word negation at the end. */
  method NegateDouble(hi0: int, lo0: int) returns (hi: int, lo: int)
    requires IsUnsigned(hi0) && IsUnsigned(lo0) && 0 < Double(hi0, lo0)
    ensures IsUnsigned(hi) && IsUnsigned(lo) && Double(hi, lo) == W * W - Double(hi0, lo0)
  {
    hi := W - 1 - hi0;
    lo := W - 1 - lo0;
    lo := (lo + 1) % W;
    if lo == 0 {
      hi := (hi + 1) % W;
    }
  }

  lemma ProductFits(x: int, y: int, m: int, n: int)
    requires 0 <= x <= m && 0 <= y < n
    ensures 0 <= x * y <= m * n
    ensures 0 < m ==> x * y < m * n
  {
    assert x * y <= m * y;
    assert 0 < m ==> m * y < m * n;
  }

  // ---------------------------------------------------------------- long multiplication

  /** `a` after i arithmetic right shifts. */
  function ShiftedRight(a: int, i: nat): int {
    if i == 0 then a else ShiftedRight(a, i - 1) / 2
  }

  /** `b` after i left shifts, as a double word. */
  function ShiftedLeft(b: int, i: nat): int {
    if i == 0 then b else 2 * ShiftedLeft(b, i - 1)
  }

  /** The sum of the shifted b over the bits of a below bit i. */
  function Partial(a: int, b: int, i: nat): int {
    if i == 0 then 0
    else Partial(a, b, i - 1) + if ShiftedRight(a, i - 1) % 2 == 1 then ShiftedLeft(b, i - 1) else 0
  }

  /** The bits of a below bit i, as a number. */
  function Low(a: int, i: nat): int {
    if i == 0 then 0 else Low(a, i - 1) + if ShiftedRight(a, i - 1) % 2 == 1 then Pow2(i - 1) else 0
  }

  lemma {:induction false} LowBits(a: int, i: nat)
    ensures a == ShiftedRight(a, i) * Pow2(i) + Low(a, i) && 0 <= Low(a, i) < Pow2(i)
  {
    if i > 0 {
      LowBits(a, i - 1);
      var s := ShiftedRight(a, i - 1);
      OneBitLess(s, s / 2, s % 2, Pow2(i - 1));
    }
  }

  lemma OneBitLess(s: int, h: int, b: int, p: int)
    requires s == 2 * h + b
    ensures s * p == h * (2 * p) + b * p
  {
    assert s * p == (2 * h) * p + b * p;
    assert (2 * h) * p == h * (2 * p);
  }

  lemma {:induction false} PartialIsProduct(a: int, b: int, i: nat)
    ensures ShiftedLeft(b, i) == b * Pow2(i) && Partial(a, b, i) == Low(a, i) * b
  {
    if i > 0 {
      PartialIsProduct(a, b, i - 1);
      NextTerm(Low(a, i - 1), Pow2(i - 1), b);
    }
  }

  lemma NextTerm(low: int, p: int, b: int)
    ensures 2 * (b * p) == b * (2 * p) && (low + p) * b == low * b + b * p
  {
  }

  lemma OneMoreBit(low: int, p: int, b: int)
    requires 0 <= low < p && 2 * p <= W && IsUnsigned(b)
    ensures 0 <= low * b && 0 <= b * p && low * b + b * p < W * W && 2 * (b * p) < W * W
  {
    ProductFits(low + p, b, W, W);
    ProductFits(2 * p, b, W, W);
    ProductFits(low, b, p, W);
    assert low * b + b * p == (low + p) * b;
    assert 2 * (b * p) == (2 * p) * b;
  }

  /** Nothing overflows 64 bits before bit 32. */
  lemma PartialFits(a: int, b: int, i: nat)
    requires i < 32 && IsUnsigned(b)
    ensures 0 <= Partial(a, b, i) && 0 <= ShiftedLeft(b, i)
    ensures Partial(a, b, i) + ShiftedLeft(b, i) < W * W && 2 * ShiftedLeft(b, i) < W * W
  {
    PartialIsProduct(a, b, i);
    LowBits(a, i);
    Pow2Is32();
    Pow2Grows(i + 1, 32);
    OneMoreBit(Low(a, i), Pow2(i), b);
  }

  /** All 32 bits give the product with `a` read as an unsigned word, also when a is negative and its
      sign is shifted in. */
  lemma AllBits(a: int, b: int)
    requires IsInt(a)
    ensures Partial(a, b, 32) == Unsigned(a) * b
  {
    LowBits(a, 32);
    PartialIsProduct(a, b, 32);
    Pow2Is32();
    Remainder(a, ShiftedRight(a, 32), Low(a, 32));
  }

  lemma Remainder(a0: int, a: int, low: int)
    requires a0 == a * W + low && 0 <= low < W
    ensures Unsigned(a0) == low
  {
  }

  /** The early exit: once the rest of a is its last bit, the sum up to that bit is the product. */
  lemma LastBit(a: int, b: int, i: nat)
    requires IsInt(a) && i < 32 && ShiftedRight(a, i) == 1
    ensures Partial(a, b, i + 1) == Unsigned(a) * b
  {
    LowBits(a, i + 1);
    PartialIsProduct(a, b, i + 1);
    assert ShiftedRight(a, i + 1) == 0;
    assert a == Low(a, i + 1);
  }

  /** The main loop on `a`, a C int that is shifted right arithmetically, and the unsigned word b. */
  method Accumulate(a0: int, b: int) returns (hi: int, lo: int)
    requires IsInt(a0) && IsUnsigned(b)
    ensures IsUnsigned(hi) && IsUnsigned(lo) && Double(hi, lo) == Unsigned(a0) * b
  {
    var a, bLo, bHi := a0, b, 0;
    lo, hi := 0, 0;
    var i := 0;
    while i < 32
      invariant 0 <= i <= 32 && IsUnsigned(bLo) && IsUnsigned(bHi) && IsUnsigned(lo) && IsUnsigned(hi)
      invariant a == ShiftedRight(a0, i)
      invariant Double(bHi, bLo) == ShiftedLeft(b, i) && Double(hi, lo) == Partial(a0, b, i)
    {
      PartialFits(a0, b, i);
      if a % 2 == 1 {
        hi, lo := AddDouble(hi, lo, bHi, bLo);
        if a == 0 || a == 1 {
          LastBit(a0, b, i);
          return;
        }
      }
      bHi, bLo := ShiftDouble(bHi, bLo);
      a := a / 2;
      i := i + 1;
    }
    AllBits(a0, b);
  }

  lemma Monotone(x: int, m: int, y: int)
    requires x <= m && 0 <= y
    ensures x * y <= m * y
  {
  }

  lemma Positive(x: int, y: int)
    requires 0 < x && 0 < y
    ensures 0 < x * y
  {
  }

  lemma SignedRange(x: int, y: int)
    requires 0 < x <= HALF && 0 < y <= HALF
    ensures 0 < x * y <= HALF * HALF
  {
    Positive(x, y);
    Monotone(x, HALF, y);
  }

  /** The product of the magnitudes is the product, up to its sign. */
  lemma SignedProduct(a: int, b: int, x: int, y: int)
    requires x == (if a < 0 then -a else a) && y == (if b < 0 then -b else b)
    ensures x * y == if (a < 0) != (b < 0) then -(a * b) else a * b
  {
  }

  /** Two words that hold v modulo 2^64 read as v when the high word is a C int. */
  lemma SignedWords(uHi: int, uLo: int, v: int)
    requires IsUnsigned(uHi) && IsUnsigned(uLo) && -HALF * HALF <= v <= HALF * HALF
    requires Double(uHi, uLo) == if v < 0 then W * W + v else v
    ensures Double(Int(uHi), Unsigned(Int(uLo))) == v
  {
    assert v < 0 ==> uHi >= HALF;
    assert v >= 0 ==> uHi < HALF;
  }

  lemma Magnitude(a: int)
    requires IsInt(a)
    ensures a < 0 ==> Unsigned(Int(-a)) == -a
    ensures 0 <= a ==> Unsigned(a) == a
  {
  }

  /** The two words of an unsigned product. */
  lemma UnsignedWords(uHi: int, uLo: int)
    requires IsUnsigned(uHi) && IsUnsigned(uLo)
    ensures Unsigned(Int(uHi)) == uHi && Unsigned(Int(uLo)) == uLo
  {
  }

  /** For all 32-bit operands, the most negative ones included, *hi and *lo are the two words of the
      exact 64-bit product: hi carries the sign of a signed product. */
  method Mult(a0: int, b0: int, signedArith: bool) returns (hi: int, lo: int)
    requires IsInt(a0) && IsInt(b0)
    ensures IsInt(hi) && IsInt(lo)
    ensures signedArith ==> Double(hi, Unsigned(lo)) == a0 * b0
    ensures !signedArith ==> Double(Unsigned(hi), Unsigned(lo)) == Unsigned(a0) * Unsigned(b0)
  {
    if a0 == 0 || b0 == 0 {
      return 0, 0;
    }
    var a, b, negative := a0, b0, false;
    if signedArith {
      if a < 0 {
        negative := !negative;
        a := Int(-a);
      }
      if b < 0 {
        negative := !negative;
        b := Int(-b);
      }
    }
    Magnitude(a0);
    Magnitude(b0);
    var uHi, uLo := Accumulate(a, Unsigned(b));
    if signedArith {
      SignedProduct(a0, b0, Unsigned(a), Unsigned(b));
      SignedRange(Unsigned(a), Unsigned(b));
    }
    if negative {
      uHi, uLo := NegateDouble(uHi, uLo);
    }
    hi, lo := Int(uHi), Int(uLo);
    UnsignedWords(uHi, uLo);
    if signedArith {
      SignedWords(uHi, uLo, a0 * b0);
    }
  }
}
