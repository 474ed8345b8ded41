/** The bits of two's complement words, and the simulator's bitwise operations (mipssim.cc) bit by bit. */
module Bits {
  import opened Words
  import opened Memory
  import opened Mips

  /** Bit k of an integer in two's complement. */
  predicate Bit(x: int, k: nat) { x / Pow2(k) % 2 == 1 }

  // ---------------------------------------------------------------- powers and division

  lemma {:induction false} Pow2Adds(i: nat, j: nat)
    ensures Pow2(i + j) == Pow2(i) * Pow2(j)
    decreases i
  {
    if i > 0 {
      Pow2Adds(i - 1, j);
      Doubles(Pow2(i - 1), Pow2(j));
    }
  }

  lemma Doubles(p: int, q: int)
    ensures 2 * (p * q) == (2 * p) * q
  {
  }

  lemma DivideSum(x: int, p: int, m: int)
    requires p > 0
    ensures (x + p * m) / p == x / p + m
  {
    var q, r := x / p, x % p;
    assert x + p * m == (q + m) * p + r by { Distributes(q, m, p); }
    Unique(x + p * m, p, q + m, r);
  }

  lemma Distributes(q: int, m: int, p: int)
    ensures (q + m) * p == q * p + p * m
  {
  }

  lemma HalfFirst(x: int, p: int)
    requires p > 0
    ensures x / (2 * p) == x / 2 / p
  {
    var h, b := x / 2, x % 2;
    var q, r := h / p, h % p;
    assert x == q * (2 * p) + (2 * r + b) by { assert h == q * p + r; Doubles(p, q); }
    Unique(x, 2 * p, q, 2 * r + b);
  }

  lemma BitOfHalf(x: int, k: nat)
    requires k > 0
    ensures Bit(x, k) <==> Bit(x / 2, k - 1)
  {
    HalfFirst(x, Pow2(k - 1));
  }

  lemma BitZero(x: int)
    ensures Bit(x, 0) <==> x % 2 == 1
  {
    assert Pow2(0) == 1;
  }

  // ---------------------------------------------------------------- words

  /** Adding a multiple of a higher power of two leaves a bit alone. */
  lemma HigherPower(x: int, m: int, n: nat, k: nat)
    requires k < n
    ensures Bit(x + Pow2(n) * m, k) <==> Bit(x, k)
  {
    var p, h := Pow2(k), Pow2(n - k - 1);
    Pow2Adds(k, n - k);
    assert Pow2(n - k) == 2 * h;
    Regroup(p, h, m);
    DivideSum(x, p, 2 * (h * m));
    EvenMore(x / p, h * m);
  }

  lemma Regroup(p: int, h: int, m: int)
    ensures p * (2 * h) * m == p * (2 * (h * m))
  {
    assert (2 * h) * m == 2 * (h * m);
    assert p * (2 * h) * m == p * ((2 * h) * m);
  }

  lemma EvenMore(q: int, g: int)
    ensures (q + 2 * g) % 2 == q % 2
  {
  }

  lemma BitOfUnsigned(x: int, k: nat)
    requires k < 32
    ensures Bit(Unsigned(x), k) <==> Bit(x, k)
  {
    Pow2Is32();
    assert x == Unsigned(x) + W * (x / W);
    HigherPower(Unsigned(x), x / W, 32, k);
  }

  lemma BitOfInt(x: int, k: nat)
    requires k < 32
    ensures Bit(Int(x), k) <==> Bit(x, k)
  {
    BitOfUnsigned(x, k);
    BitOfUnsigned(Int(x), k);
  }

  lemma BitOfNot(x: int, k: nat)
    ensures Bit(-1 - x, k) <==> !Bit(x, k)
  {
    var p := Pow2(k);
    var q, r := x / p, x % p;
    assert -1 - x == (-1 - q) * p + (p - 1 - r) by { Distributes(-1, -q, p); Negates(q, p); }
    Unique(-1 - x, p, -1 - q, p - 1 - r);
  }

  lemma Negates(q: int, p: int)
    ensures p * -q == -(q * p)
  {
  }

  lemma {:induction false} Pow2Grows(k: nat, n: nat)
    requires k <= n
    ensures Pow2(k) <= Pow2(n)
    decreases n
  {
    if k < n {
      Pow2Grows(k, n - 1);
    }
  }

  /** The low sixteen bits. */
  lemma BitOfLow(x: int, k: nat)
    ensures Bit(x % 0x1_0000, k) <==> k < 16 && Bit(x, k)
  {
    Pow2Is16();
    if k < 16 {
      assert x == x % 0x1_0000 + 0x1_0000 * (x / 0x1_0000);
      HigherPower(x % 0x1_0000, x / 0x1_0000, 16, k);
    } else {
      Pow2Grows(16, k);
      Unique(x % 0x1_0000, Pow2(k), 0, x % 0x1_0000);
    }
  }

  lemma Pow2Is16()
    ensures Pow2(16) == 0x1_0000
  {
    assert Pow2(4) == 16 && Pow2(8) == 256 && Pow2(12) == 4096;
  }

  // ---------------------------------------------------------------- the recursive operations

  lemma AndHalves(x: nat, y: nat)
    ensures AndBits(x, y) / 2 == AndBits(x / 2, y / 2) && (AndBits(x, y) % 2 == 1 <==> x % 2 == 1 && y % 2 == 1)
  {
  }

  lemma {:induction false} BitOfAnd(x: nat, y: nat, k: nat)
    ensures Bit(AndBits(x, y), k) <==> Bit(x, k) && Bit(y, k)
    decreases k
  {
    AndHalves(x, y);
    if k == 0 {
      BitZero(AndBits(x, y));
      BitZero(x);
      BitZero(y);
    } else {
      BitOfHalf(AndBits(x, y), k);
      BitOfHalf(x, k);
      BitOfHalf(y, k);
      BitOfAnd(x / 2, y / 2, k - 1);
    }
  }

  lemma OrHalves(x: nat, y: nat)
    ensures OrBits(x, y) / 2 == OrBits(x / 2, y / 2) && (OrBits(x, y) % 2 == 1 <==> x % 2 == 1 || y % 2 == 1)
  {
  }

  lemma {:induction false} BitOfOr(x: nat, y: nat, k: nat)
    ensures Bit(OrBits(x, y), k) <==> Bit(x, k) || Bit(y, k)
    decreases k
  {
    OrHalves(x, y);
    if k == 0 {
      BitZero(OrBits(x, y));
      BitZero(x);
      BitZero(y);
    } else {
      BitOfHalf(OrBits(x, y), k);
      BitOfHalf(x, k);
      BitOfHalf(y, k);
      BitOfOr(x / 2, y / 2, k - 1);
    }
  }

  lemma XorHalves(x: nat, y: nat)
    ensures XorBits(x, y) / 2 == XorBits(x / 2, y / 2) && (XorBits(x, y) % 2 == 1 <==> x % 2 != y % 2)
  {
  }

  lemma {:induction false} BitOfXor(x: nat, y: nat, k: nat)
    ensures Bit(XorBits(x, y), k) <==> (Bit(x, k) <==> !Bit(y, k))
    decreases k
  {
    XorHalves(x, y);
    if k == 0 {
      BitZero(XorBits(x, y));
      BitZero(x);
      BitZero(y);
    } else {
      BitOfHalf(XorBits(x, y), k);
      BitOfHalf(x, k);
      BitOfHalf(y, k);
      BitOfXor(x / 2, y / 2, k - 1);
    }
  }

  // ---------------------------------------------------------------- the operations on words

  /** The three operations of the simulator on words, bit by bit. */
  lemma WordBits(a: int, b: int, k: nat)
    requires k < 32
    ensures Bit(And(a, b), k) <==> Bit(a, k) && Bit(b, k)
    ensures Bit(Or(a, b), k) <==> Bit(a, k) || Bit(b, k)
    ensures Bit(Xor(a, b), k) <==> (Bit(a, k) <==> !Bit(b, k))
  {
    var x, y := Unsigned(a), Unsigned(b);
    BitOfUnsigned(a, k);
    BitOfUnsigned(b, k);
    BitOfAnd(x, y, k);
    BitOfOr(x, y, k);
    BitOfXor(x, y, k);
    BitOfInt(AndBits(x, y), k);
    BitOfInt(OrBits(x, y), k);
    BitOfInt(XorBits(x, y), k);
  }

  // ---------------------------------------------------------------- a word is its bits

  ghost predicate AgreeBelow(x: int, y: int, n: nat) { forall k :: 0 <= k < n ==> (Bit(x, k) <==> Bit(y, k)) }

  lemma HalvesAgree(x: int, y: int, n: nat)
    requires n > 0 && AgreeBelow(x, y, n)
    ensures x % 2 == y % 2 && AgreeBelow(x / 2, y / 2, n - 1)
  {
    BitZero(x);
    BitZero(y);
    assert Bit(x, 0) <==> Bit(y, 0);
    forall k | 0 <= k < n - 1
      ensures Bit(x / 2, k) <==> Bit(y / 2, k)
    {
      BitOfHalf(x, k + 1);
      BitOfHalf(y, k + 1);
      assert Bit(x, k + 1) <==> Bit(y, k + 1);
    }
  }

  lemma {:induction false} SameLowBits(x: int, y: int, n: nat)
    requires AgreeBelow(x, y, n)
    ensures (x - y) % Pow2(n) == 0
    decreases n
  {
    if n > 0 {
      HalvesAgree(x, y, n);
      SameLowBits(x / 2, y / 2, n - 1);
      FromHalves(x, y, Pow2(n - 1));
    }
  }

  lemma FromHalves(x: int, y: int, p: int)
    requires p > 0 && x % 2 == y % 2 && (x / 2 - y / 2) % p == 0
    ensures (x - y) % (2 * p) == 0
  {
    assert x - y == 2 * (x / 2 - y / 2);
    TwiceMultiple(x / 2 - y / 2, p);
  }

  lemma TwiceMultiple(d: int, p: int)
    requires p > 0 && d % p == 0
    ensures (2 * d) % (2 * p) == 0
  {
    var q := d / p;
    assert d == q * p;
    Doubles(q, p);
    assert 2 * d == q * (2 * p) + 0 by { assert (2 * q) * p == q * (2 * p); }
    Unique(2 * d, 2 * p, q, 0);
  }

  /** Two words with the same 32 bits are the same. */
  lemma WordIsItsBits(x: int, y: int)
    requires IsInt(x) && IsInt(y) && AgreeBelow(x, y, 32)
    ensures x == y
  {
    SameLowBits(x, y, 32);
    Pow2Is32();
  }
}
