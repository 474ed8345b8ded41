/** 32-bit words of the simulated machine, as integers with explicit wrap-around. */
module Words {
  const W := 0x1_0000_0000
  const HALF := 0x8000_0000

  /** The value of a C `int`. */
  predicate IsInt(x: int) { -HALF <= x < HALF }

  /** The value of a C `unsigned int`. */
  predicate IsUnsigned(x: int) { 0 <= x < W }

  /** Conversion to `unsigned int`. */
  function Unsigned(x: int): (u: int)
    ensures IsUnsigned(u) && (u - x) % W == 0
  {
    x % W
  }

  /** Conversion to `int`, which is also what int arithmetic wraps to. */
  function Int(x: int): (s: int)
    ensures IsInt(s) && Unsigned(s) == Unsigned(x)
    ensures IsInt(x) ==> s == x
  {
    var u := x % W;
    if u < HALF then u else u - W
  }

  /** 2 to the i. */
  function Pow2(i: nat): (p: nat)
    ensures p > 0
  {
    if i == 0 then 1 else 2 * Pow2(i - 1)
  }

  lemma Pow2Is32()
    ensures Pow2(32) == W
  {
    assert Pow2(4) == 16 && Pow2(8) == 256 && Pow2(12) == 4096 && Pow2(16) == 0x1_0000;
    assert Pow2(20) == 0x10_0000 && Pow2(24) == 0x100_0000 && Pow2(28) == 0x1000_0000;
  }
}
