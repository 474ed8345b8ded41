/** The bitmap allocator (bitmap.cc): bits packed in 32-bit words, read as a finite set. */
module BitMap {
  const BITS_IN_WORD := 32

  // ---------------------------------------------------------------- the set it stands for

  /** The elements below n outside s. */
  function ClearBits(s: set<nat>, n: nat): (r: set<nat>)
    ensures forall i :: i in r ==> i < n
  {
    if n == 0 then {} else ClearBits(s, n - 1) + if n - 1 in s then {} else {n - 1}
  }

  lemma {:induction false} ClearBitsAre(s: set<nat>, n: nat, i: nat)
    ensures i in ClearBits(s, n) <==> i < n && i !in s
  {
    if n > 0 {
      ClearBitsAre(s, n - 1, i);
    }
  }

  /** The least element of i..n outside s, or -1. */
  function FirstClear(s: set<nat>, n: nat, i: nat): (r: int)
    ensures r == -1 <==> forall j :: i <= j < n ==> j in s
    ensures r != -1 ==> i <= r < n && r !in s && forall j :: i <= j < r ==> j in s
    decreases n - i
  {
    if i >= n then -1 else if i !in s then i else FirstClear(s, n, i + 1)
  }

  /** The results of k successive Finds. */
  function Finds(s: set<nat>, n: nat, k: nat): (r: seq<int>)
    ensures |r| == k
    decreases k
  {
    if k == 0 then []
    else
      var b := FirstClear(s, n, 0);
      [b] + Finds(if b == -1 then s else s + {b}, n, k - 1)
  }

  /** How many elements below n are outside s. */
  function CountClear(s: set<nat>, n: nat): nat {
    if n == 0 then 0 else CountClear(s, n - 1) + if n - 1 in s then 0 else 1
  }

  lemma {:induction false} CountIsCardinality(s: set<nat>, n: nat)
    ensures CountClear(s, n) == |ClearBits(s, n)|
  {
    if n > 0 {
      CountIsCardinality(s, n - 1);
    }
  }

  lemma {:induction false} CountAfterMark(s: set<nat>, n: nat, b: nat)
    requires b !in s
    ensures CountClear(s + {b}, n) == CountClear(s, n) - if b < n then 1 else 0
  {
    if n > 0 {
      CountAfterMark(s, n - 1, b);
    }
  }

  lemma {:induction false} NoneClear(s: set<nat>, n: nat)
    ensures CountClear(s, n) == 0 <==> forall j :: 0 <= j < n ==> j in s
  {
    if n > 0 {
      NoneClear(s, n - 1);
    }
  }

  /** k successive Finds all succeed exactly when k bits are clear. */
  lemma {:induction false} FindsSucceed(s: set<nat>, n: nat, k: nat)
    ensures -1 !in Finds(s, n, k) <==> k <= CountClear(s, n)
    decreases k
  {
    if k > 0 {
      var b := FirstClear(s, n, 0);
      NoneClear(s, n);
      if b != -1 {
        CountAfterMark(s, n, b);
        FindsSucceed(s + {b}, n, k - 1);
        PrependHit(b, Finds(s + {b}, n, k - 1));
      } else {
        assert Finds(s, n, k)[0] == -1;
      }
    }
  }

  lemma PrependHit(b: int, rest: seq<int>)
    requires b != -1
    ensures -1 in [b] + rest <==> -1 in rest
  {
    if -1 in rest {
      var k :| 0 <= k < |rest| && rest[k] == -1;
      assert ([b] + rest)[k + 1] == -1;
    }
  }

  /** Different bits below n outside s, in increasing order. */
  ghost predicate FreshBits(r: seq<int>, s: set<nat>, n: nat) {
    && (forall a :: 0 <= a < |r| ==> 0 <= r[a] < n && r[a] !in s)
    && (forall a, b :: 0 <= a < b < |r| ==> r[a] < r[b])
  }

  /** Then they return k different bits that were clear, in increasing order. */
  lemma {:induction false} FindsAreFresh(s: set<nat>, n: nat, k: nat)
    requires k <= CountClear(s, n)
    ensures FreshBits(Finds(s, n, k), s, n)
    decreases k
  {
    if k > 0 {
      NoneClear(s, n);
      var b := FirstClear(s, n, 0);
      CountAfterMark(s, n, b);
      FindsAreFresh(s + {b}, n, k - 1);
      PrependFresh(b, Finds(s + {b}, n, k - 1), s, n);
    }
  }

  lemma PrependFresh(b: nat, rest: seq<int>, s: set<nat>, n: nat)
    requires b < n && b !in s && (forall j :: 0 <= j < b ==> j in s) && FreshBits(rest, s + {b}, n)
    ensures FreshBits([b] + rest, s, n)
  {
    assert forall a :: 0 <= a < |rest| ==> rest[a] > b;
  }

  function Hits(r: seq<int>): (s: set<nat>)
    ensures forall x :: x in s <==> x >= 0 && x in r
  {
    set x | x in r && x >= 0
  }

  /** Each of the Finds returns the least bit clear after the ones before it. */
  lemma {:induction false} FindsOneByOne(s: set<nat>, n: nat, k: nat, i: nat)
    requires i < k <= CountClear(s, n)
    ensures Finds(s, n, k)[i] == FirstClear(s + Hits(Finds(s, n, k)[..i]), n, 0)
    decreases k
  {
    NoneClear(s, n);
    var b := FirstClear(s, n, 0);
    if i == 0 {
      NoHits(s, Finds(s, n, k));
    } else {
      CountAfterMark(s, n, b);
      var rest := Finds(s + {b}, n, k - 1);
      assert Finds(s, n, k) == [b] + rest;
      FindsOneByOne(s + {b}, n, k - 1, i - 1);
      OneLater(s, n, b, rest, i);
    }
  }

  lemma OneLater(s: set<nat>, n: nat, b: nat, rest: seq<int>, i: nat)
    requires 0 < i <= |rest| && rest[i - 1] == FirstClear(s + {b} + Hits(rest[..i - 1]), n, 0)
    ensures ([b] + rest)[i] == FirstClear(s + Hits(([b] + rest)[..i]), n, 0)
  {
    HitsPrepend(s, b, rest, i);
  }

  lemma NoHits(s: set<nat>, r: seq<int>)
    ensures s + Hits(r[..0]) == s
  {
  }

  lemma HitsPrepend(s: set<nat>, b: nat, rest: seq<int>, i: nat)
    requires 0 < i <= |rest| + 1
    ensures s + Hits(([b] + rest)[..i]) == s + {b} + Hits(rest[..i - 1])
  {
    assert ([b] + rest)[..i] == [b] + rest[..i - 1];
  }

  // ---------------------------------------------------------------- words of bits

  predicate Bit(w: bv32, k: bv6)
    requires k < 32
  {
    w & ((1 as bv32) << k) != 0
  }

  lemma SetsOneBit(w: bv32, j: bv6, k: bv6)
    requires j < 32 && k < 32
    ensures Bit(w | ((1 as bv32) << k), j) <==> j == k || Bit(w, j)
  {
  }

  lemma ClearsOneBit(w: bv32, j: bv6, k: bv6)
    requires j < 32 && k < 32
    ensures Bit(w & !((1 as bv32) << k), j) <==> j != k && Bit(w, j)
  {
  }

  function Index(which: nat): (k: bv6)
    ensures k < 32
  {
    (which % BITS_IN_WORD) as bv6
  }

  lemma IndexBack(which: nat)
    ensures Index(which) as int == which % BITS_IN_WORD
  {
  }

  lemma SameBit(i: nat, j: nat)
    ensures i == j <==> i / BITS_IN_WORD == j / BITS_IN_WORD && Index(i) == Index(j)
  {
    IndexBack(i);
    IndexBack(j);
  }

  predicate On(words: seq<bv32>, i: nat)
    requires i / BITS_IN_WORD < |words|
  {
    Bit(words[i / BITS_IN_WORD], Index(i))
  }

  /** The bits below n that are on; what else the last word holds does not matter. */
  function Marks(words: seq<bv32>, n: nat): (s: set<nat>)
    requires n <= |words| * BITS_IN_WORD
    ensures forall i :: i in s <==> 0 <= i < n && On(words, i)
  {
    set i | 0 <= i < n && On(words, i)
  }

  function WithBit(words: seq<bv32>, which: nat): (r: seq<bv32>)
    requires which / BITS_IN_WORD < |words|
    ensures |r| == |words|
  {
    var k := which / BITS_IN_WORD;
    words[k := words[k] | ((1 as bv32) << Index(which))]
  }

  function WithoutBit(words: seq<bv32>, which: nat): (r: seq<bv32>)
    requires which / BITS_IN_WORD < |words|
    ensures |r| == |words|
  {
    var k := which / BITS_IN_WORD;
    words[k := words[k] & !((1 as bv32) << Index(which))]
  }

  lemma WordMarked(words: seq<bv32>, a: nat, k: bv6, b: nat, j: bv6)
    requires a < |words| && b < |words| && j < 32 && k < 32
    ensures Bit(words[a := words[a] | ((1 as bv32) << k)][b], j) <==> (a == b && j == k) || Bit(words[b], j)
  {
    SetsOneBit(words[a], j, k);
  }

  lemma BitMarked(words: seq<bv32>, which: nat, i: nat)
    requires which / BITS_IN_WORD < |words| && i / BITS_IN_WORD < |words|
    ensures On(WithBit(words, which), i) <==> i == which || On(words, i)
  {
    WordMarked(words, which / BITS_IN_WORD, Index(which), i / BITS_IN_WORD, Index(i));
    SameBit(i, which);
  }

  lemma BitCleared(words: seq<bv32>, which: nat, i: nat)
    requires which / BITS_IN_WORD < |words| && i / BITS_IN_WORD < |words|
    ensures On(WithoutBit(words, which), i) <==> i != which && On(words, i)
  {
    if i / BITS_IN_WORD == which / BITS_IN_WORD {
      SameBit(i, which);
      ClearsOneBit(words[which / BITS_IN_WORD], Index(i), Index(which));
    }
  }

  lemma OneBitMarked(words: seq<bv32>, n: nat, which: nat)
    requires n <= |words| * BITS_IN_WORD && which < n
    ensures Marks(WithBit(words, which), n) == Marks(words, n) + {which}
  {
    forall i: nat | i < n
      ensures i in Marks(WithBit(words, which), n) <==> i in Marks(words, n) + {which}
    {
      BitMarked(words, which, i);
    }
  }

  lemma OneBitCleared(words: seq<bv32>, n: nat, which: nat)
    requires n <= |words| * BITS_IN_WORD && which < n
    ensures Marks(WithoutBit(words, which), n) == Marks(words, n) - {which}
  {
    forall i: nat | i < n
      ensures i in Marks(WithoutBit(words, which), n) <==> i in Marks(words, n) - {which}
    {
      BitCleared(words, which, i);
    }
  }

  // ---------------------------------------------------------------- the class

  class BitMap {
    const numBits: nat
    const words: array<bv32>

    ghost predicate Valid() {
      words.Length == (numBits + BITS_IN_WORD - 1) / BITS_IN_WORD
    }

    ghost function Marked(): (s: set<nat>)
      requires Valid()
      reads words
    {
      Marks(words[..], numBits)
    }

    /** The words start out arbitrary; every bit is cleared one by one. */
    constructor (nitems: nat)
      ensures Valid() && numBits == nitems && Marked() == {} && fresh(words)
    {
      numBits := nitems;
      words := new bv32[(nitems + BITS_IN_WORD - 1) / BITS_IN_WORD];
      new;
      var i := 0;
      while i < numBits
        invariant 0 <= i <= numBits
        invariant forall j :: 0 <= j < i ==> j !in Marked()
      {
        Clear(i);
        i := i + 1;
      }
    }

    method FetchFrom(file: seq<bv32>)
      requires Valid() && |file| == words.Length
      modifies words
      ensures words[..] == file
    {
      forall i | 0 <= i < words.Length {
        words[i] := file[i];
      }
    }

    method WriteBack() returns (file: seq<bv32>)
      ensures file == words[..]
    {
      file := words[..];
    }

    method Mark(which: nat)
      requires Valid() && which < numBits
      modifies words
      ensures Marked() == old(Marked()) + {which}
    {
      OneBitMarked(words[..], numBits, which);
      words[which / BITS_IN_WORD] := words[which / BITS_IN_WORD] | (1 << (which % BITS_IN_WORD));
    }

    method Clear(which: nat)
      requires Valid() && which < numBits
      modifies words
      ensures Marked() == old(Marked()) - {which}
    {
      OneBitCleared(words[..], numBits, which);
      words[which / BITS_IN_WORD] := words[which / BITS_IN_WORD] & !(1 << (which % BITS_IN_WORD));
    }

    method Test(which: nat) returns (on: bool)
      requires Valid() && which < numBits
      ensures on <==> which in Marked()
    {
      assert which in Marked() <==> On(words[..], which);
      on := words[which / BITS_IN_WORD] & (1 << (which % BITS_IN_WORD)) != 0;
    }

    /** The least clear bit, which is marked; -1 and no change when there is none. */
    method Find() returns (r: int)
      requires Valid()
      modifies words
      ensures r == FirstClear(old(Marked()), numBits, 0)
      ensures Marked() == if r == -1 then old(Marked()) else old(Marked()) + {r}
    {
      var i := 0;
      while i < numBits
        invariant 0 <= i <= numBits
        invariant words[..] == old(words[..])
        invariant FirstClear(Marked(), numBits, 0) == FirstClear(Marked(), numBits, i)
      {
        var on := Test(i);
        if !on {
          Mark(i);
          return i;
        }
        i := i + 1;
      }
      r := -1;
    }

    method NumClear() returns (count: nat)
      requires Valid()
      ensures count == |ClearBits(Marked(), numBits)| == CountClear(Marked(), numBits)
    {
      ghost var m := Marked();
      CountIsCardinality(m, numBits);
      count := 0;
      var i := 0;
      while i < numBits
        invariant 0 <= i <= numBits
        invariant count == CountClear(m, i)
      {
        var on := Test(i);
        if !on {
          count := count + 1;
        }
        i := i + 1;
      }
    }
  }
}
