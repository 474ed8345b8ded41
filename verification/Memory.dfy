/** Address translation and user memory (translate.cc). */
module Memory {
  import opened Options
  import opened Words

  const PAGE_SIZE := 128
  const NUM_PHYS_PAGES := 64
  const MEMORY_SIZE := NUM_PHYS_PAGES * PAGE_SIZE
  const TLB_SIZE := 4

  type Byte = x: int | 0 <= x < 256

  function Val(b: Byte): int { b }

  datatype Exception = NoException | SyscallException | PageFaultException | ReadOnlyException
                     | BusErrorException | AddressErrorException | OverflowException | IllegalInstrException

  datatype Entry = Entry(virtualPage: int, physicalPage: int, valid: bool, readOnly: bool, use: bool, dirty: bool)

  /** A linear page table, indexed by virtual page, or a TLB, searched for it. */
  datatype Table = Table(isTlb: bool, entries: seq<Entry>)

  datatype Lookup = Missing(exc: Exception) | Found(index: nat)

  datatype Translation = Fault(exc: Exception) | Address(phys: nat, table: Table)

  // ---------------------------------------------------------------- translation

  /** The first TLB entry from `i` on that is valid for the page. */
  function SearchTlb(entries: seq<Entry>, vpn: int, i: nat): (r: Lookup)
    requires i <= |entries|
    ensures r.Found? ==> i <= r.index < |entries| && entries[r.index].valid && Unsigned(entries[r.index].virtualPage) == vpn
    ensures r.Missing? ==> r.exc == PageFaultException
    decreases |entries| - i
  {
    if i == |entries| then Missing(PageFaultException)
    else if entries[i].valid && Unsigned(entries[i].virtualPage) == vpn then Found(i)
    else SearchTlb(entries, vpn, i + 1)
  }

  function Find(t: Table, vpn: nat): (r: Lookup)
    ensures r.Found? ==> r.index < |t.entries| && t.entries[r.index].valid
    ensures r.Missing? ==> r.exc in {PageFaultException, AddressErrorException}
  {
    if t.isTlb then SearchTlb(t.entries, vpn, 0)
    else if vpn >= |t.entries| then Missing(AddressErrorException)
    else if !t.entries[vpn].valid then Missing(PageFaultException)
    else Found(vpn)
  }

  predicate Misaligned(va: int, size: int) {
    (size == 4 && va % 4 != 0) || (size == 2 && va % 2 != 0)
  }

  /** Machine::Translate */
  function Translate(t: Table, va: int, size: int, writing: bool): Translation {
    if Misaligned(va, size) then Fault(AddressErrorException)
    else
      var f := Find(t, Unsigned(va) / PAGE_SIZE);
      if f.Missing? then Fault(f.exc)
      else
        var e := t.entries[f.index];
        if e.readOnly && writing then Fault(ReadOnlyException)
        else if Unsigned(e.physicalPage) >= NUM_PHYS_PAGES then Fault(BusErrorException)
        else Address(Unsigned(e.physicalPage) * PAGE_SIZE + Unsigned(va) % PAGE_SIZE,
                     t.(entries := t.entries[f.index := e.(use := true, dirty := e.dirty || writing)]))
  }

  /** The TLB entry the machine finds is the first valid one for the page; it finds none exactly when there is none. */
  lemma {:induction false} SearchFindsFirst(entries: seq<Entry>, vpn: int, i: nat)
    requires i <= |entries|
    ensures match SearchTlb(entries, vpn, i)
            case Missing(_) => forall j :: i <= j < |entries| ==> !(entries[j].valid && Unsigned(entries[j].virtualPage) == vpn)
            case Found(k) => forall j :: i <= j < k ==> !(entries[j].valid && Unsigned(entries[j].virtualPage) == vpn)
    decreases |entries| - i
  {
    if i < |entries| && !(entries[i].valid && Unsigned(entries[i].virtualPage) == vpn) {
      SearchFindsFirst(entries, vpn, i + 1);
    }
  }

  /** Translation by a page table: pages of 128 bytes, 64 frames. An access that goes through leaves the offset in
      the page alone, and marks its page used, and dirty when it writes, and nothing else; every other access is
      refused for one reason. */
  lemma TableTranslates(t: Table, va: int, size: int, writing: bool)
    requires !t.isTlb && size in {1, 2, 4}
    ensures var u := va % 0x1_0000_0000;
            var page, tr := u / 128, Translate(t, va, size, writing);
            && (tr == Fault(AddressErrorException) <==> va % size != 0 || page >= |t.entries|)
            && (tr == Fault(PageFaultException) <==> va % size == 0 && page < |t.entries| && !t.entries[page].valid)
            && (tr == Fault(ReadOnlyException) <==>
                va % size == 0 && page < |t.entries| && t.entries[page].valid && t.entries[page].readOnly && writing)
            && (tr == Fault(BusErrorException) <==>
                && va % size == 0 && page < |t.entries| && t.entries[page].valid && !(t.entries[page].readOnly && writing)
                && t.entries[page].physicalPage % 0x1_0000_0000 >= 64)
            && (tr.Fault? ==> tr.exc in {AddressErrorException, PageFaultException, ReadOnlyException, BusErrorException})
            && (tr.Address? ==>
                  && tr.phys / 128 == t.entries[page].physicalPage % 0x1_0000_0000 < 64 && tr.phys % 128 == u % 128
                  && tr.table.entries[page] == t.entries[page].(use := true, dirty := t.entries[page].dirty || writing)
                  && tr.table == t.(entries := t.entries[page := tr.table.entries[page]]))
  {
    var o := Unsigned(va) % PAGE_SIZE;
    if Translate(t, va, size, writing).Address? {
      var g := Unsigned(t.entries[Unsigned(va) / PAGE_SIZE].physicalPage);
      PageAndOffset(g, o);
    }
  }

  lemma PageAndOffset(g: nat, o: nat)
    requires o < 128
    ensures (g * 128 + o) / 128 == g && (g * 128 + o) % 128 == o
  {
  }

  lemma InsidePage(u: nat, size: int)
    requires size in {1, 2, 4} && u % size == 0
    ensures u % PAGE_SIZE + size <= PAGE_SIZE && u / PAGE_SIZE == (u + size - 1) / PAGE_SIZE
    ensures u < W ==> u + size <= W
  {
    var p, o := u / PAGE_SIZE, u % PAGE_SIZE;
    if size == 4 {
      var k := u / 4;
      assert o == 4 * (k - 32 * p);
    } else if size == 2 {
      var k := u / 2;
      assert o == 2 * (k - 64 * p);
    }
    assert u == 128 * p + o;
    assert u + size - 1 == 128 * p + (o + size - 1);
  }

  lemma SameAlignment(va: int)
    ensures Unsigned(va) % 4 == va % 4 && Unsigned(va) % 2 == va % 2
  {
    var u, k := Unsigned(va), va / W;
    assert va == W * k + u;
    Divided(va, 4, 0x4000_0000 * k + u / 4, u % 4);
    Divided(va, 2, 0x8000_0000 * k + u / 2, u % 2);
  }

  /** An aligned access stays inside its page, so the assertion on the physical address holds. */
  lemma PhysicalBound(t: Table, va: int, size: int, writing: bool)
    requires size in {1, 2, 4} && Translate(t, va, size, writing).Address?
    ensures Translate(t, va, size, writing).phys + size <= MEMORY_SIZE
    ensures Unsigned(va) % PAGE_SIZE + size <= PAGE_SIZE && Unsigned(va) + size <= W
    ensures Unsigned(va) / PAGE_SIZE == (Unsigned(va) + size - 1) / PAGE_SIZE
  {
    SameAlignment(va);
    InsidePage(Unsigned(va), size);
  }

  // ---------------------------------------------------------------- little-endian bytes

  function Bytes(v: int, n: nat): (b: seq<Byte>)
    ensures |b| == n
    decreases n
  {
    if n == 0 then [] else [v % 256] + Bytes(v / 256, n - 1)
  }

  function FromBytes(b: seq<Byte>): (v: nat) {
    if b == [] then 0 else b[0] + 256 * FromBytes(b[1..])
  }

  function Radix(n: nat): (r: nat)
    ensures r > 0
  {
    if n == 0 then 1 else 256 * Radix(n - 1)
  }

  lemma Divided(v: int, d: int, q: int, r: int)
    requires d > 0 && v == d * q + r && 0 <= r < d
    ensures v % d == r
  {
    assert v == d * (v / d) + v % d;
    assert d * (q - v / d) == v % d - r;
    NoMultipleBetween(d, q - v / d);
  }

  lemma NoMultipleBetween(d: int, k: int)
    requires 0 < d && -d < d * k < d
    ensures k == 0
  {
  }

  lemma SplitLowByte(v: int, r: int)
    requires r > 0
    ensures v % (256 * r) == 256 * (v / 256 % r) + v % 256
  {
    var q := v / 256;
    assert q == r * (q / r) + q % r;
    assert (256 * r) * (q / r) == 256 * (r * (q / r));
    Divided(v, 256 * r, q / r, 256 * (q % r) + v % 256);
  }

  /** Storing a value in n bytes and loading them gives the value modulo 256^n. */
  lemma {:induction false} BytesRoundTrip(v: int, n: nat)
    ensures FromBytes(Bytes(v, n)) == v % Radix(n)
    decreases n
  {
    if n > 0 {
      BytesRoundTrip(v / 256, n - 1);
      assert Bytes(v, n)[1..] == Bytes(v / 256, n - 1);
      SplitLowByte(v, Radix(n - 1));
    }
  }

  /** The swap a big-endian host makes, with the shifts and masks of WordToHost. */
  function WordToHost(bigEndian: bool, w: int): int
    requires IsUnsigned(w)
  {
    if bigEndian then
      (w / 0x100_0000) % 0x100
      + (w / 0x1_0000) % 0x100 * 0x100
      + (w / 0x100) % 0x100 * 0x1_0000
      + w % 0x100 * 0x100_0000
    else w
  }

  function ShortToHost(bigEndian: bool, w: int): int
    requires 0 <= w < 0x1_0000
  {
    if bigEndian then w % 0x100 * 0x100 + (w / 0x100) % 0x100 else w
  }

  function Reversed(b: seq<Byte>): (r: seq<Byte>)
    ensures |r| == |b|
  {
    if b == [] then [] else Reversed(b[1..]) + [b[0]]
  }

  /** The bytes a host puts in memory for an n-byte value. */
  function HostBytes(bigEndian: bool, v: int, n: nat): seq<Byte> {
    if bigEndian then Reversed(Bytes(v, n)) else Bytes(v, n)
  }

  lemma FourBytes(b0: Byte, b1: Byte, b2: Byte, b3: Byte)
    ensures var w := b0 + 0x100 * b1 + 0x1_0000 * b2 + 0x100_0000 * b3;
            IsUnsigned(w) && Bytes(w, 4) == [b0, b1, b2, b3] && Reversed(Bytes(w, 4)) == [b3, b2, b1, b0]
  {
    var w := b0 + 0x100 * b1 + 0x1_0000 * b2 + 0x100_0000 * b3;
    var w1, w2 := b1 + 0x100 * b2 + 0x1_0000 * b3, b2 + 0x100 * b3;
    assert w / 256 == w1 && w1 / 256 == w2 && w2 / 256 == b3;
    assert Bytes(b3, 1) == [b3];
    assert Bytes(w2, 2) == [b2, b3];
    assert Bytes(w1, 3) == [b1, b2, b3];
    var b := Bytes(w, 4);
    assert b == [b0, b1, b2, b3];
    assert b[1..] == [b1, b2, b3] && b[1..][1..] == [b2, b3] && b[1..][1..][1..] == [b3];
    assert Reversed([b3]) == [b3];
    assert Reversed([b2, b3]) == [b3, b2];
    assert Reversed([b1, b2, b3]) == [b3, b2, b1];
  }

  lemma TwoBytes(b0: Byte, b1: Byte)
    ensures var w := b0 + 0x100 * b1; Bytes(w, 2) == [b0, b1] && Reversed(Bytes(w, 2)) == [b1, b0]
  {
    var b := Bytes(b0 + 0x100 * b1, 2);
    assert Bytes(b1, 1) == [b1];
    assert b[1..] == [b1] && Reversed([b1]) == [b1];
  }

  lemma SwapsWord(b0: Byte, b1: Byte, b2: Byte, b3: Byte)
    ensures WordToHost(true, b0 + 0x100 * b1 + 0x1_0000 * b2 + 0x100_0000 * b3)
            == b3 + 0x100 * b2 + 0x1_0000 * b1 + 0x100_0000 * b0
  {
    var w := b0 + 0x100 * b1 + 0x1_0000 * b2 + 0x100_0000 * b3;
    assert w / 0x100 == b1 + 0x100 * b2 + 0x1_0000 * b3 && w % 0x100 == b0;
    assert w / 0x1_0000 == b2 + 0x100 * b3;
    assert w / 0x100_0000 == b3;
  }

  /** Whatever the host, a word goes to memory in little-endian order. */
  lemma StoresLittleEndian(bigEndian: bool, w: int)
    requires IsUnsigned(w)
    ensures HostBytes(bigEndian, WordToHost(bigEndian, w), 4) == Bytes(w, 4)
  {
    if bigEndian {
      var w1, w2, b3 := w / 256, w / 256 / 256, w / 256 / 256 / 256;
      var b0, b1, b2 := w % 256, w1 % 256, w2 % 256;
      assert w == b0 + 0x100 * b1 + 0x1_0000 * b2 + 0x100_0000 * b3;
      SwapsWord(b0, b1, b2, b3);
      FourBytes(b0, b1, b2, b3);
      FourBytes(b3, b2, b1, b0);
    }
  }

  /** And so does a short. */
  lemma StoresShortLittleEndian(bigEndian: bool, w: int)
    requires 0 <= w < 0x1_0000
    ensures HostBytes(bigEndian, ShortToHost(bigEndian, w), 2) == Bytes(w, 2)
  {
    if bigEndian {
      var b0, b1 := w % 256, w / 256;
      TwoBytes(b0, b1);
      TwoBytes(b1, b0);
    }
  }

  // ---------------------------------------------------------------- loads and stores

  /** What a load makes of the bytes: a C char, an unsigned short or an int. */
  function LoadValue(b: seq<Byte>): (v: int)
    ensures |b| in {1, 2, 4} ==> IsInt(v)
  {
    if |b| == 1 then (if b[0] < 128 then b[0] else Val(b[0]) - 256)
    else if |b| == 2 then Val(b[0]) + 256 * Val(b[1])
    else Int(FromBytes(b))
  }

  datatype Load = LoadFault(exc: Exception) | Loaded(value: int, table: Table)
  datatype Store = StoreFault(exc: Exception) | Stored(mem: seq<Byte>, table: Table)

  /** Machine::ReadMem up to the exception it raises. */
  function ReadMem(mem: seq<Byte>, t: Table, va: int, size: int): (r: Load)
    requires |mem| == MEMORY_SIZE && size in {1, 2, 4}
    ensures r.Loaded? ==> IsInt(r.value)
  {
    var tr := Translate(t, va, size, false);
    if tr.Fault? then LoadFault(tr.exc)
    else PhysicalBound(t, va, size, false); Loaded(LoadValue(mem[tr.phys..tr.phys + size]), tr.table)
  }

  /** Machine::WriteMem up to the exception it raises. */
  function WriteMem(mem: seq<Byte>, t: Table, va: int, size: int, value: int): (r: Store)
    requires |mem| == MEMORY_SIZE && size in {1, 2, 4}
    ensures r.Stored? ==> |r.mem| == MEMORY_SIZE
  {
    var tr := Translate(t, va, size, true);
    if tr.Fault? then StoreFault(tr.exc)
    else PhysicalBound(t, va, size, true); Stored(Splice(mem, tr.phys, Bytes(value, size)), tr.table)
  }

  function Splice(mem: seq<Byte>, at: nat, b: seq<Byte>): (r: seq<Byte>)
    requires at + |b| <= |mem|
    ensures |r| == |mem|
    ensures forall i :: 0 <= i < |mem| ==> r[i] == if at <= i < at + |b| then b[i - at] else mem[i]
  {
    mem[..at] + b + mem[at + |b|..]
  }

  // ---------------------------------------------------------------- virtual memory as one flat store

  /** The frame a virtual page is in. */
  function Frame(t: Table, vpn: nat): Option<nat> {
    var f := Find(t, vpn);
    if f.Found? && Unsigned(t.entries[f.index].physicalPage) < NUM_PHYS_PAGES
    then Some(Unsigned(t.entries[f.index].physicalPage)) else None
  }

  /** No two virtual pages share a frame. */
  ghost predicate Injective(t: Table) {
    forall p: nat, q: nat :: Frame(t, p).Some? && Frame(t, p) == Frame(t, q) ==> p == q
  }

  /** The byte at a virtual address, if its page is in memory. */
  function ByteAt(mem: seq<Byte>, t: Table, a: nat): Option<Byte>
    requires |mem| == MEMORY_SIZE
  {
    var f := Frame(t, a / PAGE_SIZE);
    if f.Some? then Some(mem[f.value * PAGE_SIZE + a % PAGE_SIZE]) else None
  }

  lemma {:induction false} SearchIgnoresBits(entries: seq<Entry>, k: nat, e: Entry, vpn: int, i: nat)
    requires i <= |entries| && k < |entries| && e == entries[k].(use := e.use, dirty := e.dirty)
    ensures SearchTlb(entries[k := e], vpn, i) == SearchTlb(entries, vpn, i)
    decreases |entries| - i
  {
    if i < |entries| { SearchIgnoresBits(entries, k, e, vpn, i + 1); }
  }

  /** Setting the use and dirty bits moves no page. */
  lemma TranslateKeepsFrames(t: Table, va: int, size: int, writing: bool, vpn: nat)
    requires Translate(t, va, size, writing).Address?
    ensures Frame(Translate(t, va, size, writing).table, vpn) == Frame(t, vpn)
  {
    var t' := Translate(t, va, size, writing).table;
    var k := Find(t, Unsigned(va) / PAGE_SIZE).index;
    if t.isTlb { SearchIgnoresBits(t.entries, k, t'.entries[k], vpn, 0); }
  }

  lemma InPage(a: nat, u: nat)
    requires u <= a && u % PAGE_SIZE + (a - u) < PAGE_SIZE
    ensures a / PAGE_SIZE == u / PAGE_SIZE && a % PAGE_SIZE == u % PAGE_SIZE + (a - u)
  {
    assert a == PAGE_SIZE * (u / PAGE_SIZE) + (u % PAGE_SIZE + (a - u));
  }

  lemma InTwoPages(a: nat, u: nat, size: nat)
    requires u % PAGE_SIZE + size <= PAGE_SIZE && !(u <= a < u + size)
    ensures a / PAGE_SIZE != u / PAGE_SIZE
            || !(u % PAGE_SIZE <= a % PAGE_SIZE < u % PAGE_SIZE + size)
  {
    assert a == PAGE_SIZE * (a / PAGE_SIZE) + a % PAGE_SIZE;
    assert u == PAGE_SIZE * (u / PAGE_SIZE) + u % PAGE_SIZE;
  }

  /** WriteMem on one flat little-endian byte store: the bytes at the address become the bytes of the
      value, and no other virtual byte changes. */
  lemma WriteIsFlat(mem: seq<Byte>, t: Table, va: int, size: int, value: int, a: nat)
    requires |mem| == MEMORY_SIZE && size in {1, 2, 4} && Injective(t)
    requires WriteMem(mem, t, va, size, value).Stored?
    ensures var r := WriteMem(mem, t, va, size, value);
            ByteAt(r.mem, r.table, a)
            == if Unsigned(va) <= a < Unsigned(va) + size then Some(Bytes(value, size)[a - Unsigned(va)])
               else ByteAt(mem, t, a)
  {
    PhysicalBound(t, va, size, true);
    TranslateKeepsFrames(t, va, size, true, a / PAGE_SIZE);
    var u := Unsigned(va);
    var tr := Translate(t, va, size, true);
    assert Frame(t, u / PAGE_SIZE) == Some((tr.phys - u % PAGE_SIZE) / PAGE_SIZE);
    if u <= a < u + size {
      InPage(a, u);
    } else if ByteAt(mem, t, a).Some? {
      InTwoPages(a, u, size);
      DifferentPlaces(t, a, u, size, Frame(t, a / PAGE_SIZE).value, Frame(t, u / PAGE_SIZE).value);
    }
  }

  lemma DifferentPlaces(t: Table, a: nat, u: nat, size: nat, f: nat, g: nat)
    requires Injective(t) && Frame(t, a / PAGE_SIZE) == Some(f) && Frame(t, u / PAGE_SIZE) == Some(g)
    requires u % PAGE_SIZE + size <= PAGE_SIZE
    requires a / PAGE_SIZE != u / PAGE_SIZE || !(u % PAGE_SIZE <= a % PAGE_SIZE < u % PAGE_SIZE + size)
    ensures var phys := g * PAGE_SIZE + u % PAGE_SIZE;
            !(phys <= f * PAGE_SIZE + a % PAGE_SIZE < phys + size)
  {
  }

  /** The bytes an access reads, seen through the flat store. */
  lemma ReadIsFlat(mem: seq<Byte>, t: Table, va: int, size: int, i: nat)
    requires |mem| == MEMORY_SIZE && size in {1, 2, 4} && i < size && Translate(t, va, size, false).Address?
    ensures Translate(t, va, size, false).phys + size <= MEMORY_SIZE
    ensures ByteAt(mem, t, Unsigned(va) + i) == Some(mem[Translate(t, va, size, false).phys + i])
  {
    PhysicalBound(t, va, size, false);
    InPage(Unsigned(va) + i, Unsigned(va));
  }

  lemma ReadMemValue(mem: seq<Byte>, t: Table, va: int, size: int, b: seq<Byte>)
    requires |mem| == MEMORY_SIZE && size in {1, 2, 4} && |b| == size && ReadMem(mem, t, va, size).Loaded?
    requires forall i :: 0 <= i < size ==> ByteAt(mem, t, Unsigned(va) + i) == Some(b[i])
    ensures ReadMem(mem, t, va, size).value == LoadValue(b)
  {
    PhysicalBound(t, va, size, false);
    var p := Translate(t, va, size, false).phys;
    forall i | 0 <= i < size
      ensures b[i] == mem[p..p + size][i]
    {
      ReadIsFlat(mem, t, va, size, i);
    }
    assert b == mem[p..p + size];
  }

  /** ReadMem on the flat store: the value of the bytes at the address, and nothing changes. */
  lemma ReadMemIsFlat(mem: seq<Byte>, t: Table, va: int, size: int, b: seq<Byte>)
    requires |mem| == MEMORY_SIZE && size in {1, 2, 4} && |b| == size && ReadMem(mem, t, va, size).Loaded?
    requires forall i :: 0 <= i < size ==> ByteAt(mem, t, Unsigned(va) + i) == Some(b[i])
    ensures ReadMem(mem, t, va, size).value == LoadValue(b)
    ensures forall a :: ByteAt(mem, ReadMem(mem, t, va, size).table, a) == ByteAt(mem, t, a)
  {
    ReadMemValue(mem, t, va, size, b);
    forall a: nat
      ensures ByteAt(mem, ReadMem(mem, t, va, size).table, a) == ByteAt(mem, t, a)
    {
      TranslateKeepsFrames(t, va, size, false, a / PAGE_SIZE);
    }
  }

  // ---------------------------------------------------------------- reading back

  lemma LoadsStoredWord(value: int)
    ensures LoadValue(Bytes(value, 4)) == Int(value)
  {
    BytesRoundTrip(value, 4);
    Radixes();
    var v := FromBytes(Bytes(value, 4));
    assert v == value % W;
    IntOfLow(value);
  }

  lemma IntOfLow(x: int)
    ensures Int(x % W) == Int(x)
  {
  }

  lemma LoadsStoredShort(value: int)
    ensures LoadValue(Bytes(value, 2)) == value % 0x1_0000
  {
    BytesRoundTrip(value, 2);
    Radixes();
    FromTwo(Bytes(value, 2));
  }

  /** What a load gives of a value stored with the same size: a signed byte, an unsigned short or a word. */
  function Truncated(value: int, size: int): int {
    if size == 1 then (if value % 256 < 128 then value % 256 else value % 256 - 256)
    else if size == 2 then value % 0x1_0000
    else Int(value)
  }

  lemma LoadsStored(value: int, size: int)
    requires size in {1, 2, 4}
    ensures LoadValue(Bytes(value, size)) == Truncated(value, size)
  {
    if size == 2 {
      LoadsStoredShort(value);
    } else if size == 4 {
      LoadsStoredWord(value);
    }
  }

  /** Setting the use and dirty bits changes no translation but those bits. */
  lemma TranslateAgain(t: Table, va: int, size: int, writing: bool, vb: int, n: int, again: bool)
    requires Translate(t, va, size, writing).Address?
    ensures match Translate(t, vb, n, again)
            case Fault(e) => Translate(Translate(t, va, size, writing).table, vb, n, again) == Fault(e)
            case Address(p, _) =>
              && Translate(Translate(t, va, size, writing).table, vb, n, again).Address?
              && Translate(Translate(t, va, size, writing).table, vb, n, again).phys == p
  {
    var r := Translate(t, va, size, writing).table;
    var k := Find(t, Unsigned(va) / PAGE_SIZE).index;
    if t.isTlb {
      SearchIgnoresBits(t.entries, k, r.entries[k], Unsigned(vb) / PAGE_SIZE, 0);
    }
  }

  /** A load after a store with the same address and size gives the value stored, cut to that size,
      whatever else is mapped. */
  lemma ReadsBack(mem: seq<Byte>, t: Table, va: int, size: int, value: int)
    requires |mem| == MEMORY_SIZE && size in {1, 2, 4} && WriteMem(mem, t, va, size, value).Stored?
    ensures var r := WriteMem(mem, t, va, size, value);
            var l := ReadMem(r.mem, r.table, va, size);
            l.Loaded? && l.value == Truncated(value, size)
  {
    PhysicalBound(t, va, size, true);
    var w, r := Translate(t, va, size, true), WriteMem(mem, t, va, size, value);
    TranslateAgain(t, va, size, true, va, size, false);
    var b := r.mem[w.phys..w.phys + size];
    assert forall i :: 0 <= i < size ==> b[i] == Bytes(value, size)[i];
    assert b == Bytes(value, size);
    LoadsStored(value, size);
  }

  lemma Radixes()
    ensures Radix(1) == 256 && Radix(2) == 0x1_0000 && Radix(3) == 0x100_0000 && Radix(4) == W
  {
    assert Radix(1) == 256 && Radix(2) == 0x1_0000 && Radix(3) == 0x100_0000;
  }

  lemma FromTwo(b: seq<Byte>)
    requires |b| == 2
    ensures FromBytes(b) == Val(b[0]) + 256 * Val(b[1])
  {
    assert FromBytes(b[1..]) == b[1];
  }

  lemma FromFour(b: seq<Byte>)
    requires |b| == 4
    ensures FromBytes(b) == Val(b[0]) + 0x100 * Val(b[1]) + 0x1_0000 * Val(b[2]) + 0x100_0000 * Val(b[3])
  {
    assert FromBytes(b[1..][1..][1..]) == b[3];
    assert FromBytes(b[1..][1..]) == Val(b[2]) + 256 * Val(b[3]);
  }

  ghost predicate DisjointFrames(t: Table, s: Table) {
    forall p: nat, q: nat :: Frame(t, p).Some? ==> Frame(t, p) != Frame(s, q)
  }

  /** Address spaces whose frames are disjoint cannot affect each other. */
  lemma SpacesAreIsolated(mem: seq<Byte>, t: Table, s: Table, va: int, size: int, value: int, a: nat)
    requires |mem| == MEMORY_SIZE && size in {1, 2, 4} && DisjointFrames(t, s)
    requires WriteMem(mem, t, va, size, value).Stored?
    ensures ByteAt(WriteMem(mem, t, va, size, value).mem, s, a) == ByteAt(mem, s, a)
  {
    PhysicalBound(t, va, size, true);
    var u := Unsigned(va);
    assert Frame(t, u / PAGE_SIZE).Some?;
    if Frame(s, a / PAGE_SIZE).Some? {
      var f, g := Frame(s, a / PAGE_SIZE).value, Frame(t, u / PAGE_SIZE).value;
      assert f != g;
      assert Translate(t, va, size, true).phys == g * PAGE_SIZE + u % PAGE_SIZE;
      assert f < g ==> f * PAGE_SIZE + PAGE_SIZE <= g * PAGE_SIZE;
    }
  }

  // ---------------------------------------------------------------- the code

  /** The value a host loads from bytes in memory, before it is put in host order. */
  function HostLoad(bigEndian: bool, b: seq<Byte>): nat {
    if bigEndian then FromBytes(Reversed(b)) else FromBytes(b)
  }

  lemma LoadsLittleEndian(bigEndian: bool, b: seq<Byte>)
    requires |b| == 4
    ensures IsUnsigned(HostLoad(bigEndian, b)) && WordToHost(bigEndian, HostLoad(bigEndian, b)) == FromBytes(b)
  {
    FromFour(b);
    if bigEndian {
      ReversedFour(b);
      FromFour(Reversed(b));
      SwapsWord(b[3], b[2], b[1], b[0]);
    }
  }

  lemma ReversedFour(b: seq<Byte>)
    requires |b| == 4
    ensures Reversed(b) == [b[3], b[2], b[1], b[0]]
  {
    assert b == [b[0], b[1], b[2], b[3]];
    FourBytes(b[0], b[1], b[2], b[3]);
  }

  lemma LoadsShortLittleEndian(bigEndian: bool, b: seq<Byte>)
    requires |b| == 2
    ensures 0 <= HostLoad(bigEndian, b) < 0x1_0000
    ensures ShortToHost(bigEndian, HostLoad(bigEndian, b)) == Val(b[0]) + 256 * Val(b[1])
  {
    FromTwo(b);
    if bigEndian {
      assert b == [b[0], b[1]];
      TwoBytes(b[0], b[1]);
      FromTwo(Reversed(b));
    }
  }

  class UserMemory {
    const mainMemory: array<Byte>
    const isTlb: bool
    const entries: array<Entry>
    const bigEndian: bool

    ghost predicate Valid() {
      mainMemory.Length == MEMORY_SIZE && mainMemory as object != entries
    }

    function View(): Table
      reads entries
    {
      Table(isTlb, entries[..])
    }

    /** The search of the TLB. */
    method Search(vpn: int) returns (r: Lookup)
      ensures r == SearchTlb(entries[..], vpn, 0)
    {
      var i := 0;
      while i < entries.Length
        invariant 0 <= i <= entries.Length && SearchTlb(entries[..], vpn, 0) == SearchTlb(entries[..], vpn, i)
      {
        if entries[i].valid && Unsigned(entries[i].virtualPage) == vpn {
          return Found(i);
        }
        i := i + 1;
      }
      return Missing(PageFaultException);
    }

    method TranslateNow(va: int, size: int, writing: bool) returns (exc: Exception, phys: int)
      requires Valid()
      modifies entries
      ensures match Translate(old(View()), va, size, writing)
              case Fault(e) => exc == e && View() == old(View())
              case Address(p, t) => exc == NoException && phys == p && View() == t
    {
      phys := 0;
      if (size == 4 && va % 4 != 0) || (size == 2 && va % 2 != 0) {
        return AddressErrorException, phys;
      }
      var vpn, offset := Unsigned(va) / PAGE_SIZE, Unsigned(va) % PAGE_SIZE;
      var k: nat;
      if !isTlb {
        if vpn >= entries.Length { return AddressErrorException, phys; }
        if !entries[vpn].valid { return PageFaultException, phys; }
        k := vpn;
      } else {
        var found := Search(vpn);
        if found.Missing? { return found.exc, phys; }
        k := found.index;
      }
      if entries[k].readOnly && writing { return ReadOnlyException, phys; }
      var pageFrame := Unsigned(entries[k].physicalPage);
      if pageFrame >= NUM_PHYS_PAGES { return BusErrorException, phys; }
      entries[k] := entries[k].(use := true);
      if writing {
        entries[k] := entries[k].(dirty := true);
      }
      phys := pageFrame * PAGE_SIZE + offset;
      return NoException, phys;
    }

    /** ReadMem up to the exception it raises. */
    method Read(va: int, size: int) returns (exc: Exception, value: int)
      requires Valid() && size in {1, 2, 4}
      modifies entries
      ensures mainMemory[..] == old(mainMemory[..])
      ensures match ReadMem(old(mainMemory[..]), old(View()), va, size)
              case LoadFault(e) => exc == e != NoException && View() == old(View())
              case Loaded(v, t) => exc == NoException && value == v && View() == t
    {
      value := 0;
      ghost var t := View();
      var phys;
      exc, phys := TranslateNow(va, size, false);
      if exc != NoException { return; }
      PhysicalBound(t, va, size, false);
      var b := mainMemory[phys..phys + size];
      if size == 1 {
        value := if mainMemory[phys] < 128 then mainMemory[phys] else Val(mainMemory[phys]) - 256;
      } else if size == 2 {
        LoadsShortLittleEndian(bigEndian, b);
        value := ShortToHost(bigEndian, HostLoad(bigEndian, b));
      } else {
        LoadsLittleEndian(bigEndian, b);
        value := Int(WordToHost(bigEndian, HostLoad(bigEndian, b)));
      }
    }

    /** WriteMem up to the exception it raises. */
    method Write(va: int, size: int, value: int) returns (exc: Exception)
      requires Valid() && size in {1, 2, 4}
      modifies entries, mainMemory
      ensures match WriteMem(old(mainMemory[..]), old(View()), va, size, value)
              case StoreFault(e) => exc == e != NoException && View() == old(View()) && mainMemory[..] == old(mainMemory[..])
              case Stored(m, t) => exc == NoException && View() == t && mainMemory[..] == m
    {
      ghost var t := View();
      var phys;
      exc, phys := TranslateNow(va, size, true);
      if exc != NoException { return; }
      PhysicalBound(t, va, size, true);
      var b;
      if size == 1 {
        b := [value % 256];
        assert Bytes(value, 1) == b;
      } else if size == 2 {
        StoresShortLittleEndian(bigEndian, value % 0x1_0000);
        BytesOfLow(value, 2);
        Radixes();
        b := HostBytes(bigEndian, ShortToHost(bigEndian, value % 0x1_0000), 2);
      } else {
        StoresLittleEndian(bigEndian, Unsigned(value));
        BytesOfLow(value, 4);
        Radixes();
        b := HostBytes(bigEndian, WordToHost(bigEndian, Unsigned(value)), 4);
      }
      Put(phys, b);
    }

    method Put(at: nat, b: seq<Byte>)
      requires Valid() && at + |b| <= MEMORY_SIZE
      modifies mainMemory
      ensures mainMemory[..] == Splice(old(mainMemory[..]), at, b)
    {
      ghost var m := mainMemory[..];
      forall i | 0 <= i < |b| {
        mainMemory[at + i] := b[i];
      }
      assert forall i :: 0 <= i < MEMORY_SIZE ==> mainMemory[..][i] == Splice(m, at, b)[i];
    }
  }

  lemma LowByteOf(x: int, y: int)
    requires 0 <= y < 256
    ensures (256 * x + y) % 256 == y && (256 * x + y) / 256 == x
  {
  }

  lemma {:induction false} BytesOfLow(v: int, n: nat)
    ensures Bytes(v % Radix(n), n) == Bytes(v, n)
    decreases n
  {
    if n > 0 {
      SplitLowByte(v, Radix(n - 1));
      LowByteOf(v / 256 % Radix(n - 1), v % 256);
      BytesOfLow(v / 256, n - 1);
    }
  }
}
