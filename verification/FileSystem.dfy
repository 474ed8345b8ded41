/** Create and Remove over the free map, the file headers and the directory (filesys.cc, filehdr.cc,
    directory.cc), for files of direct sectors. */
module FileSystem {
  import B = BitMap
  import F = OpenFile

  const NUM_SECTORS := 1024
  const SECTOR_SIZE := 128
  const DIRECT := 30
  const FREE_MAP_SECTOR := 0
  const DIRECTORY_SECTOR := 1
  const FREE_MAP_FILE_SIZE := 128
  const NUM_DIR_ENTRIES := 10
  const DIRECTORY_FILE_SIZE := 200
  const FILE_NAME_MAX_LEN := 9

  datatype Entry = Entry(inUse: bool, name: string, sector: nat)

  /** What is on the disk: the file headers by sector, the marked bits of the free map, the directory. */
  datatype Fs = Fs(headers: map<nat, F.Header>, marked: set<nat>, table: seq<Entry>)

  // ---------------------------------------------------------------- the directory

  /** strncmp and strncpy look at no more of a name than this. */
  function Key(name: string): string {
    if |name| <= FILE_NAME_MAX_LEN then name else name[..FILE_NAME_MAX_LEN]
  }

  predicate SameAt(a: string, b: string, k: nat) {
    (k < |a| <==> k < |b|) && (k < |a| && k < |b| ==> a[k] == b[k])
  }

  /** The names are the same as far as their first nine characters go. */
  predicate SameName(a: string, b: string) { forall k :: 0 <= k < 9 ==> SameAt(a, b, k) }

  lemma KeysAre(a: string, b: string)
    ensures Key(a) == Key(b) <==> SameName(a, b)
  {
    var x, y := Key(a), Key(b);
    assert forall k :: 0 <= k < |x| ==> x[k] == a[k];
    assert forall k :: 0 <= k < |y| ==> y[k] == b[k];
    if SameName(a, b) {
      assert |x| < 9 ==> SameAt(a, b, |x|);
      assert |y| < 9 ==> SameAt(a, b, |y|);
      assert |x| == |y|;
      forall k | 0 <= k < |x|
        ensures x[k] == y[k]
      {
        assert SameAt(a, b, k);
      }
    } else {
      var k :| 0 <= k < 9 && !SameAt(a, b, k);
      assert k < |x| ==> x[k] == a[k];
      assert k < |y| ==> y[k] == b[k];
    }
  }

  predicate Matches(e: Entry, name: string) { e.inUse && Key(e.name) == Key(name) }

  function FindIndex(table: seq<Entry>, name: string, i: nat): (r: int)
    requires i <= |table|
    ensures r == -1 <==> forall j :: i <= j < |table| ==> !Matches(table[j], name)
    ensures r != -1 ==> i <= r < |table| && Matches(table[r], name) && forall j :: i <= j < r ==> !Matches(table[j], name)
    decreases |table| - i
  {
    if i == |table| then -1 else if Matches(table[i], name) then i else FindIndex(table, name, i + 1)
  }

  lemma {:induction false} SameSearch(t: seq<Entry>, u: seq<Entry>, name: string, i: nat)
    requires i <= |t| == |u| && forall j :: 0 <= j < |t| ==> (Matches(t[j], name) <==> Matches(u[j], name))
    ensures FindIndex(t, name, i) == FindIndex(u, name, i)
    decreases |t| - i
  {
    if i < |t| {
      SameSearch(t, u, name, i + 1);
    }
  }

  function FreeIndex(table: seq<Entry>, i: nat): (r: int)
    requires i <= |table|
    ensures r == -1 <==> forall j :: i <= j < |table| ==> table[j].inUse
    ensures r != -1 ==> i <= r < |table| && !table[r].inUse && forall j :: i <= j < r ==> table[j].inUse
    decreases |table| - i
  {
    if i == |table| then -1 else if !table[i].inUse then i else FreeIndex(table, i + 1)
  }

  // ---------------------------------------------------------------- the operations

  function SectorsFor(size: nat): nat { (size + SECTOR_SIZE - 1) / SECTOR_SIZE }

  /** n blocks of 128 bytes are just enough for size bytes. */
  predicate JustEnough(size: nat, n: nat) { 128 * (n - 1) < size <= 128 * n }

  lemma SectorsAre(size: nat, n: nat)
    ensures n == SectorsFor(size) <==> (if size == 0 then n == 0 else JustEnough(size, n))
  {
  }

  /** The sectors of a header's data, as Allocate picks them: the least free ones. */
  function Allocated(marked: set<nat>, size: nat): (r: seq<nat>)
    requires SectorsFor(size) <= B.CountClear(marked, NUM_SECTORS)
    ensures |r| == SectorsFor(size)
    ensures forall k :: 0 <= k < |r| ==> r[k] < NUM_SECTORS && r[k] !in marked
    ensures forall j, k :: 0 <= j < k < |r| ==> r[j] < r[k]
  {
    B.FindsAreFresh(marked, NUM_SECTORS, SectorsFor(size));
    var f := B.Finds(marked, NUM_SECTORS, SectorsFor(size));
    seq(|f|, k requires 0 <= k < |f| => f[k])
  }

  function Members(s: seq<nat>): (r: set<nat>)
    ensures forall x :: x in r <==> x in s
  {
    set x | x in s
  }

  lemma OneMember(s: seq<nat>)
    requires |s| == 1
    ensures Members(s) == {s[0]}
  {
    assert s == [s[0]];
  }

  lemma MembersStep(s: seq<nat>, i: nat)
    requires i < |s|
    ensures Members(s[..i + 1]) == Members(s[..i]) + {s[i]}
  {
    assert s[..i + 1] == s[..i] + [s[i]];
  }

  /** The marked bits before each sector of all is taken, and after the last. */
  ghost function MarksWhile(marked: set<nat>, all: seq<nat>): (r: seq<set<nat>>)
    ensures |r| == |all| + 1 && r[0] == marked && r[|all|] == marked + Members(all)
    ensures forall i :: 0 <= i < |all| ==> r[i + 1] == r[i] + {all[i]}
  {
    var r := seq(|all| + 1, i requires 0 <= i <= |all| => marked + Members(all[..i]));
    assert r[0] == marked && all[..|all|] == all;
    assert forall i :: 0 <= i < |all| ==> r[i + 1] == r[i] + {all[i]} by {
      forall i | 0 <= i < |all|
        ensures r[i + 1] == r[i] + {all[i]}
      {
        MembersStep(all, i);
      }
    }
    r
  }

  /** Allocated is what successive Finds return. */
  lemma AllocatedOneByOne(marked: set<nat>, size: nat)
    requires SectorsFor(size) <= B.CountClear(marked, NUM_SECTORS)
    ensures var all := Allocated(marked, size);
            forall i :: 0 <= i < |all| ==> B.FirstClear(MarksWhile(marked, all)[i], NUM_SECTORS, 0) == all[i]
  {
    var all := Allocated(marked, size);
    forall i | 0 <= i < |all|
      ensures B.FirstClear(MarksWhile(marked, all)[i], NUM_SECTORS, 0) == all[i]
    {
      OneByOne(marked, NUM_SECTORS, |all|, all, i);
    }
  }

  lemma OneByOne(marked: set<nat>, n: nat, k: nat, all: seq<nat>, i: nat)
    requires i < k <= B.CountClear(marked, n) && |all| == k
    requires forall j :: 0 <= j < k ==> all[j] == B.Finds(marked, n, k)[j]
    ensures B.FirstClear(marked + Members(all[..i]), n, 0) == all[i]
  {
    B.FindsOneByOne(marked, n, k, i);
    assert Members(all[..i]) == B.Hits(B.Finds(marked, n, k)[..i]);
  }

  datatype Result = Result(fs: Fs, success: bool)

  function Create(fs: Fs, name: string, size: nat): Result {
    if FindIndex(fs.table, name, 0) != -1 then Result(fs, false)
    else
      var sector := B.FirstClear(fs.marked, NUM_SECTORS, 0);
      var i := FreeIndex(fs.table, 0);
      if sector == -1 || i == -1 then Result(fs, false) else CreateAt(fs, name, size, sector, i)
  }

  /** The rest of Create once a sector for the header and an entry have been found. */
  function CreateAt(fs: Fs, name: string, size: nat, sector: nat, i: nat): Result
    requires i < |fs.table|
  {
    var marked := fs.marked + {sector};
    if B.CountClear(marked, NUM_SECTORS) < SectorsFor(size) then Result(fs, false)
    else
      var data := Allocated(marked, size);
      Result(Fs(fs.headers[sector := F.Header(size, data)], marked + Members(data),
                fs.table[i := Entry(true, Key(name), sector)]), true)
  }

  function Remove(fs: Fs, name: string): Result {
    var i := FindIndex(fs.table, name, 0);
    if i == -1 || fs.table[i].sector !in fs.headers then Result(fs, false)
    else
      var sector := fs.table[i].sector;
      Result(Fs(fs.headers, fs.marked - Members(fs.headers[sector].sectors) - {sector},
                fs.table[i := fs.table[i].(inUse := false)]), true)
  }

  lemma {:induction false} MostAreClear(s: set<nat>, n: nat)
    ensures B.CountClear(s, n) >= n - |s|
    decreases n
  {
    if n > 0 {
      MostAreClear(s - {n - 1}, n - 1);
      SameBelow(s, n - 1);
    }
  }

  lemma {:induction false} SameBelow(s: set<nat>, n: nat)
    ensures B.CountClear(s - {n}, n) == B.CountClear(s, n)
  {
    CountDepends(s - {n}, s, n);
  }

  lemma {:induction false} CountDepends(s: set<nat>, t: set<nat>, n: nat)
    requires forall i :: 0 <= i < n ==> (i in s <==> i in t)
    ensures B.CountClear(s, n) == B.CountClear(t, n)
  {
    if n > 0 {
      CountDepends(s, t, n - 1);
    }
  }

  /** What formatting allocates for the free map file and the directory file. Its two assertions that there
      is room are the preconditions of Allocated. */
  function FormatData(): (d: (seq<nat>, seq<nat>))
    ensures |d.0| == 1 && |d.1| == 2 && FreshData(d.0[0], d.1[0], d.1[1])
  {
    var heads: set<nat> := {FREE_MAP_SECTOR, DIRECTORY_SECTOR};
    FormatRoom(heads);
    var mapData := Allocated(heads, FREE_MAP_FILE_SIZE);
    (mapData, Allocated(heads + {mapData[0]}, DIRECTORY_FILE_SIZE))
  }

  lemma FormatRoom(heads: set<nat>)
    requires |heads| <= 2
    ensures SectorsFor(FREE_MAP_FILE_SIZE) <= B.CountClear(heads, NUM_SECTORS)
    ensures forall x :: SectorsFor(DIRECTORY_FILE_SIZE) <= B.CountClear(heads + {x}, NUM_SECTORS)
  {
    MostAreClear(heads, NUM_SECTORS);
    forall x
      ensures SectorsFor(DIRECTORY_FILE_SIZE) <= B.CountClear(heads + {x}, NUM_SECTORS)
    {
      MostAreClear(heads + {x}, NUM_SECTORS);
    }
  }

  predicate FreshData(a: nat, b: nat, c: nat) {
    1 < a < NUM_SECTORS && 1 < b < c < NUM_SECTORS && a != b && a != c
  }

  function Formatted(mapData: seq<nat>, dirData: seq<nat>): Fs {
    Fs(map[FREE_MAP_SECTOR := F.Header(FREE_MAP_FILE_SIZE, mapData), DIRECTORY_SECTOR := F.Header(DIRECTORY_FILE_SIZE, dirData)],
       {FREE_MAP_SECTOR, DIRECTORY_SECTOR} + Members(mapData) + Members(dirData),
       seq(NUM_DIR_ENTRIES, _ => Entry(false, "", 0)))
  }

  function Format(): Fs { Formatted(FormatData().0, FormatData().1) }

  // ---------------------------------------------------------------- who owns which sector

  /** The owners of sectors: the directory entries, then the free map file and the directory file. */
  const OWNERS := NUM_DIR_ENTRIES + 2

  predicate Live(fs: Fs, k: nat)
    requires |fs.table| == NUM_DIR_ENTRIES && k < OWNERS
  {
    k >= NUM_DIR_ENTRIES || fs.table[k].inUse
  }

  function Head(fs: Fs, k: nat): nat
    requires |fs.table| == NUM_DIR_ENTRIES && k < OWNERS
  {
    if k == NUM_DIR_ENTRIES then FREE_MAP_SECTOR
    else if k > NUM_DIR_ENTRIES then DIRECTORY_SECTOR
    else fs.table[k].sector
  }

  /** The header sector and the data sectors of owner k. */
  function Owned(fs: Fs, k: nat): set<nat>
    requires |fs.table| == NUM_DIR_ENTRIES && k < OWNERS && Head(fs, k) in fs.headers
  {
    {Head(fs, k)} + Members(fs.headers[Head(fs, k)].sectors)
  }

  /** Owner k has a header whose data lies on distinct sectors, apart from the header itself. */
  ghost predicate OwnerOk(fs: Fs, k: nat)
    requires |fs.table| == NUM_DIR_ENTRIES && k < OWNERS
  {
    var head := Head(fs, k);
    && head in fs.headers && head < NUM_SECTORS
    && F.HeaderOk(fs.headers[head], NUM_SECTORS)
    && head !in fs.headers[head].sectors
    && Owned(fs, k) <= fs.marked
  }

  ghost predicate OwnersOk(fs: Fs) {
    |fs.table| == NUM_DIR_ENTRIES && forall k :: 0 <= k < OWNERS && Live(fs, k) ==> OwnerOk(fs, k)
  }

  ghost predicate Disjoint(fs: Fs)
    requires OwnersOk(fs)
  {
    forall j, k :: 0 <= j < k < OWNERS && Live(fs, j) && Live(fs, k) ==> Owned(fs, j) !! Owned(fs, k)
  }

  ghost predicate HasOwner(fs: Fs, x: nat)
    requires OwnersOk(fs)
  {
    exists k :: 0 <= k < OWNERS && Live(fs, k) && x in Owned(fs, k)
  }

  ghost predicate NamesDiffer(table: seq<Entry>) {
    forall j, k :: 0 <= j < k < |table| && table[j].inUse && table[k].inUse ==> Key(table[j].name) != Key(table[k].name)
  }

  /** The sectors of all headers and files are pairwise disjoint and are exactly the marked bits. */
  ghost predicate FsOk(fs: Fs) {
    && OwnersOk(fs)
    && Disjoint(fs)
    && (forall x :: x in fs.marked ==> HasOwner(fs, x))
    && NamesDiffer(fs.table)
  }

  lemma FormattedOk(a: nat, b: nat, c: nat)
    requires FreshData(a, b, c)
    ensures FsOk(Formatted([a], [b, c]))
  {
    var fs := Formatted([a], [b, c]);
    assert Members([a]) == {a} && Members([b, c]) == {b, c};
    assert Owned(fs, NUM_DIR_ENTRIES) == {FREE_MAP_SECTOR, a};
    assert Owned(fs, NUM_DIR_ENTRIES + 1) == {DIRECTORY_SECTOR, b, c};
    assert fs.marked == Owned(fs, NUM_DIR_ENTRIES) + Owned(fs, NUM_DIR_ENTRIES + 1);
    assert OwnerOk(fs, NUM_DIR_ENTRIES) && OwnerOk(fs, NUM_DIR_ENTRIES + 1);
    assert forall k :: 0 <= k < NUM_DIR_ENTRIES ==> !Live(fs, k);
  }

  /** A formatted disk: the free map and the directory own their headers and data, and nothing else is marked. */
  lemma FormatOk()
    ensures FsOk(Format())
  {
    FormattedPairOk(FormatData());
  }

  /** The formatted disk: the free map is the 128-byte file on sector 2 with its header on sector 0, the
      directory the 200-byte file on sectors 3 and 4 with its header on sector 1, and it has ten free entries. */
  lemma FormatLays()
    ensures var fs := Format();
            && fs.headers == map[0 := F.Header(128, [2]), 1 := F.Header(200, [3, 4])]
            && fs.marked == {0, 1, 2, 3, 4} && |fs.table| == 10 && forall i :: 0 <= i < 10 ==> !fs.table[i].inUse
  {
    var heads: set<nat> := {FREE_MAP_SECTOR, DIRECTORY_SECTOR};
    MapData(heads);
    DirData(heads + {2});
    LaidOut(FormatData());
  }

  lemma LaidOut(d: (seq<nat>, seq<nat>))
    requires d == ([2], [3, 4])
    ensures var fs := Formatted(d.0, d.1);
            && fs.headers == map[0 := F.Header(128, [2]), 1 := F.Header(200, [3, 4])]
            && fs.marked == {0, 1, 2, 3, 4} && |fs.table| == 10 && forall i :: 0 <= i < 10 ==> !fs.table[i].inUse
  {
    assert Members(d.0) == {2} && Members(d.1) == {3, 4};
  }

  lemma MapData(heads: set<nat>)
    requires heads == {0, 1}
    ensures SectorsFor(FREE_MAP_FILE_SIZE) <= B.CountClear(heads, NUM_SECTORS) && Allocated(heads, FREE_MAP_FILE_SIZE) == [2]
  {
    FormatRoom(heads);
    FirstIs(heads, FREE_MAP_FILE_SIZE, 2);
  }

  lemma DirData(heads: set<nat>)
    requires heads == {0, 1, 2}
    ensures SectorsFor(DIRECTORY_FILE_SIZE) <= B.CountClear(heads, NUM_SECTORS) && Allocated(heads, DIRECTORY_FILE_SIZE) == [3, 4]
  {
    MostAreClear(heads, NUM_SECTORS);
    FirstIs(heads, DIRECTORY_FILE_SIZE, 3);
    SecondIs(heads, DIRECTORY_FILE_SIZE, 3, 4);
  }

  /** The first sector allocated is the least free one, and the second the least after that. */
  lemma FirstIs(marked: set<nat>, size: nat, x: nat)
    requires 1 <= SectorsFor(size) <= B.CountClear(marked, NUM_SECTORS)
    requires x < NUM_SECTORS && x !in marked && forall y :: 0 <= y < x ==> y in marked
    ensures Allocated(marked, size)[0] == x
  {
    AllocatedOneByOne(marked, size);
    assert B.FirstClear(MarksWhile(marked, Allocated(marked, size))[0], NUM_SECTORS, 0) == Allocated(marked, size)[0];
  }

  lemma SecondIs(marked: set<nat>, size: nat, x: nat, y: nat)
    requires 2 <= SectorsFor(size) <= B.CountClear(marked, NUM_SECTORS) && Allocated(marked, size)[0] == x
    requires y < NUM_SECTORS && y !in marked + {x} && forall z :: 0 <= z < y ==> z in marked + {x}
    ensures Allocated(marked, size)[1] == y
  {
    AllocatedOneByOne(marked, size);
    var all := Allocated(marked, size);
    assert MarksWhile(marked, all)[0 + 1] == MarksWhile(marked, all)[0] + {all[0]};
    assert B.FirstClear(MarksWhile(marked, all)[1], NUM_SECTORS, 0) == all[1];
  }

  lemma FormattedPairOk(d: (seq<nat>, seq<nat>))
    requires |d.0| == 1 && |d.1| == 2 && FreshData(d.0[0], d.1[0], d.1[1])
    ensures FsOk(Formatted(d.0, d.1))
  {
    var a, b, c := d.0[0], d.1[0], d.1[1];
    assert d.0 == [a] && d.1 == [b, c];
    var fs := Formatted(d.0, d.1);
    assert fs == Formatted([a], [b, c]);
    FormattedOk(a, b, c);
  }

  // ---------------------------------------------------------------- every operation keeps them apart

  /** Entry i now owns fresh sectors; nobody else's changed. */
  ghost predicate Grown(fs: Fs, r: Fs, i: nat, head: nat, h: F.Header) {
    && i < |fs.table| == |r.table| == NUM_DIR_ENTRIES
    && !fs.table[i].inUse && r.table == fs.table[i := r.table[i]] && r.table[i].inUse && r.table[i].sector == head
    && r.headers == fs.headers[head := h]
    && head < NUM_SECTORS && head !in fs.marked && head !in h.sectors
    && F.HeaderOk(h, NUM_SECTORS)
    && (forall j :: 0 <= j < |h.sectors| ==> h.sectors[j] !in fs.marked)
    && r.marked == fs.marked + {head} + Members(h.sectors)
  }

  lemma OthersKeep(fs: Fs, r: Fs, i: nat, head: nat, h: F.Header, k: nat)
    requires OwnersOk(fs) && Grown(fs, r, i, head, h) && k < OWNERS && k != i
    ensures Live(r, k) <==> Live(fs, k)
    ensures Live(fs, k) ==> Head(r, k) in r.headers && Owned(r, k) == Owned(fs, k) && OwnerOk(r, k)
  {
    if Live(fs, k) {
      assert OwnerOk(fs, k);
      assert Head(fs, k) in Owned(fs, k);
    }
  }

  lemma GrownKeeps(fs: Fs, r: Fs, i: nat, head: nat, h: F.Header)
    requires FsOk(fs) && Grown(fs, r, i, head, h)
    ensures OwnersOk(r) && Disjoint(r)
    ensures forall x :: x in r.marked ==> HasOwner(r, x)
  {
    assert Owned(r, i) == {head} + Members(h.sectors);
    assert Owned(r, i) !! fs.marked;
    forall k | 0 <= k < OWNERS && Live(r, k)
      ensures OwnerOk(r, k)
    {
      if k != i {
        OthersKeep(fs, r, i, head, h, k);
      }
    }
    forall j, k | 0 <= j < k < OWNERS && Live(r, j) && Live(r, k)
      ensures Owned(r, j) !! Owned(r, k)
    {
      GrownDisjoint(fs, r, i, head, h, j, k);
    }
    forall x | x in r.marked
      ensures HasOwner(r, x)
    {
      if x in fs.marked {
        var k :| 0 <= k < OWNERS && Live(fs, k) && x in Owned(fs, k);
        OthersKeep(fs, r, i, head, h, k);
      } else {
        assert x in Owned(r, i);
      }
    }
  }

  lemma GrownDisjoint(fs: Fs, r: Fs, i: nat, head: nat, h: F.Header, j: nat, k: nat)
    requires FsOk(fs) && Grown(fs, r, i, head, h) && OwnersOk(r) && j < k < OWNERS && Live(r, j) && Live(r, k)
    ensures Owned(r, j) !! Owned(r, k)
  {
    assert Owned(r, i) == {head} + Members(h.sectors);
    assert Owned(r, i) !! fs.marked;
    if j != i {
      OthersKeep(fs, r, i, head, h, j);
      assert OwnerOk(fs, j);
    }
    if k != i {
      OthersKeep(fs, r, i, head, h, k);
      assert OwnerOk(fs, k);
    }
  }

  /** Entry i has given up its sectors; nobody else's changed. */
  ghost predicate Shrunk(fs: Fs, r: Fs, i: nat) {
    && i < |fs.table| == |r.table| == NUM_DIR_ENTRIES
    && fs.table[i].inUse && r.table == fs.table[i := fs.table[i].(inUse := false)]
    && r.headers == fs.headers
    && Head(fs, i) in fs.headers && r.marked == fs.marked - Owned(fs, i)
  }

  lemma OthersStay(fs: Fs, r: Fs, i: nat, k: nat)
    requires OwnersOk(fs) && Disjoint(fs) && Shrunk(fs, r, i) && k < OWNERS
    ensures Live(r, k) <==> Live(fs, k) && k != i
    ensures Live(r, k) ==> OwnerOk(fs, k) && OwnerOk(r, k) && Owned(r, k) == Owned(fs, k)
  {
    if Live(r, k) {
      assert k != i && Live(fs, k) && Live(fs, i);
      assert OwnerOk(fs, k) && Head(r, k) == Head(fs, k);
      assert Owned(fs, k) !! Owned(fs, i) by { OwnersApart(fs, i, k); }
      StaysMarked(fs.marked, Owned(fs, k), Owned(fs, i));
    }
  }

  lemma OwnersApart(fs: Fs, i: nat, k: nat)
    requires OwnersOk(fs) && Disjoint(fs) && i < OWNERS && k < OWNERS && i != k && Live(fs, i) && Live(fs, k)
    ensures OwnerOk(fs, i) && OwnerOk(fs, k) && Owned(fs, k) !! Owned(fs, i)
  {
    var j, m := if i < k then i else k, if i < k then k else i;
    assert Owned(fs, j) !! Owned(fs, m);
  }

  lemma StaysMarked(m: set<nat>, a: set<nat>, b: set<nat>)
    requires a <= m && a !! b
    ensures a <= m - b
  {
  }

  lemma ShrunkKeeps(fs: Fs, r: Fs, i: nat)
    requires FsOk(fs) && Shrunk(fs, r, i)
    ensures OwnersOk(r) && Disjoint(r)
    ensures forall x :: x in r.marked ==> HasOwner(r, x)
  {
    forall k | 0 <= k < OWNERS && Live(r, k)
      ensures OwnerOk(r, k)
    {
      OthersStay(fs, r, i, k);
    }
    forall j, k | 0 <= j < k < OWNERS && Live(r, j) && Live(r, k)
      ensures Owned(r, j) !! Owned(r, k)
    {
      OthersStay(fs, r, i, j);
      OthersStay(fs, r, i, k);
    }
    forall x | x in r.marked
      ensures HasOwner(r, x)
    {
      var k :| 0 <= k < OWNERS && Live(fs, k) && x in Owned(fs, k);
      OthersStay(fs, r, i, k);
      assert Live(r, k) && x in Owned(r, k);
    }
  }

  lemma CreateShape(fs: Fs, name: string, size: nat)
    requires OwnersOk(fs) && Create(fs, name, size).success
    ensures var r := Create(fs, name, size).fs;
            var i, head := FreeIndex(fs.table, 0), B.FirstClear(fs.marked, NUM_SECTORS, 0);
            && i >= 0 && head >= 0 && head in r.headers
            && Grown(fs, r, i, head, r.headers[head])
            && r.headers[head].length == size && |r.headers[head].sectors| == SectorsFor(size)
            && r.table[i].name == Key(name) && FindIndex(fs.table, name, 0) == -1
  {
    var head := B.FirstClear(fs.marked, NUM_SECTORS, 0);
    var data := Allocated(fs.marked + {head}, size);
    HeaderFits(size, data);
  }

  lemma HeaderFits(size: nat, data: seq<nat>)
    requires |data| == SectorsFor(size) && (forall k :: 0 <= k < |data| ==> data[k] < NUM_SECTORS)
    requires forall j, k :: 0 <= j < k < |data| ==> data[j] < data[k]
    ensures F.HeaderOk(F.Header(size, data), NUM_SECTORS)
  {
  }

  lemma KeyOfKey(name: string)
    ensures Key(Key(name)) == Key(name)
  {
  }

  lemma CreateKeeps(fs: Fs, name: string, size: nat)
    requires FsOk(fs)
    ensures FsOk(Create(fs, name, size).fs)
  {
    if Create(fs, name, size).success {
      CreateShape(fs, name, size);
      KeyOfKey(name);
      var r := Create(fs, name, size).fs;
      var head := B.FirstClear(fs.marked, NUM_SECTORS, 0);
      GrownKeeps(fs, r, FreeIndex(fs.table, 0), head, r.headers[head]);
    }
  }

  lemma RemoveShape(fs: Fs, name: string)
    requires FsOk(fs)
    ensures Remove(fs, name).success <==> FindIndex(fs.table, name, 0) != -1
    ensures Remove(fs, name).success ==> Shrunk(fs, Remove(fs, name).fs, FindIndex(fs.table, name, 0))
  {
    var i := FindIndex(fs.table, name, 0);
    if i != -1 {
      assert OwnerOk(fs, i);
    }
  }

  /** The file a name is found at has a sound header, all of it marked. */
  lemma FoundIsOk(fs: Fs, name: string)
    requires FsOk(fs) && FindIndex(fs.table, name, 0) != -1
    ensures var head := fs.table[FindIndex(fs.table, name, 0)].sector;
            && head in fs.headers && head < NUM_SECTORS && head !in fs.headers[head].sectors
            && F.HeaderOk(fs.headers[head], NUM_SECTORS)
            && Members(fs.headers[head].sectors) <= fs.marked
  {
    assert OwnerOk(fs, FindIndex(fs.table, name, 0));
  }

  lemma RemoveKeeps(fs: Fs, name: string)
    requires FsOk(fs)
    ensures FsOk(Remove(fs, name).fs)
  {
    RemoveShape(fs, name);
    if Remove(fs, name).success {
      ShrunkKeeps(fs, Remove(fs, name).fs, FindIndex(fs.table, name, 0));
    }
  }

  // ---------------------------------------------------------------- runs

  datatype Op = Creating(name: string, size: nat) | Removing(name: string)

  function Step(fs: Fs, op: Op): Fs {
    match op
    case Creating(name, size) => Create(fs, name, size).fs
    case Removing(name) => Remove(fs, name).fs
  }

  function Run(fs: Fs, ops: seq<Op>): Fs
    decreases |ops|
  {
    if ops == [] then fs else Run(Step(fs, ops[0]), ops[1..])
  }

  lemma {:induction false} RunKeeps(fs: Fs, ops: seq<Op>)
    requires FsOk(fs)
    ensures FsOk(Run(fs, ops))
    decreases |ops|
  {
    if ops != [] {
      match ops[0] {
        case Creating(name, size) => CreateKeeps(fs, name, size);
        case Removing(name) => RemoveKeeps(fs, name);
      }
      RunKeeps(Step(fs, ops[0]), ops[1..]);
    }
  }

  /** From a formatted disk, after any Creates and Removes, header and data sectors of all files are
      pairwise disjoint and exactly the marked bits of the free map. */
  lemma EveryRunKeepsSectorsApart(ops: seq<Op>)
    ensures FsOk(Run(Format(), ops))
  {
    FormatOk();
    RunKeeps(Format(), ops);
  }

  // ---------------------------------------------------------------- what the operations do for a user

  datatype Lookup = Absent | Present(header: F.Header)

  /** The file a name stands for. */
  function Find(fs: Fs, name: string): Lookup {
    var i := FindIndex(fs.table, name, 0);
    if i == -1 || fs.table[i].sector !in fs.headers then Absent else Present(fs.headers[fs.table[i].sector])
  }

  /** Some entry in use has the name. */
  ghost predicate Known(table: seq<Entry>, name: string) {
    exists j :: 0 <= j < |table| && table[j].inUse && SameName(table[j].name, name)
  }

  ghost predicate Full(table: seq<Entry>) { forall j :: 0 <= j < |table| ==> table[j].inUse }

  /** A search finds the first entry in use with the name, if there is one. */
  lemma FindIndexIs(table: seq<Entry>, name: string)
    ensures FindIndex(table, name, 0) == -1 <==> !Known(table, name)
    ensures var i := FindIndex(table, name, 0);
            i != -1 ==> 0 <= i < |table| && table[i].inUse && SameName(table[i].name, name)
                        && forall j :: 0 <= j < i && table[j].inUse ==> !SameName(table[j].name, name)
  {
    forall j | 0 <= j < |table|
      ensures Key(table[j].name) == Key(name) <==> SameName(table[j].name, name)
    {
      KeysAre(table[j].name, name);
    }
    assert forall j :: 0 <= j < |table| ==> (Matches(table[j], name) <==> table[j].inUse && SameName(table[j].name, name));
  }

  /** The number of sectors not marked. */
  ghost function FreeSectors(fs: Fs): nat { |set x: nat | x < 1024 && x !in fs.marked| }

  lemma FreeSectorsAre(fs: Fs)
    ensures FreeSectors(fs) == B.CountClear(fs.marked, NUM_SECTORS)
  {
    CountIs(fs.marked, NUM_SECTORS);
  }

  lemma CountIs(s: set<nat>, n: nat)
    ensures B.CountClear(s, n) == |set x: nat | x < n && x !in s|
  {
    B.CountIsCardinality(s, n);
    forall x: nat
      ensures x in B.ClearBits(s, n) <==> x < n && x !in s
    {
      B.ClearBitsAre(s, n, x);
    }
    assert B.ClearBits(s, n) == set x: nat | x < n && x !in s;
  }

  /** Create succeeds exactly when no file has the name, an entry is free, and one sector for the header and n
      for the data are free, n being just enough; a failed Create changes nothing. */
  lemma CreateSucceedsExactlyWhen(fs: Fs, name: string, size: nat, n: nat)
    requires if size == 0 then n == 0 else JustEnough(size, n)
    ensures Create(fs, name, size).success <==> !Known(fs.table, name) && !Full(fs.table) && 1 + n <= FreeSectors(fs)
    ensures !Create(fs, name, size).success ==> Create(fs, name, size).fs == fs
  {
    SectorsAre(size, n);
    FindIndexIs(fs.table, name);
    FreeSectorsAre(fs);
    CreateSucceedsWhen(fs, name, size);
  }

  lemma CreateSucceedsWhen(fs: Fs, name: string, size: nat)
    ensures Create(fs, name, size).success
            <==> && FindIndex(fs.table, name, 0) == -1
                 && FreeIndex(fs.table, 0) != -1
                 && 1 + SectorsFor(size) <= B.CountClear(fs.marked, NUM_SECTORS)
    ensures !Create(fs, name, size).success ==> Create(fs, name, size).fs == fs
  {
    var head := B.FirstClear(fs.marked, NUM_SECTORS, 0);
    B.NoneClear(fs.marked, NUM_SECTORS);
    if head != -1 {
      B.CountAfterMark(fs.marked, NUM_SECTORS, head);
    }
  }

  /** After a successful Create exactly the names that agree with the new one in their first nine characters
      stand for the new file, whose header has just enough sectors, none of them in use before; every other name
      stands for what it did. */
  lemma CreateAddsOneName(fs: Fs, name: string, size: nat, other: string)
    requires FsOk(fs) && Create(fs, name, size).success
    ensures var r := Create(fs, name, size).fs;
            if SameName(other, name) then
              && Find(fs, other) == Absent && Find(r, other).Present?
              && var h := Find(r, other).header;
              && h.length == size && (if size == 0 then h.sectors == [] else JustEnough(size, |h.sectors|))
              && forall x :: x in h.sectors ==> x !in fs.marked && x in r.marked
            else Find(r, other) == Find(fs, other)
  {
    KeysAre(other, name);
    CreateShape(fs, name, size);
    CreateKeeps(fs, name, size);
    KeyOfKey(name);
    var r := Create(fs, name, size).fs;
    var i, head := FreeIndex(fs.table, 0), B.FirstClear(fs.marked, NUM_SECTORS, 0);
    var h := r.headers[head];
    SectorsAre(size, |h.sectors|);
    GrownFinds(fs, r, i, head, h, name, other);
    if SameName(other, name) {
      AbsentIsUnknown(fs, name, other);
    }
  }

  lemma GrownFinds(fs: Fs, r: Fs, i: nat, head: nat, h: F.Header, name: string, other: string)
    requires OwnersOk(fs) && NamesDiffer(r.table) && Grown(fs, r, i, head, h) && r.table[i].name == Key(name)
    ensures if Key(other) == Key(name) then Find(r, other) == Present(h) else Find(r, other) == Find(fs, other)
  {
    KeyOfKey(name);
    if Key(other) == Key(name) {
      FoundAt(r.table, i, other);
    } else {
      SameSearch(fs.table, r.table, other, 0);
      var a := FindIndex(fs.table, other, 0);
      if a != -1 {
        assert OwnerOk(fs, a);
        assert Head(fs, a) in Owned(fs, a);
      }
    }
  }

  lemma FoundAt(table: seq<Entry>, i: nat, name: string)
    requires NamesDiffer(table) && i < |table| && Matches(table[i], name)
    ensures FindIndex(table, name, 0) == i
  {
  }

  /** A Remove succeeds exactly when the name stands for a file. It frees exactly the header and the data of
      that file; the names that agree with it in nine characters then stand for nothing, and no other changes. */
  lemma RemoveDropsOneName(fs: Fs, name: string, other: string)
    requires FsOk(fs)
    ensures Remove(fs, name).success <==> Known(fs.table, name)
    ensures !Remove(fs, name).success ==> Remove(fs, name).fs == fs
    ensures Find(Remove(fs, name).fs, other) == if SameName(other, name) then Absent else Find(fs, other)
  {
    KeysAre(other, name);
    FindIndexIs(fs.table, name);
    RemoveShape(fs, name);
    if Remove(fs, name).success {
      ShrunkFinds(fs, Remove(fs, name).fs, FindIndex(fs.table, name, 0), name, other);
    }
  }

  lemma ShrunkFinds(fs: Fs, r: Fs, i: nat, name: string, other: string)
    requires FsOk(fs) && Shrunk(fs, r, i) && Matches(fs.table[i], name)
    ensures Find(r, other) == if Key(other) == Key(name) then Absent else Find(fs, other)
  {
    var a, b := FindIndex(fs.table, other, 0), FindIndex(r.table, other, 0);
    if Key(other) == Key(name) {
      assert forall j :: 0 <= j < |r.table| ==> !Matches(r.table[j], other);
    } else {
      SameSearch(fs.table, r.table, other, 0);
    }
  }

  /** Create then Remove of the same name restores the free map, the headers of all other files, and what
      every name stands for. */
  lemma CreateThenRemoveRestores(fs: Fs, name: string, size: nat, other: string)
    requires FsOk(fs) && Create(fs, name, size).success
    ensures var r := Remove(Create(fs, name, size).fs, name);
            r.success && r.fs.marked == fs.marked && Find(r.fs, other) == Find(fs, other)
  {
    var c := Create(fs, name, size).fs;
    CreateKeeps(fs, name, size);
    CreateThenRemoveFrees(fs, name, size);
    CreateAddsOneName(fs, name, size, other);
    RemoveDropsOneName(c, name, other);
  }

  lemma CreateThenRemoveFrees(fs: Fs, name: string, size: nat)
    requires FsOk(fs) && Create(fs, name, size).success
    ensures var r := Remove(Create(fs, name, size).fs, name); r.success && r.fs.marked == fs.marked
  {
    CreateShape(fs, name, size);
    CreateKeeps(fs, name, size);
    KeyOfKey(name);
    var c := Create(fs, name, size).fs;
    var i, head := FreeIndex(fs.table, 0), B.FirstClear(fs.marked, NUM_SECTORS, 0);
    FoundAt(c.table, i, name);
    RemoveShape(c, name);
    GivesBack(fs, c, Remove(c, name).fs, i, head, c.headers[head]);
  }

  lemma GivesBack(fs: Fs, c: Fs, r: Fs, i: nat, head: nat, h: F.Header)
    requires Grown(fs, c, i, head, h) && Shrunk(c, r, i)
    ensures r.marked == fs.marked
  {
    assert Owned(c, i) == {head} + Members(h.sectors);
  }

  lemma AbsentIsUnknown(fs: Fs, name: string, other: string)
    requires FindIndex(fs.table, name, 0) == -1 && Key(other) == Key(name)
    ensures Find(fs, other) == Absent
  {
  }

  /** Two names that differ in their first nine characters stand for files on different sectors, each a sound block map, so
      writing one file cannot change the other. */
  lemma FilesAreApart(fs: Fs, name: string, other: string)
    requires FsOk(fs) && !SameName(name, other) && Find(fs, name).Present? && Find(fs, other).Present?
    ensures var h, g := Find(fs, name).header, Find(fs, other).header;
            && F.HeaderOk(h, NUM_SECTORS) && F.HeaderOk(g, NUM_SECTORS)
            && forall x :: x in h.sectors ==> x !in g.sectors
  {
    var i, k := FindIndex(fs.table, name, 0), FindIndex(fs.table, other, 0);
    KeysAre(name, other);
    OwnersApart(fs, i, k);
    var h, g := Find(fs, name).header, Find(fs, other).header;
    forall x | x in h.sectors
      ensures x !in g.sectors
    {
      assert x in Owned(fs, i);
    }
  }
}
