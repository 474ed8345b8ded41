/** Byte-granular reads and writes over whole-sector input and output (openfile.cc, filehdr.cc). */
module OpenFile {
  import Memory

  type Byte = Memory.Byte

  const SECTOR_SIZE := 128

  /** A file header: the length in bytes and the sector of each block. */
  datatype Header = Header(length: nat, sectors: seq<nat>)

  ghost predicate DiskOk(d: seq<seq<Byte>>) {
    forall t :: 0 <= t < |d| ==> |d[t]| == SECTOR_SIZE
  }

  /** The blocks lie on the disk, no two on the same sector, and hold the file's bytes. */
  ghost predicate HeaderOk(h: Header, numSectors: nat) {
    && h.length <= SECTOR_SIZE * |h.sectors|
    && (forall j :: 0 <= j < |h.sectors| ==> h.sectors[j] < numSectors)
    && (forall j, k :: 0 <= j < k < |h.sectors| ==> h.sectors[j] != h.sectors[k])
  }

  function ByteAt(d: seq<seq<Byte>>, h: Header, q: nat): Byte
    requires DiskOk(d) && HeaderOk(h, |d|) && q < SECTOR_SIZE * |h.sectors|
  {
    d[h.sectors[q / SECTOR_SIZE]][q % SECTOR_SIZE]
  }

  /** The file as one flat sequence of bytes. */
  ghost function Contents(d: seq<seq<Byte>>, h: Header): (c: seq<Byte>)
    requires DiskOk(d) && HeaderOk(h, |d|)
    ensures |c| == h.length
  {
    seq(h.length, q requires 0 <= q < h.length => ByteAt(d, h, q))
  }

  /** How many bytes a request moves. */
  function Count(length: nat, numBytes: int, position: nat): (n: nat)
    ensures n > 0 <==> numBytes > 0 && position < length
    ensures n > 0 ==> n <= numBytes && position + n <= length && (n == numBytes || position + n == length)
  {
    if numBytes <= 0 || position >= length then 0
    else if position + numBytes > length then length - position
    else numBytes
  }

  /** s with t written over it at p. */
  function Spliced<T>(s: seq<T>, p: nat, t: seq<T>): (r: seq<T>)
    requires t == [] || p + |t| <= |s|
    ensures |r| == |s|
    ensures forall q :: 0 <= q < |s| ==> r[q] == if p <= q < p + |t| then t[q - p] else s[q]
  {
    if t == [] then s else s[..p] + t + s[p + |t|..]
  }

  function Sliced<T>(s: seq<T>, p: nat, n: nat): (r: seq<T>)
    requires n == 0 || p + n <= |s|
    ensures |r| == n
  {
    if n == 0 then [] else s[p..p + n]
  }

  /** Files on different sectors cannot affect each other. */
  lemma OtherFilesKeepTheirBytes(d: seq<seq<Byte>>, e: seq<seq<Byte>>, h: Header, g: Header)
    requires DiskOk(d) && DiskOk(e) && |d| == |e| && HeaderOk(h, |d|) && HeaderOk(g, |d|)
    requires forall t :: 0 <= t < |d| && t !in h.sectors ==> e[t] == d[t]
    requires forall j :: 0 <= j < |g.sectors| ==> g.sectors[j] !in h.sectors
    ensures Contents(e, g) == Contents(d, g)
  {
    forall q | 0 <= q < g.length
      ensures ByteAt(e, g, q) == ByteAt(d, g, q)
    {
      assert g.sectors[q / SECTOR_SIZE] !in h.sectors;
    }
  }

  /** The buffer of a write of t at p: t where it goes, and the old bytes of the file around it. */
  ghost predicate BufferOk(buf: seq<Byte>, d: seq<seq<Byte>>, h: Header, first: nat, p: nat, t: seq<Byte>)
    requires DiskOk(d) && HeaderOk(h, |d|) && first * SECTOR_SIZE + |buf| <= SECTOR_SIZE * |h.sectors|
  {
    forall k :: 0 <= k < |buf| ==>
      var q := first * SECTOR_SIZE + k;
      && (p <= q < p + |t| ==> buf[k] == t[q - p])
      && ((q < p || p + |t| <= q < h.length) ==> buf[k] == ByteAt(d, h, q))
  }

  /** Writing such a buffer back block by block splices t into the file. */
  lemma BufferIsSplice(buf: seq<Byte>, d: seq<seq<Byte>>, e: seq<seq<Byte>>, h: Header, first: nat, last: nat, p: nat, t: seq<Byte>)
    requires DiskOk(d) && DiskOk(e) && |d| == |e| && HeaderOk(h, |d|)
    requires |t| > 0 && p + |t| <= h.length && first == p / SECTOR_SIZE && last == (p + |t| - 1) / SECTOR_SIZE
    requires |buf| == (1 + last - first) * SECTOR_SIZE && BufferOk(buf, d, h, first, p, t)
    requires forall j :: first <= j <= last ==>
               e[h.sectors[j]] == buf[(j - first) * SECTOR_SIZE..(j - first + 1) * SECTOR_SIZE]
    requires forall s :: 0 <= s < |d| && s !in h.sectors[first..last + 1] ==> e[s] == d[s]
    ensures Contents(e, h) == Spliced(Contents(d, h), p, t)
  {
    forall q | 0 <= q < h.length
      ensures Contents(e, h)[q] == Spliced(Contents(d, h), p, t)[q]
    {
      BufferByte(buf, d, e, h, first, last, p, t, q);
    }
  }

  lemma BufferByte(buf: seq<Byte>, d: seq<seq<Byte>>, e: seq<seq<Byte>>, h: Header, first: nat, last: nat, p: nat, t: seq<Byte>, q: nat)
    requires DiskOk(d) && DiskOk(e) && |d| == |e| && HeaderOk(h, |d|)
    requires |t| > 0 && p + |t| <= h.length && first == p / SECTOR_SIZE && last == (p + |t| - 1) / SECTOR_SIZE
    requires |buf| == (1 + last - first) * SECTOR_SIZE && BufferOk(buf, d, h, first, p, t)
    requires forall j :: first <= j <= last ==>
               e[h.sectors[j]] == buf[(j - first) * SECTOR_SIZE..(j - first + 1) * SECTOR_SIZE]
    requires forall s :: 0 <= s < |d| && s !in h.sectors[first..last + 1] ==> e[s] == d[s]
    requires q < h.length
    ensures ByteAt(e, h, q) == if p <= q < p + |t| then t[q - p] else ByteAt(d, h, q)
  {
    var j := q / SECTOR_SIZE;
    if first <= j <= last {
      BufferInside(buf, d, e, h, first, p, t, q, j);
    } else {
      NotAmong(h.sectors, first, last + 1, j);
    }
  }

  lemma BufferInside(buf: seq<Byte>, d: seq<seq<Byte>>, e: seq<seq<Byte>>, h: Header, first: nat, p: nat, t: seq<Byte>, q: nat, j: nat)
    requires DiskOk(d) && DiskOk(e) && |d| == |e| && HeaderOk(h, |d|)
    requires first * SECTOR_SIZE + |buf| <= SECTOR_SIZE * |h.sectors| && BufferOk(buf, d, h, first, p, t)
    requires q < h.length && j == q / SECTOR_SIZE && first <= j && (j - first + 1) * SECTOR_SIZE <= |buf|
    requires e[h.sectors[j]] == buf[(j - first) * SECTOR_SIZE..(j - first + 1) * SECTOR_SIZE]
    ensures ByteAt(e, h, q) == if p <= q < p + |t| then t[q - p] else ByteAt(d, h, q)
  {
    InBlock(buf, j - first, q % SECTOR_SIZE);
    var k := (j - first) * SECTOR_SIZE + q % SECTOR_SIZE;
    assert q == first * SECTOR_SIZE + k;
    assert ByteAt(e, h, q) == buf[k];
  }

  lemma InBlock(buf: seq<Byte>, j: nat, r: nat)
    requires (j + 1) * SECTOR_SIZE <= |buf| && r < SECTOR_SIZE
    ensures buf[j * SECTOR_SIZE..(j + 1) * SECTOR_SIZE][r] == buf[j * SECTOR_SIZE + r]
  {
  }

  lemma NotAmong(s: seq<nat>, lo: nat, hi: nat, j: nat)
    requires lo <= hi <= |s| && j < |s| && !(lo <= j < hi)
    requires forall i, k :: 0 <= i < k < |s| ==> s[i] != s[k]
    ensures s[j] !in s[lo..hi]
  {
  }

  /** Byte r of block j, which starts at byte start of the file. */
  lemma SectorByte(d: seq<seq<Byte>>, h: Header, j: nat, start: nat, r: nat)
    requires DiskOk(d) && HeaderOk(h, |d|) && j < |h.sectors| && start == j * SECTOR_SIZE && r < SECTOR_SIZE
    ensures start + r < SECTOR_SIZE * |h.sectors| && ByteAt(d, h, start + r) == d[h.sectors[j]][r]
  {
    assert (start + r) / SECTOR_SIZE == j && (start + r) % SECTOR_SIZE == r;
  }

  /** buf holds the bytes of the file from base on, as far as its first n bytes go. */
  ghost predicate Holds(buf: seq<Byte>, d: seq<seq<Byte>>, h: Header, base: nat, n: nat)
    requires DiskOk(d) && HeaderOk(h, |d|)
  {
    && n <= |buf| && base + n <= SECTOR_SIZE * |h.sectors|
    && forall k :: 0 <= k < n ==> buf[k] == ByteAt(d, h, base + k)
  }

  lemma NextSector(before: seq<Byte>, buf: seq<Byte>, d: seq<seq<Byte>>, h: Header, base: nat, n: nat, i: nat)
    requires DiskOk(d) && HeaderOk(h, |d|) && Holds(before, d, h, base, n)
    requires i < |h.sectors| && base + n == i * SECTOR_SIZE && n + SECTOR_SIZE <= |before|
    requires buf == Spliced(before, n, d[h.sectors[i]])
    ensures Holds(buf, d, h, base, n + SECTOR_SIZE)
  {
    forall k | n <= k < n + SECTOR_SIZE
      ensures base + k < SECTOR_SIZE * |h.sectors| && buf[k] == ByteAt(d, h, base + k)
    {
      SectorByte(d, h, i, base + n, k - n);
    }
  }

  lemma HeldSlice(buf: seq<Byte>, d: seq<seq<Byte>>, h: Header, base: nat, skip: nat, n: nat)
    requires DiskOk(d) && HeaderOk(h, |d|) && Holds(buf, d, h, base, |buf|)
    requires skip + n <= |buf| && base + skip + n <= h.length
    ensures buf[skip..skip + n] == Sliced(Contents(d, h), base + skip, n)
  {
    var got, want := buf[skip..skip + n], Sliced(Contents(d, h), base + skip, n);
    forall k | 0 <= k < n
      ensures got[k] == want[k]
    {
      var q := skip + k;
      assert got[k] == buf[q] && want[k] == Contents(d, h)[base + q];
    }
  }

  /** The disk as SynchDisk presents it: one whole sector at a time. */
  class SynchDisk {
    var sectors: seq<seq<Byte>>

    ghost predicate Valid()
      reads this
    {
      DiskOk(sectors)
    }

    method ReadSector(sector: nat, data: array<Byte>, at: nat)
      requires Valid() && sector < |sectors| && at + SECTOR_SIZE <= data.Length && data as object != this
      modifies data
      ensures data[..] == Spliced(old(data[..]), at, sectors[sector])
    {
      var s := sectors[sector];
      forall k | 0 <= k < SECTOR_SIZE {
        data[at + k] := s[k];
      }
      assert forall q :: 0 <= q < data.Length ==> data[q] == Spliced(old(data[..]), at, s)[q];
    }

    method WriteSector(sector: nat, data: array<Byte>, at: nat)
      requires Valid() && sector < |sectors| && at + SECTOR_SIZE <= data.Length && data as object != this
      modifies this
      ensures Valid() && sectors == old(sectors)[sector := data[at..at + SECTOR_SIZE]]
    {
      sectors := sectors[sector := data[at..at + SECTOR_SIZE]];
    }
  }

  class OpenFile {
    const hdr: Header
    const disk: SynchDisk
    var seekPosition: int

    constructor (hdr: Header, disk: SynchDisk)
      requires disk.Valid() && HeaderOk(hdr, |disk.sectors|)
      ensures Valid() && this.hdr == hdr && this.disk == disk && seekPosition == 0
    {
      this.hdr, this.disk, seekPosition := hdr, disk, 0;
    }

    ghost predicate Valid()
      reads disk
    {
      disk.Valid() && HeaderOk(hdr, |disk.sectors|)
    }

    ghost function Bytes(): seq<Byte>
      requires Valid()
      reads disk
    {
      Contents(disk.sectors, hdr)
    }

    /** Reads the sectors of blocks firstSector to lastSector into a new buffer. */
    method ReadSectors(firstSector: nat, lastSector: nat) returns (buf: array<Byte>)
      requires Valid() && firstSector <= lastSector < |hdr.sectors|
      ensures fresh(buf) && buf.Length == (1 + lastSector - firstSector) * SECTOR_SIZE
      ensures Holds(buf[..], disk.sectors, hdr, firstSector * SECTOR_SIZE, buf.Length)
    {
      var numSectors := 1 + lastSector - firstSector;
      buf := new Byte[numSectors * SECTOR_SIZE];
      var i := firstSector;
      while i <= lastSector
        invariant firstSector <= i <= lastSector + 1
        invariant Holds(buf[..], disk.sectors, hdr, firstSector * SECTOR_SIZE, (i - firstSector) * SECTOR_SIZE)
      {
        ghost var before := buf[..];
        var at := (i - firstSector) * SECTOR_SIZE;
        disk.ReadSector(hdr.sectors[i], buf, at);
        NextSector(before, buf[..], disk.sectors, hdr, firstSector * SECTOR_SIZE, at, i);
        i := i + 1;
      }
    }

    /** Copies into into, from index at on, the part of the file the request and the length allow. */
    method ReadAt(into: array<Byte>, at: nat, numBytes: int, position: nat) returns (n: nat)
      requires Valid() && at + Count(hdr.length, numBytes, position) <= into.Length
      modifies into
      ensures n == Count(hdr.length, numBytes, position)
      ensures into[..] == Spliced(old(into[..]), at, Sliced(Bytes(), position, n))
    {
      n := Count(hdr.length, numBytes, position);
      if n == 0 {
        return;
      }
      var firstSector, lastSector := position / SECTOR_SIZE, (position + n - 1) / SECTOR_SIZE;
      var buf := ReadSectors(firstSector, lastSector);
      var skip := position - firstSector * SECTOR_SIZE;
      HeldSlice(buf[..], disk.sectors, hdr, firstSector * SECTOR_SIZE, skip, n);
      forall k | 0 <= k < n {
        into[at + k] := buf[skip + k];
      }
      ghost var slice := Sliced(Bytes(), position, n);
      assert forall q :: 0 <= q < into.Length ==> into[q] == Spliced(old(into[..]), at, slice)[q];
    }

    /** ReadAt of the whole of the block that starts at byte start, as far as the file reaches. */
    method ReadBlock(buf: array<Byte>, at: nat, start: nat)
      requires Valid() && start < hdr.length && at + SECTOR_SIZE <= buf.Length
      modifies buf
      ensures forall k :: 0 <= k < buf.Length && !(at <= k < at + SECTOR_SIZE) ==> buf[k] == old(buf[k])
      ensures forall k :: at <= k < at + SECTOR_SIZE && start + (k - at) < hdr.length ==>
                buf[k] == ByteAt(disk.sectors, hdr, start + (k - at))
    {
      var n := ReadAt(buf, at, SECTOR_SIZE, start);
      ghost var slice := Sliced(Bytes(), start, n);
      assert forall k :: 0 <= k < n ==> slice[k] == ByteAt(disk.sectors, hdr, start + k);
    }

    /** Reads the first and the last sector of a write, where it covers them only in part. */
    method ReadEdges(buf: array<Byte>, firstSector: nat, lastSector: nat, n: nat, position: nat)
      requires Valid() && n > 0 && position + n <= hdr.length
      requires firstSector == position / SECTOR_SIZE && lastSector == (position + n - 1) / SECTOR_SIZE
      requires buf.Length == (1 + lastSector - firstSector) * SECTOR_SIZE
      modifies buf
      ensures forall k :: 0 <= k < buf.Length ==>
                var q := firstSector * SECTOR_SIZE + k;
                (q < position || position + n <= q < hdr.length) ==> buf[k] == ByteAt(disk.sectors, hdr, q)
    {
      var firstAligned := position == firstSector * SECTOR_SIZE;
      var lastAligned := position + n == (lastSector + 1) * SECTOR_SIZE;
      if !firstAligned {
        ReadBlock(buf, 0, firstSector * SECTOR_SIZE);
      }
      if !lastAligned && (firstSector != lastSector || firstAligned) {
        ReadBlock(buf, (lastSector - firstSector) * SECTOR_SIZE, lastSector * SECTOR_SIZE);
      }
    }

    /** Writes the buffer back to the sectors of blocks firstSector to lastSector. */
    method WriteSectors(buf: array<Byte>, firstSector: nat, lastSector: nat)
      requires Valid() && firstSector <= lastSector < |hdr.sectors|
      requires buf.Length == (1 + lastSector - firstSector) * SECTOR_SIZE
      modifies disk
      ensures Valid() && |disk.sectors| == old(|disk.sectors|)
      ensures forall j :: firstSector <= j <= lastSector ==>
                disk.sectors[hdr.sectors[j]] == buf[(j - firstSector) * SECTOR_SIZE..(j - firstSector + 1) * SECTOR_SIZE]
      ensures forall t :: 0 <= t < |disk.sectors| && t !in hdr.sectors[firstSector..lastSector + 1] ==>
                disk.sectors[t] == old(disk.sectors[t])
    {
      var i := firstSector;
      while i <= lastSector
        invariant firstSector <= i <= lastSector + 1
        invariant Valid() && |disk.sectors| == old(|disk.sectors|)
        invariant forall j :: firstSector <= j < i ==>
                    disk.sectors[hdr.sectors[j]] == buf[(j - firstSector) * SECTOR_SIZE..(j - firstSector + 1) * SECTOR_SIZE]
        invariant forall t :: 0 <= t < |disk.sectors| && t !in hdr.sectors[firstSector..i] ==>
                    disk.sectors[t] == old(disk.sectors[t])
      {
        assert hdr.sectors[firstSector..i + 1] == hdr.sectors[firstSector..i] + [hdr.sectors[i]];
        disk.WriteSector(hdr.sectors[i], buf, (i - firstSector) * SECTOR_SIZE);
        i := i + 1;
      }
    }

    /** Writes from over the file, as far as the file reaches; other bytes of the file and every sector
        outside the file stay as they were. */
    method WriteAt(from: seq<Byte>, numBytes: int, position: nat) returns (n: nat)
      requires Valid() && Count(hdr.length, numBytes, position) <= |from|
      modifies disk
      ensures Valid() && n == Count(hdr.length, numBytes, position)
      ensures Bytes() == Spliced(old(Bytes()), position, from[..n])
      ensures |disk.sectors| == old(|disk.sectors|)
      ensures forall t :: 0 <= t < |disk.sectors| && t !in hdr.sectors ==> disk.sectors[t] == old(disk.sectors[t])
    {
      n := Count(hdr.length, numBytes, position);
      if n == 0 {
        return;
      }
      ghost var d := disk.sectors;
      var firstSector, lastSector := position / SECTOR_SIZE, (position + n - 1) / SECTOR_SIZE;
      var buf := new Byte[(1 + lastSector - firstSector) * SECTOR_SIZE];
      ReadEdges(buf, firstSector, lastSector, n, position);
      var skip := position - firstSector * SECTOR_SIZE;
      forall k | 0 <= k < n {
        buf[skip + k] := from[k];
      }
      assert BufferOk(buf[..], d, hdr, firstSector, position, from[..n]);
      WriteSectors(buf, firstSector, lastSector);
      BufferIsSplice(buf[..], d, disk.sectors, hdr, firstSector, lastSector, position, from[..n]);
    }

    method Read(into: array<Byte>, numBytes: int) returns (n: nat)
      requires Valid() && seekPosition >= 0 && Count(hdr.length, numBytes, seekPosition) <= into.Length && into as object != this
      modifies into, `seekPosition
      ensures n == Count(hdr.length, numBytes, old(seekPosition)) && seekPosition == old(seekPosition) + n
      ensures into[..n] == Sliced(Bytes(), old(seekPosition), n) && into[n..] == old(into[..])[n..]
    {
      n := ReadAt(into, 0, numBytes, seekPosition);
      seekPosition := seekPosition + n;
    }

    method Write(from: seq<Byte>, numBytes: int) returns (n: nat)
      requires Valid() && seekPosition >= 0 && Count(hdr.length, numBytes, seekPosition) <= |from|
      modifies disk, `seekPosition
      ensures Valid() && n == Count(hdr.length, numBytes, old(seekPosition)) && seekPosition == old(seekPosition) + n
      ensures Bytes() == Spliced(old(Bytes()), old(seekPosition), from[..n])
    {
      n := WriteAt(from, numBytes, seekPosition);
      seekPosition := seekPosition + n;
    }
  }
}
