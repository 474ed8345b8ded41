/** The file system's classes: headers and directories in memory, changed in place and written back. */
module FileSystemCode {
  import B = BitMap
  import F = OpenFile
  import S = FileSystem

  class FileHeader {
    var numBytes: nat
    var numSectors: nat
    const dataSectors: array<nat>

    constructor ()
      ensures fresh(dataSectors) && dataSectors.Length == S.DIRECT
    {
      dataSectors := new nat[S.DIRECT];
    }

    ghost predicate Valid()
      reads this
    {
      dataSectors.Length == S.DIRECT && numSectors <= S.DIRECT
    }

    /** The record as it goes to and comes from the disk. */
    function View(): F.Header
      requires Valid()
      reads this, dataSectors
    {
      F.Header(numBytes, dataSectors[..numSectors])
    }

    method FetchFrom(h: F.Header)
      requires dataSectors.Length == S.DIRECT && |h.sectors| <= S.DIRECT
      modifies this, dataSectors
      ensures Valid() && View() == h
    {
      numBytes, numSectors := h.length, |h.sectors|;
      forall i | 0 <= i < numSectors {
        dataSectors[i] := h.sectors[i];
      }
      assert dataSectors[..numSectors] == h.sectors;
    }

    /** Takes the sectors for size bytes, or none when there are too few. */
    method Allocate(freeMap: B.BitMap, size: nat) returns (success: bool)
      requires dataSectors.Length == 30 && size <= 30 * 128
      requires freeMap.Valid() && freeMap.numBits == S.NUM_SECTORS
      requires dataSectors as object != freeMap.words && this as object != freeMap.words
      modifies this, dataSectors, freeMap.words
      ensures success <==> S.SectorsFor(size) <= B.CountClear(old(freeMap.Marked()), S.NUM_SECTORS)
      ensures success ==> size <= 128 * numSectors && (numSectors > 0 ==> 128 * (numSectors - 1) < size)
      ensures !success ==> freeMap.Marked() == old(freeMap.Marked())
      ensures success ==>
                && Valid() && View() == F.Header(size, S.Allocated(old(freeMap.Marked()), size))
                && freeMap.Marked() == old(freeMap.Marked()) + S.Members(View().sectors)
    {
      ghost var was := freeMap.Marked();
      numBytes := size;
      numSectors := (size + S.SECTOR_SIZE - 1) / S.SECTOR_SIZE;
      var clear := freeMap.NumClear();
      if clear < numSectors {
        return false;
      }
      S.AllocatedOneByOne(was, size);
      TakeSectors(freeMap, S.Allocated(was, size), S.MarksWhile(was, S.Allocated(was, size)));
      success := true;
    }

    /** The loop of Finds, which goes through the states marks of the free map. */
    method TakeSectors(freeMap: B.BitMap, ghost all: seq<nat>, ghost marks: seq<set<nat>>)
      requires Valid() && |all| == numSectors && freeMap.Valid()
      requires dataSectors as object != freeMap.words && this as object != freeMap.words
      requires |marks| == |all| + 1 && marks[0] == freeMap.Marked()
      requires forall i :: 0 <= i < |all| ==>
                 B.FirstClear(marks[i], freeMap.numBits, 0) == all[i] && marks[i + 1] == marks[i] + {all[i]}
      modifies dataSectors, freeMap.words
      ensures dataSectors[..numSectors] == all
      ensures freeMap.Marked() == marks[|all|]
    {
      var i := 0;
      while i < numSectors
        invariant 0 <= i <= numSectors && dataSectors[..i] == all[..i]
        invariant freeMap.Marked() == marks[i]
      {
        var b := freeMap.Find();
        dataSectors[i] := b;
        i := i + 1;
      }
      assert all[..numSectors] == all;
    }

    /** Gives the sectors back. Each is marked when its turn comes, as the source asserts. */
    method Deallocate(freeMap: B.BitMap)
      requires Valid() && freeMap.Valid() && freeMap.numBits == S.NUM_SECTORS
      requires dataSectors as object != freeMap.words && this as object != freeMap.words
      requires forall j, k :: 0 <= j < k < numSectors ==> dataSectors[j] != dataSectors[k]
      requires S.Members(View().sectors) <= freeMap.Marked()
      modifies freeMap.words
      ensures freeMap.Marked() == old(freeMap.Marked()) - S.Members(View().sectors)
    {
      ghost var was, data := freeMap.Marked(), View().sectors;
      var i := 0;
      while i < numSectors
        invariant 0 <= i <= numSectors && View().sectors == data
        invariant freeMap.Marked() == was - S.Members(data[..i])
      {
        assert data[i] in S.Members(data) && data[i] !in data[..i];
        var on := freeMap.Test(dataSectors[i]);
        assert on;
        freeMap.Clear(dataSectors[i]);
        S.MembersStep(data, i);
        i := i + 1;
      }
      assert data[..numSectors] == data;
    }
  }

  class Directory {
    const table: array<S.Entry>

    constructor (size: nat)
      ensures fresh(table) && table[..] == seq(size, _ => S.Entry(false, "", 0))
    {
      table := new S.Entry[size](_ => S.Entry(false, "", 0));
      new;
      assert table[..] == seq(size, _ => S.Entry(false, "", 0));
    }

    method FetchFrom(file: seq<S.Entry>)
      requires |file| == table.Length
      modifies table
      ensures table[..] == file
    {
      forall i | 0 <= i < table.Length {
        table[i] := file[i];
      }
    }

    method FindIndex(name: string) returns (r: int)
      ensures r == S.FindIndex(table[..], name, 0)
      ensures r == -1 <==> !S.Known(table[..], name)
      ensures r != -1 ==> 0 <= r < table.Length && table[r].inUse && S.SameName(table[r].name, name)
    {
      S.FindIndexIs(table[..], name);
      var i := 0;
      while i < table.Length
        invariant 0 <= i <= table.Length && S.FindIndex(table[..], name, 0) == S.FindIndex(table[..], name, i)
      {
        if table[i].inUse && S.Key(table[i].name) == S.Key(name) {
          return i;
        }
        i := i + 1;
      }
      r := -1;
    }

    method Find(name: string) returns (sector: int)
      ensures var i := S.FindIndex(table[..], name, 0);
              sector == if i == -1 then -1 else table[i].sector
    {
      var i := FindIndex(name);
      if i != -1 {
        return table[i].sector;
      }
      sector := -1;
    }

    method Add(name: string, newSector: nat) returns (success: bool)
      modifies table
      ensures var i := S.FreeIndex(old(table[..]), 0);
              && success == (S.FindIndex(old(table[..]), name, 0) == -1 && i != -1)
              && table[..] == if success then old(table[..])[i := S.Entry(true, S.Key(name), newSector)] else old(table[..])
    {
      var found := FindIndex(name);
      if found != -1 {
        return false;
      }
      var i := 0;
      while i < table.Length
        invariant 0 <= i <= table.Length && table[..] == old(table[..])
        invariant S.FreeIndex(table[..], 0) == S.FreeIndex(table[..], i)
      {
        if !table[i].inUse {
          table[i] := S.Entry(true, S.Key(name), newSector);
          return true;
        }
        i := i + 1;
      }
      success := false;
    }

    method Remove(name: string) returns (success: bool)
      modifies table
      ensures var i := S.FindIndex(old(table[..]), name, 0);
              && success == (i != -1)
              && table[..] == if success then old(table[..])[i := old(table[..])[i].(inUse := false)] else old(table[..])
    {
      var i := FindIndex(name);
      if i == -1 {
        return false;
      }
      table[i] := table[i].(inUse := false);
      success := true;
    }
  }

  const MAP_WORDS := 32

  class FileSystem {
    /** The disk: headers by sector, and the two files that are always open. */
    var headers: map<nat, F.Header>
    var freeMapFile: seq<bv32>
    var directoryFile: seq<S.Entry>

    ghost predicate Shape()
      reads this
    {
      && |freeMapFile| == MAP_WORDS && |directoryFile| == S.NUM_DIR_ENTRIES
      && forall k :: k in headers ==> |headers[k].sectors| <= S.DIRECT
    }

    ghost function View(): S.Fs
      requires |freeMapFile| == MAP_WORDS
      reads this
    {
      S.Fs(headers, B.Marks(freeMapFile, S.NUM_SECTORS), directoryFile)
    }

    /** FileSystem(TRUE): formats the disk, whatever is on it. */
    method Format() returns (ghost d: (seq<nat>, seq<nat>))
      modifies this
      ensures d == S.FormatData() && Shape() && View() == S.Formatted(d.0, d.1)
    {
      var freeMap := NewFreeMap();
      var directory := new Directory(S.NUM_DIR_ENTRIES);
      var mapHdr := new FileHeader();
      var dirHdr := new FileHeader();
      d := AllocateFormatted(freeMap, mapHdr, dirHdr);
      FlushFormatted(freeMap, directory, mapHdr, dirHdr, d);
    }

    static method NewFreeMap() returns (freeMap: B.BitMap)
      ensures freeMap.Valid() && freeMap.numBits == S.NUM_SECTORS && fresh(freeMap) && fresh(freeMap.words)
      ensures freeMap.Marked() == {S.FREE_MAP_SECTOR, S.DIRECTORY_SECTOR}
    {
      freeMap := new B.BitMap(S.NUM_SECTORS);
      freeMap.Mark(S.FREE_MAP_SECTOR);
      freeMap.Mark(S.DIRECTORY_SECTOR);
    }

    method FlushFormatted(freeMap: B.BitMap, directory: Directory, mapHdr: FileHeader, dirHdr: FileHeader, ghost d: (seq<nat>, seq<nat>))
      requires freeMap.Valid() && freeMap.numBits == S.NUM_SECTORS
      requires freeMap.Marked() == {S.FREE_MAP_SECTOR, S.DIRECTORY_SECTOR} + S.Members(d.0) + S.Members(d.1)
      requires directory.table[..] == seq(S.NUM_DIR_ENTRIES, _ => S.Entry(false, "", 0))
      requires mapHdr.Valid() && mapHdr.View() == F.Header(S.FREE_MAP_FILE_SIZE, d.0)
      requires dirHdr.Valid() && dirHdr.View() == F.Header(S.DIRECTORY_FILE_SIZE, d.1)
      modifies this
      ensures Shape() && View() == S.Formatted(d.0, d.1)
    {
      headers := map[S.FREE_MAP_SECTOR := mapHdr.View(), S.DIRECTORY_SECTOR := dirHdr.View()];
      freeMapFile := freeMap.WriteBack();
      directoryFile := directory.table[..];
    }

    /** The two Allocates of formatting, neither of which can fail. */
    static method AllocateFormatted(freeMap: B.BitMap, mapHdr: FileHeader, dirHdr: FileHeader)
      returns (ghost d: (seq<nat>, seq<nat>))
      requires freeMap.Valid() && freeMap.numBits == S.NUM_SECTORS
      requires freeMap.Marked() == {S.FREE_MAP_SECTOR, S.DIRECTORY_SECTOR}
      requires mapHdr.dataSectors.Length == dirHdr.dataSectors.Length == S.DIRECT
      requires mapHdr != dirHdr && mapHdr.dataSectors != dirHdr.dataSectors
      requires mapHdr.dataSectors as object != freeMap.words && dirHdr.dataSectors as object != freeMap.words
      modifies mapHdr, mapHdr.dataSectors, dirHdr, dirHdr.dataSectors, freeMap.words
      ensures d == S.FormatData()
      ensures && mapHdr.Valid() && mapHdr.View() == F.Header(S.FREE_MAP_FILE_SIZE, d.0)
              && dirHdr.Valid() && dirHdr.View() == F.Header(S.DIRECTORY_FILE_SIZE, d.1)
              && freeMap.Marked() == {S.FREE_MAP_SECTOR, S.DIRECTORY_SECTOR} + S.Members(d.0) + S.Members(d.1)
    {
      ghost var heads := freeMap.Marked();
      S.FormatRoom(heads);
      ghost var mapData := AllocateFresh(freeMap, mapHdr, S.FREE_MAP_FILE_SIZE, heads);
      S.OneMember(mapData);
      ghost var dirData := AllocateFresh(freeMap, dirHdr, S.DIRECTORY_FILE_SIZE, heads + {mapData[0]});
      d := (mapData, dirData);
    }

    /** Allocate where there is room. */
    static method AllocateFresh(freeMap: B.BitMap, hdr: FileHeader, size: nat, ghost was: set<nat>) returns (ghost data: seq<nat>)
      requires freeMap.Valid() && freeMap.numBits == S.NUM_SECTORS && freeMap.Marked() == was
      requires hdr.dataSectors.Length == S.DIRECT && size <= 30 * 128 && S.SectorsFor(size) <= B.CountClear(was, S.NUM_SECTORS)
      requires hdr.dataSectors as object != freeMap.words && hdr as object != freeMap.words
      modifies hdr, hdr.dataSectors, freeMap.words
      ensures data == S.Allocated(was, size) && hdr.Valid() && hdr.View() == F.Header(size, data)
      ensures freeMap.Marked() == was + S.Members(data)
    {
      var ok := hdr.Allocate(freeMap, size);
      assert ok;
      data := S.Allocated(was, size);
    }

    method Create(name: string, initialSize: nat) returns (success: bool)
      requires Shape() && initialSize <= 30 * 128
      modifies this
      ensures Shape()
      ensures S.Result(View(), success) == S.Create(old(View()), name, initialSize)
    {
      var directory := new Directory(S.NUM_DIR_ENTRIES);
      directory.FetchFrom(directoryFile);
      var found := directory.Find(name);
      if found != -1 {
        return false;
      }
      var freeMap := new B.BitMap(S.NUM_SECTORS);
      freeMap.FetchFrom(freeMapFile);
      var sector := freeMap.Find();
      if sector == -1 {
        return false;
      }
      var added := directory.Add(name, sector);
      if !added {
        return false;
      }
      success := AllocateAndFlush(name, initialSize, sector, freeMap, directory);
    }

    /** The rest of Create: the data sectors, then everything to the disk. */
    method AllocateAndFlush(name: string, initialSize: nat, sector: nat, freeMap: B.BitMap, directory: Directory)
      returns (success: bool)
      requires Shape() && initialSize <= 30 * 128
      requires freeMap.Valid() && freeMap.numBits == S.NUM_SECTORS && freeMap.Marked() == View().marked + {sector}
      requires S.FreeIndex(directoryFile, 0) != -1
      requires directory.table[..] == directoryFile[S.FreeIndex(directoryFile, 0) := S.Entry(true, S.Key(name), sector)]
      modifies this, freeMap.words
      ensures Shape()
      ensures S.Result(View(), success)
              == S.CreateAt(old(View()), name, initialSize, sector, S.FreeIndex(old(directoryFile), 0))
    {
      var hdr := new FileHeader();
      var room := hdr.Allocate(freeMap, initialSize);
      if !room {
        return false;
      }
      headers := headers[sector := hdr.View()];
      directoryFile := directory.table[..];
      freeMapFile := freeMap.WriteBack();
      success := true;
    }

    method Remove(name: string) returns (success: bool)
      requires Shape() && S.FsOk(View())
      modifies this
      ensures Shape()
      ensures S.Result(View(), success) == S.Remove(old(View()), name)
    {
      var directory := new Directory(S.NUM_DIR_ENTRIES);
      directory.FetchFrom(directoryFile);
      var sector := directory.Find(name);
      if sector == -1 {
        return false;
      }
      S.FoundIsOk(View(), name);
      RemoveFound(name, sector, directory);
      success := true;
    }

    /** The rest of Remove once the header has been found. */
    method RemoveFound(name: string, sector: nat, directory: Directory)
      requires Shape() && directory.table[..] == directoryFile
      requires var i := S.FindIndex(directoryFile, name, 0); i != -1 && directoryFile[i].sector == sector
      requires sector in headers && sector < S.NUM_SECTORS && F.HeaderOk(headers[sector], S.NUM_SECTORS)
      requires S.Members(headers[sector].sectors) <= View().marked
      modifies this, directory.table
      ensures Shape()
      ensures S.Result(View(), true) == S.Remove(old(View()), name)
    {
      var fileHdr := new FileHeader();
      fileHdr.FetchFrom(headers[sector]);
      var freeMap := new B.BitMap(S.NUM_SECTORS);
      freeMap.FetchFrom(freeMapFile);
      fileHdr.Deallocate(freeMap);
      freeMap.Clear(sector);
      var _ := directory.Remove(name);
      freeMapFile := freeMap.WriteBack();
      directoryFile := directory.table[..];
    }
  }
}
