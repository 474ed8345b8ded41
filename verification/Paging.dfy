/** Demand paging (VMManager.cc, SwapManager.cc): one process whose pages live in frames of a small physical
    memory or in the swap file. */
module Paging {
  import opened Options
  import opened Words
  import opened Memory
  import opened FlatMemory
  import B = BitMap

  const SWAP_SIZE := 256

  /** The page table, main memory, the allocated frames, the replacement list (head first, by virtual page),
      the virtual page of each allocated swap slot, and the swap file's pages. */
  datatype Vm = Vm(entries: seq<Entry>, mem: seq<Byte>, used: set<nat>, lru: seq<nat>, slots: seq<nat>, file: seq<seq<Byte>>)

  /** The linear search for a page's slot. */
  function SlotFrom(slots: seq<nat>, v: nat, i: nat): (r: int)
    requires i <= |slots|
    ensures r == -1 <==> v !in slots[i..]
    ensures r != -1 ==> i <= r < |slots| && slots[r] == v
    decreases |slots| - i
  {
    if i == |slots| then -1 else if slots[i] == v then i else SlotFrom(slots, v, i + 1)
  }

  function Slot(vm: Vm, v: nat): int { SlotFrom(vm.slots, v, 0) }

  function PageIn(mem: seq<Byte>, f: nat): (p: seq<Byte>)
    requires |mem| == MEMORY_SIZE && f < NUM_PHYS_PAGES
    ensures |p| == PAGE_SIZE
  {
    mem[f * PAGE_SIZE..(f + 1) * PAGE_SIZE]
  }

  // ---------------------------------------------------------------- the invariant

  ghost predicate Shape(vm: Vm) {
    && |vm.mem| == MEMORY_SIZE
    && |vm.file| == SWAP_SIZE && (forall i :: 0 <= i < |vm.file| ==> |vm.file[i]| == PAGE_SIZE)
    && |vm.slots| <= SWAP_SIZE && |vm.entries| <= SWAP_SIZE
    && (forall v :: 0 <= v < |vm.entries| ==> Slot(vm, v) != -1)
  }

  /** The frame of a resident page. */
  predicate FrameOk(e: Entry) { 0 <= e.physicalPage < NUM_PHYS_PAGES }

  predicate In(vm: Vm, v: int) { 0 <= v < |vm.entries| && vm.entries[v].valid }

  /** Resident pages, nodes of the replacement list and allocated frames correspond one to one. */
  ghost predicate Resident(vm: Vm) {
    && (forall v :: v in vm.lru <==> In(vm, v))
    && (forall i, j :: 0 <= i < j < |vm.lru| ==> vm.lru[i] != vm.lru[j])
    && (forall v :: In(vm, v) ==> FrameOk(vm.entries[v]) && vm.entries[v].physicalPage in vm.used)
    && (forall v, w :: In(vm, v) && In(vm, w) && v != w ==> vm.entries[v].physicalPage != vm.entries[w].physicalPage)
    && (forall f :: f in vm.used ==> Backed(vm, f))
  }

  ghost predicate Backed(vm: Vm, f: nat) {
    exists v :: In(vm, v) && vm.entries[v].physicalPage == f
  }

  /** A resident page that has not been written to is the same in memory and in the swap file. */
  ghost predicate Clean(vm: Vm)
    requires Shape(vm) && Resident(vm)
  {
    forall v :: In(vm, v) && !vm.entries[v].dirty ==> PageIn(vm.mem, vm.entries[v].physicalPage) == vm.file[Slot(vm, v)]
  }

  ghost predicate VmOk(vm: Vm) { Shape(vm) && Resident(vm) && Clean(vm) }

  /** What a virtual page holds: the frame if it is resident, the swap copy otherwise. */
  ghost function PageOf(vm: Vm, v: nat): (p: seq<Byte>)
    requires Shape(vm) && Resident(vm) && v < |vm.entries|
    ensures |p| == PAGE_SIZE
  {
    if In(vm, v) then PageIn(vm.mem, vm.entries[v].physicalPage) else vm.file[Slot(vm, v)]
  }

  // ---------------------------------------------------------------- page fault service

  function Loaded(e: Entry, f: nat): Entry { e.(physicalPage := f, valid := true, dirty := false) }

  /** The page is read into a free frame. */
  function SwapIn(vm: Vm, v: nat, f: nat): Vm
    requires Shape(vm) && v < |vm.entries| && f < NUM_PHYS_PAGES
  {
    vm.(mem := Splice(vm.mem, f * PAGE_SIZE, vm.file[Slot(vm, v)]), used := vm.used + {f},
        entries := vm.entries[v := Loaded(vm.entries[v], f)], lru := [v] + vm.lru)
  }

  /** The page at the tail of the list makes room: it is written back if dirty. */
  function Evict(vm: Vm, victim: nat): Vm
    requires Shape(vm) && victim < |vm.entries| && FrameOk(vm.entries[victim]) && vm.lru != []
  {
    var e := vm.entries[victim];
    vm.(entries := vm.entries[victim := e.(valid := false)],
        file := if e.dirty then vm.file[Slot(vm, victim) := PageIn(vm.mem, e.physicalPage)] else vm.file,
        used := vm.used - {e.physicalPage as nat}, lru := vm.lru[..|vm.lru| - 1])
  }

  function Victim(vm: Vm): nat
    requires vm.lru != []
  {
    vm.lru[|vm.lru| - 1]
  }

  lemma EvictKeepsShape(vm: Vm, victim: nat)
    requires Shape(vm) && victim < |vm.entries| && FrameOk(vm.entries[victim]) && vm.lru != []
    ensures Shape(Evict(vm, victim))
  {
    var r := Evict(vm, victim);
    assert forall v :: 0 <= v < |vm.entries| ==> Slot(r, v) == Slot(vm, v);
  }

  /** When no frame is free every frame backs a page, so the list is not empty. */
  lemma FullHasVictim(vm: Vm)
    requires VmOk(vm) && B.CountClear(vm.used, NUM_PHYS_PAGES) == 0
    ensures vm.lru != [] && In(vm, Victim(vm)) && FrameOk(vm.entries[Victim(vm)])
  {
    B.NoneClear(vm.used, NUM_PHYS_PAGES);
    assert Backed(vm, 0);
    var v :| In(vm, v) && vm.entries[v].physicalPage == 0;
    assert v in vm.lru;
    assert Victim(vm) in vm.lru;
  }

  /** VMManager::Swap */
  ghost function Service(vm: Vm, v: nat): Vm
    requires VmOk(vm) && v < |vm.entries|
  {
    if B.CountClear(vm.used, NUM_PHYS_PAGES) != 0 then
      B.NoneClear(vm.used, NUM_PHYS_PAGES);
      SwapIn(vm, v, B.FirstClear(vm.used, NUM_PHYS_PAGES, 0))
    else
      FullHasVictim(vm);
      EvictKeepsShape(vm, Victim(vm));
      SwapIn(Evict(vm, Victim(vm)), v, vm.entries[Victim(vm)].physicalPage)
  }

  lemma OtherFrames(mem: seq<Byte>, f: nat, p: seq<Byte>, g: nat)
    requires |mem| == MEMORY_SIZE && f < NUM_PHYS_PAGES && g < NUM_PHYS_PAGES && |p| == PAGE_SIZE
    ensures PageIn(Splice(mem, f * PAGE_SIZE, p), g) == if g == f then p else PageIn(mem, g)
  {
    var r := Splice(mem, f * PAGE_SIZE, p);
    forall k | 0 <= k < PAGE_SIZE
      ensures PageIn(r, g)[k] == (if g == f then p else PageIn(mem, g))[k]
    {
      assert PageIn(r, g)[k] == r[g * PAGE_SIZE + k];
    }
  }

  // ---------------------------------------------------------------- service preserves every page

  /** The victim leaves memory; every page still holds what it held. */
  lemma EvictKeeps(vm: Vm)
    requires VmOk(vm) && vm.lru != []
    ensures In(vm, Victim(vm)) && FrameOk(vm.entries[Victim(vm)])
    ensures var r := Evict(vm, Victim(vm));
            VmOk(r) && !In(r, Victim(vm)) && vm.entries[Victim(vm)].physicalPage !in r.used
    ensures forall w :: 0 <= w < |vm.entries| ==> PageOf(Evict(vm, Victim(vm)), w) == PageOf(vm, w)
  {
    var x := Victim(vm);
    assert x in vm.lru;
    EvictKeepsShape(vm, x);
    EvictResident(vm);
    EvictClean(vm);
  }

  lemma EvictResident(vm: Vm)
    requires VmOk(vm) && vm.lru != [] && In(vm, Victim(vm)) && FrameOk(vm.entries[Victim(vm)])
    ensures Resident(Evict(vm, Victim(vm)))
  {
    var x := Victim(vm);
    var r := Evict(vm, x);
    assert forall v :: In(r, v) <==> In(vm, v) && v != x;
    forall v
      ensures v in r.lru <==> In(r, v)
    {
      assert v in vm.lru <==> v in r.lru || v == x;
      assert x !in r.lru;
    }
    forall f | f in r.used
      ensures Backed(r, f)
    {
      assert Backed(vm, f);
      var v :| In(vm, v) && vm.entries[v].physicalPage == f;
      assert In(r, v);
    }
  }

  lemma EvictClean(vm: Vm)
    requires VmOk(vm) && vm.lru != [] && In(vm, Victim(vm)) && FrameOk(vm.entries[Victim(vm)])
    requires Shape(Evict(vm, Victim(vm))) && Resident(Evict(vm, Victim(vm)))
    ensures Clean(Evict(vm, Victim(vm)))
    ensures forall w :: 0 <= w < |vm.entries| ==> PageOf(Evict(vm, Victim(vm)), w) == PageOf(vm, w)
  {
    var x := Victim(vm);
    var r := Evict(vm, x);
    forall w | 0 <= w < |vm.entries|
      ensures PageOf(r, w) == PageOf(vm, w)
      ensures In(r, w) ==> r.file[Slot(r, w)] == vm.file[Slot(vm, w)] && r.entries[w] == vm.entries[w]
    {
      assert Slot(r, w) == Slot(vm, w);
      assert In(r, w) <==> In(vm, w) && w != x;
    }
  }

  /** The page comes into a frame that backs no other page; every page still holds what it held. */
  lemma SwapInKeeps(vm: Vm, v: nat, f: nat)
    requires VmOk(vm) && v < |vm.entries| && !In(vm, v) && f < NUM_PHYS_PAGES && f !in vm.used
    ensures var r := SwapIn(vm, v, f); VmOk(r) && In(r, v)
    ensures forall w :: 0 <= w < |vm.entries| ==> PageOf(SwapIn(vm, v, f), w) == PageOf(vm, w)
  {
    var r := SwapIn(vm, v, f);
    assert forall w :: 0 <= w < |vm.entries| ==> Slot(r, w) == Slot(vm, w);
    SwapInResident(vm, v, f);
    var p := vm.file[Slot(vm, v)];
    forall w | 0 <= w < |vm.entries|
      ensures PageOf(r, w) == PageOf(vm, w)
      ensures In(r, w) && !r.entries[w].dirty ==> PageIn(r.mem, r.entries[w].physicalPage) == r.file[Slot(r, w)]
    {
      assert Slot(r, w) == Slot(vm, w);
      if In(r, w) {
        OtherFrames(vm.mem, f, p, r.entries[w].physicalPage);
      }
    }
  }

  lemma SwapInResident(vm: Vm, v: nat, f: nat)
    requires VmOk(vm) && v < |vm.entries| && !In(vm, v) && f < NUM_PHYS_PAGES && f !in vm.used
    ensures Resident(SwapIn(vm, v, f))
  {
    var r := SwapIn(vm, v, f);
    assert forall w :: In(r, w) <==> In(vm, w) || w == v;
    assert v !in vm.lru;
    forall g | g in r.used
      ensures Backed(r, g)
    {
      if g == f {
        assert In(r, v);
      } else {
        assert Backed(vm, g);
        var w :| In(vm, w) && vm.entries[w].physicalPage == g;
        assert In(r, w);
      }
    }
  }

  /** Page fault service makes the faulting page valid, preserves the contents of every virtual page, and
      keeps resident pages, list nodes and allocated frames in one-to-one correspondence. */
  lemma ServiceKeeps(vm: Vm, v: nat)
    requires VmOk(vm) && v < |vm.entries| && !In(vm, v)
    ensures var r := Service(vm, v);
            VmOk(r) && In(r, v) && |r.entries| == |vm.entries|
    ensures forall w :: 0 <= w < |vm.entries| ==> PageOf(Service(vm, v), w) == PageOf(vm, w)
  {
    if B.CountClear(vm.used, NUM_PHYS_PAGES) != 0 {
      B.NoneClear(vm.used, NUM_PHYS_PAGES);
      SwapInKeeps(vm, v, B.FirstClear(vm.used, NUM_PHYS_PAGES, 0));
    } else {
      FullHasVictim(vm);
      EvictKeeps(vm);
      var x := Victim(vm);
      SwapInKeeps(Evict(vm, x), v, vm.entries[x].physicalPage);
    }
  }

  /** Service takes the least free frame while there is one, and nobody leaves; otherwise the page longest in
      memory leaves and the new page takes its frame. Pages stand on the list in the order in which they came. */
  lemma ServiceReplacesOldest(vm: Vm, v: nat)
    requires VmOk(vm) && v < |vm.entries| && !In(vm, v)
    ensures var r := Service(vm, v);
            if exists f :: 0 <= f < 64 && f !in vm.used then
              && r.lru == [v] + vm.lru && (forall w :: In(r, w) <==> In(vm, w) || w == v)
              && In(r, v) && r.entries[v].physicalPage !in vm.used && (forall f :: 0 <= f < r.entries[v].physicalPage ==> f in vm.used)
            else
              && vm.lru != [] && r.lru == [v] + vm.lru[..|vm.lru| - 1]
              && var oldest := vm.lru[|vm.lru| - 1];
              && (forall w :: In(r, w) <==> (In(vm, w) && w != oldest) || w == v)
              && In(vm, oldest) && In(r, v) && r.entries[v].physicalPage == vm.entries[oldest].physicalPage
  {
    B.NoneClear(vm.used, NUM_PHYS_PAGES);
    if B.CountClear(vm.used, NUM_PHYS_PAGES) == 0 {
      FullHasVictim(vm);
      EvictKeepsShape(vm, Victim(vm));
    } else {
      var f := B.FirstClear(vm.used, NUM_PHYS_PAGES, 0);
      assert 0 <= f < 64 && f !in vm.used;
    }
  }

  // ---------------------------------------------------------------- one flat memory

  function PageTable(vm: Vm): Table { Table(false, vm.entries) }

  ghost function FlatByte(vm: Vm, a: nat): Byte
    requires Shape(vm) && Resident(vm) && a < |vm.entries| * PAGE_SIZE
  {
    PageOf(vm, a / PAGE_SIZE)[a % PAGE_SIZE]
  }

  /** The process's memory as it sees it. */
  ghost function Flat(vm: Vm): (m: seq<Byte>)
    requires Shape(vm) && Resident(vm)
    ensures |m| == |vm.entries| * PAGE_SIZE
  {
    seq(|vm.entries| * PAGE_SIZE, a requires 0 <= a < |vm.entries| * PAGE_SIZE => FlatByte(vm, a))
  }

  lemma SamePagesSameFlat(vm: Vm, r: Vm)
    requires VmOk(vm) && VmOk(r) && |r.entries| == |vm.entries|
    requires forall w :: 0 <= w < |vm.entries| ==> PageOf(r, w) == PageOf(vm, w)
    ensures Flat(r) == Flat(vm)
  {
    forall a | 0 <= a < |vm.entries| * PAGE_SIZE
      ensures FlatByte(r, a) == FlatByte(vm, a)
    {
      assert 0 <= a / PAGE_SIZE < |vm.entries|;
    }
  }

  lemma FrameIs(vm: Vm, v: nat)
    requires VmOk(vm)
    ensures Frame(PageTable(vm), v) == if In(vm, v) then Some(vm.entries[v].physicalPage) else None
  {
  }

  lemma ResidentByte(vm: Vm, a: nat)
    requires VmOk(vm) && a < |vm.entries| * PAGE_SIZE && In(vm, a / PAGE_SIZE)
    ensures ByteAt(vm.mem, PageTable(vm), a) == Some(FlatByte(vm, a))
  {
    FrameIs(vm, a / PAGE_SIZE);
  }

  function PageAt(a: Request): nat { Unsigned(a.va) / PAGE_SIZE }

  /** The pages that must not be written. */
  ghost function Rights(vm: Vm): (r: seq<bool>)
    ensures |r| == |vm.entries| && forall v :: 0 <= v < |r| ==> r[v] == vm.entries[v].readOnly
  {
    seq(|vm.entries|, v requires 0 <= v < |vm.entries| => vm.entries[v].readOnly)
  }

  /** The access as the machine makes it. */
  ghost function Access(vm: Vm, a: Request): (Vm, Answer)
    requires |vm.mem| == MEMORY_SIZE && RequestOk(a)
  {
    var (r, x) := Perform(Paged(vm.mem, PageTable(vm)), a);
    (vm.(mem := r.mem, entries := r.table.entries), x)
  }

  predicate Fits(pages: nat, a: Request) { RequestOk(a) && !Misaligned(a.va, a.size) && PageAt(a) < pages }

  lemma FitsPage(pages: nat, a: Request)
    requires Fits(pages, a)
    ensures Unsigned(a.va) % PAGE_SIZE + a.size <= PAGE_SIZE && Unsigned(a.va) + a.size <= pages * PAGE_SIZE
  {
    SameAlignment(a.va);
    InsidePage(Unsigned(a.va), a.size);
  }

  /** The same access on a plain array of bytes with read-only pages. */
  function FlatOp(m: seq<Byte>, rights: seq<bool>, a: Request): (r: (seq<Byte>, Answer))
    requires RequestOk(a) && |m| == |rights| * PAGE_SIZE
    ensures |r.0| == |m|
  {
    if !Fits(|rights|, a) then (m, Refused(AddressErrorException))
    else if a.Writing? && rights[PageAt(a)] then (m, Refused(ReadOnlyException))
    else
      FitsPage(|rights|, a);
      match a
      case Reading(va, size) => (m, Got(LoadValue(m[Unsigned(va)..Unsigned(va) + size])))
      case Writing(va, size, value) => (Splice(m, Unsigned(va), Bytes(value, size)), Got(0))
  }

  lemma FaultIsAbsence(vm: Vm, a: Request)
    requires |vm.mem| == MEMORY_SIZE && RequestOk(a) && Access(vm, a).1 == Refused(PageFaultException)
    ensures Access(vm, a).0 == vm && Fits(|vm.entries|, a) && !In(vm, PageAt(a))
  {
  }

  /** An access with the page fault it may take: fault, service, and the access again. */
  ghost function Touch(vm: Vm, a: Request): (Vm, Answer)
    requires VmOk(vm) && RequestOk(a)
  {
    if Access(vm, a).1 != Refused(PageFaultException) then Access(vm, a)
    else
      FaultIsAbsence(vm, a);
      ServiceKeeps(vm, PageAt(a));
      Access(Service(vm, PageAt(a)), a)
  }

  /** A resident page that may be accessed is accessed without a fault. */
  lemma NoFault(vm: Vm, a: Request)
    requires VmOk(vm) && Fits(|vm.entries|, a) && In(vm, PageAt(a)) && !(a.Writing? && vm.entries[PageAt(a)].readOnly)
    ensures var v := PageAt(a);
            var e := vm.entries[v];
            Translate(PageTable(vm), a.va, a.size, a.Writing?)
            == Address(e.physicalPage * PAGE_SIZE + Unsigned(a.va) % PAGE_SIZE,
                       Table(false, vm.entries[v := e.(use := true, dirty := e.dirty || a.Writing?)]))
  {
  }

  /** The entry of page v with other use and dirty bits. */
  function WithBits(vm: Vm, v: nat, e: Entry): Vm
    requires v < |vm.entries|
  {
    vm.(entries := vm.entries[v := e])
  }

  lemma BitsResident(vm: Vm, v: nat, e: Entry)
    requires Shape(vm) && Resident(vm) && In(vm, v) && e == vm.entries[v].(use := e.use, dirty := e.dirty)
    ensures var r := WithBits(vm, v, e); Shape(r) && Resident(r)
    ensures forall w :: In(WithBits(vm, v, e), w) <==> In(vm, w)
  {
    var r := WithBits(vm, v, e);
    assert forall w :: In(r, w) <==> In(vm, w);
    assert forall w :: In(vm, w) ==> r.entries[w].physicalPage == vm.entries[w].physicalPage;
    assert forall w :: 0 <= w < |vm.entries| ==> Slot(r, w) == Slot(vm, w);
    forall f | f in r.used
      ensures Backed(r, f)
    {
      assert Backed(vm, f);
      var w :| In(vm, w) && vm.entries[w].physicalPage == f;
      assert In(r, w) && r.entries[w].physicalPage == f;
    }
  }

  /** Changing use bits, or setting dirty bits, changes no page. */
  lemma BitsKeep(vm: Vm, v: nat, e: Entry)
    requires VmOk(vm) && In(vm, v) && e == vm.entries[v].(use := e.use, dirty := e.dirty) && (vm.entries[v].dirty ==> e.dirty)
    ensures VmOk(WithBits(vm, v, e)) && Flat(WithBits(vm, v, e)) == Flat(vm)
  {
    var r := WithBits(vm, v, e);
    BitsResident(vm, v, e);
    forall w | 0 <= w < |vm.entries|
      ensures PageOf(r, w) == PageOf(vm, w)
      ensures In(r, w) && !r.entries[w].dirty ==> PageIn(r.mem, r.entries[w].physicalPage) == r.file[Slot(r, w)]
    {
      assert In(r, w) <==> In(vm, w);
    }
    SamePagesSameFlat(vm, r);
  }

  /** The bytes of a resident page as the machine finds them. */
  lemma BytesFound(vm: Vm, u: nat, size: int, b: seq<Byte>)
    requires VmOk(vm) && 0 < size && u % PAGE_SIZE + size <= PAGE_SIZE && u + size <= |vm.entries| * PAGE_SIZE
    requires In(vm, u / PAGE_SIZE) && b == Flat(vm)[u..u + size]
    ensures forall i :: 0 <= i < size ==> ByteAt(vm.mem, PageTable(vm), u + i) == Some(b[i])
  {
    forall i | 0 <= i < size
      ensures ByteAt(vm.mem, PageTable(vm), u + i) == Some(b[i])
    {
      InPage(u + i, u);
      ResidentByte(vm, u + i);
    }
  }

  /** After an access the same pages are resident, in the same order, with the same rights. */
  ghost predicate SameResidence(vm: Vm, r: Vm) {
    && r.lru == vm.lru && |r.entries| == |vm.entries| && Rights(r) == Rights(vm)
    && forall w :: In(r, w) <==> In(vm, w)
  }

  lemma BitsResidence(vm: Vm, v: nat, e: Entry)
    requires In(vm, v) && e == vm.entries[v].(use := e.use, dirty := e.dirty)
    ensures SameResidence(vm, WithBits(vm, v, e))
  {
    var r := WithBits(vm, v, e);
    assert forall w :: 0 <= w < |vm.entries| ==> Rights(r)[w] == Rights(vm)[w];
  }

  lemma LoadedValue(vm: Vm, va: int, size: int)
    requires VmOk(vm) && Fits(|vm.entries|, Reading(va, size)) && In(vm, PageAt(Reading(va, size)))
    requires ReadMem(vm.mem, PageTable(vm), va, size).Loaded?
    ensures Unsigned(va) + size <= |vm.entries| * PAGE_SIZE
    ensures ReadMem(vm.mem, PageTable(vm), va, size).value == LoadValue(Flat(vm)[Unsigned(va)..Unsigned(va) + size])
  {
    FitsPage(|vm.entries|, Reading(va, size));
    var u := Unsigned(va);
    var b := Flat(vm)[u..u + size];
    BytesFound(vm, u, size, b);
    ReadMemValue(vm.mem, PageTable(vm), va, size, b);
  }

  /** What a load leaves and returns, spelled out. */
  lemma LoadLeaves(vm: Vm, va: int, size: int)
    requires VmOk(vm) && Fits(|vm.entries|, Reading(va, size)) && In(vm, PageAt(Reading(va, size)))
    ensures var v, u := PageAt(Reading(va, size)), Unsigned(va);
            && u + size <= |vm.entries| * PAGE_SIZE
            && Access(vm, Reading(va, size))
               == (WithBits(vm, v, vm.entries[v].(use := true)), Got(LoadValue(Flat(vm)[u..u + size])))
  {
    NoFault(vm, Reading(va, size));
    LoadedValue(vm, va, size);
  }

  lemma LoadIsFlat(vm: Vm, va: int, size: int)
    requires VmOk(vm) && Fits(|vm.entries|, Reading(va, size)) && In(vm, PageAt(Reading(va, size)))
    ensures var (r, x) := Access(vm, Reading(va, size));
            && VmOk(r) && SameResidence(vm, r)
            && (Flat(r), x) == FlatOp(Flat(vm), Rights(vm), Reading(va, size))
  {
    LoadLeaves(vm, va, size);
    var v := PageAt(Reading(va, size));
    BitsKeep(vm, v, vm.entries[v].(use := true));
    BitsResidence(vm, v, vm.entries[v].(use := true));
  }

  /** Memory after a store into the frame of page v. */
  lemma StorePages(vm: Vm, v: nat, o: nat, b: seq<Byte>, w: nat)
    requires VmOk(vm) && In(vm, v) && o + |b| <= PAGE_SIZE && In(vm, w)
    ensures var f, g := vm.entries[v].physicalPage, vm.entries[w].physicalPage;
            && f * PAGE_SIZE + o + |b| <= MEMORY_SIZE
            && PageIn(Splice(vm.mem, f * PAGE_SIZE + o, b), g)
               == if w == v then Splice(PageIn(vm.mem, f), o, b) else PageIn(vm.mem, g)
  {
    var f, g := vm.entries[v].physicalPage, vm.entries[w].physicalPage;
    StoreInFrame(vm.mem, f, o, b, g);
  }

  lemma StoreInFrame(mem: seq<Byte>, f: nat, o: nat, b: seq<Byte>, g: nat)
    requires |mem| == MEMORY_SIZE && f < NUM_PHYS_PAGES && g < NUM_PHYS_PAGES && o + |b| <= PAGE_SIZE
    ensures f * PAGE_SIZE + o + |b| <= MEMORY_SIZE
    ensures PageIn(Splice(mem, f * PAGE_SIZE + o, b), g)
            == if g == f then Splice(PageIn(mem, f), o, b) else PageIn(mem, g)
  {
    var r := Splice(mem, f * PAGE_SIZE + o, b);
    forall k | 0 <= k < PAGE_SIZE
      ensures PageIn(r, g)[k] == (if g == f then Splice(PageIn(mem, f), o, b) else PageIn(mem, g))[k]
    {
      assert PageIn(r, g)[k] == r[g * PAGE_SIZE + k];
      assert PageIn(mem, g)[k] == mem[g * PAGE_SIZE + k];
    }
  }

  /** A store into a resident page that is marked dirty. */
  lemma StoreKeeps(vm: Vm, v: nat, o: nat, b: seq<Byte>)
    requires VmOk(vm) && In(vm, v) && vm.entries[v].dirty && o + |b| <= PAGE_SIZE
    ensures vm.entries[v].physicalPage * PAGE_SIZE + o + |b| <= MEMORY_SIZE
    ensures var r := vm.(mem := Splice(vm.mem, vm.entries[v].physicalPage * PAGE_SIZE + o, b));
            && VmOk(r)
            && forall w :: 0 <= w < |vm.entries| ==> PageOf(r, w) == if w == v then Splice(PageOf(vm, w), o, b) else PageOf(vm, w)
  {
    StorePages(vm, v, o, b, v);
    var r := vm.(mem := Splice(vm.mem, vm.entries[v].physicalPage * PAGE_SIZE + o, b));
    SameTables(vm, r);
    forall w | 0 <= w < |vm.entries|
      ensures PageOf(r, w) == if w == v then Splice(PageOf(vm, w), o, b) else PageOf(vm, w)
      ensures In(r, w) && !r.entries[w].dirty ==> PageIn(r.mem, r.entries[w].physicalPage) == r.file[Slot(r, w)]
    {
      assert Slot(r, w) == Slot(vm, w);
      if In(vm, w) {
        StorePages(vm, v, o, b, w);
      }
    }
  }

  lemma SameTables(vm: Vm, r: Vm)
    requires Shape(vm) && Resident(vm) && r == vm.(mem := r.mem) && |r.mem| == MEMORY_SIZE
    ensures Shape(r) && Resident(r)
  {
    assert forall w :: 0 <= w < |vm.entries| ==> Slot(r, w) == Slot(vm, w);
    assert forall w :: In(r, w) <==> In(vm, w);
    forall f | f in r.used
      ensures Backed(r, f)
    {
      assert Backed(vm, f);
      var w :| In(vm, w) && vm.entries[w].physicalPage == f;
      assert In(r, w);
    }
  }

  /** One page spliced is the flat memory spliced. */
  lemma SplicedPageIsSplicedFlat(vm: Vm, r: Vm, va: nat, b: seq<Byte>)
    requires VmOk(vm) && VmOk(r) && |r.entries| == |vm.entries|
    requires va + |b| <= |vm.entries| * PAGE_SIZE && va % PAGE_SIZE + |b| <= PAGE_SIZE && va / PAGE_SIZE < |vm.entries|
    requires forall w :: 0 <= w < |vm.entries| ==>
               PageOf(r, w) == if w == va / PAGE_SIZE then Splice(PageOf(vm, w), va % PAGE_SIZE, b) else PageOf(vm, w)
    ensures Flat(r) == Splice(Flat(vm), va, b)
  {
    forall a | 0 <= a < |vm.entries| * PAGE_SIZE
      ensures FlatByte(r, a) == Splice(Flat(vm), va, b)[a]
    {
      SplicedByte(vm, r, va, b, a);
    }
  }

  lemma SplicedByte(vm: Vm, r: Vm, va: nat, b: seq<Byte>, a: nat)
    requires VmOk(vm) && VmOk(r) && |r.entries| == |vm.entries| && a < |vm.entries| * PAGE_SIZE
    requires va + |b| <= |vm.entries| * PAGE_SIZE && va % PAGE_SIZE + |b| <= PAGE_SIZE
    requires var w := a / PAGE_SIZE;
             PageOf(r, w) == if w == va / PAGE_SIZE then Splice(PageOf(vm, w), va % PAGE_SIZE, b) else PageOf(vm, w)
    ensures FlatByte(r, a) == if va <= a < va + |b| then b[a - va] else FlatByte(vm, a)
  {
    var w, o := a / PAGE_SIZE, a % PAGE_SIZE;
    var p, q := va / PAGE_SIZE, va % PAGE_SIZE;
    assert a == PAGE_SIZE * w + o && va == PAGE_SIZE * p + q;
    if va <= a < va + |b| {
      InPage(a, va);
    } else {
      InTwoPages(a, va, |b|);
    }
  }

  /** What a store leaves, spelled out. */
  lemma StoreLeaves(vm: Vm, va: int, size: int, value: int)
    requires VmOk(vm) && Fits(|vm.entries|, Writing(va, size, value)) && In(vm, PageAt(Writing(va, size, value)))
    requires !vm.entries[PageAt(Writing(va, size, value))].readOnly
    ensures var v, u := PageAt(Writing(va, size, value)), Unsigned(va);
            var e := vm.entries[v].(use := true, dirty := true);
            && e.physicalPage * PAGE_SIZE + u % PAGE_SIZE + size <= MEMORY_SIZE
            && Access(vm, Writing(va, size, value))
               == (WithBits(vm, v, e).(mem := Splice(vm.mem, e.physicalPage * PAGE_SIZE + u % PAGE_SIZE, Bytes(value, size))),
                   Got(0))
  {
    NoFault(vm, Writing(va, size, value));
    FitsPage(|vm.entries|, Writing(va, size, value));
  }

  lemma StoreIsFlat(vm: Vm, va: int, size: int, value: int)
    requires VmOk(vm) && Fits(|vm.entries|, Writing(va, size, value)) && In(vm, PageAt(Writing(va, size, value)))
    requires !vm.entries[PageAt(Writing(va, size, value))].readOnly
    ensures var (r, x) := Access(vm, Writing(va, size, value));
            && VmOk(r) && SameResidence(vm, r)
            && (Flat(r), x) == FlatOp(Flat(vm), Rights(vm), Writing(va, size, value))
  {
    StoreLeaves(vm, va, size, value);
    FitsPage(|vm.entries|, Writing(va, size, value));
    StoredFlat(vm, Access(vm, Writing(va, size, value)).0, Unsigned(va), Bytes(value, size));
  }

  lemma StoredFlat(vm: Vm, r: Vm, va: nat, b: seq<Byte>)
    requires VmOk(vm) && In(vm, va / PAGE_SIZE)
    requires va + |b| <= |vm.entries| * PAGE_SIZE && va % PAGE_SIZE + |b| <= PAGE_SIZE
    requires var v := va / PAGE_SIZE;
             var e := vm.entries[v].(use := true, dirty := true);
             && e.physicalPage * PAGE_SIZE + va % PAGE_SIZE + |b| <= MEMORY_SIZE
             && r == WithBits(vm, v, e).(mem := Splice(vm.mem, e.physicalPage * PAGE_SIZE + va % PAGE_SIZE, b))
    ensures VmOk(r) && SameResidence(vm, r) && Flat(r) == Splice(Flat(vm), va, b)
  {
    var v := va / PAGE_SIZE;
    var e := vm.entries[v].(use := true, dirty := true);
    BitsKeep(vm, v, e);
    BitsResidence(vm, v, e);
    var mid := WithBits(vm, v, e);
    assert r == mid.(mem := r.mem);
    assert Rights(r) == Rights(mid);
    DirtyStore(mid, r, va, b);
  }

  lemma DirtyStore(mid: Vm, r: Vm, va: nat, b: seq<Byte>)
    requires VmOk(mid) && In(mid, va / PAGE_SIZE) && mid.entries[va / PAGE_SIZE].dirty
    requires va + |b| <= |mid.entries| * PAGE_SIZE && va % PAGE_SIZE + |b| <= PAGE_SIZE
    requires mid.entries[va / PAGE_SIZE].physicalPage * PAGE_SIZE + va % PAGE_SIZE + |b| <= MEMORY_SIZE
    requires r == mid.(mem := Splice(mid.mem, mid.entries[va / PAGE_SIZE].physicalPage * PAGE_SIZE + va % PAGE_SIZE, b))
    ensures VmOk(r) && Flat(r) == Splice(Flat(mid), va, b)
  {
    StoreKeeps(mid, va / PAGE_SIZE, va % PAGE_SIZE, b);
    SplicedPageIsSplicedFlat(mid, r, va, b);
  }

  /** An access either finds its page absent and changes nothing, or does exactly what it does to one flat
      memory; wrong alignment, addresses outside the process and read-only pages included. */
  lemma AccessIsFlat(vm: Vm, a: Request)
    requires VmOk(vm) && RequestOk(a)
    ensures var (r, x) := Access(vm, a);
            if x == Refused(PageFaultException) then r == vm && Fits(|vm.entries|, a) && !In(vm, PageAt(a))
            else VmOk(r) && SameResidence(vm, r) && (Flat(r), x) == FlatOp(Flat(vm), Rights(vm), a)
    ensures Fits(|vm.entries|, a) && In(vm, PageAt(a)) ==> Access(vm, a).1 != Refused(PageFaultException)
  {
    if Fits(|vm.entries|, a) && In(vm, PageAt(a)) && !(a.Writing? && vm.entries[PageAt(a)].readOnly) {
      match a
      case Reading(va, size) => LoadIsFlat(vm, va, size);
      case Writing(va, size, value) => StoreIsFlat(vm, va, size, value);
    } else {
      AccessRefused(vm, a);
    }
  }

  lemma AccessRefused(vm: Vm, a: Request)
    requires VmOk(vm) && RequestOk(a)
    requires !(Fits(|vm.entries|, a) && In(vm, PageAt(a))) || (a.Writing? && vm.entries[PageAt(a)].readOnly)
    ensures Access(vm, a)
            == (vm, Refused(if !Fits(|vm.entries|, a) then AddressErrorException
                            else if !In(vm, PageAt(a)) then PageFaultException else ReadOnlyException))
  {
  }

  /** Any access, with the page fault it may take, does exactly what it does to one flat memory. */
  lemma TouchIsFlat(vm: Vm, a: Request)
    requires VmOk(vm) && RequestOk(a)
    ensures var (r, x) := Touch(vm, a);
            && VmOk(r) && Rights(r) == Rights(vm)
            && (Flat(r), x) == FlatOp(Flat(vm), Rights(vm), a)
  {
    AccessIsFlat(vm, a);
    if Access(vm, a).1 == Refused(PageFaultException) {
      ServiceIsFlat(vm, PageAt(a));
      AccessIsFlat(Service(vm, PageAt(a)), a);
    }
  }

  lemma ServiceIsFlat(vm: Vm, v: nat)
    requires VmOk(vm) && v < |vm.entries| && !In(vm, v)
    ensures var r := Service(vm, v);
            VmOk(r) && In(r, v) && |r.entries| == |vm.entries| && Rights(r) == Rights(vm) && Flat(r) == Flat(vm)
  {
    ServiceKeeps(vm, v);
    ServiceKeepsRights(vm, v);
    SamePagesSameFlat(vm, Service(vm, v));
  }

  lemma ServiceKeepsRights(vm: Vm, v: nat)
    requires VmOk(vm) && v < |vm.entries|
    ensures Rights(Service(vm, v)) == Rights(vm)
  {
    var r := Service(vm, v);
    assert forall w :: 0 <= w < |vm.entries| ==> r.entries[w].readOnly == vm.entries[w].readOnly;
  }

  // ---------------------------------------------------------------- whole runs

  /** What a run of accesses leaves and answers, with paging and on a flat memory. */
  ghost function Run(vm: Vm, reqs: seq<Request>): (Vm, seq<Answer>)
    requires VmOk(vm) && forall i :: 0 <= i < |reqs| ==> RequestOk(reqs[i])
    decreases |reqs|
  {
    if reqs == [] then (vm, [])
    else
      TouchIsFlat(vm, reqs[0]);
      var (r, x) := Touch(vm, reqs[0]);
      var rest := Run(r, reqs[1..]);
      (rest.0, [x] + rest.1)
  }

  function FlatRun(m: seq<Byte>, rights: seq<bool>, reqs: seq<Request>): (seq<Byte>, seq<Answer>)
    requires |m| == |rights| * PAGE_SIZE && forall i :: 0 <= i < |reqs| ==> RequestOk(reqs[i])
    decreases |reqs|
  {
    if reqs == [] then (m, [])
    else
      var (m1, x) := FlatOp(m, rights, reqs[0]);
      var rest := FlatRun(m1, rights, reqs[1..]);
      (rest.0, [x] + rest.1)
  }

  /** However small physical memory is compared with the process, every run of loads and stores, at any
      addresses, gets the answers, and leaves the memory, that one flat memory would give and leave. */
  lemma {:induction false} PagingIsInvisible(vm: Vm, reqs: seq<Request>)
    requires VmOk(vm) && forall i :: 0 <= i < |reqs| ==> RequestOk(reqs[i])
    ensures var r := Run(vm, reqs);
            VmOk(r.0) && Rights(r.0) == Rights(vm) && (Flat(r.0), r.1) == FlatRun(Flat(vm), Rights(vm), reqs)
    decreases |reqs|
  {
    if reqs != [] {
      TouchIsFlat(vm, reqs[0]);
      PagingIsInvisible(Touch(vm, reqs[0]).0, reqs[1..]);
    }
  }

  // ---------------------------------------------------------------- loading a process

  /** SwapManager::addPage: the page's slot, or the least free one. */
  function AddPage(vm: Vm, v: nat, b: seq<Byte>): Vm {
    if Slot(vm, v) != -1 then
      (if Slot(vm, v) < |vm.file| then vm.(file := vm.file[Slot(vm, v) := b]) else vm)
    else if |vm.slots| < |vm.file| then vm.(slots := vm.slots + [v], file := vm.file[|vm.slots| := b])
    else vm
  }

  /** AddPage of pages i, i + 1, and so on. */
  function AddAll(vm: Vm, pages: seq<seq<Byte>>, i: nat): Vm
    requires i <= |pages|
    decreases |pages| - i
  {
    if i == |pages| then vm else AddAll(AddPage(vm, i, pages[i]), pages, i + 1)
  }

  /** Pages 0 to i - 1 are in the swap file, each in the slot of its number. */
  ghost predicate Added(vm: Vm, pages: seq<seq<Byte>>, i: nat) {
    && i <= |pages| <= |vm.file| && |vm.slots| == i
    && (forall k :: 0 <= k < |vm.file| ==> |vm.file[k]| == PAGE_SIZE)
    && forall k :: 0 <= k < i ==> vm.slots[k] == k && vm.file[k] == pages[k]
  }

  lemma SlotIsNumber(slots: seq<nat>, v: nat, i: nat)
    requires i <= |slots| && i <= v && forall k :: 0 <= k < |slots| ==> slots[k] == k
    ensures SlotFrom(slots, v, i) == if v < |slots| then v else -1
    decreases |slots| - i
  {
    if i < |slots| && i < v {
      SlotIsNumber(slots, v, i + 1);
    }
  }

  lemma {:induction false} AddAllAdds(vm: Vm, pages: seq<seq<Byte>>, i: nat)
    requires Added(vm, pages, i) && forall k :: 0 <= k < |pages| ==> |pages[k]| == PAGE_SIZE
    ensures var r := AddAll(vm, pages, i);
            Added(r, pages, |pages|) && r == vm.(slots := r.slots, file := r.file) && |r.file| == |vm.file|
    decreases |pages| - i
  {
    if i < |pages| {
      SlotIsNumber(vm.slots, i, 0);
      AddAllAdds(AddPage(vm, i, pages[i]), pages, i + 1);
    }
  }

  /** A process whose pages have all been added and none brought in: paging starts out sound, and every page
      holds what it was loaded with. */
  lemma LoadedProcessIsOk(vm: Vm, pages: seq<seq<Byte>>)
    requires |vm.mem| == MEMORY_SIZE && |vm.file| == SWAP_SIZE && Added(vm, pages, 0)
    requires vm.used == {} && vm.lru == [] && |vm.entries| == |pages| && forall v :: 0 <= v < |vm.entries| ==> !vm.entries[v].valid
    requires forall k :: 0 <= k < |pages| ==> |pages[k]| == PAGE_SIZE
    ensures var r := AddAll(vm, pages, 0);
            VmOk(r) && |r.entries| == |pages| && forall v :: 0 <= v < |pages| ==> PageOf(r, v) == pages[v]
  {
    AddAllAdds(vm, pages, 0);
    var r := AddAll(vm, pages, 0);
    forall v | 0 <= v < |r.entries|
      ensures Slot(r, v) == v
    {
      SlotIsNumber(r.slots, v, 0);
    }
  }
}
