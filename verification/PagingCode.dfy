/** The replacement list, the swap manager and page fault service with their pointers and arrays. */
module PagingCode {
  import opened Memory
  import opened Paging
  import B = BitMap

  class Node {
    var next: Node?
    var prev: Node?
    const page: nat

    constructor (page: nat)
      ensures this.page == page && next == null && prev == null
    {
      this.page, next, prev := page, null, null;
    }
  }

  /** The doubly linked list, newest page first. */
  class Lru {
    var head: Node?
    var tail: Node?
    ghost var nodes: seq<Node>

    constructor ()
      ensures Valid() && nodes == []
    {
      head, tail, nodes := null, null, [];
    }

    ghost predicate Valid()
      reads this, nodes
    {
      && (forall i, j :: 0 <= i < j < |nodes| ==> nodes[i] != nodes[j])
      && head == (if nodes == [] then null else nodes[0])
      && tail == (if nodes == [] then null else nodes[|nodes| - 1])
      && (forall i :: 0 <= i < |nodes| ==> Linked(i))
    }

    ghost predicate Linked(i: nat)
      requires i < |nodes|
      reads this, nodes
    {
      && nodes[i].next == (if i + 1 < |nodes| then nodes[i + 1] else null)
      && nodes[i].prev == (if i > 0 then nodes[i - 1] else null)
    }

    ghost function Pages(): (p: seq<nat>)
      reads this, nodes
      ensures |p| == |nodes|
    {
      seq(|nodes|, i requires 0 <= i < |nodes| reads this, nodes => nodes[i].page)
    }

    /** The page at the tail. */
    method GetLru() returns (page: nat)
      requires Valid() && nodes != []
      ensures page == Pages()[|nodes| - 1]
    {
      page := tail.page;
    }

    method AddPage(page: nat)
      requires Valid()
      modifies this, nodes
      ensures Valid() && Pages() == [page] + old(Pages()) && fresh(set n | n in nodes && n !in old(nodes))
    {
      var node := new Node(page);
      ReplaceHead(node);
    }

    /** Puts a node that is not in the list at its head; the walk along the list looks for it. */
    method ReplaceHead(node: Node)
      requires Valid() && node !in nodes && node.next == null && node.prev == null
      modifies this, nodes, node
      ensures Valid() && nodes == [node] + old(nodes) && Pages() == [node.page] + old(Pages())
    {
      if head == null {
        head, tail := node, node;
        nodes := [node];
        return;
      }
      var current := head;
      ghost var i := 0;
      while current != null
        invariant 0 <= i <= |nodes| && current == (if i < |nodes| then nodes[i] else null)
        decreases |nodes| - i
      {
        assert current != node && Linked(i);
        current := current.next;
        i := i + 1;
      }
      ghost var was := nodes;
      assert forall i :: 0 <= i < |was| ==> Linked(i);
      node.next := head;
      node.prev := null;
      head.prev := node;
      head := node;
      nodes := [node] + nodes;
      assert forall i :: 0 < i < |nodes| ==> nodes[i] == was[i - 1];
      forall i | 0 <= i < |nodes|
        ensures Linked(i)
      {
        assert i > 0 ==> old(Linked(i - 1));
      }
    }

    /** Drops the tail of a list of at least two. */
    method RemoveLruPage()
      requires Valid() && |nodes| >= 2
      modifies this, nodes
      ensures Valid() && nodes == old(nodes)[..|old(nodes)| - 1] && Pages() == old(Pages())[..|old(nodes)| - 1]
    {
      ghost var was, n := nodes, |nodes|;
      assert Linked(n - 1);
      tail := tail.prev;
      tail.next := null;
      nodes := nodes[..n - 1];
      forall i | 0 <= i < |nodes|
        ensures Linked(i)
      {
        assert old(Linked(i)) && nodes[i] == was[i];
      }
    }
  }

  /** The swap file and its slots. */
  class SwapManager {
    const bitmap: B.BitMap
    const pids: array<int>
    const entries: array<nat>
    var file: seq<seq<Byte>>

    constructor ()
      ensures Valid() && fresh(bitmap) && fresh(bitmap.words) && fresh(pids) && fresh(entries)
      ensures bitmap.Marked() == {}
    {
      bitmap := new B.BitMap(SWAP_SIZE);
      pids := new int[SWAP_SIZE];
      entries := new nat[SWAP_SIZE];
      file := seq(SWAP_SIZE, _ => seq(PAGE_SIZE, _ => 0));
    }

    ghost predicate Valid()
      reads this
    {
      && bitmap.Valid() && bitmap.numBits == SWAP_SIZE && pids.Length == SWAP_SIZE && entries.Length == SWAP_SIZE
      && |file| == SWAP_SIZE && (forall i :: 0 <= i < |file| ==> |file[i]| == PAGE_SIZE)
      && pids as object != bitmap.words && entries as object != bitmap.words && pids as object != entries
    }

    /** The slots in use are the first n, all of process pid. */
    ghost predicate Holds(pid: int, slots: seq<nat>)
      requires Valid()
      reads this, bitmap.words, pids, entries
    {
      && |slots| <= SWAP_SIZE && entries[..|slots|] == slots
      && (forall i :: 0 <= i < |slots| ==> pids[i] == pid)
      && (forall i :: 0 <= i < SWAP_SIZE ==> (i in bitmap.Marked() <==> i < |slots|))
    }

    /** The slot of a page of the process, or -1. */
    method FindSlot(pid: int, vpn: nat, ghost slots: seq<nat>) returns (r: int)
      requires Valid() && Holds(pid, slots)
      ensures r == SlotFrom(slots, vpn, 0)
    {
      var i := 0;
      while i < SWAP_SIZE
        invariant 0 <= i <= SWAP_SIZE
        invariant if i <= |slots| then SlotFrom(slots, vpn, 0) == SlotFrom(slots, vpn, i) else SlotFrom(slots, vpn, 0) == -1
      {
        if pids[i] == pid {
          var on := bitmap.Test(i);
          if on && entries[i] == vpn {
            return i;
          }
        }
        i := i + 1;
      }
      r := -1;
    }

    /** Reads the page's swap copy. */
    method FindPage(pid: int, vpn: nat, ghost slots: seq<nat>) returns (page: seq<Byte>)
      requires Valid() && Holds(pid, slots) && SlotFrom(slots, vpn, 0) != -1
      ensures page == file[SlotFrom(slots, vpn, 0)]
    {
      var i := FindSlot(pid, vpn, slots);
      page := file[i];
    }

    /** Writes a page back. The entry of a slot is looked at before its bit: every slot looked at is in use,
        so no entry that was never set is used. */
    method WritePage(pid: int, vpn: nat, page: seq<Byte>, ghost slots: seq<nat>)
      requires Valid() && Holds(pid, slots) && SlotFrom(slots, vpn, 0) != -1 && |page| == PAGE_SIZE
      modifies this
      ensures Valid() && Holds(pid, slots) && file == old(file)[SlotFrom(slots, vpn, 0) := page]
    {
      var i := 0;
      while i < SWAP_SIZE
        invariant 0 <= i <= |slots| && SlotFrom(slots, vpn, 0) == SlotFrom(slots, vpn, i)
        invariant Valid() && Holds(pid, slots) && file == old(file)
      {
        assert i in bitmap.Marked();
        if pids[i] == pid && entries[i] == vpn {
          file := file[i := page];
          return;
        }
        i := i + 1;
      }
    }

    /** Adds a page, or overwrites it; fails when the swap file is full. */
    method AddPage(pid: int, vpn: nat, page: seq<Byte>, ghost slots: seq<nat>) returns (ok: bool, ghost after: seq<nat>)
      requires Valid() && Holds(pid, slots) && |page| == PAGE_SIZE
      modifies this, bitmap.words, pids, entries
      ensures Valid() && Holds(pid, after)
      ensures ok <==> SlotFrom(slots, vpn, 0) != -1 || |slots| < SWAP_SIZE
      ensures after == if SlotFrom(slots, vpn, 0) == -1 && ok then slots + [vpn] else slots
      ensures ok ==> file == old(file)[SlotFrom(after, vpn, 0) := page]
      ensures !ok ==> file == old(file)
    {
      after := slots;
      var i := FindSlot(pid, vpn, slots);
      if i != -1 {
        file := file[i := page];
        return true, after;
      }
      var free := NextSlot(slots);
      if free == -1 {
        return false, after;
      }
      after := slots + [vpn];
      LastSlot(slots, vpn, 0);
      SetSlot(free, pid, vpn, page, slots);
      ok := true;
    }

    /** Marks the slot after the ones in use, if there is one. */
    method NextSlot(ghost slots: seq<nat>) returns (free: int)
      requires Valid() && |slots| <= SWAP_SIZE
      requires forall i :: 0 <= i < SWAP_SIZE ==> (i in bitmap.Marked() <==> i < |slots|)
      modifies bitmap.words
      ensures free == if |slots| < SWAP_SIZE then |slots| else -1
      ensures forall i :: 0 <= i < SWAP_SIZE ==> (i in bitmap.Marked() <==> i < |slots| || i == free)
    {
      FirstAfterPrefix(bitmap.Marked(), bitmap.numBits, |slots|);
      free := bitmap.Find();
    }

    /** Fills in the slot whose bit has just been marked. */
    method SetSlot(free: nat, pid: int, vpn: nat, page: seq<Byte>, ghost slots: seq<nat>)
      requires Valid() && free == |slots| < SWAP_SIZE && |page| == PAGE_SIZE && entries[..|slots|] == slots
      requires forall i :: 0 <= i < |slots| ==> pids[i] == pid
      requires forall i :: 0 <= i < SWAP_SIZE ==> (i in bitmap.Marked() <==> i <= |slots|)
      modifies this, pids, entries
      ensures Valid() && Holds(pid, slots + [vpn]) && file == old(file)[free := page]
    {
      entries[free] := vpn;
      pids[free] := pid;
      file := file[free := page];
      assert entries[..free + 1] == slots + [vpn];
    }
  }

  lemma FirstAfterPrefix(s: set<nat>, n: nat, k: nat)
    requires k <= n && forall i :: 0 <= i < n ==> (i in s <==> i < k)
    ensures B.FirstClear(s, n, 0) == if k < n then k else -1
  {
    var r := B.FirstClear(s, n, 0);
    if k < n {
      assert k !in s;
      assert r != -1 && !(k < r);
    }
  }

  lemma {:induction false} LastSlot(slots: seq<nat>, v: nat, i: nat)
    requires i <= |slots| && SlotFrom(slots, v, i) == -1
    ensures SlotFrom(slots + [v], v, i) == |slots|
    decreases |slots| - i
  {
    if i < |slots| {
      LastSlot(slots, v, i + 1);
    }
  }

  lemma IsSwapIn(vm: Vm, r: Vm, vpn: nat, f: nat)
    requires Shape(vm) && vpn < |vm.entries| && f < NUM_PHYS_PAGES
    requires r.mem == Splice(vm.mem, f * PAGE_SIZE, vm.file[Slot(vm, vpn)]) && r.used == vm.used + {f}
    requires r.entries == vm.entries[vpn := Paging.Loaded(vm.entries[vpn], f)] && r.lru == [vpn] + vm.lru
    requires r.slots == vm.slots && r.file == vm.file
    ensures r == SwapIn(vm, vpn, f)
  {
  }

  /** The parts of an eviction put together. */
  lemma MadeRoom(vm: Vm, r: Vm, vpn: nat, victim: nat, f: nat)
    requires Shape(vm) && vm.lru != [] && victim < |vm.entries| && vpn < |vm.entries| && vpn != victim
    requires FrameOk(vm.entries[victim]) && f == vm.entries[victim].physicalPage && f in vm.used
    requires Shape(Evict(vm, victim)) && Slot(vm, vpn) != -1
    requires r.used == vm.used && r.slots == vm.slots && r.file == Evict(vm, victim).file
    requires r.lru == ([vpn] + vm.lru)[..|vm.lru|]
    requires r.entries == vm.entries[victim := vm.entries[victim].(valid := false)][vpn := Paging.Loaded(vm.entries[vpn], f)]
    requires r.mem == Splice(vm.mem, f * PAGE_SIZE, r.file[SlotFrom(vm.slots, vpn, 0)])
    ensures r == SwapIn(Evict(vm, victim), vpn, f)
  {
    assert vm.used - {f} + {f} == vm.used;
    assert ([vpn] + vm.lru)[..|vm.lru|] == [vpn] + vm.lru[..|vm.lru| - 1];
  }

  /** Page fault service for the one process pid. */
  class VmManager {
    const pid: int
    const pageTable: array<Entry>
    const mainMemory: array<Byte>
    const frames: B.BitMap
    const lru: Lru
    const swap: SwapManager
    ghost var slots: seq<nat>

    constructor (pid: int, pageTable: array<Entry>, mainMemory: array<Byte>, frames: B.BitMap, lru: Lru, swap: SwapManager, ghost slots: seq<nat>)
      ensures this.pid == pid && this.pageTable == pageTable && this.mainMemory == mainMemory && this.frames == frames
      ensures this.lru == lru && this.swap == swap && this.slots == slots
    {
      this.pid, this.pageTable, this.mainMemory, this.frames := pid, pageTable, mainMemory, frames;
      this.lru, this.swap, this.slots := lru, swap, slots;
    }

    /** The parts are sound and share nothing. */
    ghost predicate Valid()
      reads this, lru, lru.nodes, swap, swap.bitmap.words, swap.pids, swap.entries
    {
      && mainMemory.Length == MEMORY_SIZE && frames.Valid() && frames.numBits == NUM_PHYS_PAGES
      && lru.Valid() && swap.Valid() && swap.Holds(pid, slots)
      && Apart(mainMemory, pageTable) && Apart(mainMemory, frames.words) && Apart(mainMemory, swap.bitmap.words)
      && Apart(mainMemory, swap.pids) && Apart(mainMemory, swap.entries)
      && Apart(pageTable, frames.words) && Apart(pageTable, swap.bitmap.words)
      && Apart(pageTable, swap.pids) && Apart(pageTable, swap.entries)
      && Apart(frames.words, swap.bitmap.words) && Apart(frames.words, swap.pids) && Apart(frames.words, swap.entries)
    }

    static predicate Apart(a: object, b: object) { a != b }

    ghost function View(): Vm
      requires frames.Valid()
      reads this, pageTable, mainMemory, frames.words, lru, lru.nodes, swap
    {
      Vm(pageTable[..], mainMemory[..], frames.Marked(), lru.Pages(), slots, swap.file)
    }

    /** Fills frame f with a page. */
    method CopyIn(f: nat, page: seq<Byte>)
      requires mainMemory.Length == MEMORY_SIZE && f < NUM_PHYS_PAGES && |page| == PAGE_SIZE
      modifies mainMemory
      ensures mainMemory[..] == Splice(old(mainMemory[..]), f * PAGE_SIZE, page)
    {
      forall k | 0 <= k < PAGE_SIZE {
        mainMemory[f * PAGE_SIZE + k] := page[k];
      }
      assert forall q :: 0 <= q < MEMORY_SIZE ==> mainMemory[q] == Splice(old(mainMemory[..]), f * PAGE_SIZE, page)[q];
    }

    /** The page comes from the swap file into frame f. */
    method FetchPage(vpn: nat, f: nat)
      requires Valid() && vpn < pageTable.Length && f < NUM_PHYS_PAGES && SlotFrom(slots, vpn, 0) != -1
      modifies pageTable, mainMemory
      ensures Valid()
      ensures mainMemory[..] == Splice(old(mainMemory[..]), f * PAGE_SIZE, swap.file[SlotFrom(slots, vpn, 0)])
      ensures pageTable[..] == old(pageTable[..])[vpn := old(pageTable[vpn]).(physicalPage := f)]
    {
      var page := swap.FindPage(pid, vpn, slots);
      CopyIn(f, page);
      pageTable[vpn] := pageTable[vpn].(physicalPage := f);
    }

    /** It goes to the head of the list. */
    method ListPage(vpn: nat)
      requires Valid()
      modifies lru, lru.nodes
      ensures Valid() && |lru.nodes| == old(|lru.nodes|) + 1 && fresh(set n | n in lru.nodes && n !in old(lru.nodes))
      ensures lru.Pages() == [vpn] + old(lru.Pages())
    {
      lru.AddPage(vpn);
    }

    method Bring(vpn: nat, f: nat)
      requires Valid() && vpn < pageTable.Length && f < NUM_PHYS_PAGES && SlotFrom(slots, vpn, 0) != -1
      modifies pageTable, mainMemory, lru, lru.nodes
      ensures Valid() && |lru.nodes| == old(|lru.nodes|) + 1 && fresh(set n | n in lru.nodes && n !in old(lru.nodes))
      ensures mainMemory[..] == Splice(old(mainMemory[..]), f * PAGE_SIZE, swap.file[SlotFrom(slots, vpn, 0)])
      ensures pageTable[..] == old(pageTable[..])[vpn := Paging.Loaded(old(pageTable[vpn]), f)]
      ensures lru.Pages() == [vpn] + old(lru.Pages())
    {
      FetchPage(vpn, f);
      ListPage(vpn);
      pageTable[vpn] := pageTable[vpn].(valid := true, dirty := false);
    }

    method TakeFrame() returns (f: nat)
      requires frames.Valid() && B.CountClear(frames.Marked(), frames.numBits) != 0
      modifies frames.words
      ensures f == B.FirstClear(old(frames.Marked()), frames.numBits, 0) && f < frames.numBits
      ensures frames.Marked() == old(frames.Marked()) + {f}
    {
      B.NoneClear(frames.Marked(), frames.numBits);
      var b := frames.Find();
      f := b;
    }

    /** Swap when a frame is free. */
    method SwapFree(vpn: nat)
      requires Valid() && Shape(View()) && vpn < pageTable.Length && B.CountClear(frames.Marked(), frames.numBits) != 0
      modifies pageTable, mainMemory, frames.words, lru, lru.nodes
      ensures Valid()
      ensures var f := B.FirstClear(old(frames.Marked()), frames.numBits, 0);
              0 <= f < NUM_PHYS_PAGES && View() == SwapIn(old(View()), vpn, f)
    {
      ghost var before := View();
      assert Slot(before, vpn) != -1;
      var f := TakeFrame();
      Bring(vpn, f);
      IsSwapIn(before, View(), vpn, f);
    }

    /** The victim's frame, after the page has been written back if dirty. */
    method WriteBack(victim: nat) returns (f: nat)
      requires Valid() && victim < pageTable.Length && FrameOk(pageTable[victim]) && SlotFrom(slots, victim, 0) != -1
      modifies pageTable, swap
      ensures Valid() && f == old(pageTable[victim]).physicalPage
      ensures pageTable[..] == old(pageTable[..])[victim := old(pageTable[victim]).(valid := false)]
      ensures swap.file == if old(pageTable[victim]).dirty
                           then old(swap.file)[SlotFrom(slots, victim, 0) := PageIn(mainMemory[..], f)] else old(swap.file)
    {
      pageTable[victim] := pageTable[victim].(valid := false);
      f := pageTable[victim].physicalPage;
      if pageTable[victim].dirty {
        var page := mainMemory[f * PAGE_SIZE..(f + 1) * PAGE_SIZE];
        assert page == PageIn(mainMemory[..], f);
        swap.WritePage(pid, victim, page, slots);
      }
    }

    /** The page takes the place of the one at the tail. */
    method Replace(vpn: nat, f: nat)
      requires Valid() && vpn < pageTable.Length && f < NUM_PHYS_PAGES && SlotFrom(slots, vpn, 0) != -1 && |lru.nodes| >= 1
      modifies pageTable, mainMemory, lru, lru.nodes
      ensures Valid()
      ensures mainMemory[..] == Splice(old(mainMemory[..]), f * PAGE_SIZE, swap.file[SlotFrom(slots, vpn, 0)])
      ensures pageTable[..] == old(pageTable[..])[vpn := Paging.Loaded(old(pageTable[vpn]), f)]
      ensures lru.Pages() == ([vpn] + old(lru.Pages()))[..|old(lru.nodes)|]
    {
      Bring(vpn, f);
      Unlist();
    }

    method Unlist()
      requires Valid() && |lru.nodes| >= 2
      modifies lru, lru.nodes
      ensures Valid() && lru.Pages() == old(lru.Pages())[..|old(lru.nodes)| - 1]
    {
      lru.RemoveLruPage();
    }

    /** Swap when every frame is in use: the page at the tail of the list makes room. */
    method SwapEvict(vpn: nat)
      requires Valid() && Shape(View()) && vpn < pageTable.Length && |lru.nodes| >= 1
      requires In(View(), Victim(View())) && FrameOk(pageTable[Victim(View())]) && vpn != Victim(View())
      requires pageTable[Victim(View())].physicalPage in frames.Marked()
      modifies pageTable, mainMemory, lru, lru.nodes, swap
      ensures Valid()
      ensures var vm := old(View());
              var x := Victim(vm);
              (EvictKeepsShape(vm, x); View() == SwapIn(Evict(vm, x), vpn, vm.entries[x].physicalPage))
    {
      ghost var vm := View();
      var victim := lru.GetLru();
      EvictKeepsShape(vm, victim);
      assert Slot(vm, vpn) != -1 && Slot(vm, victim) != -1;
      var f := WriteBack(victim);
      Replace(vpn, f);
      MadeRoom(vm, View(), vpn, victim, f);
    }

    /** VMManager::Swap */
    method Swap(vpn: nat)
      requires Valid() && VmOk(View()) && vpn < pageTable.Length && !In(View(), vpn)
      modifies pageTable, mainMemory, frames.words, lru, lru.nodes, swap
      ensures Valid() && View() == Service(old(View()), vpn)
    {
      var free := frames.NumClear();
      if free != 0 {
        SwapFree(vpn);
      } else {
        FullHasVictim(View());
        SwapEvict(vpn);
      }
    }
  }
}
