/** User programs under demand paging (mipssim.cc, exception.cc, VMManager.cc): the processor, the page fault
    handler that restarts the instruction, and the pager together, against a processor with one flat memory. */
module PagedMips {
  import opened Words
  import opened Memory
  import opened FlatMemory
  import opened Mips
  import V = Paging

  // ---------------------------------------------------------------- a processor with one flat memory

  /** The process's bytes and which of its pages are read-only. */
  datatype Flat = Flat(m: seq<Byte>, rights: seq<bool>)

  predicate FlatOk(f: Flat) { |f.m| == |f.rights| * PAGE_SIZE }

  const NO_TABLE := Table(false, [])
  const NOWHERE := Space([], NO_TABLE)

  function FlatRead(f: Flat, va: int, size: int): Load
    requires FlatOk(f) && size in {1, 2, 4}
  {
    match V.FlatOp(f.m, f.rights, Reading(va, size)).1
    case Refused(e) => LoadFault(e)
    case Got(v) => Loaded(v, NO_TABLE)
  }

  function FlatWritten(f: Flat, va: int, size: int, value: int): (Memory.Store, Flat)
    requires FlatOk(f) && size in {1, 2, 4}
  {
    var (m, x) := V.FlatOp(f.m, f.rights, Writing(va, size, value));
    match x
    case Refused(e) => (StoreFault(e), f)
    case Got(_) => (Stored([], NO_TABLE), Flat(m, f.rights))
  }

  function FlatStoreOf(i: Instr, x: Operands, f: Flat, size: int, v: int): (Effect, Flat)
    requires FlatOk(f) && size in {1, 2, 4}
  {
    var (r, g) := FlatWritten(f, Effective(i, x), size, v);
    (StoreDone(r, Effective(i, x), x.hi, x.lo, x.next, NOWHERE), g)
  }

  function FlatLoadOf(i: Instr, x: Operands, f: Flat, size: int): Effect
    requires FlatOk(f) && size in {1, 2, 4}
  {
    LoadDone(FlatRead(f, Effective(i, x), size), i, Effective(i, x), x.hi, x.lo, x.next, x.fwd, NOWHERE)
  }

  function FlatMerge(i: Instr, x: Operands, f: Flat): (Effect, Flat)
    requires FlatOk(f)
  {
    match FlatRead(f, Effective(i, x), 4)
    case LoadFault(e) => (Raise(e, Effective(i, x), NO_TABLE), f)
    case Loaded(v, _) => FlatStoreOf(i, x, f, 4, MergedWord(i.op, v, x.b))
  }

  function FlatAccess(i: Instr, x: Operands, f: Flat): (Effect, Flat)
    requires FlatOk(f) && IsMemoryOp(i.op)
  {
    match AlignmentOf(i.op, Effective(i, x))
    case Unaligned => (Raise(AddressErrorException, Effective(i, x), NO_TABLE), f)
    case Unsupported => (Abort, f)
    case Fine =>
      if !IsStore(i.op) then (FlatLoadOf(i, x, f, SizeOf(i.op)), f)
      else if i.op in {SWL, SWR} then FlatMerge(i, x, f)
      else FlatStoreOf(i, x, f, SizeOf(i.op), x.b)
  }

  function FlatExecute(i: Instr, x: Operands, f: Flat): (Effect, Flat)
    requires FlatOk(f) && (IsShift(i.op) ==> i.extra >= 0)
  {
    if IsMemoryOp(i.op) then FlatAccess(i, x, f)
    else if IsControl(i.op) then (Control(i, x, NOWHERE), f)
    else (Arithmetic(i, x, NOWHERE), f)
  }

  function FlatFetch(r: Registers, f: Flat): Load
    requires FlatOk(f)
  {
    FlatRead(f, r[PC], 4)
  }

  /** One instruction when the whole process is in memory. */
  function FlatInstruction(r: Registers, f: Flat): (Outcome, Flat)
    requires FlatOk(f) && 0 <= r[LOAD_REG] < 32
  {
    match FlatFetch(r, f)
    case LoadFault(e) => (Trapped(Cpu(Mips.Raised(r, r[PC]), NOWHERE), e), f)
    case Loaded(raw, _) =>
      var i := Decode(Unsigned(raw));
      var (e, g) := FlatExecute(i, Fetched(r, i), f);
      (Finished(r, [], e), g)
  }

  // ---------------------------------------------------------------- the same processor under paging

  function SpaceOf(vm: V.Vm): Space { Space(vm.mem, V.PageTable(vm)) }

  function WithSpace(vm: V.Vm, s: Space): V.Vm { vm.(mem := s.mem, entries := s.table.entries) }

  ghost function FlatOf(vm: V.Vm): (f: Flat)
    requires V.VmOk(vm)
    ensures FlatOk(f)
  {
    Flat(V.Flat(vm), V.Rights(vm))
  }

  function Erased(e: Effect): Effect {
    match e
    case Raise(x, b, _) => Raise(x, b, NO_TABLE)
    case Abort => Abort
    case Done(dest, value, hi, lo, pcAfter, loadReg, loadValue, _, _) =>
      Done(dest, value, hi, lo, pcAfter, loadReg, loadValue, [], NO_TABLE)
  }

  function Bare(o: Outcome): Outcome {
    match o
    case Completed(c) => Completed(c.(space := NOWHERE))
    case Trapped(c, e) => Trapped(c.(space := NOWHERE), e)
    case Aborted => Aborted
  }

  lemma BareFinish(r: Registers, mem: seq<Byte>, e: Effect)
    requires 0 <= r[LOAD_REG] < 32
    ensures Bare(Finished(r, mem, e)) == Finished(r, [], Erased(e))
  {
  }

  /** Memory and translation when an effect has taken place in s. */
  function SpaceAfter(e: Effect, s: Space): Space {
    match e
    case Raise(_, _, t) => Space(s.mem, t)
    case Abort => s
    case Done(_, _, _, _, _, _, _, m, t) => Space(m, t)
  }

  predicate PageFaults(e: Effect) { e.Raise? && e.exc == PageFaultException }

  function PageOf(va: int): nat { Unsigned(va) / PAGE_SIZE }

  predicate Absent(vm: V.Vm, va: int) { PageOf(va) < |vm.entries| && !V.In(vm, PageOf(va)) }

  /** An effect under paging: the fault of an absent page, or the effect on flat memory. */
  ghost predicate Simulates(vm: V.Vm, e: Effect, flat: (Effect, Flat), addr: int)
    requires V.VmOk(vm)
  {
    var s := SpaceAfter(e, SpaceOf(vm));
    var r := WithSpace(vm, s);
    && MovesTo(vm, s)
    && if PageFaults(e) then e.bad == addr && V.Flat(r) == V.Flat(vm) && Absent(vm, addr)
       else Erased(e) == flat.0 && FlatOf(r) == flat.1
  }

  lemma Unchanged(vm: V.Vm)
    requires V.VmOk(vm)
    ensures WithSpace(vm, SpaceOf(vm)) == vm && V.SameResidence(vm, vm)
  {
  }

  /** vm moves to the space s without moving pages. */
  ghost predicate MovesTo(vm: V.Vm, s: Space) {
    var r := WithSpace(vm, s);
    s == SpaceOf(r) && V.VmOk(r) && V.SameResidence(vm, r)
  }

  /** What ReadMem gives and leaves, under paging and on flat memory. */
  ghost predicate ReadsAlike(vm: V.Vm, va: int, l: Load, flat: Load)
    requires V.VmOk(vm)
  {
    match l
    case LoadFault(e) => if e == PageFaultException then Absent(vm, va) else flat == LoadFault(e)
    case Loaded(v, t) =>
      && MovesTo(vm, Space(vm.mem, t)) && FlatOf(WithSpace(vm, Space(vm.mem, t))) == FlatOf(vm)
      && flat == Loaded(v, NO_TABLE)
  }

  ghost predicate WritesAlike(vm: V.Vm, va: int, st: Memory.Store, flat: (Memory.Store, Flat))
    requires V.VmOk(vm)
  {
    match st
    case StoreFault(e) => if e == PageFaultException then Absent(vm, va) else flat == (StoreFault(e), FlatOf(vm))
    case Stored(m, t) => MovesTo(vm, Space(m, t)) && flat == (Stored([], NO_TABLE), FlatOf(WithSpace(vm, Space(m, t))))
  }

  lemma ReadSimulates(vm: V.Vm, va: int, size: int)
    requires V.VmOk(vm) && size in {1, 2, 4}
    ensures ReadsAlike(vm, va, ReadMem(vm.mem, V.PageTable(vm), va, size), FlatRead(FlatOf(vm), va, size))
  {
    V.AccessIsFlat(vm, Reading(va, size));
    TableStays(vm, va, size, false);
  }

  lemma TableStays(vm: V.Vm, va: int, size: int, writing: bool)
    ensures var t := Translate(V.PageTable(vm), va, size, writing); t.Address? ==> !t.table.isTlb
  {
  }

  lemma WriteSimulates(vm: V.Vm, va: int, size: int, value: int)
    requires V.VmOk(vm) && size in {1, 2, 4}
    ensures WritesAlike(vm, va, WriteMem(vm.mem, V.PageTable(vm), va, size, value), FlatWritten(FlatOf(vm), va, size, value))
  {
    V.AccessIsFlat(vm, Writing(va, size, value));
    TableStays(vm, va, size, true);
  }

  lemma LoadDoneSimulates(vm: V.Vm, l: Load, flat: Load, i: Instr, addr: int, x: Operands)
    requires V.VmOk(vm) && ReadsAlike(vm, addr, l, flat)
    ensures Simulates(vm, LoadDone(l, i, addr, x.hi, x.lo, x.next, x.fwd, SpaceOf(vm)),
                      (LoadDone(flat, i, addr, x.hi, x.lo, x.next, x.fwd, NOWHERE), FlatOf(vm)), addr)
  {
    Unchanged(vm);
  }

  lemma StoreDoneSimulates(vm: V.Vm, st: Memory.Store, flat: (Memory.Store, Flat), addr: int, x: Operands)
    requires V.VmOk(vm) && WritesAlike(vm, addr, st, flat)
    ensures Simulates(vm, StoreDone(st, addr, x.hi, x.lo, x.next, SpaceOf(vm)),
                      (StoreDone(flat.0, addr, x.hi, x.lo, x.next, NOWHERE), flat.1), addr)
  {
    Unchanged(vm);
  }

  lemma LoadSimulates(vm: V.Vm, i: Instr, x: Operands, size: int)
    requires V.VmOk(vm) && size in {1, 2, 4}
    ensures Simulates(vm, LoadOf(i, x, SpaceOf(vm), size), (FlatLoadOf(i, x, FlatOf(vm), size), FlatOf(vm)), Effective(i, x))
  {
    var addr := Effective(i, x);
    ReadSimulates(vm, addr, size);
    LoadDoneSimulates(vm, ReadMem(vm.mem, V.PageTable(vm), addr, size), FlatRead(FlatOf(vm), addr, size), i, addr, x);
  }

  lemma StoreSimulates(vm: V.Vm, i: Instr, x: Operands, size: int, v: int)
    requires V.VmOk(vm) && size in {1, 2, 4}
    ensures Simulates(vm, StoreOf(i, x, SpaceOf(vm), size, v), FlatStoreOf(i, x, FlatOf(vm), size, v), Effective(i, x))
  {
    var addr := Effective(i, x);
    WriteSimulates(vm, addr, size, v);
    StoreDoneSimulates(vm, WriteMem(vm.mem, V.PageTable(vm), addr, size, v), FlatWritten(FlatOf(vm), addr, size, v), addr, x);
  }

  lemma MergeSimulates(vm: V.Vm, i: Instr, x: Operands)
    requires V.VmOk(vm)
    ensures Simulates(vm, Merge(i, x, SpaceOf(vm)), FlatMerge(i, x, FlatOf(vm)), Effective(i, x))
  {
    ReadSimulates(vm, Effective(i, x), 4);
    Unchanged(vm);
    match ReadMem(vm.mem, V.PageTable(vm), Effective(i, x), 4)
    case LoadFault(e) =>
    case Loaded(v, t) =>
      var r := WithSpace(vm, Space(vm.mem, t));
      StoreSimulates(r, i, x, 4, MergedWord(i.op, v, x.b));
      AfterRead(vm, r, StoreOf(i, x, SpaceOf(r), 4, MergedWord(i.op, v, x.b)), FlatMerge(i, x, FlatOf(vm)), Effective(i, x));
  }

  /** A read that changed nothing, then a step that simulates. */
  lemma AfterRead(vm: V.Vm, r: V.Vm, e: Effect, flat: (Effect, Flat), addr: int)
    requires V.VmOk(vm) && V.VmOk(r) && V.SameResidence(vm, r) && FlatOf(r) == FlatOf(vm)
    requires r == WithSpace(vm, SpaceOf(r)) && Simulates(r, e, flat, addr) && (e.Raise? || e.Done?)
    requires SpaceOf(r).mem == vm.mem
    ensures Simulates(vm, e, flat, addr)
  {
    var s := SpaceAfter(e, SpaceOf(r));
    assert s == SpaceAfter(e, SpaceOf(vm));
    assert WithSpace(r, s) == WithSpace(vm, s);
  }

  lemma AccessSimulates(vm: V.Vm, i: Instr, x: Operands)
    requires V.VmOk(vm) && InstrOk(i) && IsMemoryOp(i.op)
    ensures Simulates(vm, Access(i, x, SpaceOf(vm)), FlatAccess(i, x, FlatOf(vm)), Effective(i, x))
  {
    if AlignmentOf(i.op, Effective(i, x)) != Fine {
      Unchanged(vm);
    } else if !IsStore(i.op) {
      LoadSimulates(vm, i, x, SizeOf(i.op));
    } else if i.op in {SWL, SWR} {
      MergeSimulates(vm, i, x);
    } else {
      StoreSimulates(vm, i, x, SizeOf(i.op), x.b);
    }
  }

  lemma ControlErased(i: Instr, x: Operands, s: Space)
    requires IsControl(i.op)
    ensures var e := Control(i, x, s);
            e.Done? && Space(e.mem, e.table) == s && Erased(e) == Control(i, x, NOWHERE)
  {
  }

  lemma ArithmeticErased(i: Instr, x: Operands, s: Space)
    requires InstrOk(i) && !IsControl(i.op) && !IsMemoryOp(i.op)
    ensures var e := Arithmetic(i, x, s);
            SpaceAfter(e, s) == s && !PageFaults(e) && Erased(e) == Arithmetic(i, x, NOWHERE)
  {
  }

  lemma ExecuteSimulates(vm: V.Vm, i: Instr, x: Operands)
    requires V.VmOk(vm) && InstrOk(i)
    ensures Simulates(vm, Execute(i, x, SpaceOf(vm)), FlatExecute(i, x, FlatOf(vm)), Effective(i, x))
    ensures PageFaults(Execute(i, x, SpaceOf(vm))) ==> IsMemoryOp(i.op)
  {
    Unchanged(vm);
    if IsMemoryOp(i.op) {
      AccessSimulates(vm, i, x);
    } else if IsControl(i.op) {
      ControlErased(i, x, SpaceOf(vm));
    } else {
      ArithmeticErased(i, x, SpaceOf(vm));
    }
  }

  // ---------------------------------------------------------------- one attempt at an instruction

  datatype State = State(regs: Registers, vm: V.Vm)

  ghost predicate StateOk(s: State) { RegsOk(s.regs) && V.VmOk(s.vm) }

  ghost function Attempt(s: State): Outcome
    requires StateOk(s)
  {
    OneInstruction(Cpu(s.regs, SpaceOf(s.vm)))
  }

  function VmAfter(vm: V.Vm, o: Outcome): V.Vm {
    if o.Aborted? then vm else WithSpace(vm, o.cpu.space)
  }

  predicate Faulted(o: Outcome) { o.Trapped? && o.exc == PageFaultException }

  /** The pages an instruction touches: that of its fetch and that of its data. */
  function Touched(r: Registers, f: Flat): set<nat>
    requires FlatOk(f)
  {
    {PageOf(r[PC])} +
    match FlatFetch(r, f)
    case LoadFault(_) => {}
    case Loaded(raw, _) =>
      var i := Decode(Unsigned(raw));
      if IsMemoryOp(i.op) then {PageOf(Effective(i, Fetched(r, i)))} else {}
  }

  /** An attempt finds one of those pages absent and changes nothing but use bits, or it ends as on flat
      memory. */
  ghost predicate AttemptOk(s: State, o: Outcome)
    requires StateOk(s)
  {
    var f := FlatOf(s.vm);
    && (!o.Aborted? ==> MovesTo(s.vm, o.cpu.space) && RegsOk(o.cpu.regs))
    && if Faulted(o) then
         && FlatOf(VmAfter(s.vm, o)) == f && o.cpu.regs == Mips.Raised(s.regs, o.cpu.regs[BAD_VADDR])
         && Absent(s.vm, o.cpu.regs[BAD_VADDR]) && PageOf(o.cpu.regs[BAD_VADDR]) in Touched(s.regs, f)
       else Bare(o) == FlatInstruction(s.regs, f).0 && FlatOf(VmAfter(s.vm, o)) == FlatInstruction(s.regs, f).1
  }

  lemma FetchFaults(s: State)
    requires StateOk(s) && Fetch(Cpu(s.regs, SpaceOf(s.vm))).LoadFault?
    ensures AttemptOk(s, Attempt(s))
  {
    StepKeepsCpu(Cpu(s.regs, SpaceOf(s.vm)));
    ReadSimulates(s.vm, s.regs[PC], 4);
    Unchanged(s.vm);
  }

  lemma FlatInstructed(r: Registers, f: Flat, i: Instr)
    requires FlatOk(f) && 0 <= r[LOAD_REG] < 32 && FlatFetch(r, f).Loaded? && i == Decode(Unsigned(FlatFetch(r, f).value))
    ensures var (e, g) := FlatExecute(i, Fetched(r, i), f);
            FlatInstruction(r, f) == (Finished(r, [], e), g)
    ensures IsMemoryOp(i.op) ==> PageOf(Effective(i, Fetched(r, i))) in Touched(r, f)
  {
  }

  /** The effect of the instruction seen from before its fetch, which moved memory from s.vm to r. */
  lemma AfterFetch(s: State, r: V.Vm, e: Effect, flat: (Effect, Flat), addr: int)
    requires StateOk(s) && V.VmOk(r) && MovesTo(s.vm, SpaceOf(r)) && r == WithSpace(s.vm, SpaceOf(r)) && r.mem == s.vm.mem
    requires FlatOf(r) == FlatOf(s.vm) && Simulates(r, e, flat, addr)
    requires Finished(s.regs, s.vm.mem, e).Aborted? ==> e.Abort?
    ensures var o := Finished(s.regs, s.vm.mem, e);
            && (!o.Aborted? ==> MovesTo(s.vm, o.cpu.space)) && V.VmOk(VmAfter(s.vm, o))
            && if PageFaults(e)
               then Faulted(o) && FlatOf(VmAfter(s.vm, o)) == FlatOf(s.vm) && Absent(s.vm, addr)
                    && o.cpu.regs == Mips.Raised(s.regs, addr)
               else Erased(e) == flat.0 && !Faulted(o) && FlatOf(VmAfter(s.vm, o)) == flat.1
  {
    var t := SpaceAfter(e, SpaceOf(r));
    assert WithSpace(r, t) == WithSpace(s.vm, t);
  }

  lemma Instructed(s: State, r: V.Vm, i: Instr, e: Effect, flat: (Effect, Flat), addr: int)
    requires StateOk(s) && V.VmOk(r) && MovesTo(s.vm, SpaceOf(r)) && r == WithSpace(s.vm, SpaceOf(r)) && r.mem == s.vm.mem
    requires FlatOf(r) == FlatOf(s.vm) && Simulates(r, e, flat, addr)
    requires FlatInstruction(s.regs, FlatOf(s.vm)) == (Finished(s.regs, [], flat.0), flat.1)
    requires PageFaults(e) ==> PageOf(addr) in Touched(s.regs, FlatOf(s.vm))
    requires var o := Finished(s.regs, s.vm.mem, e); if o.Aborted? then e.Abort? else RegsOk(o.cpu.regs)
    ensures AttemptOk(s, Finished(s.regs, s.vm.mem, e))
  {
    BareFinish(s.regs, s.vm.mem, e);
    AfterFetch(s, r, e, flat, addr);
    RaisedAt(s.regs, addr);
  }

  lemma RaisedAt(r: Registers, bad: int)
    requires 0 <= r[LOAD_REG] < 32
    ensures Mips.Raised(r, bad)[BAD_VADDR] == bad
  {
  }

  /** Every attempt is of that kind. */
  lemma AttemptSimulates(s: State)
    requires StateOk(s)
    ensures AttemptOk(s, Attempt(s))
  {
    var c := Cpu(s.regs, SpaceOf(s.vm));
    if Fetch(c).LoadFault? {
      FetchFaults(s);
    } else {
      var raw, t := Fetch(c).value, Fetch(c).table;
      ReadSimulates(s.vm, s.regs[PC], 4);
      var r := WithSpace(s.vm, Space(s.vm.mem, t));
      var i := Decode(Unsigned(raw));
      var x := Fetched(s.regs, i);
      FlatInstructed(s.regs, FlatOf(s.vm), i);
      ExecuteSimulates(r, i, x);
      ExecuteOk(s.regs, i, SpaceOf(r));
      Instructed(s, r, i, Execute(i, x, SpaceOf(r)), FlatExecute(i, x, FlatOf(r)), Effective(i, x));
    }
  }

  lemma ExecuteOk(r: Registers, i: Instr, s: Space)
    requires RegsOk(r) && InstrOk(i) && SpaceOk(s)
    ensures var e := Execute(i, Fetched(r, i), s);
            var o := Finished(r, s.mem, e);
            if o.Aborted? then e.Abort? else RegsOk(o.cpu.regs)
  {
    var x := Fetched(r, i);
    if IsMemoryOp(i.op) {
      AccessOk(i, x, s);
    } else if IsControl(i.op) {
      ControlOk(i, x, s);
    } else {
      ArithmeticOk(i, x, s);
    }
    FinishedOk(r, s.mem, Execute(i, x, s));
  }

  // ---------------------------------------------------------------- faults and their service

  lemma BadAddress(vm: V.Vm, bad: int)
    requires V.Shape(vm) && IsInt(bad) && Absent(vm, bad)
    ensures 0 <= bad && bad / PAGE_SIZE == PageOf(bad)
  {
  }

  /** The page fault handler: the page of BadVAddr is brought in and the registers are left alone. */
  ghost function Handled(s: State): State
    requires StateOk(s) && Faulted(Attempt(s))
  {
    AttemptSimulates(s);
    var c := Attempt(s).cpu;
    BadAddress(s.vm, c.regs[BAD_VADDR]);
    State(c.regs, V.Service(WithSpace(s.vm, c.space), c.regs[BAD_VADDR] / PAGE_SIZE))
  }

  /** After the service the page is in and first on the list, memory looks as before, and only the pending
      load and BadVAddr have changed in the registers. */
  lemma HandledOk(s: State)
    requires StateOk(s) && Faulted(Attempt(s))
    ensures var h := Handled(s);
            var p := PageOf(h.regs[BAD_VADDR]);
            && StateOk(h) && FlatOf(h.vm) == FlatOf(s.vm) && h.regs == Mips.Raised(s.regs, h.regs[BAD_VADDR])
            && p in Touched(s.regs, FlatOf(s.vm)) && p < |s.vm.entries| && !V.In(s.vm, p) && V.In(h.vm, p)
            && h.vm.lru != [] && h.vm.lru[0] == p
    ensures s.vm.lru != [] && V.In(s.vm, s.vm.lru[0]) ==> V.In(Handled(s).vm, s.vm.lru[0])
  {
    AttemptSimulates(s);
    var c := Attempt(s).cpu;
    var bad := c.regs[BAD_VADDR];
    BadAddress(s.vm, bad);
    var r := WithSpace(s.vm, c.space);
    assert MovesTo(s.vm, c.space);
    V.ServiceIsFlat(r, PageOf(bad));
    ServiceKeepsFirst(r, PageOf(bad));
  }

  /** Service puts the page at the head, and what was at the head stays in memory. */
  lemma ServiceKeepsFirst(vm: V.Vm, v: nat)
    requires V.VmOk(vm) && v < |vm.entries| && !V.In(vm, v)
    ensures var r := V.Service(vm, v);
            && r.lru != [] && r.lru[0] == v
            && (vm.lru != [] && V.In(vm, vm.lru[0]) ==> V.In(r, vm.lru[0]))
  {
    if V.B.CountClear(vm.used, NUM_PHYS_PAGES) == 0 {
      TwoVictims(vm);
    }
  }

  lemma TwoVictims(vm: V.Vm)
    requires V.VmOk(vm) && V.B.CountClear(vm.used, NUM_PHYS_PAGES) == 0
    ensures |vm.lru| >= 2
  {
    V.B.NoneClear(vm.used, NUM_PHYS_PAGES);
    assert V.Backed(vm, 0) && V.Backed(vm, 1);
    var v :| V.In(vm, v) && vm.entries[v].physicalPage == 0;
    var w :| V.In(vm, w) && vm.entries[w].physicalPage == 1;
    assert v in vm.lru && w in vm.lru && v != w;
  }

  /** The next instruction can be restarted although its pending load is applied early. */
  ghost predicate HazardFree(r: Registers, f: Flat)
    requires FlatOk(f)
  {
    FlatFetch(r, f).Loaded? ==> Restartable(Decode(Unsigned(FlatFetch(r, f).value)), r[LOAD_REG])
  }

  lemma RaiseKeepsTouched(r: Registers, f: Flat, bad: int)
    requires RegsOk(r) && FlatOk(f) && HazardFree(r, f)
    ensures Touched(Mips.Raised(r, bad), f) == Touched(r, f)
  {
    var q := Mips.Raised(r, bad);
    assert FlatFetch(q, f) == FlatFetch(r, f);
    if FlatFetch(r, f).Loaded? {
      var i := Decode(Unsigned(FlatFetch(r, f).value));
      SameAddress(r, i, bad);
    }
  }

  lemma SameAddress(r: Registers, i: Instr, bad: int)
    requires RegsOk(r) && InstrOk(i) && Restartable(i, r[LOAD_REG])
    ensures IsMemoryOp(i.op) ==> Effective(i, Fetched(Mips.Raised(r, bad), i)) == Effective(i, Fetched(r, i))
  {
    EarlyOperands(r, i, bad);
    if IsMemoryOp(i.op) {
      assert i.rs in Reads(i);
    }
  }

  /** The instruction is attempted again after each fault, up to two of them. */
  ghost function Settled(s: State): (r: State)
    requires StateOk(s)
    ensures StateOk(r)
  {
    if !Faulted(Attempt(s)) then s
    else
      HandledOk(s);
      var h := Handled(s);
      if !Faulted(Attempt(h)) then h
      else HandledOk(h); Handled(h)
  }

  /** Two are enough. */
  lemma TwoFaultsSuffice(s: State)
    requires StateOk(s) && HazardFree(s.regs, FlatOf(s.vm))
    ensures !Faulted(Attempt(Settled(s)))
    ensures FlatOf(Settled(s).vm) == FlatOf(s.vm)
    ensures var r := Settled(s); r == s || r.regs == Mips.Raised(s.regs, r.regs[BAD_VADDR])
  {
    if Faulted(Attempt(s)) {
      HandledOk(s);
      var h := Handled(s);
      if Faulted(Attempt(h)) {
        HandledOk(h);
        ThirdAttempt(s, h, Handled(h));
      }
    }
  }

  lemma ThirdAttempt(s: State, h: State, k: State)
    requires StateOk(s) && HazardFree(s.regs, FlatOf(s.vm)) && Faulted(Attempt(s)) && h == Handled(s)
    requires StateOk(h) && Faulted(Attempt(h)) && k == Handled(h) && StateOk(k)
    ensures !Faulted(Attempt(k)) && k.regs == Mips.Raised(s.regs, k.regs[BAD_VADDR]) && FlatOf(k.vm) == FlatOf(s.vm)
  {
    HandledOk(s);
    HandledOk(h);
    var f := FlatOf(s.vm);
    RaisedTwice(s.regs, h.regs[BAD_VADDR], k.regs[BAD_VADDR]);
    RaiseKeepsTouched(s.regs, f, h.regs[BAD_VADDR]);
    RaiseKeepsTouched(s.regs, f, k.regs[BAD_VADDR]);
    OnlyTwo(s.regs, f, PageOf(h.regs[BAD_VADDR]), PageOf(k.regs[BAD_VADDR]));
    NothingAbsent(k);
  }

  lemma OnlyTwo(r: Registers, f: Flat, p: nat, q: nat)
    requires FlatOk(f) && p in Touched(r, f) && q in Touched(r, f) && p != q
    ensures Touched(r, f) == {p, q}
  {
  }

  lemma NothingAbsent(s: State)
    requires StateOk(s) && forall p :: p in Touched(s.regs, FlatOf(s.vm)) ==> V.In(s.vm, p)
    ensures !Faulted(Attempt(s))
  {
    AttemptSimulates(s);
  }

  // ---------------------------------------------------------------- one instruction

  /** Outcomes that differ at most in BadVAddr still do when memory is left out. */
  lemma BareSame(o: Outcome, p: Outcome, vm: V.Vm)
    requires SameOutcome(o, p)
    ensures SameOutcome(Bare(o), Bare(p)) && VmAfter(vm, o) == VmAfter(vm, p) && (Faulted(o) <==> Faulted(p))
  {
  }

  lemma StillRestartable(r: Registers, vm: V.Vm)
    requires RegsOk(r) && V.VmOk(vm) && HazardFree(r, FlatOf(vm))
    ensures NextRestartable(Cpu(r, SpaceOf(vm)))
  {
    ReadSimulates(vm, r[PC], 4);
  }

  /** An instruction that can be restarted ends, after the page faults it takes, as it ends when the whole
      process is in memory. */
  lemma InstructionIsFlat(s: State)
    requires StateOk(s) && HazardFree(s.regs, FlatOf(s.vm))
    ensures var o, flat := Attempt(Settled(s)), FlatInstruction(s.regs, FlatOf(s.vm));
            && !Faulted(o) && SameOutcome(flat.0, Bare(o))
            && (!o.Aborted? ==> RegsOk(o.cpu.regs))
            && V.VmOk(VmAfter(Settled(s).vm, o)) && FlatOf(VmAfter(Settled(s).vm, o)) == flat.1
  {
    TwoFaultsSuffice(s);
    var r := Settled(s);
    AttemptSimulates(r);
    if r != s {
      var clean := State(s.regs, r.vm);
      AttemptSimulates(clean);
      StillRestartable(s.regs, r.vm);
      RaiseIsInvisible(Cpu(s.regs, SpaceOf(r.vm)), r.regs[BAD_VADDR]);
      BareSame(Attempt(clean), Attempt(r), r.vm);
    } else {
      SameAsItself(Bare(Attempt(s)));
    }
  }

  lemma SameAsItself(o: Outcome)
    ensures SameOutcome(o, o)
  {
  }

  // ---------------------------------------------------------------- whole programs

  /** How a program stands after n instructions: still going, stopped by an exception that is not a page
      fault, or stopped by an assertion of the simulator. */
  datatype Ending<+S> = Going(state: S) | Stopped(exc: Exception, state: S) | Crashed

  ghost function RunOf<S>(step: S -> Ending<S>, s: S, n: nat): Ending<S> {
    if n == 0 then Going(s)
    else match step(s)
      case Going(t) => RunOf(step, t, n - 1)
      case e => e
  }

  /** p holds at the start of each of the first n steps. */
  ghost predicate AllAlong<S>(step: S -> Ending<S>, p: S -> bool, s: S, n: nat) {
    n == 0 || (p(s) && match step(s)
                       case Going(t) => AllAlong(step, p, t, n - 1)
                       case _ => true)
  }

  ghost predicate EndAlike<S, T>(going: (S, T) -> bool, stopped: (S, T) -> bool, a: Ending<S>, b: Ending<T>) {
    match a
    case Going(s) => b.Going? && going(s, b.state)
    case Stopped(e, s) => b.Stopped? && b.exc == e && stopped(s, b.state)
    case Crashed => b.Crashed?
  }

  /** Machines whose steps agree where p holds have runs that agree. */
  lemma {:induction false} RunsAgree<S(!new), T(!new)>(f: S -> Ending<S>, g: T -> Ending<T>, p: T -> bool,
                                     going: (S, T) -> bool, stopped: (S, T) -> bool, s: S, t: T, n: nat)
    requires forall x, y :: going(x, y) && p(y) ==> EndAlike(going, stopped, f(x), g(y))
    requires going(s, t) && AllAlong(g, p, t, n)
    ensures EndAlike(going, stopped, RunOf(f, s, n), RunOf(g, t, n))
    decreases n
  {
    if n > 0 {
      assert EndAlike(going, stopped, f(s), g(t));
      if f(s).Going? {
        RunsAgree(f, g, p, going, stopped, f(s).state, g(t).state, n - 1);
      }
    }
  }

  /** One instruction under paging, with the page faults it takes. */
  ghost function PagedStep(s: State): Ending<State> {
    if !StateOk(s) then Crashed
    else
      var t := Settled(s);
      var o := Attempt(t);
      match o
      case Completed(c) => Going(State(c.regs, VmAfter(t.vm, o)))
      case Trapped(c, e) => Stopped(e, State(c.regs, VmAfter(t.vm, o)))
      case Aborted => Crashed
  }

  datatype FlatState = FlatState(regs: Registers, f: Flat)

  ghost predicate FlatStateOk(x: FlatState) { RegsOk(x.regs) && FlatOk(x.f) }

  ghost function FlatStep(x: FlatState): Ending<FlatState> {
    if !FlatStateOk(x) then Crashed
    else
      var (o, g) := FlatInstruction(x.regs, x.f);
      match o
      case Completed(c) => Going(FlatState(c.regs, g))
      case Trapped(c, e) => Stopped(e, FlatState(c.regs, g))
      case Aborted => Crashed
  }

  /** The effect holds machine words and names general registers. */
  predicate WordsOk(e: Effect) {
    match e
    case Raise(_, bad, _) => IsInt(bad)
    case Abort => true
    case Done(dest, value, hi, lo, pcAfter, loadReg, loadValue, _, _) =>
      dest < 32 && IsInt(value) && IsInt(hi) && IsInt(lo) && IsInt(pcAfter) && loadReg < 32 && IsInt(loadValue)
  }

  lemma WordsFinish(r: Registers, e: Effect)
    requires RegsOk(r) && WordsOk(e)
    ensures var o := Finished(r, [], e); !o.Aborted? ==> RegsOk(o.cpu.regs)
  {
  }

  lemma FlatEffectOk(i: Instr, x: Operands, f: Flat)
    requires FlatOk(f) && InstrOk(i) && OperandsOk(x)
    ensures FlatOk(FlatExecute(i, x, f).1)
    ensures WordsOk(FlatExecute(i, x, f).0)
  {
    var s := Space(seq(MEMORY_SIZE, _ => 0), NO_TABLE);
    if IsMemoryOp(i.op) {
      FlatAccessOk(i, x, f);
    } else if IsControl(i.op) {
      ControlOk(i, x, s);
      ControlErased(i, x, s);
    } else {
      ArithmeticOk(i, x, s);
      ArithmeticErased(i, x, s);
    }
  }

  lemma FlatAccessOk(i: Instr, x: Operands, f: Flat)
    requires FlatOk(f) && InstrOk(i) && OperandsOk(x) && IsMemoryOp(i.op)
    ensures FlatOk(FlatAccess(i, x, f).1)
    ensures WordsOk(FlatAccess(i, x, f).0)
  {
    if !IsStore(i.op) && FlatRead(f, Effective(i, x), SizeOf(i.op)).Loaded? {
      FlatReadIsInt(f, Effective(i, x), SizeOf(i.op));
      ShapedOk(i.op, FlatRead(f, Effective(i, x), SizeOf(i.op)).value, x.fwd);
    }
  }

  lemma FlatReadIsInt(f: Flat, va: int, size: int)
    requires FlatOk(f) && size in {1, 2, 4} && FlatRead(f, va, size).Loaded?
    ensures IsInt(FlatRead(f, va, size).value)
  {
    V.FitsPage(|f.rights|, Reading(va, size));
  }

  lemma FlatStepOk(r: Registers, f: Flat)
    requires FlatOk(f) && RegsOk(r)
    ensures var (o, g) := FlatInstruction(r, f); FlatOk(g) && (!o.Aborted? ==> RegsOk(o.cpu.regs))
  {
    if FlatFetch(r, f).Loaded? {
      var i := Decode(Unsigned(FlatFetch(r, f).value));
      FlatInstructed(r, f, i);
      FlatEffectOk(i, Fetched(r, i), f);
      WordsFinish(r, FlatExecute(i, Fetched(r, i), f).0);
    }
  }

  predicate SameRegs(r: Registers, q: Registers) { r[BAD_VADDR := 0] == q[BAD_VADDR := 0] }

  /** No instruction reads BadVAddr. */
  lemma BadIsIgnored(r: Registers, q: Registers, f: Flat)
    requires FlatOk(f) && RegsOk(r) && RegsOk(q) && SameRegs(r, q)
    ensures SameOutcome(FlatInstruction(r, f).0, FlatInstruction(q, f).0) && FlatInstruction(r, f).1 == FlatInstruction(q, f).1
    ensures HazardFree(r, f) <==> HazardFree(q, f)
  {
    assert forall k :: 0 <= k < NUM_REGS && k != BAD_VADDR ==> r[k] == r[BAD_VADDR := 0][k] && q[k] == q[BAD_VADDR := 0][k];
    assert FlatFetch(r, f) == FlatFetch(q, f);
    if FlatFetch(r, f).Loaded? {
      var i := Decode(Unsigned(FlatFetch(r, f).value));
      assert Fetched(r, i) == Fetched(q, i);
      BadFinish(r, q, FlatExecute(i, Fetched(r, i), f).0);
    } else {
      RaisedAlike(r, q, r[PC]);
    }
  }

  lemma RaisedAlike(r: Registers, q: Registers, bad: int)
    requires RegsOk(r) && RegsOk(q) && SameRegs(r, q)
    ensures Mips.Raised(r, bad) == Mips.Raised(q, bad)
  {
    assert r[BAD_VADDR := bad] == r[BAD_VADDR := 0][BAD_VADDR := bad];
    assert q[BAD_VADDR := bad] == q[BAD_VADDR := 0][BAD_VADDR := bad];
  }

  lemma BadFinish(r: Registers, q: Registers, e: Effect)
    requires RegsOk(r) && RegsOk(q) && SameRegs(r, q)
    ensures SameOutcome(Finished(r, [], e), Finished(q, [], e))
  {
    match e
    case Raise(_, bad, _) => RaisedAlike(r, q, bad);
    case Abort =>
    case Done(dest, value, hi, lo, pcAfter, loadReg, loadValue, _, _) =>
      if dest < 32 {
        RetiredAlike(r, q, dest, value, hi, lo, pcAfter, loadReg, loadValue);
      }
  }

  lemma RetiredAlike(r: Registers, q: Registers, dest: nat, value: int, hi: int, lo: int, pcAfter: int, loadReg: nat, loadValue: int)
    requires RegsOk(r) && RegsOk(q) && SameRegs(r, q) && dest < 32
    ensures SameRegs(Retire(r, dest, value, hi, lo, pcAfter, loadReg, loadValue),
                     Retire(q, dest, value, hi, lo, pcAfter, loadReg, loadValue))
  {
    assert forall k :: 0 <= k < NUM_REGS && k != BAD_VADDR ==> r[k] == r[BAD_VADDR := 0][k] && q[k] == q[BAD_VADDR := 0][k];
  }

  lemma SameChain(o: Outcome, p: Outcome, q: Outcome)
    requires SameOutcome(o, p) && SameOutcome(p, q)
    ensures SameOutcome(o, q)
  {
  }

  /** The program stands alike in both worlds; BadVAddr may differ while it runs. */
  ghost predicate GoesAlike(s: State, x: FlatState) {
    StateOk(s) && FlatStateOk(x) && SameRegs(x.regs, s.regs) && FlatOf(s.vm) == x.f
  }

  /** And when it has been stopped not even BadVAddr differs. */
  ghost predicate StopsAlike(s: State, x: FlatState) {
    StateOk(s) && x == FlatState(s.regs, FlatOf(s.vm))
  }

  ghost predicate NextHazardFree(x: FlatState) { FlatOk(x.f) && HazardFree(x.regs, x.f) }

  lemma OutcomesAlike(o: Outcome, v: V.Vm, p: Outcome)
    requires V.VmOk(v) && SameOutcome(p, Bare(o)) && (!o.Aborted? ==> RegsOk(o.cpu.regs) && RegsOk(p.cpu.regs))
    ensures o.Completed? ==> p.Completed? && GoesAlike(State(o.cpu.regs, v), FlatState(p.cpu.regs, FlatOf(v)))
    ensures o.Trapped? ==> p.Trapped? && p.exc == o.exc && StopsAlike(State(o.cpu.regs, v), FlatState(p.cpu.regs, FlatOf(v)))
    ensures o.Aborted? ==> p.Aborted?
  {
  }

  /** One step in both worlds. */
  lemma StepsAlike(s: State, x: FlatState)
    requires GoesAlike(s, x) && NextHazardFree(x)
    ensures EndAlike(GoesAlike, StopsAlike, PagedStep(s), FlatStep(x))
  {
    BadIsIgnored(x.regs, s.regs, x.f);
    InstructionIsFlat(s);
    FlatStepOk(x.regs, x.f);
    var o, p := Attempt(Settled(s)), FlatInstruction(x.regs, x.f).0;
    SameChain(p, FlatInstruction(s.regs, x.f).0, Bare(o));
    OutcomesAlike(o, VmAfter(Settled(s).vm, o), p);
  }

  /** Demand paging is invisible to every program whose instructions can be restarted, however small physical
      memory is: after any number of instructions it has the general registers, HI, LO, program counters,
      pending load and memory, or is stopped by the same exception, as if all of it were in memory. */
  lemma ProgramsSeeOneMemory(s: State, n: nat)
    requires StateOk(s) && AllAlong(FlatStep, NextHazardFree, FlatState(s.regs, FlatOf(s.vm)), n)
    ensures EndAlike(GoesAlike, StopsAlike, RunOf(PagedStep, s, n), RunOf(FlatStep, FlatState(s.regs, FlatOf(s.vm)), n))
  {
    forall y, x | GoesAlike(y, x) && NextHazardFree(x)
      ensures EndAlike(GoesAlike, StopsAlike, PagedStep(y), FlatStep(x))
    {
      StepsAlike(y, x);
    }
    RunsAgree(PagedStep, FlatStep, NextHazardFree, GoesAlike, StopsAlike, s, FlatState(s.regs, FlatOf(s.vm)), n);
  }
}
