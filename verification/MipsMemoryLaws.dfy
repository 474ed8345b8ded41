/** What loads, stores and the instruction fetch of the simulator (mipssim.cc) leave, in bytes. */
module MipsMemoryLaws {
  import opened Words
  import opened Memory
  import opened Mips
  import opened MipsLaws
  import A = Assembler

  /** Byte k of a word. */
  function ByteOf(v: int, k: nat): int {
    if k == 0 then v % 256 else if k == 1 then v / 256 % 256 else if k == 2 then v / 0x1_0000 % 256 else v / 0x100_0000 % 256
  }

  function Width(op: Op): (n: int)
    ensures n in {1, 2, 4}
  {
    match op
    case LB => 1 case LBU => 1 case SB => 1
    case LH => 2 case LHU => 2 case SH => 2
    case _ => 4
  }

  lemma WidthIs(op: Op)
    ensures Width(op) == SizeOf(op)
  {
  }

  /** The instruction goes on in sequence, in the memory s, and makes v the pending load of register d. */
  ghost predicate Leaves(r: Registers, o: Outcome, s: Space, d: nat, v: int) {
    exists next :: Wraps(next, r[35] + 4) && Ends(r, o, s, 0, 0, r[32], r[33], next, d, v)
  }

  /** The outcome of a memory instruction with this effect. */
  ghost predicate EndsAs(r: Registers, s: Space, e: Effect, o: Outcome) {
    && (e.Raise? ==> Stops(r, o, Space(s.mem, e.rtable), e.exc, e.bad))
    && (e.Done? ==> Leaves(r, o, Space(e.mem, e.table), e.loadReg, e.loadValue))
  }

  lemma AccessEnds(r: Registers, s: Space, e: Effect) returns (o: Outcome)
    requires RegsOk(r)
    requires e.Done? ==> e == Done(0, 0, r[HI], r[LO], Int(r[NEXT_PC] + 4), e.loadReg, e.loadValue, e.mem, e.table)
    ensures o == Finished(r, s.mem, e) && EndsAs(r, s, e, o)
  {
    o := Finished(r, s.mem, e);
    if e.Raise? {
      RaiseStops(r, s.mem, e.exc, e.bad, e.rtable);
    } else if e.Done? {
      IntWraps(r[NEXT_PC] + 4);
      DoneEnds(r, s.mem, 0, 0, e.hi, e.lo, e.pcAfter, e.loadReg, e.loadValue, Space(e.mem, e.table));
    }
  }

  // ---------------------------------------------------------------- loads

  /** What a load makes of the bytes it reads, lowest first. */
  ghost predicate LoadLaw(op: Op, b: seq<Byte>, v: int)
    requires op in {LB, LBU, LH, LHU, LW, LWL} && |b| == Width(op)
  {
    if op == LB then v == if b[0] < 128 then Val(b[0]) else Val(b[0]) - 256
    else if op == LBU then v == Val(b[0])
    else if op == LH then v == Val(b[0]) + 256 * Val(b[1]) - if b[1] < 128 then 0 else 0x1_0000
    else if op == LHU then v == Val(b[0]) + 256 * Val(b[1])
    else Wraps(v, Val(b[0]) + 0x100 * Val(b[1]) + 0x1_0000 * Val(b[2]) + 0x100_0000 * Val(b[3]))
  }

  lemma LoadObeys(op: Op, b: seq<Byte>, fwd: int)
    requires op in {LB, LBU, LH, LHU, LW, LWL} && |b| == Width(op)
    ensures LoadLaw(op, b, Shaped(op, LoadValue(b), fwd))
  {
    if op in {LW, LWL} {
      FromFour(b);
      IntWraps(FromBytes(b));
    } else if op in {LH, LHU} {
      HalfWord(Val(b[0]), Val(b[1]));
    }
  }

  lemma HalfWord(x: int, y: int)
    requires 0 <= x < 256 && 0 <= y < 256
    ensures (x + 256 * y) % 0x1_0000 == x + 256 * y && (x + 256 * y >= 0x8000 <==> y >= 128)
  {
  }

  /** The outcome of a load from addr: the exception of an address that cannot be read, or v, the value of the
      bytes there, as the pending load of register d. */
  ghost predicate LoadsTo(r: Registers, op: Op, d: nat, s: Space, o: Outcome, addr: int, v: int)
    requires op in {LB, LBU, LH, LHU, LW}
  {
    match Translate(s.table, addr, Width(op), false)
    case Fault(exc) => Stops(r, o, s, exc, addr)
    case Address(p, t) =>
      p + Width(op) <= |s.mem| && LoadLaw(op, s.mem[p..p + Width(op)], v) && Leaves(r, o, Space(s.mem, t), d, v)
  }

  /** LB, LBU, LH, LHU and LW. */
  lemma LoadInstructions(r: Registers, i: Instr, s: Space) returns (addr: int, v: int)
    requires RegsOk(r) && InstrOk(i) && SpaceOk(s) && i.op in {LB, LBU, LH, LHU, LW}
    ensures Wraps(addr, r[i.rs] + i.extra) && LoadsTo(r, i.op, i.rt, s, Run(r, i, s), addr, v)
  {
    addr := Int(r[i.rs] + i.extra);
    IntWraps(r[i.rs] + i.extra);
    var l := ReadMem(s.mem, s.table, addr, SizeOf(i.op));
    var e, o := LoadOutcome(r, i, s, l, addr);
    v := if e.Done? then e.loadValue else 0;
    LoadDoneLaw(r, i, s, l, e, o, addr, v);
  }

  lemma LoadOutcome(r: Registers, i: Instr, s: Space, l: Load, addr: int) returns (e: Effect, o: Outcome)
    requires RegsOk(r) && InstrOk(i) && SpaceOk(s) && i.op in {LB, LBU, LH, LHU, LW} && addr == Int(r[i.rs] + i.extra)
    requires l == ReadMem(s.mem, s.table, addr, SizeOf(i.op))
    ensures o == Run(r, i, s) && EndsAs(r, s, e, o)
    ensures e == LoadDone(l, i, addr, r[HI], r[LO], r[NEXT_PC], 0, s)
  {
    e := LoadDone(l, i, addr, r[HI], r[LO], r[NEXT_PC], 0, s);
    o := AccessEnds(r, s, e);
    LoadIsRun(r, i, s, l, addr, e);
  }

  lemma LoadIsRun(r: Registers, i: Instr, s: Space, l: Load, addr: int, e: Effect)
    requires RegsOk(r) && InstrOk(i) && SpaceOk(s) && PlainLoad(i.op) && addr == Int(r[i.rs] + i.extra)
    requires l == ReadMem(s.mem, s.table, addr, SizeOf(i.op))
    requires e == LoadDone(l, i, addr, r[HI], r[LO], r[NEXT_PC], 0, s)
    ensures Run(r, i, s) == Finished(r, s.mem, e)
  {
    PlainLoadIsLoad(i, Fetched(r, i), s);
  }

  lemma LoadDoneLaw(r: Registers, i: Instr, s: Space, l: Load, e: Effect, o: Outcome, addr: int, v: int)
    requires SpaceOk(s) && i.op in {LB, LBU, LH, LHU, LW} && l == ReadMem(s.mem, s.table, addr, SizeOf(i.op))
    requires e == LoadDone(l, i, addr, r[HI], r[LO], r[NEXT_PC], 0, s) && EndsAs(r, s, e, o) && (e.Done? ==> v == e.loadValue)
    ensures LoadsTo(r, i.op, i.rt, s, o, addr, v)
  {
    WidthIs(i.op);
    if l.Loaded? {
      PhysicalBound(s.table, addr, Width(i.op), false);
      var p := Translate(s.table, addr, Width(i.op), false).phys;
      LoadObeys(i.op, s.mem[p..p + Width(i.op)], 0);
    }
  }

  // ---------------------------------------------------------------- stores

  /** m is mem with n bytes of v at p, lowest first. */
  ghost predicate StoreLaw(mem: seq<Byte>, p: nat, n: nat, v: int, m: seq<Byte>) {
    && |m| == |mem|
    && forall j :: 0 <= j < |mem| ==> m[j] == if p <= j < p + n then ByteOf(v, j - p) else Val(mem[j])
  }

  lemma BytesAre(v: int, n: int, k: nat)
    requires n in {1, 2, 4} && k < n
    ensures Val(Bytes(v, n)[k]) == ByteOf(v, k)
  {
    ByteAtPlace(v, n, k);
    assert v / 256 / 256 == v / 0x1_0000 && v / 256 / 256 / 256 == v / 0x100_0000;
  }

  lemma ByteAtPlace(v: int, n: nat, k: nat)
    requires k < n <= 4
    ensures Val(Bytes(v, n)[k])
            == (if k == 0 then v else if k == 1 then v / 256 else if k == 2 then v / 256 / 256 else v / 256 / 256 / 256) % 256
    decreases k
  {
    if k > 0 {
      ByteAtPlace(v / 256, n - 1, k - 1);
    }
  }

  lemma SpliceObeys(mem: seq<Byte>, p: nat, n: int, v: int)
    requires n in {1, 2, 4} && p + n <= |mem|
    ensures StoreLaw(mem, p, n, v, Splice(mem, p, Bytes(v, n)))
  {
    forall k | 0 <= k < n
      ensures Val(Bytes(v, n)[k]) == ByteOf(v, k)
    {
      BytesAre(v, n, k);
    }
  }

  /** The outcome of a store of n bytes of v to addr: the exception of an address that cannot be written, or m,
      memory with those bytes there and no other byte changed. */
  ghost predicate StoresTo(r: Registers, n: int, v: int, s: Space, o: Outcome, addr: int, m: seq<Byte>) {
    match Translate(s.table, addr, n, true)
    case Fault(exc) => Stops(r, o, s, exc, addr)
    case Address(p, t) => n >= 0 && StoreLaw(s.mem, p, n, v, m) && Leaves(r, o, Space(m, t), 0, 0)
  }

  /** SB, SH and SW. */
  lemma StoreInstructions(r: Registers, i: Instr, s: Space) returns (addr: int, m: seq<Byte>)
    requires RegsOk(r) && InstrOk(i) && SpaceOk(s) && i.op in {SB, SH, SW}
    ensures Wraps(addr, r[i.rs] + i.extra) && StoresTo(r, Width(i.op), r[i.rt], s, Run(r, i, s), addr, m)
  {
    addr := Int(r[i.rs] + i.extra);
    IntWraps(r[i.rs] + i.extra);
    WidthIs(i.op);
    var st := WriteMem(s.mem, s.table, addr, SizeOf(i.op), r[i.rt]);
    var e, o := StoreOutcome(r, i, s, st, addr);
    m := if e.Done? then e.mem else s.mem;
    StoreDoneLaw(r, Width(i.op), r[i.rt], s, st, e, o, addr, m);
  }

  lemma StoreOutcome(r: Registers, i: Instr, s: Space, st: Memory.Store, addr: int) returns (e: Effect, o: Outcome)
    requires RegsOk(r) && InstrOk(i) && SpaceOk(s) && i.op in {SB, SH, SW} && addr == Int(r[i.rs] + i.extra)
    requires st == WriteMem(s.mem, s.table, addr, SizeOf(i.op), r[i.rt])
    ensures o == Run(r, i, s) && EndsAs(r, s, e, o)
    ensures e == StoreDone(st, addr, r[HI], r[LO], r[NEXT_PC], s)
  {
    e := StoreDone(st, addr, r[HI], r[LO], r[NEXT_PC], s);
    o := AccessEnds(r, s, e);
    StoreIsRun(r, i, s, st, addr, e);
  }

  lemma StoreIsRun(r: Registers, i: Instr, s: Space, st: Memory.Store, addr: int, e: Effect)
    requires RegsOk(r) && InstrOk(i) && SpaceOk(s) && PlainStore(i.op) && addr == Int(r[i.rs] + i.extra)
    requires st == WriteMem(s.mem, s.table, addr, SizeOf(i.op), r[i.rt])
    requires e == StoreDone(st, addr, r[HI], r[LO], r[NEXT_PC], s)
    ensures Run(r, i, s) == Finished(r, s.mem, e)
  {
    PlainStoreIsStore(i, Fetched(r, i), s);
  }

  lemma StoreDoneLaw(r: Registers, n: int, v: int, s: Space, st: Memory.Store, e: Effect, o: Outcome, addr: int, m: seq<Byte>)
    requires SpaceOk(s) && n in {1, 2, 4} && st == WriteMem(s.mem, s.table, addr, n, v)
    requires e == StoreDone(st, addr, r[HI], r[LO], r[NEXT_PC], s) && EndsAs(r, s, e, o) && (e.Done? ==> m == e.mem)
    ensures StoresTo(r, n, v, s, o, addr, m)
  {
    if st.Stored? {
      PhysicalBound(s.table, addr, n, true);
      SpliceObeys(s.mem, Translate(s.table, addr, n, true).phys, n, v);
    }
  }

  // ---------------------------------------------------------------- unaligned words

  /** LWL, LWR, SWL and SWR at an address that is not a multiple of four fail an assertion of the simulator. */
  lemma UnalignedAborts(r: Registers, i: Instr, s: Space, addr: int)
    requires RegsOk(r) && InstrOk(i) && SpaceOk(s) && i.op in {LWL, LWR, SWL, SWR}
    requires Wraps(addr, r[i.rs] + i.extra) && addr % 4 != 0
    ensures Run(r, i, s) == Aborted
  {
    IntWraps(r[i.rs] + i.extra);
    WrapsOnce(addr, Int(r[i.rs] + i.extra), r[i.rs] + i.extra);
    AbortEffect(i, Fetched(r, i), s);
  }

  lemma AbortEffect(i: Instr, x: Operands, s: Space)
    requires InstrOk(i) && SpaceOk(s) && i.op in {LWL, LWR, SWL, SWR} && Int(x.a + i.extra) % 4 != 0
    ensures Execute(i, x, s) == Abort
  {
    ExecuteIsAccess(i, x, s);
    Unsupports(i.op, Effective(i, x));
  }

  lemma ExecuteIsAccess(i: Instr, x: Operands, s: Space)
    requires InstrOk(i) && SpaceOk(s) && IsMemoryOp(i.op)
    ensures Execute(i, x, s) == Access(i, x, s)
  {
  }

  lemma Unsupports(op: Op, addr: int)
    requires op in {LWL, LWR, SWL, SWR}
    ensures AlignmentOf(op, addr) == if addr % 4 != 0 then Unsupported else Fine
  {
  }

  /** The outcome of LWL or LWR: LWL loads the word, and LWR puts its highest byte in place of the lowest byte of
      what register d holds or is about to hold. */
  ghost predicate UnalignedLoadsTo(r: Registers, op: Op, d: nat, s: Space, o: Outcome, addr: int, v: int)
    requires d < 32
  {
    match Translate(s.table, addr, 4, false)
    case Fault(exc) => Stops(r, o, s, exc, addr)
    case Address(p, t) =>
      && p + 4 <= |s.mem| && Leaves(r, o, Space(s.mem, t), d, v)
      && if op == LWL then LoadLaw(LW, s.mem[p..p + 4], v)
         else var before := if r[37] == d then r[38] else r[d];
              IsInt(v) && Raw(v) == Raw(before) - Raw(before) % 256 + Val(s.mem[p + 3])
  }

  lemma UnalignedLoads(r: Registers, i: Instr, s: Space) returns (addr: int, v: int)
    requires RegsOk(r) && InstrOk(i) && SpaceOk(s) && i.op in {LWL, LWR} && (r[i.rs] + i.extra) % 4 == 0
    ensures Wraps(addr, r[i.rs] + i.extra) && UnalignedLoadsTo(r, i.op, i.rt, s, Run(r, i, s), addr, v)
  {
    addr := Int(r[i.rs] + i.extra);
    IntWraps(r[i.rs] + i.extra);
    SameLowBits4(addr, r[i.rs] + i.extra);
    var l := ReadMem(s.mem, s.table, addr, 4);
    var e, o := UnalignedLoadOutcome(r, i, s, l, addr);
    v := if e.Done? then e.loadValue else 0;
    UnalignedLoadLaw(r, i, s, l, e, o, addr, v);
  }

  lemma SameLowBits4(v: int, x: int)
    requires Wraps(v, x)
    ensures v % 4 == x % 4
  {
    var q := (v - x) / 0x1_0000_0000;
    assert v == x + 4 * (0x4000_0000 * q);
  }

  lemma UnalignedLoadOutcome(r: Registers, i: Instr, s: Space, l: Load, addr: int) returns (e: Effect, o: Outcome)
    requires RegsOk(r) && InstrOk(i) && SpaceOk(s) && i.op in {LWL, LWR} && addr == Int(r[i.rs] + i.extra) && addr % 4 == 0
    requires l == ReadMem(s.mem, s.table, addr, 4)
    ensures o == Run(r, i, s) && EndsAs(r, s, e, o)
    ensures e == LoadDone(l, i, addr, r[HI], r[LO], r[NEXT_PC], Forwarded(r, i.rt), s)
  {
    e := LoadDone(l, i, addr, r[HI], r[LO], r[NEXT_PC], Forwarded(r, i.rt), s);
    o := AccessEnds(r, s, e);
    UnalignedLoadIsRun(r, i, s, l, addr, e);
  }

  lemma UnalignedLoadIsRun(r: Registers, i: Instr, s: Space, l: Load, addr: int, e: Effect)
    requires RegsOk(r) && InstrOk(i) && SpaceOk(s) && i.op in {LWL, LWR} && addr == Int(r[i.rs] + i.extra) && addr % 4 == 0
    requires l == ReadMem(s.mem, s.table, addr, 4)
    requires e == LoadDone(l, i, addr, r[HI], r[LO], r[NEXT_PC], Forwarded(r, i.rt), s)
    ensures Run(r, i, s) == Finished(r, s.mem, e)
  {
    MemoryKinds(i.op);
    LoadRun(r, i, s, Fetched(r, i), e);
  }

  lemma LoadRun(r: Registers, i: Instr, s: Space, x: Operands, e: Effect)
    requires RegsOk(r) && InstrOk(i) && SpaceOk(s) && x == Fetched(r, i) && IsMemoryOp(i.op) && i.op in {LWL, LWR}
    requires Effective(i, x) % 4 == 0 && e == LoadOf(i, x, s, 4)
    ensures Run(r, i, s) == Finished(r, s.mem, e)
  {
    AccessIsLoad(i, x, s);
    AccessRun(r, i, s, x, e);
  }

  lemma AccessIsLoad(i: Instr, x: Operands, s: Space)
    requires SpaceOk(s) && IsMemoryOp(i.op) && i.op in {LWL, LWR} && Effective(i, x) % 4 == 0
    ensures Access(i, x, s) == LoadOf(i, x, s, 4)
  {
    Unsupports(i.op, Effective(i, x));
  }

  lemma UnalignedLoadLaw(r: Registers, i: Instr, s: Space, l: Load, e: Effect, o: Outcome, addr: int, v: int)
    requires RegsOk(r) && SpaceOk(s) && i.op in {LWL, LWR} && i.rt < 32 && l == ReadMem(s.mem, s.table, addr, 4)
    requires e == LoadDone(l, i, addr, r[HI], r[LO], r[NEXT_PC], Forwarded(r, i.rt), s) && EndsAs(r, s, e, o)
    requires e.Done? ==> v == e.loadValue
    ensures UnalignedLoadsTo(r, i.op, i.rt, s, o, addr, v)
  {
    if l.Loaded? {
      PhysicalBound(s.table, addr, 4, false);
      var p := Translate(s.table, addr, 4, false).phys;
      UnalignedValue(i.op, s.mem[p..p + 4], Forwarded(r, i.rt), v);
    }
  }

  lemma UnalignedValue(op: Op, b: seq<Byte>, fwd: int, v: int)
    requires op in {LWL, LWR} && |b| == 4 && IsInt(fwd) && v == Shaped(op, LoadValue(b), fwd)
    ensures if op == LWL then LoadLaw(LW, b, v) else IsInt(v) && Raw(v) == Raw(fwd) - Raw(fwd) % 256 + Val(b[3])
  {
    if op == LWL {
      LoadObeys(LWL, b, fwd);
    } else {
      TopByte(b, fwd);
    }
  }

  lemma TopByte(b: seq<Byte>, fwd: int)
    requires |b| == 4 && IsInt(fwd)
    ensures var v := Shaped(LWR, LoadValue(b), fwd);
            IsInt(v) && Raw(v) == Raw(fwd) - Raw(fwd) % 256 + Val(b[3])
  {
    FromFour(b);
    HighByte(Val(b[0]), Val(b[1]), Val(b[2]), Val(b[3]));
    LowByteReplaced(Unsigned(fwd), Val(b[3]));
    RawIs(fwd);
    RawIs(Int(Unsigned(fwd) - Unsigned(fwd) % 256 + Val(b[3])));
  }

  lemma HighByte(b0: int, b1: int, b2: int, b3: int)
    requires 0 <= b0 < 256 && 0 <= b1 < 256 && 0 <= b2 < 256 && 0 <= b3 < 256
    ensures var w := b0 + 0x100 * b1 + 0x1_0000 * b2 + 0x100_0000 * b3; Unsigned(Int(w)) / 0x100_0000 == b3
  {
    var w := b0 + 0x100 * b1 + 0x1_0000 * b2 + 0x100_0000 * b3;
    assert IsUnsigned(w);
  }

  lemma LowByteReplaced(u: int, c: int)
    requires IsUnsigned(u) && 0 <= c < 256
    ensures IsUnsigned(u - u % 256 + c) && Unsigned(Int(u - u % 256 + c)) == u - u % 256 + c
  {
    var h := u / 256;
    assert u - u % 256 == 256 * h && h < 0x100_0000;
  }

  /** SWL stores the word of rt, and SWR its lowest byte in place of the highest byte of the word there; both read
      the word first, so that an address that cannot be read counts before one that cannot be written. */
  ghost predicate UnalignedStoresTo(r: Registers, op: Op, v: int, s: Space, o: Outcome, addr: int, m: seq<Byte>) {
    match Translate(s.table, addr, 4, false)
    case Fault(exc) => Stops(r, o, s, exc, addr)
    case Address(p, t) =>
      match Translate(t, addr, 4, true)
      case Fault(exc) => Stops(r, o, Space(s.mem, t), exc, addr)
      case Address(_, u) =>
        && Leaves(r, o, Space(m, u), 0, 0)
        && if op == SWL then StoreLaw(s.mem, p, 4, v, m) else StoreLaw(s.mem, p + 3, 1, v, m)
  }

  lemma UnalignedStores(r: Registers, i: Instr, s: Space) returns (addr: int, m: seq<Byte>)
    requires RegsOk(r) && InstrOk(i) && SpaceOk(s) && i.op in {SWL, SWR} && (r[i.rs] + i.extra) % 4 == 0
    ensures Wraps(addr, r[i.rs] + i.extra) && UnalignedStoresTo(r, i.op, r[i.rt], s, Run(r, i, s), addr, m)
  {
    addr := Int(r[i.rs] + i.extra);
    IntWraps(r[i.rs] + i.extra);
    SameLowBits4(addr, r[i.rs] + i.extra);
    var l := ReadMem(s.mem, s.table, addr, 4);
    var e, o := UnalignedStoreOutcome(r, i, s, l, addr);
    m := if e.Done? then e.mem else s.mem;
    UnalignedStoreLaw(r, i.op, r[i.rt], s, l, e, o, addr, m);
  }

  /** The effect of SWL or SWR by what the read gave. */
  function MergedDone(l: Load, op: Op, b: int, addr: int, hi: int, lo: int, next: int, s: Space): Effect
    requires SpaceOk(s)
  {
    match l
    case LoadFault(e) => Raise(e, addr, s.table)
    case Loaded(v, t) => StoreDone(WriteMem(s.mem, t, addr, 4, MergedWord(op, v, b)), addr, hi, lo, next, Space(s.mem, t))
  }

  lemma UnalignedStoreOutcome(r: Registers, i: Instr, s: Space, l: Load, addr: int) returns (e: Effect, o: Outcome)
    requires RegsOk(r) && InstrOk(i) && SpaceOk(s) && i.op in {SWL, SWR} && addr == Int(r[i.rs] + i.extra) && addr % 4 == 0
    requires l == ReadMem(s.mem, s.table, addr, 4)
    ensures o == Run(r, i, s) && EndsAs(r, s, e, o)
    ensures e == MergedDone(l, i.op, r[i.rt], addr, r[HI], r[LO], r[NEXT_PC], s)
  {
    e := MergedDone(l, i.op, r[i.rt], addr, r[HI], r[LO], r[NEXT_PC], s);
    o := AccessEnds(r, s, e);
    UnalignedStoreIsRun(r, i, s, l, addr, e);
  }

  lemma AccessRun(r: Registers, i: Instr, s: Space, x: Operands, e: Effect)
    requires RegsOk(r) && InstrOk(i) && SpaceOk(s) && x == Fetched(r, i) && IsMemoryOp(i.op) && e == Access(i, x, s)
    ensures Run(r, i, s) == Finished(r, s.mem, e)
  {
    ExecuteIsAccess(i, x, s);
  }

  lemma UnalignedStoreIsRun(r: Registers, i: Instr, s: Space, l: Load, addr: int, e: Effect)
    requires RegsOk(r) && InstrOk(i) && SpaceOk(s) && i.op in {SWL, SWR} && addr == Int(r[i.rs] + i.extra) && addr % 4 == 0
    requires l == ReadMem(s.mem, s.table, addr, 4) && e == MergedDone(l, i.op, r[i.rt], addr, r[HI], r[LO], r[NEXT_PC], s)
    ensures Run(r, i, s) == Finished(r, s.mem, e)
  {
    MemoryKinds(i.op);
    var x := Fetched(r, i);
    MergeIs(i, x, s, l, addr, e);
    MergeRun(r, i, s, x, e);
  }

  lemma MemoryKinds(op: Op)
    requires op in {LWL, LWR, SWL, SWR}
    ensures IsMemoryOp(op) && (IsStore(op) <==> op in {SWL, SWR})
  {
  }

  lemma MergeRun(r: Registers, i: Instr, s: Space, x: Operands, e: Effect)
    requires RegsOk(r) && InstrOk(i) && SpaceOk(s) && x == Fetched(r, i) && IsMemoryOp(i.op) && i.op in {SWL, SWR}
    requires Effective(i, x) % 4 == 0 && e == Merge(i, x, s)
    ensures Run(r, i, s) == Finished(r, s.mem, e)
  {
    AccessIsMerge(i, x, s);
    AccessRun(r, i, s, x, e);
  }

  lemma AccessIsMerge(i: Instr, x: Operands, s: Space)
    requires SpaceOk(s) && IsMemoryOp(i.op) && i.op in {SWL, SWR} && Effective(i, x) % 4 == 0
    ensures Access(i, x, s) == Merge(i, x, s)
  {
    Unsupports(i.op, Effective(i, x));
  }

  lemma MergeIs(i: Instr, x: Operands, s: Space, l: Load, addr: int, e: Effect)
    requires SpaceOk(s) && addr == Int(x.a + i.extra) && l == ReadMem(s.mem, s.table, addr, 4)
    requires e == MergedDone(l, i.op, x.b, addr, x.hi, x.lo, x.next, s)
    ensures Merge(i, x, s) == e
  {
    MergedIs(l, i, x, s, addr);
  }

  lemma MergedIs(l: Load, i: Instr, x: Operands, s: Space, addr: int)
    requires SpaceOk(s) && addr == Effective(i, x)
    ensures Merged(l, i, x, s) == MergedDone(l, i.op, x.b, addr, x.hi, x.lo, x.next, s)
  {
    match l
    case LoadFault(_) =>
    case Loaded(v, t) => StoreOfIs(i, x, Space(s.mem, t), MergedWord(i.op, v, x.b), addr);
  }

  lemma StoreOfIs(i: Instr, x: Operands, s: Space, v: int, addr: int)
    requires SpaceOk(s) && addr == Effective(i, x)
    ensures StoreOf(i, x, s, 4, v) == StoreDone(WriteMem(s.mem, s.table, addr, 4, v), addr, x.hi, x.lo, x.next, s)
  {
  }

  lemma UnalignedStoreLaw(r: Registers, op: Op, b: int, s: Space, l: Load, e: Effect, o: Outcome, addr: int, m: seq<Byte>)
    requires SpaceOk(s) && op in {SWL, SWR} && l == ReadMem(s.mem, s.table, addr, 4)
    requires e == MergedDone(l, op, b, addr, r[HI], r[LO], r[NEXT_PC], s) && EndsAs(r, s, e, o)
    requires e.Done? ==> m == e.mem
    ensures UnalignedStoresTo(r, op, b, s, o, addr, m)
  {
    if l.Loaded? {
      PhysicalBound(s.table, addr, 4, false);
      TranslateAgain(s.table, addr, 4, false, addr, 4, true);
      var p := Translate(s.table, addr, 4, false).phys;
      if Translate(l.table, addr, 4, true).Address? {
        SamePlace(s.table, addr);
        MergedBytes(s.mem, p, op, b);
      }
    }
  }

  lemma SamePlace(t: Table, addr: int)
    requires Translate(t, addr, 4, false).Address?
    requires Translate(Translate(t, addr, 4, false).table, addr, 4, true).Address?
    ensures Translate(Translate(t, addr, 4, false).table, addr, 4, true).phys == Translate(t, addr, 4, false).phys
  {
    TranslateAgain(t, addr, 4, false, addr, 4, true);
    assert Translate(t, addr, 4, true).Address?;
  }

  lemma MergedBytes(mem: seq<Byte>, p: nat, op: Op, b: int)
    requires op in {SWL, SWR} && p + 4 <= |mem|
    ensures var m := Splice(mem, p, Bytes(MergedWord(op, LoadValue(mem[p..p + 4]), b), 4));
            if op == SWL then StoreLaw(mem, p, 4, b, m) else StoreLaw(mem, p + 3, 1, b, m)
  {
    var w := MergedWord(op, LoadValue(mem[p..p + 4]), b);
    SpliceObeys(mem, p, 4, w);
    if op == SWR {
      LastByte(mem[p..p + 4], b);
      OnlyTheLast(mem, p, w, b, Splice(mem, p, Bytes(w, 4)));
    }
  }

  lemma LastByte(c: seq<Byte>, b: int)
    requires |c| == 4
    ensures var w := MergedWord(SWR, LoadValue(c), b);
            ByteOf(w, 0) == Val(c[0]) && ByteOf(w, 1) == Val(c[1]) && ByteOf(w, 2) == Val(c[2]) && ByteOf(w, 3) == b % 256
  {
    FromFour(c);
    assert LoadValue(c) == Int(FromBytes(c));
    ThreeKept(Val(c[0]), Val(c[1]), Val(c[2]), Val(c[3]), b, LoadValue(c), MergedWord(SWR, LoadValue(c), b));
  }

  lemma OnlyTheLast(mem: seq<Byte>, p: nat, w: int, b: int, m: seq<Byte>)
    requires p + 4 <= |mem| && StoreLaw(mem, p, 4, w, m)
    requires ByteOf(w, 0) == Val(mem[p]) && ByteOf(w, 1) == Val(mem[p + 1]) && ByteOf(w, 2) == Val(mem[p + 2])
    requires ByteOf(w, 3) == b % 256
    ensures StoreLaw(mem, p + 3, 1, b, m)
  {
    forall j | 0 <= j < |mem|
      ensures m[j] == if p + 3 <= j < p + 4 then ByteOf(b, j - (p + 3)) else Val(mem[j])
    {
      assert j == p || j == p + 1 || j == p + 2 || j == p + 3 || !(p <= j < p + 4);
    }
  }

  lemma ThreeKept(c0: int, c1: int, c2: int, c3: int, b: int, v: int, w: int)
    requires 0 <= c0 < 256 && 0 <= c1 < 256 && 0 <= c2 < 256 && 0 <= c3 < 256
    requires v == Int(c0 + 0x100 * c1 + 0x1_0000 * c2 + 0x100_0000 * c3) && w == Int(v % 0x100_0000 + b % 256 * 0x100_0000)
    ensures ByteOf(w, 0) == c0 && ByteOf(w, 1) == c1 && ByteOf(w, 2) == c2 && ByteOf(w, 3) == b % 256
  {
    LowThree(c0 + 0x100 * c1 + 0x1_0000 * c2, c3);
    WordBytes(c0, c1, c2, b % 256);
  }

  lemma LowThree(u: int, c: int)
    requires 0 <= u < 0x100_0000 && 0 <= c < 256
    ensures Int(u + 0x100_0000 * c) % 0x100_0000 == u
  {
    var d := if c < 128 then c else c - 256;
    assert Int(u + 0x100_0000 * c) == u + 0x100_0000 * d;
  }

  lemma WordBytes(c0: int, c1: int, c2: int, c3: int)
    requires 0 <= c0 < 256 && 0 <= c1 < 256 && 0 <= c2 < 256 && 0 <= c3 < 256
    ensures var w := Int(c0 + 0x100 * c1 + 0x1_0000 * c2 + 0x100_0000 * c3);
            ByteOf(w, 0) == c0 && ByteOf(w, 1) == c1 && ByteOf(w, 2) == c2 && ByteOf(w, 3) == c3
  {
    var w := Int(c0 + 0x100 * c1 + 0x1_0000 * c2 + 0x100_0000 * c3);
    var d := if c3 < 128 then c3 else c3 - 256;
    assert w == c0 + 0x100 * c1 + 0x1_0000 * c2 + 0x100_0000 * d;
    assert w / 0x100 == c1 + 0x100 * c2 + 0x1_0000 * d && w / 0x1_0000 == c2 + 0x100 * d && w / 0x100_0000 == d;
  }

  // ---------------------------------------------------------------- the fetch

  /** The four bytes of w, lowest first, lie in memory at p. */
  predicate LiesAt(mem: seq<Byte>, p: nat, w: int) {
    && p + 4 <= |mem|
    && Val(mem[p]) == ByteOf(w, 0) && Val(mem[p + 1]) == ByteOf(w, 1)
    && Val(mem[p + 2]) == ByteOf(w, 2) && Val(mem[p + 3]) == ByteOf(w, 3)
  }

  lemma WordOf(b: seq<Byte>, w: int)
    requires |b| == 4 && IsUnsigned(w)
    requires Val(b[0]) == ByteOf(w, 0) && Val(b[1]) == ByteOf(w, 1) && Val(b[2]) == ByteOf(w, 2) && Val(b[3]) == ByteOf(w, 3)
    ensures Unsigned(LoadValue(b)) == w
  {
    FromFour(b);
    FourParts(w);
  }

  lemma FourParts(w: int)
    requires IsUnsigned(w)
    ensures w == w % 256 + 0x100 * (w / 256 % 256) + 0x1_0000 * (w / 0x1_0000 % 256) + 0x100_0000 * (w / 0x100_0000 % 256)
  {
    var a, b, c := w / 256, w / 0x1_0000, w / 0x100_0000;
    assert b == a / 256 && c == b / 256;
  }

  /** A program counter that cannot be read raises an exception. */
  lemma FetchStops(c: Cpu)
    requires CpuOk(c) && Translate(c.space.table, c.regs[34], 4, false).Fault?
    ensures Stops(c.regs, OneInstruction(c), c.space, Translate(c.space.table, c.regs[34], 4, false).exc, c.regs[34])
  {
    RaiseStops(c.regs, c.space.mem, Translate(c.space.table, c.regs[34], 4, false).exc, c.regs[34], c.space.table);
  }

  /** Where the code of an assembler instruction lies at the program counter, the machine runs that instruction
      with those registers and that immediate, shift amount or index. */
  lemma RunsTheCode(c: Cpu, a: A.Asm) returns (i: Instr)
    requires CpuOk(c) && A.AsmOk(a) && Translate(c.space.table, c.regs[34], 4, false).Address?
    requires LiesAt(c.space.mem, Translate(c.space.table, c.regs[34], 4, false).phys, A.Encode(a))
    ensures InstrOk(i) && i.op == a.op
    ensures match a
            case ThreeReg(_, rs, rt, rd, shift) => i.rs == rs && i.rt == rt && i.rd == rd && i.extra == shift
            case Immediate(_, rs, rt, imm) => i.rs == rs && i.rt == rt && i.extra == imm
            case Indexed(_, index) => i.extra == index
            case OnSign(_, rs, imm) => i.rs == rs && i.extra == imm
    ensures OneInstruction(c)
            == Run(c.regs, i, Space(c.space.mem, Translate(c.space.table, c.regs[34], 4, false).table))
  {
    i := Decode(A.Encode(a));
    A.DecodeInvertsEncode(a);
    FetchedWord(c, A.Encode(a));
  }

  lemma FetchedWord(c: Cpu, w: int)
    requires CpuOk(c) && IsUnsigned(w) && Translate(c.space.table, c.regs[34], 4, false).Address?
    requires LiesAt(c.space.mem, Translate(c.space.table, c.regs[34], 4, false).phys, w)
    ensures OneInstruction(c)
            == Run(c.regs, Decode(w), Space(c.space.mem, Translate(c.space.table, c.regs[34], 4, false).table))
  {
    var p := Translate(c.space.table, c.regs[34], 4, false).phys;
    PhysicalBound(c.space.table, c.regs[34], 4, false);
    WordOf(c.space.mem[p..p + 4], w);
  }

  /** next is the target of a branch if it is taken, and the instruction after the next if not; link is its return
      address. */
  predicate GoesTo(r: Registers, i: Instr, link: int, next: int)
    requires i.rs < 32 && i.rt < 32
  {
    var tested := if i.op in {BGEZAL, BLTZAL} && i.rs == 31 then link else r[i.rs];
    Wraps(next, r[35] + if Taken(i.op, tested, r[i.rt]) then 4 * i.extra else 4)
  }

  lemma BranchRun(r: Registers, i: Instr, s: Space, link: int) returns (d: Cpu)
    requires RegsOk(r) && InstrOk(i) && SpaceOk(s) && IsBranch(i.op) && Wraps(link, r[35] + 4)
    ensures Run(r, i, s) == Completed(d) && d.regs[34] == r[35] && GoesTo(r, i, link, d.regs[35])
  {
    var next, l := BranchInstructions(r, i, s);
    WrapsOnce(link, l, r[35] + 4);
    d := Run(r, i, s).cpu;
  }

  lemma NextArrives(d: Cpu, o: Outcome)
    requires CpuOk(d) && o == OneInstruction(d) && o.Completed?
    ensures o.cpu.regs[34] == d.regs[35]
  {
    AfterStep(d);
  }

  /** When the machine, in state d after a branch, has run the instruction that follows it, the branch's target
      is reached if it was taken, and the instruction after that if not. */
  lemma BranchArrives(r: Registers, i: Instr, s: Space, link: int, d: Cpu, o: Outcome)
    requires RegsOk(r) && InstrOk(i) && SpaceOk(s) && IsBranch(i.op) && Wraps(link, r[35] + 4)
    requires Run(r, i, s) == Completed(d) && CpuOk(d) && o == OneInstruction(d) && o.Completed?
    ensures d.regs[34] == r[35] && GoesTo(r, i, link, o.cpu.regs[34])
  {
    BranchGoes(r, i, s, link, d);
    NextArrives(d, o);
  }

  lemma BranchGoes(r: Registers, i: Instr, s: Space, link: int, d: Cpu)
    requires RegsOk(r) && InstrOk(i) && SpaceOk(s) && IsBranch(i.op) && Wraps(link, r[35] + 4) && Run(r, i, s) == Completed(d)
    ensures d.regs[34] == r[35] && GoesTo(r, i, link, d.regs[35])
  {
    var e := BranchRun(r, i, s, link);
  }
}
