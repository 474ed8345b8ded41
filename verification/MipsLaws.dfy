/** What every instruction of the simulator (mipssim.cc) leaves, in integers and bits. */
module MipsLaws {
  import opened Words
  import opened Memory
  import opened Mips
  import opened Bits
  import Mult

  // ---------------------------------------------------------------- how an instruction ends

  /** The word that x is modulo 2 to the 32. */
  predicate Wraps(v: int, x: int) { -0x8000_0000 <= v < 0x8000_0000 && (v - x) % 0x1_0000_0000 == 0 }

  /** A word read as a number from 0 on. */
  function Raw(x: int): int { if x < 0 then x + 0x1_0000_0000 else x }

  /** The general registers: the pending load of r has landed, over a write of value to dest. */
  ghost predicate General(r: Registers, q: Registers, dest: nat, value: int) {
    forall k :: 0 <= k < 32 ==>
      q[k] == if k == 0 then 0 else if k == r[37] then r[38] else if k == dest then value else r[k]
  }

  /** A completed instruction that writes value to register dest (0 for none), leaves hi and lo, goes on at next
      after the instruction that follows, and makes loadValue the pending load of loadReg. Registers 32 to 39 are
      HI, LO, PC, NextPC, PrevPC, the register and value of the pending load, and BadVAddr. */
  ghost predicate Ends(r: Registers, o: Outcome, s: Space, dest: nat, value: int, hi: int, lo: int, next: int,
                       loadReg: nat, loadValue: int) {
    && o.Completed? && o.cpu.space == s
    && var q := o.cpu.regs;
    && General(r, q, dest, value)
    && q[32] == hi && q[33] == lo && q[36] == r[34] && q[34] == r[35] && q[35] == next
    && q[37] == loadReg && q[38] == loadValue && q[39] == r[39]
  }

  /** An instruction that raises an exception: the pending load lands, and nothing else changes. */
  ghost predicate Stops(r: Registers, o: Outcome, s: Space, exc: Exception, bad: int) {
    && o.Trapped? && o.exc == exc && o.cpu.space == s
    && var q := o.cpu.regs;
    && General(r, q, 0, 0)
    && (forall k :: 32 <= k < 37 ==> q[k] == r[k]) && q[37] == 0 && q[38] == 0 && q[39] == bad
  }

  lemma DoneEnds(r: Registers, mem: seq<Byte>, dest: nat, value: int, hi: int, lo: int, next: int,
                 loadReg: nat, loadValue: int, s: Space)
    requires RegsOk(r) && dest < 32
    ensures Ends(r, Finished(r, mem, Done(dest, value, hi, lo, next, loadReg, loadValue, s.mem, s.table)), s,
                 dest, value, hi, lo, next, loadReg, loadValue)
  {
  }

  lemma RaiseStops(r: Registers, mem: seq<Byte>, exc: Exception, bad: int, t: Table)
    requires RegsOk(r)
    ensures Stops(r, Finished(r, mem, Raise(exc, bad, t)), Space(mem, t), exc, bad)
  {
  }

  /** The instruction goes on with the one that follows, in sequence. */
  ghost predicate Simply(r: Registers, o: Outcome, s: Space, dest: nat, value: int) {
    exists next :: Wraps(next, r[35] + 4) && Ends(r, o, s, dest, value, r[32], r[33], next, 0, 0)
  }

  lemma IntWraps(x: int)
    ensures Wraps(Int(x), x)
  {
  }

  lemma RawIs(x: int)
    requires IsInt(x)
    ensures Raw(x) == Unsigned(x)
  {
  }

  lemma WrapsOnce(v: int, w: int, x: int)
    requires Wraps(v, x) && Wraps(w, x)
    ensures v == w
  {
  }

  /** A run by its effect. */
  lemma EndsBy(r: Registers, i: Instr, s: Space, e: Effect)
    requires RegsOk(r) && InstrOk(i) && SpaceOk(s) && e == Execute(i, Fetched(r, i), s) && e.Done? && e.dest < 32
    ensures Ends(r, Run(r, i, s), Space(e.mem, e.table), e.dest, e.value, e.hi, e.lo, e.pcAfter, e.loadReg, e.loadValue)
  {
    DoneEnds(r, s.mem, e.dest, e.value, e.hi, e.lo, e.pcAfter, e.loadReg, e.loadValue, Space(e.mem, e.table));
  }

  lemma StopsBy(r: Registers, i: Instr, s: Space, e: Effect)
    requires RegsOk(r) && InstrOk(i) && SpaceOk(s) && e == Execute(i, Fetched(r, i), s) && e.Raise?
    ensures Stops(r, Run(r, i, s), Space(s.mem, e.rtable), e.exc, e.bad)
  {
    RaiseStops(r, s.mem, e.exc, e.bad, e.rtable);
  }

  lemma GprSimply(r: Registers, i: Instr, s: Space, e: Effect, dest: nat, v: int)
    requires RegsOk(r) && InstrOk(i) && SpaceOk(s) && dest < 32
    requires e == Execute(i, Fetched(r, i), s) && e == Gpr(Fetched(r, i), s, dest, v)
    ensures Simply(r, Run(r, i, s), s, dest, v)
  {
    IntWraps(r[NEXT_PC] + 4);
    EndsBy(r, i, s, e);
  }

  // ---------------------------------------------------------------- three registers

  /** rd from rs and rt. OR gives rs itself, and every right shift copies the sign, as the simulator has it. */
  ghost predicate RegisterLaw(op: Op, a: int, b: int, v: int) {
    match op
    case ADDU => Wraps(v, a + b)
    case SUBU => Wraps(v, a - b)
    case AND => IsInt(v) && forall k :: 0 <= k < 32 ==> (Bit(v, k) <==> Bit(a, k) && Bit(b, k))
    case OR => v == a
    case XOR => IsInt(v) && forall k :: 0 <= k < 32 ==> (Bit(v, k) <==> (Bit(a, k) <==> !Bit(b, k)))
    case NOR => IsInt(v) && forall k :: 0 <= k < 32 ==> (Bit(v, k) <==> !Bit(a, k) && !Bit(b, k))
    case SLT => v == if a < b then 1 else 0
    case SLTU => v == if Raw(a) < Raw(b) then 1 else 0
    case SLLV => Wraps(v, b * Pow2(a % 32))
    case SRAV => v * Pow2(a % 32) <= b < (v + 1) * Pow2(a % 32)
    case SRLV => v * Pow2(a % 32) <= b < (v + 1) * Pow2(a % 32)
    case _ => false
  }

  lemma AndObeys(a: int, b: int)
    ensures RegisterLaw(AND, a, b, And(a, b))
  {
    forall k | 0 <= k < 32
      ensures Bit(And(a, b), k) <==> Bit(a, k) && Bit(b, k)
    {
      WordBits(a, b, k);
    }
  }

  lemma XorObeys(a: int, b: int)
    ensures RegisterLaw(XOR, a, b, Xor(a, b))
  {
    forall k | 0 <= k < 32
      ensures Bit(Xor(a, b), k) <==> (Bit(a, k) <==> !Bit(b, k))
    {
      WordBits(a, b, k);
    }
  }

  lemma NorObeys(a: int, b: int)
    ensures RegisterLaw(NOR, a, b, Not(Or(a, b)))
  {
    forall k | 0 <= k < 32
      ensures Bit(Not(Or(a, b)), k) <==> !Bit(a, k) && !Bit(b, k)
    {
      WordBits(a, b, k);
      BitOfNot(Or(a, b), k);
    }
  }

  /** OR of a word with itself is the word. */
  lemma OrItself(a: int)
    requires IsInt(a)
    ensures Or(a, a) == a
  {
    forall k | 0 <= k < 32
      ensures Bit(Or(a, a), k) <==> Bit(a, k)
    {
      WordBits(a, a, k);
    }
    WordIsItsBits(Or(a, a), a);
  }

  lemma ShiftBounds(b: int, n: nat)
    ensures var v := ShiftRight(b, n); v * Pow2(n) <= b < (v + 1) * Pow2(n)
  {
    var p, v := Pow2(n), b / Pow2(n);
    assert b == v * p + b % p;
    Distributes(v, 1, p);
  }

  lemma RegisterObeys(op: Op, a: int, b: int)
    requires IsRegister(op) && IsInt(a) && IsInt(b)
    ensures RegisterLaw(op, a, b, RegisterValue(op, a, b))
  {
    match op
    case ADDU => IntWraps(a + b);
    case SUBU => IntWraps(a - b);
    case AND => AndObeys(a, b);
    case OR => OrItself(a);
    case XOR => XorObeys(a, b);
    case NOR => NorObeys(a, b);
    case SLT =>
    case SLTU => RawIs(a); RawIs(b);
    case SLLV => IntWraps(b * Pow2(a % 32));
    case SRAV => ShiftBounds(b, a % 32);
    case SRLV => ShiftBounds(b, a % 32);
  }

  predicate ThreeRegister(op: Op) { op in {ADDU, SUBU, AND, OR, XOR, NOR, SLT, SLTU, SLLV, SRAV, SRLV} }

  /** The instructions on three registers. */
  lemma RegisterInstructions(r: Registers, i: Instr, s: Space) returns (v: int)
    requires RegsOk(r) && InstrOk(i) && SpaceOk(s) && ThreeRegister(i.op)
    ensures RegisterLaw(i.op, r[i.rs], r[i.rt], v) && Simply(r, Run(r, i, s), s, i.rd, v)
  {
    var e := RegisterEffect(i, Fetched(r, i), s);
    v := e.value;
    GprSimply(r, i, s, e, i.rd, v);
  }

  lemma RegisterEffect(i: Instr, x: Operands, s: Space) returns (e: Effect)
    requires InstrOk(i) && SpaceOk(s) && OperandsOk(x) && ThreeRegister(i.op)
    ensures e == Execute(i, x, s) && e.Done? && e == Gpr(x, s, i.rd, e.value) && RegisterLaw(i.op, x.a, x.b, e.value)
  {
    ThreeRegisterKind(i.op);
    RegisterObeys(i.op, x.a, x.b);
    e := Gpr(x, s, i.rd, RegisterValue(i.op, x.a, x.b));
  }

  lemma ThreeRegisterKind(op: Op)
    ensures ThreeRegister(op) <==> IsRegister(op)
  {
  }

  // ---------------------------------------------------------------- immediates and shifts

  predicate TwoRegister(op: Op) { op in {ADDIU, ANDI, ORI, XORI, LUI, SLTI, SLTIU} }

  /** rt from rs and the immediate, of which ANDI, ORI and XORI see the low sixteen bits only. */
  ghost predicate ImmediateLaw(op: Op, a: int, imm: int, v: int) {
    match op
    case ADDIU => Wraps(v, a + imm)
    case ANDI => IsInt(v) && forall k :: 0 <= k < 32 ==> (Bit(v, k) <==> Bit(a, k) && k < 16 && Bit(imm, k))
    case ORI => IsInt(v) && forall k :: 0 <= k < 32 ==> (Bit(v, k) <==> Bit(a, k) || (k < 16 && Bit(imm, k)))
    case XORI => IsInt(v) && forall k :: 0 <= k < 32 ==> (Bit(v, k) <==> (Bit(a, k) <==> !(k < 16 && Bit(imm, k))))
    case LUI => Wraps(v, imm * 0x1_0000)
    case SLTI => v == if a < imm then 1 else 0
    case SLTIU => v == if Raw(a) < Raw(imm) then 1 else 0
    case _ => false
  }

  lemma LowBitsObey(op: Op, a: int, imm: int)
    requires op in {ANDI, ORI, XORI}
    ensures ImmediateLaw(op, a, imm, ImmediateValue(op, a, imm))
  {
    var low := imm % 0x1_0000;
    forall k | 0 <= k < 32
      ensures Bit(And(a, low), k) <==> Bit(a, k) && k < 16 && Bit(imm, k)
      ensures Bit(Or(a, low), k) <==> Bit(a, k) || (k < 16 && Bit(imm, k))
      ensures Bit(Xor(a, low), k) <==> (Bit(a, k) <==> !(k < 16 && Bit(imm, k)))
    {
      WordBits(a, low, k);
      BitOfLow(imm, k);
    }
  }

  lemma ImmediateObeys(op: Op, a: int, imm: int)
    requires IsImmediate(op) && IsInt(a) && IsInt(imm)
    ensures ImmediateLaw(op, a, imm, ImmediateValue(op, a, imm))
  {
    match op
    case ADDIU => IntWraps(a + imm);
    case LUI => IntWraps(imm * 0x1_0000);
    case SLTI =>
    case SLTIU => RawIs(a); RawIs(imm);
    case _ => LowBitsObey(op, a, imm);
  }

  lemma ImmediateInstructions(r: Registers, i: Instr, s: Space) returns (v: int)
    requires RegsOk(r) && InstrOk(i) && SpaceOk(s) && TwoRegister(i.op)
    ensures ImmediateLaw(i.op, r[i.rs], i.extra, v) && Simply(r, Run(r, i, s), s, i.rt, v)
  {
    var e := ImmediateEffect(i, Fetched(r, i), s);
    v := e.value;
    GprSimply(r, i, s, e, i.rt, v);
  }

  lemma ImmediateEffect(i: Instr, x: Operands, s: Space) returns (e: Effect)
    requires InstrOk(i) && SpaceOk(s) && OperandsOk(x) && TwoRegister(i.op)
    ensures e == Execute(i, x, s) && e.Done? && e == Gpr(x, s, i.rt, e.value) && ImmediateLaw(i.op, x.a, i.extra, e.value)
  {
    TwoRegisterKind(i.op);
    ImmediateObeys(i.op, x.a, i.extra);
    e := Gpr(x, s, i.rt, ImmediateValue(i.op, x.a, i.extra));
  }

  lemma TwoRegisterKind(op: Op)
    ensures TwoRegister(op) <==> IsImmediate(op)
  {
  }

  /** SLL, SRA and SRL: rd from rt and the shift amount n. */
  ghost predicate ShiftLaw(op: Op, b: int, n: nat, v: int) {
    match op
    case SLL => Wraps(v, b * Pow2(n))
    case SRA => v * Pow2(n) <= b < (v + 1) * Pow2(n)
    case SRL => v * Pow2(n) <= b < (v + 1) * Pow2(n)
    case _ => false
  }

  lemma ShiftInstructions(r: Registers, i: Instr, s: Space, n: nat) returns (v: int)
    requires RegsOk(r) && InstrOk(i) && SpaceOk(s) && i.op in {SLL, SRA, SRL} && n == i.extra
    ensures ShiftLaw(i.op, r[i.rt], n, v) && Simply(r, Run(r, i, s), s, i.rd, v)
  {
    var e := ShiftEffect(i, Fetched(r, i), s, n);
    v := e.value;
    GprSimply(r, i, s, e, i.rd, v);
  }

  lemma ShiftEffect(i: Instr, x: Operands, s: Space, n: nat) returns (e: Effect)
    requires InstrOk(i) && SpaceOk(s) && i.op in {SLL, SRA, SRL} && n == i.extra
    ensures e == Execute(i, x, s) && e.Done? && e == Gpr(x, s, i.rd, e.value) && ShiftLaw(i.op, x.b, n, e.value)
  {
    IntWraps(x.b * Pow2(n));
    ShiftBounds(x.b, n);
    e := Gpr(x, s, i.rd, if i.op == SLL then ShiftLeft(x.b, n) else ShiftRight(x.b, n));
  }

  /** ADD, ADDI and SUB deliver the true sum or difference if it is a word and raise an exception otherwise. */
  lemma TrappingInstructions(r: Registers, i: Instr, s: Space, truth: int)
    requires RegsOk(r) && InstrOk(i) && SpaceOk(s) && i.op in {ADD, ADDI, SUB}
    requires truth == if i.op == ADD then r[i.rs] + r[i.rt] else if i.op == ADDI then r[i.rs] + i.extra else r[i.rs] - r[i.rt]
    ensures if -0x8000_0000 <= truth < 0x8000_0000 then Simply(r, Run(r, i, s), s, if i.op == ADDI then i.rt else i.rd, truth)
            else Stops(r, Run(r, i, s), s, OverflowException, 0)
  {
    var e := TrappingEffect(i, Fetched(r, i), s, truth);
    if IsInt(truth) {
      GprSimply(r, i, s, e, if i.op == ADDI then i.rt else i.rd, truth);
    } else {
      StopsBy(r, i, s, e);
    }
  }

  lemma TrappingEffect(i: Instr, x: Operands, s: Space, truth: int) returns (e: Effect)
    requires InstrOk(i) && SpaceOk(s) && OperandsOk(x) && i.op in {ADD, ADDI, SUB}
    requires truth == if i.op == ADD then x.a + x.b else if i.op == ADDI then x.a + i.extra else x.a - x.b
    ensures e == Execute(i, x, s)
    ensures e == if IsInt(truth) then Gpr(x, s, if i.op == ADDI then i.rt else i.rd, truth) else Overflow(s)
  {
    OverflowIsExact(i, x, s);
    e := Trapping(i, x, s);
  }

  // ---------------------------------------------------------------- HI and LO

  /** What HI and LO become. DIV rounds toward zero, and leaves zeros where the divisor is zero. */
  ghost predicate DoubleLaw(op: Op, a: int, b: int, hi0: int, lo0: int, hi: int, lo: int) {
    match op
    case MTHI => hi == a && lo == lo0
    case MTLO => lo == a && hi == hi0
    case MULT => hi * 0x1_0000_0000 + Raw(lo) == a * b
    case MULTU => Raw(hi) * 0x1_0000_0000 + Raw(lo) == Raw(a) * Raw(b)
    case DIV =>
      if b == 0 then hi == 0 && lo == 0
      else exists q :: Wraps(lo, q) && a == b * q + hi && Abs(hi) < Abs(b) && (hi == 0 || (hi < 0 <==> a < 0))
    case DIVU =>
      if b == 0 then hi == 0 && lo == 0
      else Raw(a) == Raw(b) * Raw(lo) + Raw(hi) && Raw(hi) < Raw(b)
    case _ => false
  }

  lemma MultObeys(a: int, b: int)
    requires IsInt(a) && IsInt(b)
    ensures DoubleLaw(MULT, a, b, 0, 0, Int(a * b / W), Int(a * b))
  {
    SignedProduct(a, b);
    var p := a * b;
    UpperWord(p);
    RawIs(Int(p));
  }

  lemma SignedProduct(a: int, b: int)
    requires IsInt(a) && IsInt(b)
    ensures -HALF * HALF <= a * b <= HALF * HALF
  {
    Bounded(Abs(a), Abs(b));
    assert a * b == Abs(a) * Abs(b) || a * b == -(Abs(a) * Abs(b));
  }

  lemma Bounded(x: nat, y: nat)
    requires x <= HALF && y <= HALF
    ensures 0 <= x * y <= HALF * HALF
  {
    assert x * y <= HALF * y;
  }

  lemma UpperWord(p: int)
    requires -HALF * HALF <= p <= HALF * HALF
    ensures IsInt(p / W) && p == p / W * W + p % W && Unsigned(Int(p)) == p % W
  {
  }

  lemma MultuObeys(a: int, b: int)
    requires IsInt(a) && IsInt(b)
    ensures DoubleLaw(MULTU, a, b, 0, 0, Int(Unsigned(a) * Unsigned(b) / W), Int(Unsigned(a) * Unsigned(b)))
  {
    RawIs(a);
    RawIs(b);
    var p := Unsigned(a) * Unsigned(b);
    UnsignedProduct(Unsigned(a), Unsigned(b));
    RawIs(Int(p / W));
    RawIs(Int(p));
    assert p == p / W * W + p % W;
  }

  lemma UnsignedProduct(x: int, y: int)
    requires IsUnsigned(x) && IsUnsigned(y)
    ensures 0 <= x * y && x * y / W < W
  {
    Mult.ProductFits(x, y, W, W);
    BelowSquare(x * y);
  }

  lemma BelowSquare(p: int)
    requires 0 <= p < W * W
    ensures p / W < W
  {
  }

  lemma DivObeys(a: int, b: int)
    requires IsInt(a) && IsInt(b) && b != 0
    ensures DoubleLaw(DIV, a, b, 0, 0, Int(Remainder(a, b)), Int(Quotient(a, b)))
  {
    DivisionLaw(a, b);
    IntWraps(Quotient(a, b));
  }

  lemma DivuObeys(a: int, b: int)
    requires IsInt(a) && IsInt(b) && b != 0
    ensures DoubleLaw(DIVU, a, b, 0, 0, Int(Unsigned(a) % Unsigned(b)), Int(Unsigned(a) / Unsigned(b)))
  {
    RawIs(a);
    RawIs(b);
    QuotientSmall(Unsigned(a), Unsigned(b));
    DivuParts(a, b, Unsigned(a) / Unsigned(b), Unsigned(a) % Unsigned(b));
  }

  lemma DivuParts(a: int, b: int, q: int, m: int)
    requires b != 0 && IsUnsigned(q) && IsUnsigned(m) && Raw(a) == Raw(b) * q + m && m < Raw(b)
    ensures DoubleLaw(DIVU, a, b, 0, 0, Int(m), Int(q))
  {
    RawOfInt(q);
    RawOfInt(m);
  }

  lemma RawOfInt(u: int)
    requires IsUnsigned(u)
    ensures Raw(Int(u)) == u
  {
  }

  lemma QuotientSmall(x: int, y: int)
    requires IsUnsigned(x) && IsUnsigned(y) && y != 0
    ensures IsUnsigned(x / y) && IsUnsigned(x % y) && x == y * (x / y) + x % y
  {
    var q := x / y;
    assert x == y * q + x % y;
    AtLeastOnce(q, y);
  }

  lemma AtLeastOnce(q: int, y: int)
    requires 0 <= q && 1 <= y
    ensures q <= y * q
  {
  }

  lemma DoubleObeys(op: Op, a: int, b: int, hi: int, lo: int)
    requires IsDouble(op) && IsInt(a) && IsInt(b)
    ensures DoubleLaw(op, a, b, hi, lo, HiValue(op, a, b, hi), LoValue(op, a, b, lo))
  {
    match op
    case MTHI =>
    case MTLO =>
    case MULT => MultObeys(a, b);
    case MULTU => MultuObeys(a, b);
    case DIV => if b != 0 { DivObeys(a, b); }
    case DIVU => if b != 0 { DivuObeys(a, b); }
  }

  /** MULT, MULTU, DIV, DIVU, MTHI and MTLO change HI and LO and no general register. */
  lemma DoubleInstructions(r: Registers, i: Instr, s: Space) returns (hi: int, lo: int, next: int)
    requires RegsOk(r) && InstrOk(i) && SpaceOk(s) && i.op in {MULT, MULTU, DIV, DIVU, MTHI, MTLO}
    ensures DoubleLaw(i.op, r[i.rs], r[i.rt], r[32], r[33], hi, lo)
    ensures Wraps(next, r[35] + 4) && Ends(r, Run(r, i, s), s, 0, 0, hi, lo, next, 0, 0)
  {
    var e := DoubleEffect(i, Fetched(r, i), s);
    hi, lo, next := e.hi, e.lo, e.pcAfter;
    HiLoEnds(r, i, s, e);
  }

  lemma HiLoEnds(r: Registers, i: Instr, s: Space, e: Effect)
    requires RegsOk(r) && InstrOk(i) && SpaceOk(s) && e == Execute(i, Fetched(r, i), s)
    requires e.Done? && e == Done(0, 0, e.hi, e.lo, Int(r[NEXT_PC] + 4), 0, 0, s.mem, s.table)
    ensures Wraps(e.pcAfter, r[35] + 4) && Ends(r, Run(r, i, s), s, 0, 0, e.hi, e.lo, e.pcAfter, 0, 0)
  {
    IntWraps(r[NEXT_PC] + 4);
    EndsBy(r, i, s, e);
  }

  lemma DoubleEffect(i: Instr, x: Operands, s: Space) returns (e: Effect)
    requires InstrOk(i) && SpaceOk(s) && OperandsOk(x) && i.op in {MULT, MULTU, DIV, DIVU, MTHI, MTLO}
    ensures e == Execute(i, x, s) && e.Done? && e == HiLo(x, s, e.hi, e.lo)
    ensures DoubleLaw(i.op, x.a, x.b, x.hi, x.lo, e.hi, e.lo)
  {
    DoubleObeys(i.op, x.a, x.b, x.hi, x.lo);
    e := HiLo(x, s, HiValue(i.op, x.a, x.b, x.hi), LoValue(i.op, x.a, x.b, x.lo));
  }

  /** MFHI and MFLO copy HI and LO to rd. */
  lemma MoveInstructions(r: Registers, i: Instr, s: Space)
    requires RegsOk(r) && InstrOk(i) && SpaceOk(s) && i.op in {MFHI, MFLO}
    ensures Simply(r, Run(r, i, s), s, i.rd, if i.op == MFHI then r[32] else r[33])
  {
    var e := MoveEffect(i, Fetched(r, i), s);
    GprSimply(r, i, s, e, i.rd, if i.op == MFHI then r[HI] else r[LO]);
  }

  lemma MoveEffect(i: Instr, x: Operands, s: Space) returns (e: Effect)
    requires InstrOk(i) && SpaceOk(s) && i.op in {MFHI, MFLO}
    ensures e == Execute(i, x, s) && e == Gpr(x, s, i.rd, if i.op == MFHI then x.hi else x.lo)
  {
    e := Gpr(x, s, i.rd, if i.op == MFHI then x.hi else x.lo);
  }

  // ---------------------------------------------------------------- branches and jumps

  predicate IsBranch(op: Op) { op in {BEQ, BNE, BGEZ, BGTZ, BLEZ, BLTZ, BGEZAL, BLTZAL} }

  /** When a branch is taken; a is rs as the test sees it, after the link has been written. */
  predicate Taken(op: Op, a: int, b: int) {
    match op
    case BEQ => a == b
    case BNE => a != b
    case BGEZ => a >= 0
    case BGEZAL => a >= 0
    case BGTZ => a > 0
    case BLEZ => a <= 0
    case BLTZ => a < 0
    case BLTZAL => a < 0
    case _ => false
  }

  /** A branch goes on, after the next instruction, at NextPC plus four times the offset if it is taken and at
      NextPC plus four if not; BGEZAL and BLTZAL link in either case, before they test. */
  lemma BranchInstructions(r: Registers, i: Instr, s: Space) returns (next: int, link: int)
    requires RegsOk(r) && InstrOk(i) && SpaceOk(s) && IsBranch(i.op)
    ensures Wraps(link, r[35] + 4)
    ensures var links := i.op in {BGEZAL, BLTZAL};
            && Wraps(next, r[35] + if Taken(i.op, if links && i.rs == 31 then link else r[i.rs], r[i.rt]) then 4 * i.extra else 4)
            && Ends(r, Run(r, i, s), s, if links then 31 else 0, if links then link else 0, r[32], r[33], next, 0, 0)
  {
    link := Int(r[NEXT_PC] + 4);
    IntWraps(r[NEXT_PC] + 4);
    var e := BranchEffect(i, Fetched(r, i), s, link);
    next := e.pcAfter;
    EndsBy(r, i, s, e);
  }

  lemma BranchTarget(n: int, extra: int)
    ensures Wraps(Int(n + Int(extra * 4)), n + 4 * extra)
  {
    IntWraps(n + Int(extra * 4));
    IntWraps(extra * 4);
    var t, e := Int(n + Int(extra * 4)), Int(extra * 4);
    assert t - (n + 4 * extra) == (t - (n + e)) + (e - extra * 4);
    SumOfMultiples(t - (n + e), e - extra * 4);
  }

  lemma SumOfMultiples(x: int, y: int)
    requires x % 0x1_0000_0000 == 0 && y % 0x1_0000_0000 == 0
    ensures (x + y) % 0x1_0000_0000 == 0
  {
  }

  lemma BranchEffect(i: Instr, x: Operands, s: Space, link: int) returns (e: Effect)
    requires InstrOk(i) && SpaceOk(s) && IsBranch(i.op) && link == Int(x.next + 4)
    ensures e == Execute(i, x, s) && e.Done?
    ensures var links := i.op in {BGEZAL, BLTZAL};
            && e == Jump(x, s, if links then 31 else 0, if links then link else 0, e.pcAfter)
            && Wraps(e.pcAfter, x.next + if Taken(i.op, if links && i.rs == 31 then link else x.a, x.b) then 4 * i.extra else 4)
  {
    var links := i.op in {BGEZAL, BLTZAL};
    var taken := Taken(i.op, if links && i.rs == 31 then link else x.a, x.b);
    IntWraps(x.next + 4);
    BranchTarget(x.next, i.extra);
    ControlIsBranch(i, x, s, link, taken);
    e := Branch(i, x, s, if links then 31 else 0, if links then link else 0, taken);
  }

  lemma ControlIsBranch(i: Instr, x: Operands, s: Space, link: int, taken: bool)
    requires InstrOk(i) && SpaceOk(s) && IsBranch(i.op) && link == Int(x.next + 4)
    requires taken == Taken(i.op, if i.op in {BGEZAL, BLTZAL} && i.rs == 31 then link else x.a, x.b)
    ensures var links := i.op in {BGEZAL, BLTZAL};
            Execute(i, x, s) == Branch(i, x, s, if links then 31 else 0, if links then link else 0, taken)
  {
  }

  /** J and JAL go to the address whose low 28 bits are four times the index and whose high bits are those of the
      instruction after the next; JR and JALR go to rs. JAL and JALR link, JALR before it reads rs. */
  lemma JumpInstructions(r: Registers, i: Instr, s: Space) returns (next: int, link: int)
    requires RegsOk(r) && InstrOk(i) && SpaceOk(s) && i.op in {J, JAL, JR, JALR}
    requires i.op in {J, JAL} ==> 0 <= i.extra < 0x400_0000
    ensures Wraps(link, r[35] + 4)
    ensures i.op in {J, JAL} ==>
              IsInt(next) && Raw(next) % 0x1000_0000 == 4 * i.extra && Raw(next) / 0x1000_0000 == Raw(link) / 0x1000_0000
    ensures i.op == JR ==> next == r[i.rs]
    ensures i.op == JALR ==> next == if i.rs == i.rd then link else r[i.rs]
    ensures var dest := match i.op case JAL => 31 case JALR => i.rd case _ => 0;
            Ends(r, Run(r, i, s), s, dest, if i.op in {JAL, JALR} then link else 0, r[32], r[33], next, 0, 0)
  {
    var x := Fetched(r, i);
    link := Int(x.next + 4);
    IntWraps(x.next + 4);
    if i.op in {J, JAL} {
      IndexTarget(link, i.extra);
    }
    var e := JumpEffect(i, x, s, link);
    next := e.pcAfter;
    EndsBy(r, i, s, e);
  }

  lemma JumpEffect(i: Instr, x: Operands, s: Space, link: int) returns (e: Effect)
    requires InstrOk(i) && SpaceOk(s) && i.op in {J, JAL, JR, JALR} && link == Int(x.next + 4)
    ensures e == Execute(i, x, s) && e.Done?
    ensures var dest := match i.op case JAL => 31 case JALR => i.rd case _ => 0;
            e == Jump(x, s, dest, if i.op in {JAL, JALR} then link else 0, e.pcAfter)
    ensures i.op in {J, JAL} ==> e.pcAfter == JumpTarget(link, i.extra)
    ensures i.op == JR ==> e.pcAfter == x.a
    ensures i.op == JALR ==> e.pcAfter == if i.rs == i.rd then link else x.a
  {
    e := Control(i, x, s);
  }

  lemma IndexTarget(link: int, index: int)
    requires IsInt(link) && 0 <= index < 0x400_0000
    ensures var t := JumpTarget(link, index);
            IsInt(t) && Raw(t) % 0x1000_0000 == 4 * index && Raw(t) / 0x1000_0000 == Raw(link) / 0x1000_0000
  {
    RawIs(link);
    RawIs(JumpTarget(link, index));
    var h := Unsigned(link) / 0x1000_0000;
    assert 0 <= h < 16;
    assert Unsigned(JumpTarget(link, index)) == h * 0x1000_0000 + 4 * index;
  }

  // ---------------------------------------------------------------- system calls and illegal codes

  lemma ExceptionInstructions(r: Registers, i: Instr, s: Space)
    requires RegsOk(r) && InstrOk(i) && SpaceOk(s) && i.op in {SYSCALL, UNIMP, RES}
    ensures Stops(r, Run(r, i, s), s, if i.op == SYSCALL then SyscallException else IllegalInstrException, 0)
  {
    var e := ExceptionEffect(i, Fetched(r, i), s);
    StopsBy(r, i, s, e);
  }

  lemma ExceptionEffect(i: Instr, x: Operands, s: Space) returns (e: Effect)
    requires InstrOk(i) && SpaceOk(s) && i.op in {SYSCALL, UNIMP, RES}
    ensures e == Execute(i, x, s)
    ensures e == Raise(if i.op == SYSCALL then SyscallException else IllegalInstrException, 0, s.table)
  {
    assert KindOf(i.op) == OtherKind;
    e := Raise(if i.op == SYSCALL then SyscallException else IllegalInstrException, 0, s.table);
  }
}
