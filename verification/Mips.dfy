/** The MIPS R2/3000 simulator (mipssim.cc, machine.cc): decoding, one instruction, delayed loads, traps. */
module Mips {
  import opened Words
  import opened Memory

  const HI := 32
  const LO := 33
  const PC := 34
  const NEXT_PC := 35
  const PREV_PC := 36
  const LOAD_REG := 37
  const LOAD_VALUE := 38
  const BAD_VADDR := 39
  const NUM_REGS := 40
  const R31 := 31

  datatype Op =
    | ADD | ADDI | ADDIU | ADDU | AND | ANDI | BEQ | BGEZ | BGEZAL | BGTZ | BLEZ | BLTZ | BLTZAL | BNE
    | DIV | DIVU | J | JAL | JALR | JR | LB | LBU | LH | LHU | LUI | LW | LWL | LWR | MFHI | MFLO | MTHI | MTLO
    | MULT | MULTU | NOR | OR | ORI | RFE | SB | SH | SLL | SLLV | SLT | SLTI | SLTIU | SLTU | SRA | SRAV
    | SRL | SRLV | SUB | SUBU | SW | SWL | SWR | XOR | XORI | SYSCALL | UNIMP | RES

  /** What the instructions do, in groups. */
  datatype Kind = MemoryKind | ControlKind | RegisterKind | ImmediateKind | ShiftKind | TrappingKind | DoubleKind | OtherKind

  function KindOf(op: Op): Kind {
    match op
    case LB => MemoryKind       case LBU => MemoryKind     case LH => MemoryKind       case LHU => MemoryKind
    case LW => MemoryKind       case LWL => MemoryKind     case LWR => MemoryKind
    case SB => MemoryKind       case SH => MemoryKind      case SW => MemoryKind       case SWL => MemoryKind     case SWR => MemoryKind
    case BEQ => ControlKind     case BNE => ControlKind    case BGEZ => ControlKind    case BGEZAL => ControlKind
    case BGTZ => ControlKind    case BLEZ => ControlKind   case BLTZ => ControlKind    case BLTZAL => ControlKind
    case J => ControlKind       case JAL => ControlKind    case JR => ControlKind      case JALR => ControlKind
    case ADDU => RegisterKind   case SUBU => RegisterKind  case AND => RegisterKind    case OR => RegisterKind    case XOR => RegisterKind
    case NOR => RegisterKind    case SLT => RegisterKind   case SLTU => RegisterKind
    case SLLV => RegisterKind   case SRAV => RegisterKind  case SRLV => RegisterKind
    case ADDIU => ImmediateKind case ANDI => ImmediateKind case ORI => ImmediateKind   case XORI => ImmediateKind
    case LUI => ImmediateKind   case SLTI => ImmediateKind case SLTIU => ImmediateKind
    case SLL => ShiftKind       case SRA => ShiftKind      case SRL => ShiftKind
    case ADD => TrappingKind    case ADDI => TrappingKind  case SUB => TrappingKind
    case MTHI => DoubleKind     case MTLO => DoubleKind    case MULT => DoubleKind     case MULTU => DoubleKind
    case DIV => DoubleKind      case DIVU => DoubleKind
    case _ => OtherKind
  }

  // ---------------------------------------------------------------- decoding

  datatype Format = IFmt | JFmt | RFmt
  datatype Coded = Plain(op: Op) | Special | Bcond

  /** opTable, by bits 31..26. */
  function OpTable(n: int): Coded {
    match n
    case 0 => Special     case 1 => Bcond       case 2 => Plain(J)     case 3 => Plain(JAL)
    case 4 => Plain(BEQ)  case 5 => Plain(BNE)  case 6 => Plain(BLEZ)  case 7 => Plain(BGTZ)
    case 8 => Plain(ADDI) case 9 => Plain(ADDIU) case 10 => Plain(SLTI) case 11 => Plain(SLTIU)
    case 12 => Plain(ANDI) case 13 => Plain(ORI) case 14 => Plain(XORI) case 15 => Plain(LUI)
    case 16 => Plain(UNIMP) case 17 => Plain(UNIMP) case 18 => Plain(UNIMP) case 19 => Plain(UNIMP)
    case 32 => Plain(LB)  case 33 => Plain(LH)  case 34 => Plain(LWL)  case 35 => Plain(LW)
    case 36 => Plain(LBU) case 37 => Plain(LHU) case 38 => Plain(LWR)
    case 40 => Plain(SB)  case 41 => Plain(SH)  case 42 => Plain(SWL)  case 43 => Plain(SW)
    case 46 => Plain(SWR)
    case 48 => Plain(UNIMP) case 49 => Plain(UNIMP) case 50 => Plain(UNIMP) case 51 => Plain(UNIMP)
    case 56 => Plain(UNIMP) case 57 => Plain(UNIMP) case 58 => Plain(UNIMP) case 59 => Plain(UNIMP)
    case _ => Plain(RES)
  }

  function FormatOf(n: int): Format {
    if n == 0 then RFmt else if n == 2 || n == 3 then JFmt else IFmt
  }

  /** specialTable, by the funct field. */
  function SpecialTable(n: int): Op {
    match n
    case 0 => SLL   case 2 => SRL   case 3 => SRA   case 4 => SLLV  case 6 => SRLV  case 7 => SRAV
    case 8 => JR    case 9 => JALR  case 12 => SYSCALL case 13 => UNIMP
    case 16 => MFHI case 17 => MTHI case 18 => MFLO case 19 => MTLO
    case 24 => MULT case 25 => MULTU case 26 => DIV case 27 => DIVU
    case 32 => ADD  case 33 => ADDU case 34 => SUB  case 35 => SUBU
    case 36 => AND  case 37 => OR   case 38 => XOR  case 39 => NOR
    case 42 => SLT  case 43 => SLTU
    case _ => RES
  }

  datatype Instr = Instr(op: Op, rs: nat, rt: nat, rd: nat, extra: int)

  predicate InstrOk(i: Instr) {
    i.rs < 32 && i.rt < 32 && i.rd < 32 && IsInt(i.extra) && (IsShift(i.op) ==> 0 <= i.extra < 32)
  }

  function Decode(value: int): (i: Instr)
    requires IsUnsigned(value)
    ensures InstrOk(i) && i.op != RFE
  {
    var n := value / 0x400_0000 % 64;
    var rt := value / 0x1_0000 % 32;
    var extra :=
      match FormatOf(n)
      case IFmt => if value % 0x1_0000 < 0x8000 then value % 0x1_0000 else value % 0x1_0000 - 0x1_0000
      case RFmt => value / 64 % 32
      case JFmt => value % 0x400_0000;
    var op :=
      match OpTable(n)
      case Special => SpecialTable(value % 64)
      case Bcond =>
        if rt == 0 then BLTZ else if rt == 1 then BGEZ else if rt == 16 then BLTZAL
        else if rt == 17 then BGEZAL else UNIMP
      case Plain(o) => o;
    Instr(op, value / 0x20_0000 % 32, rt, value / 0x800 % 32, extra)
  }

  // ---------------------------------------------------------------- arithmetic of one instruction

  /** The bits of x and y combined, one by one. */
  function AndBits(x: nat, y: nat): nat
    decreases x + y
  {
    if x == 0 && y == 0 then 0 else 2 * AndBits(x / 2, y / 2) + if x % 2 == 1 && y % 2 == 1 then 1 else 0
  }

  function OrBits(x: nat, y: nat): nat
    decreases x + y
  {
    if x == 0 && y == 0 then 0 else 2 * OrBits(x / 2, y / 2) + if x % 2 == 1 || y % 2 == 1 then 1 else 0
  }

  function XorBits(x: nat, y: nat): nat
    decreases x + y
  {
    if x == 0 && y == 0 then 0 else 2 * XorBits(x / 2, y / 2) + if x % 2 != y % 2 then 1 else 0
  }

  function And(x: int, y: int): (r: int) ensures IsInt(r) { Int(AndBits(Unsigned(x), Unsigned(y))) }
  function Or(x: int, y: int): (r: int) ensures IsInt(r) { Int(OrBits(Unsigned(x), Unsigned(y))) }
  function Xor(x: int, y: int): (r: int) ensures IsInt(r) { Int(XorBits(Unsigned(x), Unsigned(y))) }

  /** ~ on a two's complement word. */
  function Not(x: int): (r: int) ensures IsInt(x) ==> IsInt(r) { -1 - x }

  function ShiftLeft(x: int, n: nat): (r: int) ensures IsInt(r) { Int(x * Pow2(n)) }

  /** >> on a C int; every right shift of the simulator is of this kind. */
  function ShiftRight(x: int, n: nat): (r: int) { x / Pow2(n) }

  /** The two words agree on the sign bit. */
  predicate SameSign(x: int, y: int) { (x < 0) == (y < 0) }

  function Abs(x: int): nat { if x < 0 then -x else x }

  /** C's / and %, which truncate toward zero. */
  function Quotient(a: int, b: int): int
    requires b != 0
  {
    if SameSign(a, b) then Abs(a) / Abs(b) else -(Abs(a) / Abs(b))
  }

  function Remainder(a: int, b: int): int
    requires b != 0
  {
    if a < 0 then -(Abs(a) % Abs(b)) else Abs(a) % Abs(b)
  }

  function Truth(b: bool): int { if b then 1 else 0 }

  /** The jump target: the upper four bits of pcAfter, then the index. */
  function JumpTarget(pcAfter: int, index: int): (t: int)
    ensures IsInt(t)
  {
    Int(Unsigned(pcAfter) / 0x1000_0000 * 0x1000_0000 + index * 4 % 0x1000_0000)
  }

  // ---------------------------------------------------------------- one instruction

  /** The register operands: rs, rt, HI, LO, NextPC, and rt with a pending load forwarded. */
  datatype Operands = Operands(a: int, b: int, hi: int, lo: int, next: int, fwd: int)

  /** What an instruction does before its delayed load is applied and the program counters advance.
      Writing register 0 stands for writing no register. */
  datatype Effect =
    | Raise(exc: Exception, bad: int, rtable: Table)
    | Abort
    | Done(dest: nat, value: int, hi: int, lo: int, pcAfter: int, loadReg: nat, loadValue: int, mem: seq<Byte>, table: Table)

  datatype Space = Space(mem: seq<Byte>, table: Table)

  predicate SpaceOk(s: Space) { |s.mem| == MEMORY_SIZE }

  function Gpr(x: Operands, s: Space, r: nat, v: int): Effect {
    Done(r, v, x.hi, x.lo, Int(x.next + 4), 0, 0, s.mem, s.table)
  }

  function HiLo(x: Operands, s: Space, hi: int, lo: int): Effect {
    Done(0, 0, hi, lo, Int(x.next + 4), 0, 0, s.mem, s.table)
  }

  function Jump(x: Operands, s: Space, r: nat, v: int, target: int): Effect {
    Done(r, v, x.hi, x.lo, target, 0, 0, s.mem, s.table)
  }

  function Branch(i: Instr, x: Operands, s: Space, r: nat, v: int, taken: bool): Effect {
    Jump(x, s, r, v, if taken then Int(x.next + Int(i.extra * 4)) else Int(x.next + 4))
  }

  function Overflow(s: Space): Effect { Raise(OverflowException, 0, s.table) }

  function Effective(i: Instr, x: Operands): int { Int(x.a + i.extra) }

  /** A load whose value, shaped by the opcode, is delayed. */
  function LoadDone(r: Load, i: Instr, addr: int, hi: int, lo: int, next: int, fwd: int, s: Space): Effect {
    match r
    case LoadFault(e) => Raise(e, addr, s.table)
    case Loaded(v, t) => Done(0, 0, hi, lo, Int(next + 4), i.rt, Shaped(i.op, v, fwd), s.mem, t)
  }

  function LoadOf(i: Instr, x: Operands, s: Space, size: int): Effect
    requires SpaceOk(s) && size in {1, 2, 4}
  {
    LoadDone(ReadMem(s.mem, s.table, Effective(i, x), size), i, Effective(i, x), x.hi, x.lo, x.next, x.fwd, s)
  }

  function Shaped(op: Op, v: int, fwd: int): int {
    match op
    case LB => if v % 256 >= 128 then v % 256 - 256 else v % 256
    case LBU => v % 256
    case LH => if v % 0x1_0000 >= 0x8000 then v % 0x1_0000 - 0x1_0000 else v % 0x1_0000
    case LHU => v % 0x1_0000
    case LWR => Int(Unsigned(fwd) - Unsigned(fwd) % 256 + Unsigned(v) / 0x100_0000)
    case _ => v
  }

  function StoreDone(r: Memory.Store, addr: int, hi: int, lo: int, next: int, s: Space): Effect {
    match r
    case StoreFault(e) => Raise(e, addr, s.table)
    case Stored(m, t) => Done(0, 0, hi, lo, Int(next + 4), 0, 0, m, t)
  }

  function StoreOf(i: Instr, x: Operands, s: Space, size: int, v: int): Effect
    requires SpaceOk(s) && size in {1, 2, 4}
  {
    StoreDone(WriteMem(s.mem, s.table, Effective(i, x), size, v), Effective(i, x), x.hi, x.lo, x.next, s)
  }

  /** SWL and SWR read the word first. */
  function Merge(i: Instr, x: Operands, s: Space): Effect
    requires SpaceOk(s)
  {
    Merged(ReadMem(s.mem, s.table, Effective(i, x), 4), i, x, s)
  }

  function Merged(r: Load, i: Instr, x: Operands, s: Space): Effect
    requires SpaceOk(s)
  {
    match r
    case LoadFault(e) => Raise(e, Effective(i, x), s.table)
    case Loaded(v, t) => StoreOf(i, x, Space(s.mem, t), 4, MergedWord(i.op, v, x.b))
  }

  function MergedWord(op: Op, v: int, b: int): int {
    if op == SWL then b else Int(v % 0x100_0000 + b % 256 * 0x100_0000)
  }

  predicate IsMemoryOp(op: Op) { KindOf(op) == MemoryKind }

  predicate IsStore(op: Op) { op in {SB, SH, SW, SWL, SWR} }

  function SizeOf(op: Op): (n: int)
    ensures n in {1, 2, 4}
  {
    if op in {LB, LBU, SB} then 1 else if op in {LH, LHU, SH} then 2 else 4
  }

  /** The alignment tests the simulator makes itself: some trap, and the ones of LWL, LWR, SWL and SWR
      are assertions. */
  datatype Alignment = Fine | Unaligned | Unsupported

  function AlignmentOf(op: Op, addr: int): Alignment {
    if op in {LH, LHU} && addr % 2 != 0 then Unaligned
    else if op == LW && addr % 4 != 0 then Unaligned
    else if op in {LWL, LWR, SWL, SWR} && addr % 4 != 0 then Unsupported
    else Fine
  }

  function Access(i: Instr, x: Operands, s: Space): Effect
    requires SpaceOk(s) && IsMemoryOp(i.op)
  {
    match AlignmentOf(i.op, Effective(i, x))
    case Unaligned => Raise(AddressErrorException, Effective(i, x), s.table)
    case Unsupported => Abort
    case Fine =>
      if !IsStore(i.op) then LoadOf(i, x, s, SizeOf(i.op))
      else if i.op in {SWL, SWR} then Merge(i, x, s)
      else StoreOf(i, x, s, SizeOf(i.op), x.b)
  }

  predicate IsControl(op: Op) { KindOf(op) == ControlKind }

  function Control(i: Instr, x: Operands, s: Space): Effect
    requires IsControl(i.op)
  {
    var link := Int(x.next + 4);
    match i.op
    case BEQ => Branch(i, x, s, 0, 0, x.a == x.b)
    case BNE => Branch(i, x, s, 0, 0, x.a != x.b)
    case BGEZ => Branch(i, x, s, 0, 0, x.a >= 0)
    case BGTZ => Branch(i, x, s, 0, 0, x.a > 0)
    case BLEZ => Branch(i, x, s, 0, 0, x.a <= 0)
    case BLTZ => Branch(i, x, s, 0, 0, x.a < 0)
    case BGEZAL => Branch(i, x, s, R31, link, (if i.rs == R31 then link else x.a) >= 0)
    case BLTZAL => Branch(i, x, s, R31, link, (if i.rs == R31 then link else x.a) < 0)
    case J => Jump(x, s, 0, 0, JumpTarget(link, i.extra))
    case JAL => Jump(x, s, R31, link, JumpTarget(link, i.extra))
    case JR => Jump(x, s, 0, 0, x.a)
    case JALR => Jump(x, s, i.rd, link, if i.rs == i.rd then link else x.a)
  }

  predicate IsRegister(op: Op) { KindOf(op) == RegisterKind }

  /** rd from rs and rt. OR is rs with itself, as the simulator has it. */
  function RegisterValue(op: Op, a: int, b: int): int
    requires IsRegister(op)
  {
    match op
    case ADDU => Int(a + b)
    case SUBU => Int(a - b)
    case AND => And(a, b)
    case OR => Or(a, a)
    case XOR => Xor(a, b)
    case NOR => Not(Or(a, b))
    case SLT => Truth(a < b)
    case SLTU => Truth(Unsigned(a) < Unsigned(b))
    case SLLV => ShiftLeft(b, a % 32)
    case SRAV => ShiftRight(b, a % 32)
    case SRLV => ShiftRight(b, a % 32)
  }

  predicate IsImmediate(op: Op) { KindOf(op) == ImmediateKind }

  /** rt from rs and the immediate. */
  function ImmediateValue(op: Op, a: int, extra: int): int
    requires IsImmediate(op)
  {
    match op
    case ADDIU => Int(a + extra)
    case ANDI => And(a, extra % 0x1_0000)
    case ORI => Or(a, extra % 0x1_0000)
    case XORI => Xor(a, extra % 0x1_0000)
    case LUI => Int(extra * 0x1_0000)
    case SLTI => Truth(a < extra)
    case SLTIU => Truth(Unsigned(a) < Unsigned(extra))
  }

  predicate IsShift(op: Op) { KindOf(op) == ShiftKind }

  function ShiftValue(op: Op, b: int, n: nat): int
    requires IsShift(op)
  {
    if op == SLL then ShiftLeft(b, n) else ShiftRight(b, n)
  }

  predicate IsTrapping(op: Op) { KindOf(op) == TrappingKind }

  function TrueResult(op: Op, a: int, b: int): int { if op == SUB then a - b else a + b }

  /** The simulator's tests of sign bits for overflow. */
  predicate SignTest(op: Op, a: int, b: int, sum: int) {
    match op
    case ADD => SameSign(a, b) && !SameSign(a, sum)
    case ADDI => SameSign(a, b) && !SameSign(b, sum)
    case _ => !SameSign(a, b) && !SameSign(a, sum)
  }

  /** ADD, ADDI and SUB. */
  function Trapping(i: Instr, x: Operands, s: Space): Effect
    requires IsTrapping(i.op)
  {
    var b := if i.op == ADDI then i.extra else x.b;
    var sum := Int(TrueResult(i.op, x.a, b));
    if SignTest(i.op, x.a, b, sum) then Overflow(s) else Gpr(x, s, if i.op == ADDI then i.rt else i.rd, sum)
  }

  predicate IsDouble(op: Op) { KindOf(op) == DoubleKind }

  function HiValue(op: Op, a: int, b: int, hi: int): int
    requires IsDouble(op)
  {
    match op
    case MTHI => a
    case MTLO => hi
    case MULT => Int(a * b / W)
    case MULTU => Int(Unsigned(a) * Unsigned(b) / W)
    case DIV => if b == 0 then 0 else Int(Remainder(a, b))
    case DIVU => if Unsigned(b) == 0 then 0 else Int(Unsigned(a) % Unsigned(b))
  }

  function LoValue(op: Op, a: int, b: int, lo: int): int
    requires IsDouble(op)
  {
    match op
    case MTHI => lo
    case MTLO => a
    case MULT => Int(a * b)
    case MULTU => Int(Unsigned(a) * Unsigned(b))
    case DIV => if b == 0 then 0 else Int(Quotient(a, b))
    case DIVU => if Unsigned(b) == 0 then 0 else Int(Unsigned(a) / Unsigned(b))
  }

  function Arithmetic(i: Instr, x: Operands, s: Space): Effect
    requires !IsControl(i.op) && !IsMemoryOp(i.op) && (IsShift(i.op) ==> i.extra >= 0)
  {
    if IsRegister(i.op) then Gpr(x, s, i.rd, RegisterValue(i.op, x.a, x.b))
    else if IsImmediate(i.op) then Gpr(x, s, i.rt, ImmediateValue(i.op, x.a, i.extra))
    else if IsShift(i.op) then Gpr(x, s, i.rd, ShiftValue(i.op, x.b, i.extra))
    else if IsTrapping(i.op) then Trapping(i, x, s)
    else if IsDouble(i.op) then HiLo(x, s, HiValue(i.op, x.a, x.b, x.hi), LoValue(i.op, x.a, x.b, x.lo))
    else match i.op
      case MFHI => Gpr(x, s, i.rd, x.hi)
      case MFLO => Gpr(x, s, i.rd, x.lo)
      case SYSCALL => Raise(SyscallException, 0, s.table)
      case RFE => Abort
      case _ => Raise(IllegalInstrException, 0, s.table)
  }

  function Execute(i: Instr, x: Operands, s: Space): Effect
    requires SpaceOk(s) && (IsShift(i.op) ==> i.extra >= 0)
  {
    if IsMemoryOp(i.op) then Access(i, x, s)
    else if IsControl(i.op) then Control(i, x, s)
    else Arithmetic(i, x, s)
  }

  // ---------------------------------------------------------------- the machine

  type Registers = r: seq<int> | |r| == NUM_REGS witness seq(NUM_REGS, _ => 0)

  datatype Cpu = Cpu(regs: Registers, space: Space)

  /** Machine words everywhere, R0 zero, the pending load aimed at a general register. */
  ghost predicate RegsOk(r: Registers) {
    && (forall k :: 0 <= k < NUM_REGS ==> IsInt(r[k]))
    && r[0] == 0
    && 0 <= r[LOAD_REG] < 32
  }

  ghost predicate CpuOk(c: Cpu) { RegsOk(c.regs) && SpaceOk(c.space) }

  function DelayedLoad(r: Registers, nextReg: int, nextValue: int): Registers
    requires 0 <= r[LOAD_REG] < 32
  {
    r[r[LOAD_REG] := r[LOAD_VALUE]][LOAD_REG := nextReg][LOAD_VALUE := nextValue][0 := 0]
  }

  /** The pending load applied, and none pending: what every trap and every tick does. */
  function Flush(r: Registers): Registers
    requires 0 <= r[LOAD_REG] < 32
  {
    DelayedLoad(r, 0, 0)
  }

  /** RaiseException up to the kernel's handler. */
  function Raised(r: Registers, bad: int): Registers
    requires 0 <= r[LOAD_REG] < 32
  {
    Flush(r[BAD_VADDR := bad])
  }

  function Forwarded(r: Registers, rt: nat): int
    requires rt < 32
  {
    if r[LOAD_REG] == rt then r[LOAD_VALUE] else r[rt]
  }

  function Fetched(r: Registers, i: Instr): Operands
    requires i.rs < 32 && i.rt < 32
  {
    Operands(r[i.rs], r[i.rt], r[HI], r[LO], r[NEXT_PC], Forwarded(r, i.rt))
  }

  /** The end of a completed instruction. */
  function Retire(r: Registers, dest: nat, value: int, hi: int, lo: int, pcAfter: int, loadReg: nat, loadValue: int): Registers
    requires 0 <= r[LOAD_REG] < 32 && dest < 32
  {
    var w := if dest == 0 then r else r[dest := value];
    DelayedLoad(w[HI := hi][LO := lo], loadReg, loadValue)[PREV_PC := r[PC]][PC := r[NEXT_PC]][NEXT_PC := pcAfter]
  }

  datatype Outcome = Completed(cpu: Cpu) | Trapped(cpu: Cpu, exc: Exception) | Aborted

  /** The instruction the machine would fetch, and the translation table after the fetch. */
  function Fetch(c: Cpu): Load
    requires SpaceOk(c.space)
  {
    ReadMem(c.space.mem, c.space.table, c.regs[PC], 4)
  }

  function OneInstruction(c: Cpu): Outcome
    requires SpaceOk(c.space) && 0 <= c.regs[LOAD_REG] < 32
  {
    match Fetch(c)
    case LoadFault(e) => Trapped(Cpu(Raised(c.regs, c.regs[PC]), c.space), e)
    case Loaded(raw, t) =>
      Run(c.regs, Decode(Unsigned(raw)), Space(c.space.mem, t))
  }

  /** The instruction proper, after its fetch. */
  function Run(r: Registers, i: Instr, s: Space): Outcome
    requires SpaceOk(s) && 0 <= r[LOAD_REG] < 32 && InstrOk(i)
  {
    Finished(r, s.mem, Execute(i, Fetched(r, i), s))
  }

  function Finished(r: Registers, mem: seq<Byte>, e: Effect): Outcome
    requires 0 <= r[LOAD_REG] < 32
  {
    match e
    case Raise(exc, bad, t) => Trapped(Cpu(Raised(r, bad), Space(mem, t)), exc)
    case Abort => Aborted
    case Done(dest, value, hi, lo, pcAfter, loadReg, loadValue, m, t) =>
      if dest < 32 then Completed(Cpu(Retire(r, dest, value, hi, lo, pcAfter, loadReg, loadValue), Space(m, t)))
      else Aborted
  }

  // ---------------------------------------------------------------- every step keeps the machine well formed

  predicate OperandsOk(x: Operands) {
    IsInt(x.a) && IsInt(x.b) && IsInt(x.hi) && IsInt(x.lo) && IsInt(x.next) && IsInt(x.fwd)
  }

  predicate EffectOk(e: Effect) {
    match e
    case Raise(_, bad, _) => IsInt(bad)
    case Abort => true
    case Done(dest, value, hi, lo, pcAfter, loadReg, loadValue, m, _) =>
      dest < 32 && IsInt(value) && IsInt(hi) && IsInt(lo) && IsInt(pcAfter) && loadReg < 32 && IsInt(loadValue)
      && |m| == MEMORY_SIZE
  }

  lemma {:induction false} ShiftsStayInts(x: int, n: nat)
    requires IsInt(x)
    ensures IsInt(ShiftRight(x, n))
    decreases n
  {
    if n > 0 {
      ShiftsStayInts(x, n - 1);
      HalfOf(x, Pow2(n - 1));
    }
  }

  lemma HalfOf(x: int, p: int)
    requires p > 0
    ensures x / (2 * p) == x / p / 2
  {
    var q, r := x / p, x % p;
    var h, l := q / 2, q % 2;
    assert x == h * (2 * p) + (l * p + r);
    assert 0 <= l * p + r < 2 * p;
    Unique(x, 2 * p, h, l * p + r);
  }

  lemma Unique(x: int, d: int, q: int, r: int)
    requires 0 <= r < d && x == q * d + r
    ensures x / d == q && x % d == r
  {
    Divided(x, d, q, r);
  }

  lemma AccessOk(i: Instr, x: Operands, s: Space)
    requires InstrOk(i) && OperandsOk(x) && SpaceOk(s) && IsMemoryOp(i.op)
    ensures EffectOk(Access(i, x, s))
  {
    if i.op in {SWL, SWR} {
      MergeOk(i, x, s);
    } else if i.op in {SB, SH, SW} {
      StoreOfOk(i, x, s, SizeOf(i.op), x.b);
    } else {
      LoadOfOk(i, x, s, SizeOf(i.op));
    }
  }

  lemma LoadOfOk(i: Instr, x: Operands, s: Space, size: int)
    requires InstrOk(i) && OperandsOk(x) && SpaceOk(s) && size in {1, 2, 4}
    ensures EffectOk(LoadOf(i, x, s, size))
  {
    var r := ReadMem(s.mem, s.table, Effective(i, x), size);
    if r.Loaded? {
      ShapedOk(i.op, r.value, x.fwd);
    }
  }

  lemma ShapedOk(op: Op, v: int, fwd: int)
    requires IsInt(v)
    ensures IsInt(Shaped(op, v, fwd))
  {
  }

  lemma StoreOfOk(i: Instr, x: Operands, s: Space, size: int, v: int)
    requires InstrOk(i) && OperandsOk(x) && SpaceOk(s) && size in {1, 2, 4}
    ensures EffectOk(StoreOf(i, x, s, size, v))
  {
  }

  lemma MergeOk(i: Instr, x: Operands, s: Space)
    requires InstrOk(i) && OperandsOk(x) && SpaceOk(s)
    ensures EffectOk(Merge(i, x, s))
  {
  }

  lemma ControlOk(i: Instr, x: Operands, s: Space)
    requires InstrOk(i) && OperandsOk(x) && SpaceOk(s) && IsControl(i.op)
    ensures EffectOk(Control(i, x, s))
  {
    if i.op in {J, JAL, JR, JALR} {
      JumpOk(i, x, s);
    } else {
      BranchOk(i, x, s, 0, 0);
      BranchOk(i, x, s, R31, Int(x.next + 4));
    }
  }

  lemma JumpOk(i: Instr, x: Operands, s: Space)
    requires InstrOk(i) && OperandsOk(x) && SpaceOk(s) && i.op in {J, JAL, JR, JALR}
    ensures EffectOk(Control(i, x, s))
  {
  }

  lemma BranchOk(i: Instr, x: Operands, s: Space, r: nat, v: int)
    requires OperandsOk(x) && SpaceOk(s) && r < 32 && IsInt(v)
    ensures EffectOk(Branch(i, x, s, r, v, true)) && EffectOk(Branch(i, x, s, r, v, false))
  {
  }

  lemma ArithmeticOk(i: Instr, x: Operands, s: Space)
    requires InstrOk(i) && OperandsOk(x) && SpaceOk(s) && !IsControl(i.op) && !IsMemoryOp(i.op)
    ensures EffectOk(Arithmetic(i, x, s))
  {
    if IsRegister(i.op) {
      RegisterValueOk(i.op, x.a, x.b);
    } else if IsImmediate(i.op) {
      ImmediateValueOk(i.op, x.a, i.extra);
    } else if IsShift(i.op) {
      ShiftsStayInts(x.b, i.extra);
    } else if IsDouble(i.op) {
      DoubleValueOk(i.op, x.a, x.b, x.hi, x.lo);
    }
  }

  lemma RegisterValueOk(op: Op, a: int, b: int)
    requires IsRegister(op) && IsInt(b)
    ensures IsInt(RegisterValue(op, a, b))
  {
    ShiftsStayInts(b, a % 32);
  }

  lemma ImmediateValueOk(op: Op, a: int, extra: int)
    requires IsImmediate(op)
    ensures IsInt(ImmediateValue(op, a, extra))
  {
  }

  lemma DoubleValueOk(op: Op, a: int, b: int, hi: int, lo: int)
    requires IsDouble(op) && IsInt(a) && IsInt(hi) && IsInt(lo)
    ensures IsInt(HiValue(op, a, b, hi)) && IsInt(LoValue(op, a, b, lo))
  {
  }

  /** Whatever the program in memory does, the machine stays well formed: R0 reads zero, every register
      holds a word and the pending load names a general register, so DelayedLoad never writes outside them. */
  lemma StepKeepsCpu(c: Cpu)
    requires CpuOk(c)
    ensures match OneInstruction(c)
            case Completed(d) => CpuOk(d)
            case Trapped(d, _) => CpuOk(d)
            case Aborted => true
  {
    if Fetch(c).Loaded? {
      var i := Decode(Unsigned(Fetch(c).value));
      var x, s := Fetched(c.regs, i), Space(c.space.mem, Fetch(c).table);
      if IsMemoryOp(i.op) {
        AccessOk(i, x, s);
      } else if IsControl(i.op) {
        ControlOk(i, x, s);
      } else {
        ArithmeticOk(i, x, s);
      }
      FinishedOk(c.regs, c.space.mem, Execute(i, x, s));
    }
  }

  lemma FinishedOk(r: Registers, mem: seq<Byte>, e: Effect)
    requires RegsOk(r) && EffectOk(e) && |mem| == MEMORY_SIZE
    ensures match Finished(r, mem, e)
            case Completed(d) => CpuOk(d)
            case Trapped(d, _) => CpuOk(d)
            case Aborted => e.Abort?
  {
  }

  // ---------------------------------------------------------------- faults are restartable

  /** The general registers an instruction reads as of now. The forwarded rt of LWL and LWR is not one. */
  function Reads(i: Instr): set<nat> {
    match i.op
    case BEQ => {i.rs, i.rt}    case BNE => {i.rs, i.rt}
    case ADD => {i.rs, i.rt}    case ADDU => {i.rs, i.rt}   case SUB => {i.rs, i.rt}   case SUBU => {i.rs, i.rt}
    case AND => {i.rs, i.rt}    case XOR => {i.rs, i.rt}    case NOR => {i.rs, i.rt}
    case SLT => {i.rs, i.rt}    case SLTU => {i.rs, i.rt}
    case SLLV => {i.rs, i.rt}   case SRAV => {i.rs, i.rt}   case SRLV => {i.rs, i.rt}
    case MULT => {i.rs, i.rt}   case MULTU => {i.rs, i.rt}  case DIV => {i.rs, i.rt}   case DIVU => {i.rs, i.rt}
    case SB => {i.rs, i.rt}     case SH => {i.rs, i.rt}     case SW => {i.rs, i.rt}
    case SWL => {i.rs, i.rt}    case SWR => {i.rs, i.rt}
    case SLL => {i.rt}          case SRA => {i.rt}          case SRL => {i.rt}
    case J => {} case JAL => {} case LUI => {} case MFHI => {} case MFLO => {}
    case SYSCALL => {} case UNIMP => {} case RES => {} case RFE => {}
    case _ => {i.rs}
  }

  /** The general register an instruction writes at once; a load's target is written one instruction later. */
  function Writes(i: Instr): set<nat> {
    match i.op
    case ADDI => {i.rt}  case ADDIU => {i.rt} case ANDI => {i.rt} case ORI => {i.rt} case XORI => {i.rt}
    case SLTI => {i.rt}  case SLTIU => {i.rt} case LUI => {i.rt}
    case BGEZAL => {R31} case BLTZAL => {R31} case JAL => {R31}
    case ADD => {i.rd}   case ADDU => {i.rd}  case SUB => {i.rd}  case SUBU => {i.rd} case AND => {i.rd}
    case OR => {i.rd}    case XOR => {i.rd}   case NOR => {i.rd}  case SLT => {i.rd}  case SLTU => {i.rd}
    case SLL => {i.rd}   case SRA => {i.rd}   case SRL => {i.rd}
    case SLLV => {i.rd}  case SRAV => {i.rd}  case SRLV => {i.rd}
    case MFHI => {i.rd}  case MFLO => {i.rd}  case JALR => {i.rd}
    case _ => {}
  }

  /** The instruction may be started again although the pending load of register l was applied early.
      A load pending for R0 is invisible to every instruction except LWR of R0. */
  predicate Restartable(i: Instr, l: int) {
    if l == 0 then i.op != LWR || i.rt != 0 else l !in Reads(i) && l !in Writes(i)
  }

  lemma LoadOfReads(i: Instr, x: Operands, y: Operands, s: Space, size: int)
    requires SpaceOk(s) && size in {1, 2, 4} && y == x.(b := y.b, fwd := y.fwd) && (i.op == LWR ==> x.fwd == y.fwd)
    ensures LoadOf(i, x, s, size) == LoadOf(i, y, s, size)
  {
    LoadDoneReads(ReadMem(s.mem, s.table, Effective(i, x), size), i, Effective(i, x), x, y, s);
  }

  lemma LoadDoneReads(r: Load, i: Instr, addr: int, x: Operands, y: Operands, s: Space)
    requires y == x.(b := y.b, fwd := y.fwd) && (i.op == LWR ==> x.fwd == y.fwd)
    ensures LoadDone(r, i, addr, x.hi, x.lo, x.next, x.fwd, s) == LoadDone(r, i, addr, y.hi, y.lo, y.next, y.fwd, s)
  {
  }

  lemma AccessReads(i: Instr, x: Operands, y: Operands, s: Space)
    requires InstrOk(i) && SpaceOk(s) && IsMemoryOp(i.op)
    requires y == x.(a := y.a, b := y.b, fwd := y.fwd) && (i.op == LWR ==> x.fwd == y.fwd)
    requires (i.rs in Reads(i) ==> x.a == y.a) && (i.rt in Reads(i) ==> x.b == y.b)
    ensures Access(i, x, s) == Access(i, y, s)
  {
    if IsStore(i.op) {
      StoreOfReads(i, x, y, s);
    } else {
      assert y == x.(b := y.b, fwd := y.fwd);
      LoadAccessReads(i, x, y, s);
    }
  }

  lemma LoadAccessReads(i: Instr, x: Operands, y: Operands, s: Space)
    requires SpaceOk(s) && IsMemoryOp(i.op) && !IsStore(i.op)
    requires y == x.(b := y.b, fwd := y.fwd) && (i.op == LWR ==> x.fwd == y.fwd)
    ensures Access(i, x, s) == Access(i, y, s)
  {
    LoadOfReads(i, x, y, s, SizeOf(i.op));
  }

  lemma StoreOfReads(i: Instr, x: Operands, y: Operands, s: Space)
    requires SpaceOk(s) && IsStore(i.op) && y == x.(fwd := y.fwd)
    ensures Access(i, x, s) == Access(i, y, s)
  {
    assert Effective(i, x) == Effective(i, y);
    assert forall z: Space, n, v :: SpaceOk(z) && n in {1, 2, 4} ==> StoreOf(i, x, z, n, v) == StoreOf(i, y, z, n, v);
  }

  lemma AccessWritesNothing(i: Instr, x: Operands, s: Space)
    requires SpaceOk(s) && IsMemoryOp(i.op)
    ensures Access(i, x, s).Done? ==> Access(i, x, s).dest == 0
  {
  }

  lemma ControlReads(i: Instr, x: Operands, y: Operands, s: Space)
    requires InstrOk(i) && SpaceOk(s) && IsControl(i.op)
    requires y == x.(a := y.a, b := y.b, fwd := y.fwd)
    requires (i.rs in Reads(i) ==> x.a == y.a) && (i.rt in Reads(i) ==> x.b == y.b)
    ensures Control(i, x, s) == Control(i, y, s)
    ensures Control(i, x, s).dest == 0 || Control(i, x, s).dest in Writes(i)
  {
  }

  lemma ArithmeticReads(i: Instr, x: Operands, y: Operands, s: Space)
    requires InstrOk(i) && SpaceOk(s) && !IsControl(i.op) && !IsMemoryOp(i.op)
    requires y == x.(a := y.a, b := y.b, fwd := y.fwd)
    requires (i.rs in Reads(i) ==> x.a == y.a) && (i.rt in Reads(i) ==> x.b == y.b)
    ensures Arithmetic(i, x, s) == Arithmetic(i, y, s)
  {
    if IsRegister(i.op) {
      assert x.a == y.a && (i.op == OR || x.b == y.b);
      assert RegisterValue(i.op, x.a, x.b) == RegisterValue(i.op, y.a, y.b);
    } else if IsImmediate(i.op) {
      assert i.op == LUI || x.a == y.a;
      assert ImmediateValue(i.op, x.a, i.extra) == ImmediateValue(i.op, y.a, i.extra);
    } else if IsShift(i.op) {
      assert x.b == y.b;
    } else if IsTrapping(i.op) {
      assert x.a == y.a && (i.op == ADDI || x.b == y.b);
      assert Trapping(i, x, s) == Trapping(i, y, s);
    } else if IsDouble(i.op) {
      assert x.a == y.a && (i.op in {MTHI, MTLO} || x.b == y.b);
      assert HiValue(i.op, x.a, x.b, x.hi) == HiValue(i.op, y.a, y.b, y.hi);
      assert LoValue(i.op, x.a, x.b, x.lo) == LoValue(i.op, y.a, y.b, y.lo);
    }
  }

  lemma ArithmeticWrites(i: Instr, x: Operands, s: Space)
    requires InstrOk(i) && SpaceOk(s) && !IsControl(i.op) && !IsMemoryOp(i.op)
    ensures var e := Arithmetic(i, x, s); e.Done? ==> e.dest == 0 || e.dest in Writes(i)
  {
    if IsRegister(i.op) || IsShift(i.op) {
      WritesRd(i);
    } else if IsImmediate(i.op) {
      WritesRt(i);
    }
  }

  lemma WritesRd(i: Instr)
    requires IsRegister(i.op) || IsShift(i.op)
    ensures Writes(i) == {i.rd}
  {
  }

  lemma WritesRt(i: Instr)
    requires IsImmediate(i.op)
    ensures Writes(i) == {i.rt}
  {
  }

  /** An instruction depends on no register operand it does not read. */
  lemma ExecuteReads(i: Instr, x: Operands, y: Operands, s: Space)
    requires InstrOk(i) && SpaceOk(s)
    requires y == x.(a := y.a, b := y.b, fwd := y.fwd) && (i.op == LWR ==> x.fwd == y.fwd)
    requires (i.rs in Reads(i) ==> x.a == y.a) && (i.rt in Reads(i) ==> x.b == y.b)
    ensures Execute(i, x, s) == Execute(i, y, s)
  {
    if IsMemoryOp(i.op) {
      AccessReads(i, x, y, s);
    } else if IsControl(i.op) {
      ControlReads(i, x, y, s);
    } else {
      ArithmeticReads(i, x, y, s);
    }
  }

  /** An instruction writes at once no general register but the one in Writes. */
  lemma ExecuteWrites(i: Instr, x: Operands, s: Space)
    requires InstrOk(i) && SpaceOk(s)
    ensures var e := Execute(i, x, s); e.Done? ==> e.dest == 0 || e.dest in Writes(i)
  {
    if IsMemoryOp(i.op) {
      AccessWritesNothing(i, x, s);
    } else if !IsControl(i.op) {
      ArithmeticWrites(i, x, s);
    }
  }

  lemma EarlyOperands(r: Registers, i: Instr, bad: int)
    requires RegsOk(r) && InstrOk(i) && Restartable(i, r[LOAD_REG])
    ensures var x, y := Fetched(r, i), Fetched(Raised(r, bad), i);
            && y == x.(a := y.a, b := y.b, fwd := y.fwd) && (i.op == LWR ==> x.fwd == y.fwd)
            && (i.rs in Reads(i) ==> x.a == y.a) && (i.rt in Reads(i) ==> x.b == y.b)
  {
  }

  lemma RetireAfterRaise(r: Registers, bad: int, dest: nat, value: int, hi: int, lo: int, pcAfter: int, loadReg: nat, loadValue: int)
    requires RegsOk(r) && dest < 32 && (dest == 0 || dest != r[LOAD_REG])
    ensures Retire(Raised(r, bad), dest, value, hi, lo, pcAfter, loadReg, loadValue)
            == Retire(r, dest, value, hi, lo, pcAfter, loadReg, loadValue)[BAD_VADDR := bad]
  {
  }

  /** The instruction c is about to execute, if its fetch succeeds. */
  ghost predicate NextIs(c: Cpu, p: Instr -> bool)
    requires SpaceOk(c.space)
  {
    Fetch(c).Loaded? ==> p(Decode(Unsigned(Fetch(c).value)))
  }

  ghost predicate NextRestartable(c: Cpu)
    requires SpaceOk(c.space)
  {
    NextIs(c, i => Restartable(i, c.regs[LOAD_REG]))
  }

  /** Two outcomes that differ at most in BadVAddr. */
  predicate SameOutcome(o: Outcome, p: Outcome) {
    match o
    case Completed(d) => p.Completed? && p.cpu.space == d.space && p.cpu.regs[BAD_VADDR := 0] == d.regs[BAD_VADDR := 0]
    case Trapped(_, _) => o == p
    case Aborted => p.Aborted?
  }

  lemma RaisedTwice(r: Registers, bad: int, again: int)
    requires RegsOk(r)
    ensures Raised(Raised(r, bad), again) == Raised(r, again)
  {
  }

  /** Raising an exception before an instruction that does not touch the pending load changes nothing
      the instruction can tell. */
  lemma RaiseIsInvisible(c: Cpu, bad: int)
    requires CpuOk(c) && NextRestartable(c)
    ensures SameOutcome(OneInstruction(c), OneInstruction(c.(regs := Raised(c.regs, bad))))
  {
    var f := c.(regs := Raised(c.regs, bad));
    assert Fetch(f) == Fetch(c);
    if Fetch(c).LoadFault? {
      RaisedTwice(c.regs, bad, c.regs[PC]);
    } else {
      var i := Decode(Unsigned(Fetch(c).value));
      var s := Space(c.space.mem, Fetch(c).table);
      EarlyOperands(c.regs, i, bad);
      ExecuteReads(i, Fetched(c.regs, i), Fetched(f.regs, i), s);
      ExecuteWrites(i, Fetched(c.regs, i), s);
      SameFinish(c.regs, bad, c.space.mem, Execute(i, Fetched(c.regs, i), s));
    }
  }

  lemma SameFinish(r: Registers, bad: int, mem: seq<Byte>, e: Effect)
    requires RegsOk(r) && (e.Done? ==> e.dest == 0 || e.dest != r[LOAD_REG])
    ensures SameOutcome(Finished(r, mem, e), Finished(Raised(r, bad), mem, e))
  {
    match e
    case Raise(_, b, _) => RaisedTwice(r, bad, b);
    case Abort =>
    case Done(dest, value, hi, lo, pcAfter, loadReg, loadValue, m, t) =>
      if dest < 32 {
        RetireAfterRaise(r, bad, dest, value, hi, lo, pcAfter, loadReg, loadValue);
      }
  }

  /** Every attempt to execute the instruction at PC faults; after each one the kernel leaves the
      registers alone and memory and translation as services says. */
  ghost predicate Faults(c: Cpu, services: seq<Space>)
    requires CpuOk(c) && (forall s :: s in services ==> SpaceOk(s))
    decreases |services|
  {
    services == [] ||
    var o := OneInstruction(c);
    StepKeepsCpu(c);
    o.Trapped? && Faults(o.cpu.(space := services[0]), services[1..])
  }

  /** The machine when the last of those attempts has been serviced. */
  ghost function Serviced(c: Cpu, services: seq<Space>): Cpu
    requires CpuOk(c) && (forall s :: s in services ==> SpaceOk(s)) && Faults(c, services)
    decreases |services|
  {
    if services == [] then c
    else
      StepKeepsCpu(c);
      Serviced(OneInstruction(c).cpu.(space := services[0]), services[1..])
  }

  lemma TrapOnlyRaises(c: Cpu)
    requires CpuOk(c) && OneInstruction(c).Trapped?
    ensures OneInstruction(c).cpu.regs == Raised(c.regs, OneInstruction(c).cpu.regs[BAD_VADDR])
  {
    if Fetch(c).Loaded? {
      var i := Decode(Unsigned(Fetch(c).value));
      FinishOnlyRaises(c.regs, c.space.mem, Execute(i, Fetched(c.regs, i), Space(c.space.mem, Fetch(c).table)));
    }
  }

  lemma FinishOnlyRaises(r: Registers, mem: seq<Byte>, e: Effect)
    requires RegsOk(r) && Finished(r, mem, e).Trapped?
    ensures Finished(r, mem, e).cpu.regs == Raised(r, Finished(r, mem, e).cpu.regs[BAD_VADDR])
  {
  }

  lemma {:induction false} ServicedOnlyRaises(c: Cpu, services: seq<Space>)
    requires CpuOk(c) && (forall s :: s in services ==> SpaceOk(s)) && Faults(c, services) && services != []
    ensures var f := Serviced(c, services);
            f.space == services[|services| - 1] && f.regs == Raised(c.regs, f.regs[BAD_VADDR])
    decreases |services|
  {
    StepKeepsCpu(c);
    TrapOnlyRaises(c);
    var d := OneInstruction(c).cpu;
    if |services| > 1 {
      ServicedOnlyRaises(d.(space := services[0]), services[1..]);
      RaisedTwice(c.regs, d.regs[BAD_VADDR], Serviced(c, services).regs[BAD_VADDR]);
    } else {
      assert Serviced(c, services) == d.(space := services[0]);
    }
  }

  /** Faults are restartable. However many times the fetch or the data access of an instruction faults,
      the attempt after the last service ends as if the program had run, uninterrupted, into memory as
      that service left it: same general registers, HI, LO, program counters, pending load and memory. */
  lemma FaultsAreTransparent(c: Cpu, services: seq<Space>)
    requires CpuOk(c) && (forall s :: s in services ==> SpaceOk(s)) && Faults(c, services) && services != []
    requires NextRestartable(c.(space := services[|services| - 1]))
    ensures CpuOk(Serviced(c, services))
    ensures SameOutcome(OneInstruction(c.(space := services[|services| - 1])), OneInstruction(Serviced(c, services)))
  {
    ServicedOnlyRaises(c, services);
    var clean, f := c.(space := services[|services| - 1]), Serviced(c, services);
    ServicedOk(c, services);
    RaiseIsInvisible(clean, f.regs[BAD_VADDR]);
    assert f == clean.(regs := Raised(clean.regs, f.regs[BAD_VADDR]));
  }

  lemma {:induction false} ServicedOk(c: Cpu, services: seq<Space>)
    requires CpuOk(c) && (forall s :: s in services ==> SpaceOk(s)) && Faults(c, services)
    ensures CpuOk(Serviced(c, services))
    decreases |services|
  {
    if services != [] {
      StepKeepsCpu(c);
      ServicedOk(OneInstruction(c).cpu.(space := services[0]), services[1..]);
    }
  }

  /** The DelayedLoad(0, 0) that precedes a simulated interrupt is invisible in the same way. */
  lemma InterruptsAreTransparent(c: Cpu)
    requires CpuOk(c) && NextRestartable(c)
    ensures SameOutcome(OneInstruction(c), OneInstruction(c.(regs := Flush(c.regs))))
  {
    assert c.regs[BAD_VADDR := c.regs[BAD_VADDR]] == c.regs;
    RaiseIsInvisible(c, c.regs[BAD_VADDR]);
  }

  /** Why the condition: an instruction that writes the pending register loses to the load when it runs
      straight through, but wins when it is restarted. */
  lemma WriteHazard(r: Registers, i: Instr, s: Space, bad: int)
    requires RegsOk(r) && InstrOk(i) && SpaceOk(s) && r[LOAD_REG] != 0 && r[LOAD_REG] !in Reads(i)
    requires var e := Execute(i, Fetched(r, i), s); e.Done? && e.dest == r[LOAD_REG]
    ensures var l := r[LOAD_REG];
            var o, p := Run(r, i, s), Run(Raised(r, bad), i, s);
            && o.Completed? && o.cpu.regs[l] == r[LOAD_VALUE]
            && p.Completed? && p.cpu.regs[l] == Execute(i, Fetched(r, i), s).value
  {
    var x, y := Fetched(r, i), Fetched(Raised(r, bad), i);
    AccessWritesHere(i, x, s);
    ExecuteReads(i, x, y, s);
    WinsOrLoses(r, bad, s.mem, Execute(i, x, s));
  }

  lemma WinsOrLoses(r: Registers, bad: int, mem: seq<Byte>, e: Effect)
    requires RegsOk(r) && e.Done? && e.dest == r[LOAD_REG] != 0
    ensures var o, p := Finished(r, mem, e), Finished(Raised(r, bad), mem, e);
            o.Completed? && o.cpu.regs[e.dest] == r[LOAD_VALUE] && p.Completed? && p.cpu.regs[e.dest] == e.value
  {
  }

  lemma AccessWritesHere(i: Instr, x: Operands, s: Space)
    requires SpaceOk(s) && InstrOk(i)
    ensures IsMemoryOp(i.op) && Execute(i, x, s).Done? ==> Execute(i, x, s).dest == 0
  {
    if IsMemoryOp(i.op) {
      AccessWritesNothing(i, x, s);
    }
  }

  /** An instruction that reads the pending register gets the old value when it runs straight through and
      the loaded one when it is restarted. For ADDU the two runs agree exactly when the load changes nothing,
      or when both operands are the register and the load changes its top bit only. */
  lemma ReadHazard(r: Registers, i: Instr, s: Space, bad: int)
    requires RegsOk(r) && InstrOk(i) && SpaceOk(s) && i.op == ADDU
    requires r[LOAD_REG] != 0 && r[LOAD_REG] in {i.rs, i.rt} && i.rd !in {0, r[LOAD_REG]}
    ensures var u, v := r[r[LOAD_REG]], r[LOAD_VALUE];
            SameOutcome(Run(r, i, s), Run(Raised(r, bad), i, s)) <==> u == v || (i.rs == i.rt && (u - v) % HALF == 0)
  {
    var p, q := AdduSums(r, i, bad);
    AdduDecides(r, i, s, bad, p, q);
  }

  lemma AdduSums(r: Registers, i: Instr, bad: int) returns (p: int, q: int)
    requires RegsOk(r) && InstrOk(i) && r[LOAD_REG] != 0 && r[LOAD_REG] in {i.rs, i.rt}
    ensures var x, y := Fetched(r, i), Fetched(Raised(r, bad), i); p == x.a + x.b && q == y.a + y.b
    ensures var u, v := r[r[LOAD_REG]], r[LOAD_VALUE];
            Int(p) == Int(q) <==> u == v || (i.rs == i.rt && (u - v) % HALF == 0)
  {
    var x, y := Fetched(r, i), Fetched(Raised(r, bad), i);
    FetchedPending(r, i, bad);
    SumsDecide(x.a, x.b, r[r[LOAD_REG]], r[LOAD_VALUE], i.rs == r[LOAD_REG], i.rt == r[LOAD_REG]);
    p, q := x.a + x.b, y.a + y.b;
  }

  lemma AdduDecides(r: Registers, i: Instr, s: Space, bad: int, p: int, q: int)
    requires RegsOk(r) && InstrOk(i) && SpaceOk(s) && i.op == ADDU && i.rd !in {0, r[LOAD_REG]}
    requires var x, y := Fetched(r, i), Fetched(Raised(r, bad), i); p == x.a + x.b && q == y.a + y.b
    ensures SameOutcome(Run(r, i, s), Run(Raised(r, bad), i, s)) <==> Int(p) == Int(q)
  {
    var x, y := Fetched(r, i), Fetched(Raised(r, bad), i);
    ExecuteAddu(i, x, s);
    ExecuteAddu(i, y, s);
    OnlyValueDiffers(r, bad, s.mem, Gpr(x, s, i.rd, Int(p)), Int(q));
  }

  /** The operands after an exception: the pending register holds the loaded value. */
  lemma FetchedPending(r: Registers, i: Instr, bad: int)
    requires RegsOk(r) && InstrOk(i) && r[LOAD_REG] != 0
    ensures var x, y := Fetched(r, i), Fetched(Raised(r, bad), i);
            y == x.(a := if i.rs == r[LOAD_REG] then r[LOAD_VALUE] else x.a,
                    b := if i.rt == r[LOAD_REG] then r[LOAD_VALUE] else x.b, fwd := y.fwd)
    ensures IsInt(r[i.rs]) && IsInt(r[i.rt]) && IsInt(r[LOAD_VALUE])
  {
  }

  lemma SumsDecide(a: int, b: int, u: int, v: int, first: bool, second: bool)
    requires IsInt(a) && IsInt(b) && IsInt(u) && IsInt(v) && (first || second) && (first ==> a == u) && (second ==> b == u)
    ensures Int(a + b) == Int((if first then v else a) + (if second then v else b))
            <==> u == v || (first && second && (u - v) % HALF == 0)
  {
    if first && second {
      TwicesDiffer(u, v);
    } else if first {
      SumsDiffer(u, v, b);
    } else {
      SumsDiffer(u, v, a);
    }
  }

  lemma TwicesDiffer(u: int, v: int)
    requires IsInt(u) && IsInt(v)
    ensures Int(u + u) == Int(v + v) <==> (u - v) % HALF == 0
  {
    SameInts(u + u, v + v);
    HalfOfMultiple(u - v);
    assert u + u - (v + v) == 2 * (u - v);
  }

  lemma SameInts(a: int, b: int)
    ensures Int(a) == Int(b) <==> (a - b) % W == 0
  {
    var q, p := a / W, b / W;
    assert a - b == W * (q - p) + (a % W - b % W);
  }

  lemma HalfOfMultiple(d: int)
    ensures (2 * d) % W == 0 <==> d % HALF == 0
  {
    var q, r := d / HALF, d % HALF;
    assert 2 * d == W * q + 2 * r;
  }

  predicate PlainLoad(op: Op) { op in {LB, LBU, LH, LHU, LW} }

  predicate PlainStore(op: Op) { op in {SB, SH, SW} }

  /** Two outcomes of one instruction agree when they have the same effect, for effects that write no
      register at once; otherwise something a program can see differs. */
  lemma EffectsDecide(r: Registers, bad: int, mem: seq<Byte>, e: Effect, g: Effect)
    requires RegsOk(r) && (e.Done? ==> e.dest == 0 && e.loadReg < 32 && e.value == 0)
    requires g.Done? ==> g.dest == 0 && g.loadReg < 32 && g.value == 0
    ensures SameOutcome(Finished(r, mem, e), Finished(Raised(r, bad), mem, g)) <==> e == g
  {
    if e == g {
      SameFinish(r, bad, mem, e);
    } else if e.Done? && g.Done? {
      DoneDecides(r, bad, mem, e, g);
    } else if e.Raise? && g.Raise? {
      RaiseDecides(r, bad, mem, e, g);
    }
  }

  lemma RaiseDecides(r: Registers, bad: int, mem: seq<Byte>, e: Effect, g: Effect)
    requires RegsOk(r) && e.Raise? && g.Raise?
    ensures Finished(r, mem, e) == Finished(Raised(r, bad), mem, g) ==> e == g
  {
    assert Raised(r, e.bad)[BAD_VADDR] == e.bad && Raised(Raised(r, bad), g.bad)[BAD_VADDR] == g.bad;
  }

  lemma DoneDecides(r: Registers, bad: int, mem: seq<Byte>, e: Effect, g: Effect)
    requires RegsOk(r) && e.Done? && g.Done? && e.dest == g.dest == 0 && e.value == g.value == 0
    requires e.loadReg < 32 && g.loadReg < 32
    ensures SameOutcome(Finished(r, mem, e), Finished(Raised(r, bad), mem, g)) ==> e == g
  {
    var o, p := Finished(r, mem, e), Finished(Raised(r, bad), mem, g);
    var a, b := o.cpu.regs[BAD_VADDR := 0], p.cpu.regs[BAD_VADDR := 0];
    assert a[HI] == e.hi && a[LO] == e.lo && a[NEXT_PC] == e.pcAfter && a[LOAD_REG] == e.loadReg && a[LOAD_VALUE] == e.loadValue;
    assert b[HI] == g.hi && b[LO] == g.lo && b[NEXT_PC] == g.pcAfter && b[LOAD_REG] == g.loadReg && b[LOAD_VALUE] == g.loadValue;
  }

  /** Plain loads and stores in terms of what memory answers. */
  lemma PlainLoadIsLoad(i: Instr, x: Operands, s: Space)
    requires InstrOk(i) && SpaceOk(s) && PlainLoad(i.op)
    ensures Execute(i, x, s) == LoadDone(ReadMem(s.mem, s.table, Effective(i, x), SizeOf(i.op)), i, Effective(i, x), x.hi, x.lo, x.next, 0, s)
  {
  }

  lemma PlainStoreIsStore(i: Instr, x: Operands, s: Space)
    requires InstrOk(i) && SpaceOk(s) && PlainStore(i.op)
    ensures Execute(i, x, s) == StoreDone(WriteMem(s.mem, s.table, Effective(i, x), SizeOf(i.op), x.b), Effective(i, x), x.hi, x.lo, x.next, s)
  {
    assert IsMemoryOp(i.op) && IsStore(i.op) && AlignmentOf(i.op, Effective(i, x)) == Fine;
  }

  /** An effect that writes no register at once. */
  predicate Delayed(e: Effect) { e.Done? ==> e.dest == 0 && e.loadReg < 32 && e.value == 0 }

  /** The two runs of an instruction whose effects are known. */
  lemma RestartDecides(r: Registers, i: Instr, s: Space, bad: int, e: Effect, g: Effect)
    requires RegsOk(r) && InstrOk(i) && SpaceOk(s) && Delayed(e) && Delayed(g)
    requires e == Execute(i, Fetched(r, i), s) && g == Execute(i, Fetched(Raised(r, bad), i), s)
    ensures SameOutcome(Run(r, i, s), Run(Raised(r, bad), i, s)) <==> e == g
  {
    EffectsDecide(r, bad, s.mem, e, g);
  }

  lemma LoadsDecide(i: Instr, x: Operands, s: Space, l: Load, a: int, k: Load, b: int)
    requires InstrOk(i) && (a == b ==> l == k)
    ensures var e, g := LoadDone(l, i, a, x.hi, x.lo, x.next, 0, s), LoadDone(k, i, b, x.hi, x.lo, x.next, 0, s);
            && Delayed(e) && Delayed(g)
            && (e == g <==>
                a == b || (l.Loaded? && k.Loaded? && l.table == k.table && Shaped(i.op, l.value, 0) == Shaped(i.op, k.value, 0)))
  {
  }

  lemma StoresDecide(x: Operands, s: Space, m: Memory.Store, a: int, k: Memory.Store, b: int)
    ensures var e, g := StoreDone(m, a, x.hi, x.lo, x.next, s), StoreDone(k, b, x.hi, x.lo, x.next, s);
            Delayed(e) && Delayed(g) && (e == g <==> m == k && (a == b || m.Stored?))
  {
  }

  lemma LoadEffect(i: Instr, x: Operands, s: Space, l: Load, a: int) returns (e: Effect)
    requires InstrOk(i) && SpaceOk(s) && PlainLoad(i.op) && a == Effective(i, x) && l == ReadMem(s.mem, s.table, a, SizeOf(i.op))
    ensures e == Execute(i, x, s) && e == LoadDone(l, i, a, x.hi, x.lo, x.next, 0, s)
  {
    PlainLoadIsLoad(i, x, s);
    e := LoadDone(l, i, a, x.hi, x.lo, x.next, 0, s);
  }

  lemma StoreEffect(i: Instr, x: Operands, s: Space, m: Memory.Store, a: int) returns (e: Effect)
    requires InstrOk(i) && SpaceOk(s) && PlainStore(i.op) && a == Effective(i, x)
    requires m == WriteMem(s.mem, s.table, a, SizeOf(i.op), x.b)
    ensures e == Execute(i, x, s) && e == StoreDone(m, a, x.hi, x.lo, x.next, s)
  {
    PlainStoreIsStore(i, x, s);
    e := StoreDone(m, a, x.hi, x.lo, x.next, s);
  }

  lemma LoadEffects(r: Registers, i: Instr, s: Space, bad: int) returns (e: Effect, g: Effect)
    requires RegsOk(r) && InstrOk(i) && SpaceOk(s) && PlainLoad(i.op) && i.rs == r[LOAD_REG] != 0
    ensures e == Execute(i, Fetched(r, i), s) && g == Execute(i, Fetched(Raised(r, bad), i), s) && Delayed(e) && Delayed(g)
    ensures var a, b := Int(r[i.rs] + i.extra), Int(r[LOAD_VALUE] + i.extra);
            var l, k := ReadMem(s.mem, s.table, a, SizeOf(i.op)), ReadMem(s.mem, s.table, b, SizeOf(i.op));
            e == g <==>
            a == b || (l.Loaded? && k.Loaded? && l.table == k.table && Shaped(i.op, l.value, 0) == Shaped(i.op, k.value, 0))
  {
    var a, b, n := Int(r[i.rs] + i.extra), Int(r[LOAD_VALUE] + i.extra), SizeOf(i.op);
    var x, y := Fetched(r, i), Fetched(Raised(r, bad), i);
    FetchedPending(r, i, bad);
    var l, k := ReadMem(s.mem, s.table, a, n), ReadMem(s.mem, s.table, b, n);
    e := LoadEffect(i, x, s, l, a);
    g := LoadEffect(i, y, s, k, b);
    LoadsDecide(i, x, s, l, a, k, b);
  }

  /** The effects of a plain store before and after an exception. */
  lemma StoreEffects(r: Registers, i: Instr, s: Space, bad: int, b: int, v: int) returns (e: Effect, g: Effect)
    requires RegsOk(r) && InstrOk(i) && SpaceOk(s) && PlainStore(i.op) && r[LOAD_REG] != 0
    requires b == Int((if i.rs == r[LOAD_REG] then r[LOAD_VALUE] else r[i.rs]) + i.extra)
    requires v == if i.rt == r[LOAD_REG] then r[LOAD_VALUE] else r[i.rt]
    ensures e == Execute(i, Fetched(r, i), s) && g == Execute(i, Fetched(Raised(r, bad), i), s) && Delayed(e) && Delayed(g)
    ensures var a, n := Int(r[i.rs] + i.extra), SizeOf(i.op);
            var m, k := WriteMem(s.mem, s.table, a, n, r[i.rt]), WriteMem(s.mem, s.table, b, n, v);
            e == g <==> m == k && (a == b || m.Stored?)
  {
    var a, n := Int(r[i.rs] + i.extra), SizeOf(i.op);
    var x, y := Fetched(r, i), Fetched(Raised(r, bad), i);
    FetchedPending(r, i, bad);
    var m, k := WriteMem(s.mem, s.table, a, n, r[i.rt]), WriteMem(s.mem, s.table, b, n, v);
    e := StoreEffect(i, x, s, m, a);
    g := StoreEffect(i, y, s, k, b);
    StoresDecide(x, s, m, a, k, b);
  }

  /** A load whose address comes from the pending register: the two runs agree exactly when the addresses
      are the same, or both can be read and give the same value and the same table. */
  lemma LoadAddressHazard(r: Registers, i: Instr, s: Space, bad: int)
    requires RegsOk(r) && InstrOk(i) && SpaceOk(s) && PlainLoad(i.op) && i.rs == r[LOAD_REG] != 0
    ensures var a, b := Int(r[i.rs] + i.extra), Int(r[LOAD_VALUE] + i.extra);
            var l, k := ReadMem(s.mem, s.table, a, SizeOf(i.op)), ReadMem(s.mem, s.table, b, SizeOf(i.op));
            SameOutcome(Run(r, i, s), Run(Raised(r, bad), i, s)) <==>
            a == b || (l.Loaded? && k.Loaded? && l.table == k.table && Shaped(i.op, l.value, 0) == Shaped(i.op, k.value, 0))
  {
    var e, g := LoadEffects(r, i, s, bad);
    RestartDecides(r, i, s, bad, e, g);
  }

  /** A store of the pending register: the two runs agree exactly when the store is refused or the bytes
      stored are the same. */
  lemma StoreValueHazard(r: Registers, i: Instr, s: Space, bad: int)
    requires RegsOk(r) && InstrOk(i) && SpaceOk(s) && PlainStore(i.op) && i.rt == r[LOAD_REG] != 0 && i.rs != i.rt
    ensures var u, v, n := r[i.rt], r[LOAD_VALUE], SizeOf(i.op);
            SameOutcome(Run(r, i, s), Run(Raised(r, bad), i, s)) <==>
            WriteMem(s.mem, s.table, Int(r[i.rs] + i.extra), n, u).StoreFault? || u % Radix(n) == v % Radix(n)
  {
    var a := Int(r[i.rs] + i.extra);
    var e, g := StoreEffects(r, i, s, bad, a, r[LOAD_VALUE]);
    RestartDecides(r, i, s, bad, e, g);
    WritesDecide(s.mem, s.table, a, SizeOf(i.op), r[i.rt], r[LOAD_VALUE]);
  }

  lemma WritesDecide(mem: seq<Byte>, t: Table, a: int, n: int, u: int, v: int)
    requires |mem| == MEMORY_SIZE && n in {1, 2, 4}
    ensures WriteMem(mem, t, a, n, u) == WriteMem(mem, t, a, n, v) <==>
            WriteMem(mem, t, a, n, u).StoreFault? || u % Radix(n) == v % Radix(n)
  {
    if WriteMem(mem, t, a, n, u).Stored? {
      PhysicalBound(t, a, n, true);
      SplicesDecide(mem, Translate(t, a, n, true).phys, Bytes(u, n), Bytes(v, n));
      BytesRoundTrip(u, n);
      BytesRoundTrip(v, n);
      BytesOfLow(u, n);
      BytesOfLow(v, n);
    }
  }

  lemma SplicesDecide(mem: seq<Byte>, at: nat, b: seq<Byte>, c: seq<Byte>)
    requires at + |b| <= |mem| && |b| == |c|
    ensures Splice(mem, at, b) == Splice(mem, at, c) <==> b == c
  {
    assert Splice(mem, at, b)[at..at + |b|] == b && Splice(mem, at, c)[at..at + |c|] == c;
  }

  /** A store whose address comes from the pending register: the two runs agree exactly when the addresses
      are the same, or neither store is refused and both leave the same memory and table. */
  lemma StoreAddressHazard(r: Registers, i: Instr, s: Space, bad: int)
    requires RegsOk(r) && InstrOk(i) && SpaceOk(s) && PlainStore(i.op) && i.rs == r[LOAD_REG] != 0 && i.rs != i.rt
    ensures var a, b, n := Int(r[i.rs] + i.extra), Int(r[LOAD_VALUE] + i.extra), SizeOf(i.op);
            var m, k := WriteMem(s.mem, s.table, a, n, r[i.rt]), WriteMem(s.mem, s.table, b, n, r[i.rt]);
            SameOutcome(Run(r, i, s), Run(Raised(r, bad), i, s)) <==> a == b || (m.Stored? && m == k)
  {
    var e, g := StoreEffects(r, i, s, bad, Int(r[LOAD_VALUE] + i.extra), r[i.rt]);
    RestartDecides(r, i, s, bad, e, g);
  }

  lemma ExecuteAddu(i: Instr, x: Operands, s: Space)
    requires InstrOk(i) && SpaceOk(s) && i.op == ADDU
    ensures Execute(i, x, s) == Gpr(x, s, i.rd, Int(x.a + x.b))
  {
  }

  lemma OnlyValueDiffers(r: Registers, bad: int, mem: seq<Byte>, e: Effect, v: int)
    requires RegsOk(r) && e.Done? && e.dest < 32 && e.dest !in {0, r[LOAD_REG]}
    ensures SameOutcome(Finished(r, mem, e), Finished(Raised(r, bad), mem, e.(value := v))) <==> e.value == v
  {
    var o, p := Finished(r, mem, e), Finished(Raised(r, bad), mem, e.(value := v));
    assert o.cpu.regs[BAD_VADDR := 0][e.dest] == e.value;
    assert p.cpu.regs[BAD_VADDR := 0][e.dest] == v;
    if e.value == v {
      SameFinish(r, bad, mem, e);
    }
  }

  lemma SumsDiffer(u: int, v: int, b: int)
    requires IsInt(u) && IsInt(v) && IsInt(b)
    ensures Int(u + b) == Int(v + b) ==> u == v
  {
  }

  // ---------------------------------------------------------------- the architecture's promises

  /** A load arrives one instruction late, and then whatever that instruction does to the register. */
  lemma LoadsArriveLate(c: Cpu)
    requires CpuOk(c) && OneInstruction(c).Completed? && c.regs[LOAD_REG] != 0
    ensures OneInstruction(c).cpu.regs[c.regs[LOAD_REG]] == c.regs[LOAD_VALUE]
  {
    var i := Decode(Unsigned(Fetch(c).value));
    LandsAtTheEnd(c.regs, c.space.mem, Execute(i, Fetched(c.regs, i), Space(c.space.mem, Fetch(c).table)));
  }

  lemma LandsAtTheEnd(r: Registers, mem: seq<Byte>, e: Effect)
    requires RegsOk(r) && r[LOAD_REG] != 0 && Finished(r, mem, e).Completed?
    ensures Finished(r, mem, e).cpu.regs[r[LOAD_REG]] == r[LOAD_VALUE]
  {
  }

  /** LW of rt leaves rt alone, as the instruction before it left it, and makes the word the pending load. */
  lemma LoadsAreDelayed(r: Registers, i: Instr, s: Space)
    requires RegsOk(r) && InstrOk(i) && SpaceOk(s) && i.op == LW && Run(r, i, s).Completed?
    ensures var d := Run(r, i, s).cpu;
            && d.regs[i.rt] == (if i.rt == 0 then 0 else Forwarded(r, i.rt))
            && d.regs[LOAD_REG] == i.rt
            && Loaded(d.regs[LOAD_VALUE], d.space.table) == ReadMem(s.mem, s.table, Int(r[i.rs] + i.extra), 4)
            && d.space.mem == s.mem
  {
    var e := Execute(i, Fetched(r, i), s);
    assert e == LoadOf(i, Fetched(r, i), s, 4);
  }

  /** The instruction after a branch or jump is executed before the target: two instructions after c the
      program counter is where c's instruction sent it. */
  lemma BranchesAreDelayed(c: Cpu)
    requires CpuOk(c) && OneInstruction(c).Completed? && CpuOk(OneInstruction(c).cpu)
    requires OneInstruction(OneInstruction(c).cpu).Completed?
    ensures var i := Decode(Unsigned(Fetch(c).value));
            var e := Execute(i, Fetched(c.regs, i), Space(c.space.mem, Fetch(c).table));
            && OneInstruction(c).cpu.regs[PC] == c.regs[NEXT_PC]
            && OneInstruction(OneInstruction(c).cpu).cpu.regs[PC] == OneInstruction(c).cpu.regs[NEXT_PC] == e.pcAfter
  {
    var d := OneInstruction(c).cpu;
    AfterStep(d);
    AfterStep(c);
  }

  lemma AfterStep(c: Cpu)
    requires CpuOk(c) && OneInstruction(c).Completed?
    ensures Fetch(c).Loaded?
    ensures var i := Decode(Unsigned(Fetch(c).value));
            var e := Execute(i, Fetched(c.regs, i), Space(c.space.mem, Fetch(c).table));
            && e.Done?
            && OneInstruction(c).cpu.regs[PC] == c.regs[NEXT_PC]
            && OneInstruction(c).cpu.regs[NEXT_PC] == e.pcAfter
  {
  }

  /** The sign-bit tests are exact: ADD, ADDI and SUB trap if and only if the true result is not a word,
      and otherwise deliver the true result. */
  lemma OverflowIsExact(i: Instr, x: Operands, s: Space)
    requires InstrOk(i) && OperandsOk(x) && IsTrapping(i.op)
    ensures var truth := match i.op case ADD => x.a + x.b case ADDI => x.a + i.extra case _ => x.a - x.b;
            Trapping(i, x, s) == if IsInt(truth) then Gpr(x, s, if i.op == ADDI then i.rt else i.rd, truth) else Overflow(s)
  {
  }

  /** DIV: the quotient truncates toward zero and the remainder takes the sign of the dividend. */
  lemma DivisionLaw(a: int, b: int)
    requires b != 0
    ensures a == b * Quotient(a, b) + Remainder(a, b)
    ensures Abs(Remainder(a, b)) < Abs(b)
    ensures Remainder(a, b) == 0 || SameSign(Remainder(a, b), a)
  {
    var m, n := Abs(a), Abs(b);
    assert m == n * (m / n) + m % n;
  }

  /** SRL and SRLV shift in the sign, unlike the architecture's logical shift: the two agree exactly when
      the word is not negative or the distance is zero. */
  lemma ShiftIsLogicalExactlyWhen(b: int, n: nat)
    requires IsInt(b)
    ensures ShiftRight(b, n) == Int(Unsigned(b) / Pow2(n)) <==> b >= 0 || n == 0
  {
    if n == 0 {
      NotOf(b);
    } else {
      assert Pow2(n) == 2 * Pow2(n - 1);
      ShiftOfSign(b, Pow2(n));
    }
  }

  lemma ShiftOfSign(b: int, p: int)
    requires IsInt(b) && p >= 2
    ensures b >= 0 ==> Int(Unsigned(b) / p) == b / p
    ensures b < 0 ==> Int(Unsigned(b) / p) >= 0 > b / p
  {
    QuotientShrinks(Unsigned(b), p);
    if b < 0 {
      NegativeQuotient(b, p);
    }
  }

  lemma QuotientShrinks(u: nat, p: int)
    requires p >= 2
    ensures 0 <= u / p <= u / 2
  {
    assert u / p * 2 <= u / p * p <= u;
  }

  lemma NegativeQuotient(b: int, p: int)
    requires b < 0 < p
    ensures b / p < 0
  {
  }

  lemma {:induction false} OrWithItself(x: nat)
    ensures OrBits(x, x) == x
  {
    if x > 0 {
      OrWithItself(x / 2);
    }
  }

  lemma {:induction false} OrAddsNothing(x: nat, y: nat, n: nat)
    requires x < Pow2(n) && y < Pow2(n)
    ensures OrBits(x, y) == x <==> AndBits(y, Pow2(n) - 1 - x) == 0
    decreases n
  {
    if n > 0 {
      OrAddsNothing(x / 2, y / 2, n - 1);
      assert (Pow2(n) - 1 - x) / 2 == Pow2(n - 1) - 1 - x / 2;
      assert (Pow2(n) - 1 - x) % 2 == 1 - x % 2;
    }
  }

  /** OR ignores rt and copies rs: it is the architecture's OR exactly when rt has no bit that rs lacks. */
  lemma OrIsRightExactlyWhen(a: int, b: int)
    requires IsInt(a) && IsInt(b)
    ensures RegisterValue(OR, a, b) == a
    ensures RegisterValue(OR, a, b) == Or(a, b) <==> And(b, Not(a)) == 0
  {
    Pow2Is32();
    var x, y := Unsigned(a), Unsigned(b);
    OrWithItself(x);
    OrAddsNothing(x, y, 32);
    NotOf(a);
    BitsBelow(x, y, 32);
    BitsBelow(y, W - 1 - x, 32);
    SameWord(OrBits(x, y), x);
    SameWord(AndBits(y, W - 1 - x), 0);
  }

  lemma NotOf(a: int)
    requires IsInt(a)
    ensures Int(Unsigned(a)) == a && Unsigned(Not(a)) == W - 1 - Unsigned(a)
  {
  }

  lemma SameWord(u: int, v: int)
    requires IsUnsigned(u) && IsUnsigned(v)
    ensures Int(u) == Int(v) <==> u == v
  {
  }

  lemma {:induction false} BitsBelow(x: nat, y: nat, n: nat)
    requires x < Pow2(n) && y < Pow2(n)
    ensures OrBits(x, y) < Pow2(n) && AndBits(x, y) < Pow2(n)
    decreases n
  {
    if n > 0 {
      BitsBelow(x / 2, y / 2, n - 1);
    }
  }
}
