/** Machine::OneInstruction as the simulator runs it: registers and memory updated in place. */
module MipsCode {
  import opened Words
  import opened Memory
  import opened Mips
  import Mult

  datatype Status = Ran | Took(exc: Exception) | Stopped

  /** The end of a completed instruction on registers already written by it. */
  function Ending(w: Registers, pcAfter: int, loadReg: nat, loadValue: int): Registers
    requires 0 <= w[LOAD_REG] < 32
  {
    DelayedLoad(w, loadReg, loadValue)[PREV_PC := w[PC]][PC := w[NEXT_PC]][NEXT_PC := pcAfter]
  }

  lemma RetireByParts(r: Registers, w: Registers, dest: nat, value: int, hi: int, lo: int, pcAfter: int, loadReg: nat, loadValue: int)
    requires RegsOk(r) && dest < 32
    requires w == r[dest := value][HI := hi][LO := lo] || (dest == 0 && w == r[HI := hi][LO := lo])
    ensures Ending(w, pcAfter, loadReg, loadValue) == Retire(r, dest, value, hi, lo, pcAfter, loadReg, loadValue)
  {
  }

  /** The registers r after the immediate writes of effect e, register 0 included. */
  predicate Written(r: Registers, w: seq<int>, e: Effect) {
    && |w| == NUM_REGS && e.Done? && e.dest < 32
    && (w == r[e.dest := e.value][HI := e.hi][LO := e.lo] || (e.dest == 0 && w == r[HI := e.hi][LO := e.lo]))
  }

  /** The two words of an exact product are determined by it. */
  lemma ProductWords(hi: int, lo: int, p: int)
    requires IsInt(lo) && p == hi * W + Unsigned(lo)
    ensures p / W == hi && Int(p) == lo
  {
    assert p % W == Unsigned(lo);
  }

  method Product(a: int, b: int, signedArith: bool) returns (hi: int, lo: int)
    requires IsInt(a) && IsInt(b)
    ensures signedArith ==> hi == Int(a * b / W) && lo == Int(a * b)
    ensures !signedArith ==> hi == Int(Unsigned(a) * Unsigned(b) / W) && lo == Int(Unsigned(a) * Unsigned(b))
  {
    hi, lo := Mult.Mult(a, b, signedArith);
    ghost var p := if signedArith then a * b else Unsigned(a) * Unsigned(b);
    ProductWords(if signedArith then hi else Unsigned(hi), lo, p);
  }

  lemma DoubleIs(i: Instr, x: Operands, s: Space)
    requires InstrOk(i) && IsDouble(i.op)
    ensures Arithmetic(i, x, s) == HiLo(x, s, HiValue(i.op, x.a, x.b, x.hi), LoValue(i.op, x.a, x.b, x.lo))
  {
  }

  lemma TrapIs(i: Instr, x: Operands, s: Space)
    requires InstrOk(i) && i.op in {SYSCALL, UNIMP, RES}
    ensures Arithmetic(i, x, s) == Raise(if i.op == SYSCALL then SyscallException else IllegalInstrException, 0, s.table)
  {
  }

  lemma ArithmeticEnds(i: Instr, x: Operands, s: Space)
    requires InstrOk(i) && !IsControl(i.op) && !IsMemoryOp(i.op) && Arithmetic(i, x, s).Done?
    ensures var e := Arithmetic(i, x, s);
            e.pcAfter == Int(x.next + 4) && e.loadReg == 0 && e.loadValue == 0 && e.mem == s.mem && e.table == s.table
  {
  }

  class Machine {
    const registers: array<int>
    const memory: UserMemory

    ghost predicate Valid()
      reads registers
    {
      WellFormed() && RegsOk(registers[..])
    }

    /** Apart from what the registers hold. */
    ghost predicate WellFormed() {
      && registers.Length == NUM_REGS && memory.Valid()
      && memory.mainMemory as object != registers && memory.entries as object != registers
    }

    ghost function Now(): Cpu
      requires registers.Length == NUM_REGS
      reads registers, memory.mainMemory, memory.entries
    {
      Cpu(registers[..], Place())
    }

    ghost function Place(): Space
      reads memory.mainMemory, memory.entries
    {
      Space(memory.mainMemory[..], memory.View())
    }

    ghost predicate Is(o: Outcome, status: Status)
      requires registers.Length == NUM_REGS
      reads registers, memory.mainMemory, memory.entries
    {
      match o
      case Completed(c) => status == Ran && Now() == c
      case Trapped(c, e) => status == Took(e) && Now() == c
      case Aborted => status == Stopped
    }

    constructor (memory: UserMemory)
      requires memory.Valid()
      ensures Valid() && this.memory == memory && fresh(registers)
      ensures registers[..] == seq(NUM_REGS, _ => 0)
    {
      this.memory := memory;
      registers := new int[NUM_REGS](_ => 0);
      new;
      assert registers[..] == seq(NUM_REGS, _ => 0);
    }

    method DelayedLoad(nextReg: int, nextValue: int)
      requires registers.Length == NUM_REGS && 0 <= registers[LOAD_REG] < 32
      modifies registers
      ensures registers[..] == Mips.DelayedLoad(old(registers[..]), nextReg, nextValue)
    {
      registers[registers[LOAD_REG]] := registers[LOAD_VALUE];
      registers[LOAD_REG] := nextReg;
      registers[LOAD_VALUE] := nextValue;
      registers[0] := 0;
    }

    method RaiseException(bad: int)
      requires registers.Length == NUM_REGS && 0 <= registers[LOAD_REG] < 32
      modifies registers
      ensures registers[..] == Raised(old(registers[..]), bad)
    {
      registers[BAD_VADDR] := bad;
      DelayedLoad(0, 0);
    }

    /** The delayed load, then the program counters. */
    method Advance(pcAfter: int, loadReg: nat, loadValue: int)
      requires registers.Length == NUM_REGS && 0 <= registers[LOAD_REG] < 32
      modifies registers
      ensures registers[..] == Ending(old(registers[..]), pcAfter, loadReg, loadValue)
    {
      DelayedLoad(loadReg, loadValue);
      registers[PREV_PC] := registers[PC];
      registers[PC] := registers[NEXT_PC];
      registers[NEXT_PC] := pcAfter;
    }

    /** Completes an instruction whose effect e has been written to registers that were r. */
    method Complete(ghost r: Registers, ghost e: Effect, pcAfter: int, loadReg: nat, loadValue: int) returns (status: Status)
      requires WellFormed() && RegsOk(r) && Written(r, registers[..], e)
      requires e.pcAfter == pcAfter && e.loadReg == loadReg && e.loadValue == loadValue
      requires Place() == Space(e.mem, e.table)
      modifies registers
      ensures Is(Finished(r, e.mem, e), status)
    {
      RetireByParts(r, registers[..], e.dest, e.value, e.hi, e.lo, pcAfter, loadReg, loadValue);
      Advance(pcAfter, loadReg, loadValue);
      status := Ran;
    }

    method BranchNow(i: Instr) returns (pcAfter: int)
      requires Valid() && InstrOk(i) && IsControl(i.op) && i.op !in {J, JAL, JR, JALR}
      modifies registers
      ensures var e := Control(i, Fetched(old(registers[..]), i), Place());
              Written(old(registers[..]), registers[..], e) && pcAfter == e.pcAfter
    {
      pcAfter := Int(registers[NEXT_PC] + 4);
      var target := Int(registers[NEXT_PC] + Int(i.extra * 4));
      match i.op {
        case BEQ => if registers[i.rs] == registers[i.rt] { pcAfter := target; }
        case BNE => if registers[i.rs] != registers[i.rt] { pcAfter := target; }
        case BGEZ => if registers[i.rs] >= 0 { pcAfter := target; }
        case BGTZ => if registers[i.rs] > 0 { pcAfter := target; }
        case BLEZ => if registers[i.rs] <= 0 { pcAfter := target; }
        case BLTZ => if registers[i.rs] < 0 { pcAfter := target; }
        case BGEZAL =>
          registers[R31] := Int(registers[NEXT_PC] + 4);
          if registers[i.rs] >= 0 { pcAfter := target; }
        case BLTZAL =>
          registers[R31] := Int(registers[NEXT_PC] + 4);
          if registers[i.rs] < 0 { pcAfter := target; }
      }
    }

    method JumpNow(i: Instr) returns (pcAfter: int)
      requires Valid() && InstrOk(i) && i.op in {J, JAL, JR, JALR}
      modifies registers
      ensures var e := Control(i, Fetched(old(registers[..]), i), Place());
              Written(old(registers[..]), registers[..], e) && pcAfter == e.pcAfter
    {
      pcAfter := Int(registers[NEXT_PC] + 4);
      match i.op {
        case J => pcAfter := JumpTarget(pcAfter, i.extra);
        case JAL =>
          registers[R31] := Int(registers[NEXT_PC] + 4);
          pcAfter := JumpTarget(pcAfter, i.extra);
        case JR => pcAfter := registers[i.rs];
        case JALR =>
          registers[i.rd] := Int(registers[NEXT_PC] + 4);
          pcAfter := registers[i.rs];
      }
    }

    method ControlNow(i: Instr) returns (status: Status)
      requires Valid() && InstrOk(i) && IsControl(i.op)
      modifies registers
      ensures Is(Finished(old(registers[..]), old(memory.mainMemory[..]),
                          Control(i, Fetched(old(registers[..]), i), old(Place()))), status)
    {
      ghost var r: Registers := registers[..];
      ghost var e := Control(i, Fetched(r, i), Place());
      var pcAfter;
      if i.op in {J, JAL, JR, JALR} {
        pcAfter := JumpNow(i);
      } else {
        pcAfter := BranchNow(i);
      }
      status := Complete(r, e, pcAfter, 0, 0);
    }

    /** The instructions that compute one general register. */
    method ComputeNow(i: Instr)
      requires Valid() && InstrOk(i) && (IsRegister(i.op) || IsImmediate(i.op) || IsShift(i.op) || i.op in {MFHI, MFLO})
      modifies registers
      ensures Written(old(registers[..]), registers[..], Arithmetic(i, Fetched(old(registers[..]), i), Place()))
    {
      var a, b := registers[i.rs], registers[i.rt];
      if IsRegister(i.op) {
        registers[i.rd] := RegisterValue(i.op, a, b);
      } else if IsImmediate(i.op) {
        registers[i.rt] := ImmediateValue(i.op, a, i.extra);
      } else if IsShift(i.op) {
        registers[i.rd] := ShiftValue(i.op, b, i.extra);
      } else if i.op == MFHI {
        registers[i.rd] := registers[HI];
      } else {
        registers[i.rd] := registers[LO];
      }
    }

    /** ADD, ADDI and SUB. */
    method AddNow(i: Instr) returns (overflow: bool)
      requires Valid() && InstrOk(i) && IsTrapping(i.op)
      modifies registers
      ensures var e := Trapping(i, Fetched(old(registers[..]), i), Place());
              if overflow then registers[..] == old(registers[..]) && e == Overflow(Place())
              else Written(old(registers[..]), registers[..], e)
    {
      var a, b := registers[i.rs], if i.op == ADDI then i.extra else registers[i.rt];
      var sum := Int(TrueResult(i.op, a, b));
      overflow := SignTest(i.op, a, b, sum);
      if !overflow {
        registers[if i.op == ADDI then i.rt else i.rd] := sum;
      }
    }

    method TrapNow(exc: Exception) returns (status: Status)
      requires Valid()
      modifies registers
      ensures Is(Finished(old(registers[..]), memory.mainMemory[..], Raise(exc, 0, memory.View())), status)
    {
      RaiseException(0);
      status := Took(exc);
    }

    /** Writes the result of an instruction that is neither a memory access nor a jump, or says how it traps. */
    method ResultNow(i: Instr) returns (trap: Exception)
      requires Valid() && InstrOk(i) && !IsControl(i.op) && !IsMemoryOp(i.op) && i.op != RFE
      modifies registers
      ensures var e := Arithmetic(i, Fetched(old(registers[..]), i), Place());
              if trap == NoException then Written(old(registers[..]), registers[..], e)
              else registers[..] == old(registers[..]) && e == Raise(trap, 0, memory.View())
    {
      trap := NoException;
      if IsTrapping(i.op) {
        var overflow := AddNow(i);
        if overflow {
          trap := OverflowException;
        }
      } else if IsDouble(i.op) {
        DoubleIs(i, Fetched(registers[..], i), Place());
        DoubleNow(i);
      } else if i.op in {SYSCALL, UNIMP, RES} {
        TrapIs(i, Fetched(registers[..], i), Place());
        trap := if i.op == SYSCALL then SyscallException else IllegalInstrException;
      } else {
        ComputeNow(i);
      }
    }

    method Conclude(ghost r: Registers, ghost e: Effect, trap: Exception, pcAfter: int) returns (status: Status)
      requires WellFormed() && RegsOk(r)
      requires if trap == NoException
               then Written(r, registers[..], e) && e == e.(pcAfter := pcAfter, loadReg := 0, loadValue := 0)
                    && Place() == Space(e.mem, e.table)
               else registers[..] == r && e == Raise(trap, 0, memory.View())
      modifies registers
      ensures Is(Finished(r, memory.mainMemory[..], e), status)
    {
      if trap != NoException {
        status := TrapNow(trap);
      } else {
        status := Complete(r, e, pcAfter, 0, 0);
      }
    }

    method ArithmeticNow(i: Instr) returns (status: Status)
      requires Valid() && InstrOk(i) && !IsControl(i.op) && !IsMemoryOp(i.op) && i.op != RFE
      modifies registers
      ensures Is(Finished(old(registers[..]), old(memory.mainMemory[..]),
                          Arithmetic(i, Fetched(old(registers[..]), i), old(Place()))), status)
    {
      ghost var r: Registers := registers[..];
      ghost var e := Arithmetic(i, Fetched(r, i), Place());
      ghost var s := Place();
      var pcAfter := Int(registers[NEXT_PC] + 4);
      var trap := ResultNow(i);
      if e.Done? {
        ArithmeticEnds(i, Fetched(r, i), s);
      }
      status := Conclude(r, e, trap, pcAfter);
    }

    /** The instructions that write HI and LO; the products come from the shift-and-add loop. */
    method DoubleNow(i: Instr)
      requires Valid() && InstrOk(i) && IsDouble(i.op)
      modifies registers
      ensures registers[..]
              == old(registers[..])[HI := HiValue(i.op, old(registers[i.rs]), old(registers[i.rt]), old(registers[HI]))]
                                   [LO := LoValue(i.op, old(registers[i.rs]), old(registers[i.rt]), old(registers[LO]))]
    {
      var a, b := registers[i.rs], registers[i.rt];
      var hi, lo := registers[HI], registers[LO];
      match i.op {
        case MTHI => hi := a;
        case MTLO => lo := a;
        case MULT => hi, lo := Product(a, b, true);
        case MULTU => hi, lo := Product(a, b, false);
        case DIV =>
          if b == 0 { hi, lo := 0, 0; } else { hi, lo := Int(Remainder(a, b)), Int(Quotient(a, b)); }
        case DIVU =>
          var u, v := Unsigned(a), Unsigned(b);
          if v == 0 { hi, lo := 0, 0; } else { hi, lo := Int(u % v), Int(u / v); }
      }
      assert hi == HiValue(i.op, a, b, registers[HI]);
      assert lo == LoValue(i.op, a, b, registers[LO]);
      registers[HI] := hi;
      registers[LO] := lo;
    }

    method LoadNow(i: Instr, size: int) returns (status: Status)
      requires Valid() && InstrOk(i) && size in {1, 2, 4}
      modifies registers, memory.entries
      ensures Is(Finished(old(registers[..]), old(memory.mainMemory[..]),
                          LoadOf(i, Fetched(old(registers[..]), i), old(Place()), size)), status)
    {
      ghost var s := Place();
      var addr := Int(registers[i.rs] + i.extra);
      var exc, value := memory.Read(addr, size);
      status := AfterRead(i, addr, exc, value, s, ReadMem(s.mem, s.table, addr, size));
    }

    /** The rest of a load once the memory has answered. */
    method AfterRead(i: Instr, addr: int, exc: Exception, value: int, ghost s: Space, ghost read: Load) returns (status: Status)
      requires Valid() && InstrOk(i) && memory.mainMemory[..] == s.mem
      requires match read
               case LoadFault(e) => exc == e != NoException && memory.View() == s.table
               case Loaded(v, t) => exc == NoException && value == v && memory.View() == t
      modifies registers
      ensures var x := Fetched(old(registers[..]), i);
              Is(Finished(old(registers[..]), s.mem, LoadDone(read, i, addr, x.hi, x.lo, x.next, x.fwd, s)), status)
    {
      ghost var r: Registers := registers[..];
      if exc != NoException {
        RaiseException(addr);
        return Took(exc);
      }
      var fwd := if registers[LOAD_REG] == i.rt then registers[LOAD_VALUE] else registers[i.rt];
      ghost var e := LoadDone(read, i, addr, r[HI], r[LO], r[NEXT_PC], Forwarded(r, i.rt), s);
      status := Complete(r, e, Int(registers[NEXT_PC] + 4), i.rt, Shaped(i.op, value, fwd));
    }

    method StoreNow(i: Instr, size: int, value: int) returns (status: Status)
      requires Valid() && InstrOk(i) && size in {1, 2, 4}
      modifies registers, memory.entries, memory.mainMemory
      ensures Is(Finished(old(registers[..]), old(memory.mainMemory[..]),
                          StoreOf(i, Fetched(old(registers[..]), i), old(Place()), size, value)), status)
    {
      ghost var s := Place();
      var addr := Int(registers[i.rs] + i.extra);
      ghost var w := WriteMem(s.mem, s.table, addr, size, value);
      assert StoreOf(i, Fetched(registers[..], i), s, size, value)
             == StoreDone(w, addr, registers[HI], registers[LO], registers[NEXT_PC], s);
      var exc := memory.Write(addr, size, value);
      status := AfterWrite(addr, exc, s, w);
    }

    /** The rest of a store once the memory has answered. */
    method AfterWrite(addr: int, exc: Exception, ghost s: Space, ghost w: Memory.Store) returns (status: Status)
      requires Valid()
      requires match w
               case StoreFault(e) => exc == e != NoException && Place() == s
               case Stored(m, t) => exc == NoException && Place() == Space(m, t)
      modifies registers
      ensures var r: Registers := old(registers[..]);
              Is(Finished(r, s.mem, StoreDone(w, addr, r[HI], r[LO], r[NEXT_PC], s)), status)
    {
      ghost var r: Registers := registers[..];
      if exc != NoException {
        RaiseException(addr);
        return Took(exc);
      }
      ghost var e := StoreDone(w, addr, r[HI], r[LO], r[NEXT_PC], s);
      status := Complete(r, e, Int(registers[NEXT_PC] + 4), 0, 0);
    }

    /** SWL and SWR at an aligned address. */
    method MergeNow(i: Instr) returns (status: Status)
      requires Valid() && InstrOk(i) && i.op in {SWL, SWR}
      modifies registers, memory.entries, memory.mainMemory
      ensures Is(Finished(old(registers[..]), old(memory.mainMemory[..]),
                          Merge(i, Fetched(old(registers[..]), i), old(Place()))), status)
    {
      ghost var r: Registers, s := registers[..], Place();
      var addr := Int(registers[i.rs] + i.extra);
      ghost var read := ReadMem(s.mem, s.table, addr, 4);
      var exc, value := memory.Read(addr, 4);
      assert Merge(i, Fetched(r, i), s) == Merged(read, i, Fetched(r, i), s);
      if exc != NoException {
        RaiseException(addr);
        return Took(exc);
      }
      assert read == Loaded(value, Place().table);
      status := StoreNow(i, 4, MergedWord(i.op, value, registers[i.rt]));
    }

    method AccessNow(i: Instr) returns (status: Status)
      requires Valid() && InstrOk(i) && IsMemoryOp(i.op)
      modifies registers, memory.entries, memory.mainMemory
      ensures Is(Finished(old(registers[..]), old(memory.mainMemory[..]),
                          Access(i, Fetched(old(registers[..]), i), old(Place()))), status)
    {
      var addr := Int(registers[i.rs] + i.extra);
      match AlignmentOf(i.op, addr) {
        case Unaligned =>
          RaiseException(addr);
          return Took(AddressErrorException);
        case Unsupported =>
          return Stopped;
        case Fine =>
      }
      if !IsStore(i.op) {
        status := LoadNow(i, SizeOf(i.op));
      } else if i.op in {SWL, SWR} {
        status := MergeNow(i);
      } else {
        status := StoreNow(i, SizeOf(i.op), registers[i.rt]);
      }
    }

    /** One instruction, up to the kernel's handler when it traps. */
    method OneInstruction() returns (status: Status)
      requires Valid()
      modifies registers, memory.entries, memory.mainMemory
      ensures Is(Mips.OneInstruction(old(Now())), status)
      ensures status != Stopped ==> Valid()
    {
      StepKeepsCpu(Now());
      var exc, raw := memory.Read(registers[PC], 4);
      if exc != NoException {
        RaiseException(registers[PC]);
        return Took(exc);
      }
      var i := Decode(Unsigned(raw));
      if IsMemoryOp(i.op) {
        status := AccessNow(i);
      } else if IsControl(i.op) {
        status := ControlNow(i);
      } else {
        status := ArithmeticNow(i);
      }
    }
  }
}
