/** MIPS machine code by the numbers of the architecture, and Instruction::Decode (mipssim.cc, mipssim.h) as its
    inverse. */
module Assembler {
  import opened Words
  import opened Mips

  /** An instruction as an assembler writes it: three registers and a shift amount, two registers and an
      immediate, an index, or one register and an immediate with the condition in the place of rt. */
  datatype Asm =
    | ThreeReg(op: Op, rs: nat, rt: nat, rd: nat, shift: nat)
    | Immediate(op: Op, rs: nat, rt: nat, imm: int)
    | Indexed(op: Op, index: nat)
    | OnSign(op: Op, rs: nat, imm: int)

  /** The funct field of the instructions whose opcode field is 0, or -1. */
  function Funct(op: Op): int {
    match op
    case SLL => 0   case SRL => 2    case SRA => 3    case SLLV => 4  case SRLV => 6  case SRAV => 7
    case JR => 8    case JALR => 9   case SYSCALL => 12
    case MFHI => 16 case MTHI => 17  case MFLO => 18  case MTLO => 19
    case MULT => 24 case MULTU => 25 case DIV => 26   case DIVU => 27
    case ADD => 32  case ADDU => 33  case SUB => 34   case SUBU => 35
    case AND => 36  case OR => 37    case XOR => 38   case NOR => 39
    case SLT => 42  case SLTU => 43
    case _ => -1
  }

  /** The opcode field of the others, or -1. */
  function Opcode(op: Op): int {
    match op
    case J => 2     case JAL => 3
    case BEQ => 4   case BNE => 5    case BLEZ => 6   case BGTZ => 7
    case ADDI => 8  case ADDIU => 9  case SLTI => 10  case SLTIU => 11
    case ANDI => 12 case ORI => 13   case XORI => 14  case LUI => 15
    case LB => 32   case LH => 33    case LWL => 34   case LW => 35
    case LBU => 36  case LHU => 37   case LWR => 38
    case SB => 40   case SH => 41    case SWL => 42   case SW => 43   case SWR => 46
    case _ => -1
  }

  /** The condition field of the instructions whose opcode field is 1, or -1. */
  function Condition(op: Op): int {
    match op
    case BLTZ => 0  case BGEZ => 1   case BLTZAL => 16 case BGEZAL => 17
    case _ => -1
  }

  /** Every instruction has a code, except the one the simulator never decodes. */
  lemma EveryInstructionHasCode(op: Op)
    ensures op !in {RFE, UNIMP, RES} <==> Funct(op) != -1 || Opcode(op) != -1 || Condition(op) != -1
  {
  }

  predicate AsmOk(a: Asm) {
    match a
    case ThreeReg(op, rs, rt, rd, shift) => Funct(op) != -1 && rs < 32 && rt < 32 && rd < 32 && shift < 32
    case Immediate(op, rs, rt, imm) => Opcode(op) > 3 && rs < 32 && rt < 32 && -32768 <= imm < 32768
    case Indexed(op, index) => Opcode(op) in {2, 3} && index < 0x400_0000
    case OnSign(op, rs, imm) => Condition(op) != -1 && rs < 32 && -32768 <= imm < 32768
  }

  function Encode(a: Asm): (w: int)
    requires AsmOk(a)
    ensures IsUnsigned(w)
  {
    match a
    case ThreeReg(op, rs, rt, rd, shift) => rs * 0x20_0000 + rt * 0x1_0000 + rd * 0x800 + shift * 64 + Funct(op)
    case Immediate(op, rs, rt, imm) => Opcode(op) * 0x400_0000 + rs * 0x20_0000 + rt * 0x1_0000 + imm % 0x1_0000
    case Indexed(op, index) => Opcode(op) * 0x400_0000 + index
    case OnSign(op, rs, imm) => 0x400_0000 + rs * 0x20_0000 + Condition(op) * 0x1_0000 + imm % 0x1_0000
  }

  // ---------------------------------------------------------------- the fields of a word

  lemma UpperFields(w: int, n: int, rs: int, rt: int, low: int)
    requires 0 <= n < 64 && 0 <= rs < 32 && 0 <= rt < 32 && 0 <= low < 0x1_0000
    requires w == n * 0x400_0000 + rs * 0x20_0000 + rt * 0x1_0000 + low
    ensures w / 0x400_0000 % 64 == n && w / 0x20_0000 % 32 == rs && w / 0x1_0000 % 32 == rt && w % 0x1_0000 == low
  {
    assert w / 0x1_0000 == n * 1024 + rs * 32 + rt;
    assert w / 0x20_0000 == n * 32 + rs;
    assert w / 0x400_0000 == n;
  }

  lemma LowerFields(w: int, high: int, rd: int, shift: int, f: int)
    requires 0 <= high && 0 <= rd < 32 && 0 <= shift < 32 && 0 <= f < 64
    requires w == high * 0x1_0000 + rd * 0x800 + shift * 64 + f
    ensures w / 0x800 % 32 == rd && w / 64 % 32 == shift && w % 64 == f
  {
    assert w / 64 == high * 1024 + rd * 32 + shift;
    assert w / 0x800 == high * 32 + rd;
  }

  lemma IndexField(w: int, n: int, index: int)
    requires 0 <= n < 64 && 0 <= index < 0x400_0000 && w == n * 0x400_0000 + index
    ensures w / 0x400_0000 % 64 == n && w % 0x400_0000 == index
  {
  }

  // ---------------------------------------------------------------- decoding inverts encoding

  lemma FunctTable(op: Op)
    requires Funct(op) != -1
    ensures 0 <= Funct(op) < 64 && SpecialTable(Funct(op)) == op
  {
  }

  lemma OpcodeTable(op: Op)
    requires Opcode(op) != -1
    ensures 1 < Opcode(op) < 64 && OpTable(Opcode(op)) == Plain(op)
    ensures FormatOf(Opcode(op)) == if Opcode(op) < 4 then JFmt else IFmt
  {
  }

  lemma SignExtends(imm: int)
    requires -32768 <= imm < 32768
    ensures var u := imm % 0x1_0000; imm == if u < 0x8000 then u else u - 0x1_0000
  {
  }

  /** Decode reads out of a word what was put into it: the instruction, its registers, its shift amount, its
      immediate with the sign, or its index. */
  lemma DecodeInvertsEncode(a: Asm)
    requires AsmOk(a)
    ensures var i := Decode(Encode(a));
            && i.op == a.op
            && match a
               case ThreeReg(_, rs, rt, rd, shift) => i.rs == rs && i.rt == rt && i.rd == rd && i.extra == shift
               case Immediate(_, rs, rt, imm) => i.rs == rs && i.rt == rt && i.extra == imm
               case Indexed(_, index) => i.extra == index
               case OnSign(_, rs, imm) => i.rs == rs && i.extra == imm
  {
    var w := Encode(a);
    match a
    case ThreeReg(op, rs, rt, rd, shift) =>
      FunctTable(op);
      UpperFields(w, 0, rs, rt, rd * 0x800 + shift * 64 + Funct(op));
      LowerFields(w, rs * 32 + rt, rd, shift, Funct(op));
    case Immediate(op, rs, rt, imm) =>
      OpcodeTable(op);
      UpperFields(w, Opcode(op), rs, rt, imm % 0x1_0000);
      SignExtends(imm);
    case Indexed(op, index) =>
      OpcodeTable(op);
      IndexField(w, Opcode(op), index);
    case OnSign(op, rs, imm) =>
      UpperFields(w, 1, rs, Condition(op), imm % 0x1_0000);
      SignExtends(imm);
  }

  // ---------------------------------------------------------------- and nothing else decodes

  lemma SplitWord(w: int)
    requires IsUnsigned(w)
    ensures var n, rs, rt := w / 0x400_0000 % 64, w / 0x20_0000 % 32, w / 0x1_0000 % 32;
            && w / 0x400_0000 == n
            && w == n * 0x400_0000 + rs * 0x20_0000 + rt * 0x1_0000 + w % 0x1_0000
            && w % 0x1_0000 == w / 0x800 % 32 * 0x800 + w / 64 % 32 * 64 + w % 64
            && w == n * 0x400_0000 + w % 0x400_0000
  {
    SplitHigh(w);
    SplitLow(w);
  }

  lemma SplitHigh(w: int)
    requires IsUnsigned(w)
    ensures var n, rs, rt := w / 0x400_0000 % 64, w / 0x20_0000 % 32, w / 0x1_0000 % 32;
            && w / 0x400_0000 == n
            && w == n * 0x400_0000 + rs * 0x20_0000 + rt * 0x1_0000 + w % 0x1_0000
            && w == n * 0x400_0000 + w % 0x400_0000
  {
    var h := w / 0x1_0000;
    assert w / 0x20_0000 == h / 32 && w / 0x400_0000 == h / 32 / 32;
  }

  lemma SplitLow(w: int)
    requires 0 <= w
    ensures w % 0x1_0000 == w / 0x800 % 32 * 0x800 + w / 64 % 32 * 64 + w % 64
  {
    var g := w / 64;
    assert w / 0x800 == g / 32 && w / 0x1_0000 == g / 32 / 32;
  }

  /** Every word that decodes to an instruction is the code of that instruction, with the fields that Decode
      reads. */
  lemma EncodeInvertsDecode(w: int) returns (a: Asm)
    requires IsUnsigned(w) && Decode(w).op !in {UNIMP, RES}
    ensures AsmOk(a) && Encode(a) == w && a.op == Decode(w).op
  {
    SplitWord(w);
    var n := w / 0x400_0000 % 64;
    if n == 0 {
      a := WordOfThree(w);
    } else if n == 1 {
      a := WordOnSign(w);
    } else if n < 4 {
      a := WordIndexed(w, n);
    } else {
      a := WordImmediate(w, n);
    }
  }

  lemma WordOfThree(w: int) returns (a: Asm)
    requires IsUnsigned(w) && Decode(w).op !in {UNIMP, RES} && w / 0x400_0000 % 64 == 0
    ensures AsmOk(a) && Encode(a) == w && a.op == Decode(w).op
  {
    SplitWord(w);
    FunctIs(w % 64);
    a := ThreeReg(SpecialTable(w % 64), w / 0x20_0000 % 32, w / 0x1_0000 % 32, w / 0x800 % 32, w / 64 % 32);
  }

  lemma WordOnSign(w: int) returns (a: Asm)
    requires IsUnsigned(w) && Decode(w).op !in {UNIMP, RES} && w / 0x400_0000 % 64 == 1
    ensures AsmOk(a) && Encode(a) == w && a.op == Decode(w).op
  {
    SplitWord(w);
    var low := w % 0x1_0000;
    var imm := if low < 0x8000 then low else low - 0x1_0000;
    assert imm % 0x1_0000 == low;
    a := OnSign(Decode(w).op, w / 0x20_0000 % 32, imm);
  }

  lemma WordIndexed(w: int, n: int) returns (a: Asm)
    requires IsUnsigned(w) && Decode(w).op !in {UNIMP, RES} && w / 0x400_0000 % 64 == n && n in {2, 3}
    ensures AsmOk(a) && Encode(a) == w && a.op == Decode(w).op
  {
    SplitWord(w);
    a := Indexed(if n == 2 then J else JAL, w % 0x400_0000);
  }

  lemma WordImmediate(w: int, n: int) returns (a: Asm)
    requires IsUnsigned(w) && Decode(w).op !in {UNIMP, RES} && w / 0x400_0000 % 64 == n && 3 < n
    ensures AsmOk(a) && Encode(a) == w && a.op == Decode(w).op
  {
    SplitWord(w);
    OpcodeIs(n);
    var low := w % 0x1_0000;
    var imm := if low < 0x8000 then low else low - 0x1_0000;
    assert imm % 0x1_0000 == low;
    a := Immediate(OpTable(n).op, w / 0x20_0000 % 32, w / 0x1_0000 % 32, imm);
  }

  lemma FunctIs(f: int)
    requires 0 <= f < 64 && SpecialTable(f) !in {UNIMP, RES}
    ensures Funct(SpecialTable(f)) == f
  {
  }

  lemma OpcodeIs(n: int)
    requires 1 < n < 64 && OpTable(n).Plain? && OpTable(n).op !in {UNIMP, RES}
    ensures Opcode(OpTable(n).op) == n
  {
  }

  /** The words that are no instruction: those the simulator calls unimplemented, and those it calls reserved. */
  lemma IllegalExactly(w: int)
    requires IsUnsigned(w)
    ensures var n, c, f := w / 0x400_0000, w / 0x1_0000 % 32, w % 64;
            && (Decode(w).op == UNIMP <==>
                16 <= n < 20 || 48 <= n < 52 || 56 <= n < 60 || (n == 0 && f == 13) || (n == 1 && c !in {0, 1, 16, 17}))
            && (Decode(w).op == RES <==>
                || 20 <= n < 32 || n in {39, 44, 45, 47} || 52 <= n < 56 || 60 <= n
                || (n == 0 && (f in {1, 5, 10, 11, 14, 15, 40, 41} || 20 <= f < 24 || 28 <= f < 32 || 44 <= f)))
  {
    SplitWord(w);
  }
}
