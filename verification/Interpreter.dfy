/** The instruction set, opcode by opcode, in the terms of integers: no stages, no classes of
    opcodes, no bits but those of the logical operations. Fields, addresses, results and memory are
    arithmetic on the numbers that the words stand for. The reference machine of a loaded program
    is this machine. */
module Interpreter {
  import opened Basics
  import opened Words
  import opened Shifts
  import opened Integers
  import opened Bytes
  import opened DataMemory
  import opened Instructions
  import opened Reference
  import opened Decoder
  import opened Ideal

  datatype Cpu = Cpu(pc: Word, regs: RegFile, mem: Mem)

  // ---------------------------------------------------------------- encoding

  /** The operation and function fields that an assembler gives to each opcode. */
  function OpField(o: Opcode): int {
    match o
    case ADD | ADDU | SUB | AND | OR | XOR | NOR | NAND | SLT | SLL | SRL | SRA | JR | NoOp => 0x00
    case J => 0x02 case JAL => 0x03
    case BEQ => 0x04 case BNE => 0x05 case BGTZ => 0x07
    case ADDI => 0x08 case ADDIU => 0x09 case SLTI => 0x0A
    case ANDI => 0x0C case ORI => 0x0D case NORI => 0x0E case LUI => 0x0F
    case LB => 0x20 case LH => 0x21 case LW => 0x23 case LBU => 0x24 case LHU => 0x25
    case SB => 0x28 case SH => 0x29 case SW => 0x2B
    case HALT => 0x3F
  }

  function FuncField(o: Opcode): int {
    match o
    case SLL => 0x00 case SRL => 0x02 case SRA => 0x03 case JR => 0x08
    case ADD => 0x20 case ADDU => 0x21 case SUB => 0x22
    case AND => 0x24 case OR => 0x25 case XOR => 0x26 case NOR => 0x27 case NAND => 0x28
    case SLT => 0x2A
    case _ => 0x00
  }

  lemma ImmediateMapFinds(op: Word, o: Opcode)
    requires ImmediateMap(op) == Some(o)
    ensures Unsigned(op) == OpField(o) != 0
  {
  }

  lemma MemoryMapFinds(op: Word, o: Opcode)
    requires MemoryMap(op) == Some(o)
    ensures Unsigned(op) == OpField(o) != 0
  {
  }

  lemma ControlMapFinds(op: Word, o: Opcode)
    requires ControlMap(op) == Some(o)
    ensures Unsigned(op) == OpField(o) != 0
  {
  }

  lemma OpMapFinds(op: Word, o: Opcode)
    requires OpMap(op) == Some(o)
    ensures Unsigned(op) == OpField(o) != 0
  {
    hide ImmediateMap, MemoryMap, ControlMap, OpField;
    if ImmediateMap(op).Some? { ImmediateMapFinds(op, o); }
    else if MemoryMap(op).Some? { MemoryMapFinds(op, o); }
    else { ControlMapFinds(op, o); }
  }

  /** The words of small numbers. */
  lemma SmallWords()
    ensures ToWord(0x02) == 0x02 && ToWord(0x03) == 0x03 && ToWord(0x04) == 0x04 && ToWord(0x05) == 0x05
    ensures ToWord(0x07) == 0x07 && ToWord(0x08) == 0x08 && ToWord(0x09) == 0x09 && ToWord(0x0A) == 0x0A
    ensures ToWord(0x0C) == 0x0C && ToWord(0x0D) == 0x0D && ToWord(0x0E) == 0x0E && ToWord(0x0F) == 0x0F
    ensures ToWord(0x20) == 0x20 && ToWord(0x21) == 0x21 && ToWord(0x22) == 0x22 && ToWord(0x23) == 0x23
    ensures ToWord(0x24) == 0x24 && ToWord(0x25) == 0x25 && ToWord(0x26) == 0x26 && ToWord(0x27) == 0x27
    ensures ToWord(0x28) == 0x28 && ToWord(0x29) == 0x29 && ToWord(0x2A) == 0x2A && ToWord(0x2B) == 0x2B
    ensures ToWord(0x3F) == 0x3F && ToWord(0x00) == 0x00
  {
  }

  lemma OpMapKnows(o: Opcode)
    ensures 0 <= OpField(o) < 64
    ensures OpField(o) != 0 ==> OpMap(ToWord(OpField(o))) == Some(o)
  {
    hide ToWord;
    SmallWords();
  }

  lemma OpMapInverts(op: Word, o: Opcode)
    ensures OpMap(op) == Some(o) <==> Unsigned(op) == OpField(o) != 0
  {
    hide OpMap, OpField, Unsigned, ToWord;
    UnsignedRange(op);
    ToWordOfUnsigned(op);
    if OpMap(op) == Some(o) { OpMapFinds(op, o); }
    OpMapKnows(o);
  }

  lemma FuncMapFinds(func: Word, o: Opcode)
    requires FuncMap(func) == Some(o)
    ensures OpField(o) == 0 && !o.NoOp? && Unsigned(func) == FuncField(o)
  {
  }

  lemma FuncMapKnows(o: Opcode)
    ensures 0 <= FuncField(o) < 64
    ensures OpField(o) == 0 && !o.NoOp? ==> FuncMap(ToWord(FuncField(o))) == Some(o)
  {
    hide ToWord;
    SmallWords();
  }

  lemma FuncMapInverts(func: Word, o: Opcode)
    ensures FuncMap(func) == Some(o) <==> OpField(o) == 0 && !o.NoOp? && Unsigned(func) == FuncField(o)
  {
    hide FuncMap, OpField, FuncField, Unsigned, ToWord;
    UnsignedRange(func);
    ToWordOfUnsigned(func);
    if FuncMap(func) == Some(o) { FuncMapFinds(func, o); }
    FuncMapKnows(o);
  }

  /** The word of an opcode: its operation and function fields; a word whose only non-zero field is
      rs is a NOP. */
  predicate Encodes(w: Word, o: Opcode) {
    if OpField(o) != 0 then OpNum(w) == OpField(o)
    else if o.NoOp? then Unsigned(w) == 0x20_0000 * RsNum(w)
    else OpNum(w) == 0 && Unsigned(w) != 0x20_0000 * RsNum(w) && FuncNum(w) == FuncField(o)
  }

  lemma SameWord(a: Word, b: Word)
    ensures a == b <==> Unsigned(a) == Unsigned(b)
  {
    hide Unsigned, ToWord;
    UnsignedRange(a);
    UnsignedRange(b);
    ToWordOfUnsigned(a);
    ToWordOfUnsigned(b);
  }

  lemma NopIs(w: Word)
    ensures IsNop(w) <==> Unsigned(w) == 0x20_0000 * RsNum(w)
    ensures IsNop(w) ==> OpNum(w) == 0
  {
    hide Unsigned, IsNop, Rs, Pow2, Op, ShiftLeft, RsNum, OpNum;
    UnsignedRange(w);
    NopIsShift(w);
    FieldsAreNumbers(w);
    Pow2Values();
    Amounts();
    Literals();
    ShiftLeftMultiplies(Rs(w), 21);
    SameWord(w, ShiftLeft(Rs(w), 21));
    assert 0 <= RsNum(w) < 32;
  }

  lemma NopIsShift(w: Word)
    ensures IsNop(w) <==> w == ShiftLeft(Rs(w), 21)
    ensures IsNop(w) ==> Op(w) == 0
  {
    hide Rs, IsNop, Op, Rt, Rd, ShAmt, Func;
    NopIffOtherFieldsZero(w);
  }

  /** A word decodes to an opcode if and only if it has the fields of that opcode. */
  lemma DecodeIffEncoded(w: Word, o: Opcode)
    ensures Decode(w) == Some(o) <==> Encodes(w, o)
  {
    NopIs(w);
    FieldsAreNumbers(w);
    LowFieldsAreNumbers(w);
    assert OpField(NoOp) == 0;
    hide Op, Func, IsNop, OpMap, FuncMap, OpField, FuncField, Unsigned, OpNum, FuncNum, RsNum;
    OpMapInverts(Op(w), o);
    FuncMapInverts(Func(w), o);
    Literals();
    SameWord(Op(w), 0);
  }

  /** HALT is the words with operation field 0x3F, and IF treats no other word as one. */
  lemma HaltIff(w: Word)
    ensures InstrOf(w).kind.Halt? <==> OpNum(w) == 0x3F
  {
    DecodeIffEncoded(w, HALT);
    hide Decode, OpNum, RsNum, FuncNum;
  }

  // ---------------------------------------------------------------- what the lambdas touch

  predicate RegisterOpcode(o: Opcode) {
    o.ADD? || o.ADDU? || o.SUB? || o.AND? || o.OR? || o.XOR? || o.NOR? || o.NAND? || o.SLT?
  }

  predicate ImmediateOpcode(o: Opcode) { o.ADDI? || o.ADDIU? || o.ANDI? || o.ORI? || o.NORI? || o.SLTI? }

  predicate LoadOpcode(o: Opcode) { o.LW? || o.LH? || o.LHU? || o.LB? || o.LBU? }

  predicate StoreOpcode(o: Opcode) { o.SW? || o.SH? || o.SB? }

  predicate ShiftOpcode(o: Opcode) { o.SLL? || o.SRL? || o.SRA? }

  /** The registers that the lambdas of each opcode take from the scoreboard in ID, resolve in ID, publish
      from EX and write in WB. */
  lemma LambdasOf(w: Word, o: Opcode)
    requires Decode(w) == Some(o)
    ensures var i := InstrOf(w);
      && (AcquiresRs(i) <==> RegisterOpcode(o) || ImmediateOpcode(o) || LoadOpcode(o) || StoreOpcode(o))
      && (AcquiresRt(i) <==> RegisterOpcode(o) || ShiftOpcode(o) || StoreOpcode(o))
      && (ExReadsRs(i) <==> AcquiresRs(i)) && (ExReadsRt(i) <==> AcquiresRt(i) && !StoreOpcode(o))
      && (ResolvesRs(i) <==> o.BEQ? || o.BNE? || o.BGTZ? || o.JR?) && (ResolvesRt(i) <==> o.BEQ? || o.BNE?)
      && (Forwards(i) <==> RegisterOpcode(o) || ShiftOpcode(o) || ImmediateOpcode(o) || o.LUI? || o.JAL?)
      && (Exports(i) <==> Forwards(i) || LoadOpcode(o))
      && Dest(i) == (if RegisterOpcode(o) || ShiftOpcode(o) then RdNum(w)
                     else if ImmediateOpcode(o) || o.LUI? || LoadOpcode(o) then RtNum(w)
                     else if o.JAL? then 31 else 0)
  {
    hide Decode, RsNum, RtNum, RdNum;
    InstrIs(w, o);
    hide InstrOf;
  }

  // ---------------------------------------------------------------- results

  /** What an opcode computes from its registers. */
  function Compute(o: Opcode, w: Word, rs: Word, rt: Word): Word {
    var n, m := Unsigned(rs), Unsigned(rt);
    match o
    case ADD | ADDU => Wrap(n + m)
    case SUB => Wrap(n - m)
    case ADDI => Wrap(n + SignedImm(w))
    case ADDIU => Wrap(n + ImmNum(w))
    case LUI => Wrap(TWO_16 * ImmNum(w))
    case SLT => if Signed(rs) < Signed(rt) then 1 else 0
    case SLTI => if Signed(rs) < SignedImm(w) then 1 else 0
    case SLL => Wrap(m * Pow2(AmountNum(w)))
    case SRL => Wrap(m / Pow2(AmountNum(w)))
    case SRA => Wrap(Signed(rt) / Pow2(AmountNum(w)))
    case AND => Wrap(Bitwise(AndGate, n, m, 32))
    case OR => Wrap(Bitwise(OrGate, n, m, 32))
    case XOR => Wrap(Bitwise(XorGate, n, m, 32))
    case NOR => Wrap(0xFFFF_FFFF - Bitwise(OrGate, n, m, 32))
    case NAND => Wrap(0xFFFF_FFFF - Bitwise(AndGate, n, m, 32))
    case ANDI => Wrap(Bitwise(AndGate, n, ImmNum(w), 32))
    case ORI => Wrap(Bitwise(OrGate, n, ImmNum(w), 32))
    case NORI => Wrap(0xFFFF_FFFF - Bitwise(OrGate, n, ImmNum(w), 32))
    case _ => 0
  }

  lemma SumsAgree(a: Word, b: Word)
    ensures Plus(a, b) == Wrap(Unsigned(a) + Unsigned(b)) && Plus(b, a) == Wrap(Unsigned(a) + Unsigned(b))
    ensures Minus(a, b) == Wrap(Unsigned(a) - Unsigned(b))
  {
    hide Unsigned, Plus, Minus, Wrap;
    PlusWraps(a, b);
    PlusWraps(b, a);
    MinusWraps(a, b);
    WrapIs(Plus(a, b), Unsigned(a) + Unsigned(b));
    WrapIs(Plus(b, a), Unsigned(a) + Unsigned(b));
    WrapIs(Minus(a, b), Unsigned(a) - Unsigned(b));
  }

  lemma SameModulo(a: int, s: int)
    ensures (a + s) % TWO_32 == (a + s + TWO_32) % TWO_32
  {
  }

  lemma ImmediateSumAgrees(a: Word, imm: HalfWord)
    ensures Plus(a, SignExtend16(imm)) == Wrap(Unsigned(a) + Signed16(imm))
  {
    hide Unsigned, Plus, Wrap, SignExtend16, Signed16;
    PlusWraps(a, SignExtend16(imm));
    SignExtend16Keeps(imm);
    SameModulo(Unsigned(a), Signed16(imm));
    WrapIs(Plus(a, SignExtend16(imm)), Unsigned(a) + Signed16(imm));
  }

  lemma UpperIsShift(imm: HalfWord)
    ensures UpperHalf(imm) == ShiftLeft(WidenHalf(imm), 16)
  {
  }

  lemma UpperHalfShifts(imm: HalfWord)
    ensures Unsigned(UpperHalf(imm)) == TWO_16 * HalfNumber(imm)
  {
    hide Unsigned, UpperHalf, WidenHalf, HalfNumber, ShiftLeft, Pow2;
    UpperIsShift(imm);
    WidenHalfNum(imm);
    Pow2Values();
    Amounts();
    ShiftLeftMultiplies(WidenHalf(imm), 16);
    HalfRange(imm);
  }

  lemma HalfRange(h: HalfWord)
    ensures 0 <= HalfNumber(h) < TWO_16
  {
  }

  lemma ZeroExtendedSumAgrees(rs: Word, imm: HalfWord)
    ensures Plus(rs, WidenHalf(imm)) == Wrap(Unsigned(rs) + HalfNumber(imm))
  {
    hide Unsigned, Plus, Wrap, WidenHalf, HalfNumber;
    WidenHalfNum(imm);
    SumsAgree(rs, WidenHalf(imm));
  }

  lemma WrapIsItself(w: Word, n: int)
    requires Unsigned(w) == n
    ensures w == Wrap(n)
  {
    hide Unsigned, Wrap;
    UnsignedRange(w);
    WrapIs(w, n);
  }

  lemma UpperHalfAgrees(imm: HalfWord)
    ensures UpperHalf(imm) == Wrap(TWO_16 * HalfNumber(imm))
  {
    hide *;
    UpperHalfShifts(imm);
    WrapIsItself(UpperHalf(imm), TWO_16 * HalfNumber(imm));
  }

  lemma AmountIsSmall(w: Word)
    ensures ShAmt(w) < 32
  {
  }

  lemma ShiftsAgree(w: Word, rt: Word)
    ensures var k := AmountNum(w);
      && ShiftLeft(rt, ShAmt(w)) == Wrap(Unsigned(rt) * Pow2(k))
      && ShiftRight(rt, ShAmt(w)) == Wrap(Unsigned(rt) / Pow2(k))
      && ShiftRightArithmetic(rt, ShAmt(w)) == Wrap(Signed(rt) / Pow2(k))
  {
    hide Unsigned, ShAmt, Wrap, Pow2, ShiftLeft, ShiftRight, ShiftRightArithmetic, AmountNum, Signed;
    FieldsAreNumbers(w);
    AmountIsSmall(w);
    var k := ShAmt(w);
    ShiftLeftMultiplies(rt, k);
    ShiftRightDivides(rt, k);
    ShiftRightArithmeticDivides(rt, k);
    WrapIs(ShiftLeft(rt, k), Unsigned(rt) * Pow2(Unsigned(k)));
    UnsignedIs(ShiftRight(rt, k), Unsigned(rt) / Pow2(Unsigned(k)));
    SignedIs(ShiftRightArithmetic(rt, k), Signed(rt) / Pow2(Unsigned(k)));
  }

  lemma GateAgrees(g: Gate, a: Word, b: Word)
    ensures On(g, a, b) == Wrap(Bitwise(g, Unsigned(a), Unsigned(b), 32))
    ensures Not(On(g, a, b)) == Wrap(0xFFFF_FFFF - Bitwise(g, Unsigned(a), Unsigned(b), 32))
  {
    hide Unsigned, On, Bitwise, Wrap, Pow2, Not;
    Pow2Values();
    UnsignedRange(a);
    UnsignedRange(b);
    GatesAreBitwise(g, a, b, 32);
    NotIsMinus(On(g, a, b));
    UnsignedIs(On(g, a, b), Bitwise(g, Unsigned(a), Unsigned(b), 32));
    UnsignedIs(Not(On(g, a, b)), 0xFFFF_FFFF - Bitwise(g, Unsigned(a), Unsigned(b), 32));
  }

  lemma BitwiseAgrees(rs: Word, rt: Word)
    ensures And(rt, rs) == And(rs, rt) == On(AndGate, rs, rt)
    ensures Or(rt, rs) == Or(rs, rt) == On(OrGate, rs, rt)
    ensures Xor(rt, rs) == Xor(rs, rt) == On(XorGate, rs, rt)
  {
  }

  predicate WritesAlu(o: Opcode) {
    KindOf(o).RAlu? || KindOf(o).Shift? || KindOf(o).IAlu? || KindOf(o).Lui?
  }

  lemma RegisterSumsAgree(o: Opcode, w: Word, rs: Word, rt: Word)
    requires Decode(w) == Some(o) && (o.ADD? || o.ADDU? || o.SUB?)
    ensures Alu(w, rs, rt) == Compute(o, w, rs, rt)
  {
    hide Decode, Unsigned, Plus, Minus, Wrap, Pow2, ShiftLeft, ShiftRight, ShiftRightArithmetic, Imm, ShAmt,
         SignExtend16, Signed, Signed16, Not, And, Or, Xor, WidenHalf, UpperHalf, Bitwise, ImmNum, SignedImm, AmountNum;
    SumsAgree(rs, rt);
  }

  lemma SignedImmediateAgrees(w: Word, rs: Word, rt: Word)
    requires Decode(w) == Some(ADDI)
    ensures Alu(w, rs, rt) == Compute(ADDI, w, rs, rt)
  {
    hide Decode, Unsigned, Plus, Minus, Wrap, Pow2, ShiftLeft, ShiftRight, ShiftRightArithmetic, Imm, ShAmt,
         SignExtend16, Signed, Signed16, Not, And, Or, Xor, WidenHalf, UpperHalf, Bitwise, ImmNum, SignedImm, AmountNum;
    LowFieldsAreNumbers(w);
    ImmediateSumAgrees(rs, Imm(w));
  }

  lemma ZeroExtendedImmediateAgrees(w: Word, rs: Word, rt: Word)
    requires Decode(w) == Some(ADDIU)
    ensures Alu(w, rs, rt) == Compute(ADDIU, w, rs, rt)
  {
    hide Decode, Unsigned, Plus, Minus, Wrap, Pow2, ShiftLeft, ShiftRight, ShiftRightArithmetic, Imm, ShAmt,
         SignExtend16, Signed, Signed16, Not, And, Or, Xor, WidenHalf, UpperHalf, Bitwise, ImmNum, SignedImm, AmountNum;
    ImmediateIs(w);
    ZeroExtendedSumAgrees(rs, Imm(w));
  }

  lemma LuiAgrees(w: Word, rs: Word, rt: Word)
    requires Decode(w) == Some(LUI)
    ensures Alu(w, rs, rt) == Compute(LUI, w, rs, rt)
  {
    hide Decode, Unsigned, Plus, Minus, Wrap, Pow2, ShiftLeft, ShiftRight, ShiftRightArithmetic, Imm, ShAmt,
         SignExtend16, Signed, Signed16, Not, And, Or, Xor, WidenHalf, UpperHalf, Bitwise, ImmNum, SignedImm, AmountNum;
    ImmediateIs(w);
    UpperHalfAgrees(Imm(w));
  }

  lemma ShiftOpsAgree(o: Opcode, w: Word, rs: Word, rt: Word)
    requires Decode(w) == Some(o) && (o.SLL? || o.SRL? || o.SRA?)
    ensures Alu(w, rs, rt) == Compute(o, w, rs, rt)
  {
    hide Decode, Unsigned, Plus, Minus, Wrap, Pow2, ShiftLeft, ShiftRight, ShiftRightArithmetic, Imm, ShAmt,
         SignExtend16, Signed, Signed16, Not, And, Or, Xor, WidenHalf, UpperHalf, Bitwise, ImmNum, SignedImm, AmountNum;
    ShiftsAgree(w, rt);
  }

  lemma BitwiseOpsAgree(o: Opcode, w: Word, rs: Word, rt: Word)
    requires Decode(w) == Some(o) && (o.AND? || o.OR? || o.XOR? || o.NOR? || o.NAND?)
    ensures Alu(w, rs, rt) == Compute(o, w, rs, rt)
  {
    hide On, Decode, Unsigned, Plus, Minus, Wrap, Pow2, ShiftLeft, ShiftRight, ShiftRightArithmetic, Imm, ShAmt,
         SignExtend16, Signed, Signed16, Not, And, Or, Xor, WidenHalf, UpperHalf, Bitwise, ImmNum, SignedImm, AmountNum;
    BitwiseAgrees(rs, rt);
    GateAgrees(AndGate, rs, rt);
    GateAgrees(OrGate, rs, rt);
    GateAgrees(XorGate, rs, rt);
  }

  lemma BitwiseImmediate(w: Word, rs: Word)
    ensures And(rs, WidenHalf(Imm(w))) == Wrap(Bitwise(AndGate, Unsigned(rs), ImmNum(w), 32))
    ensures Or(rs, WidenHalf(Imm(w))) == Wrap(Bitwise(OrGate, Unsigned(rs), ImmNum(w), 32))
    ensures Not(Or(rs, WidenHalf(Imm(w)))) == Wrap(0xFFFF_FFFF - Bitwise(OrGate, Unsigned(rs), ImmNum(w), 32))
  {
    hide On, Unsigned, Wrap, Imm, Not, And, Or, WidenHalf, Bitwise, ImmNum, HalfNumber;
    ImmediateIs(w);
    WidenHalfNum(Imm(w));
    BitwiseAgrees(rs, WidenHalf(Imm(w)));
    GateAgrees(AndGate, rs, WidenHalf(Imm(w)));
    GateAgrees(OrGate, rs, WidenHalf(Imm(w)));
  }

  lemma BitwiseImmediatesAgree(o: Opcode, w: Word, rs: Word, rt: Word)
    requires Decode(w) == Some(o) && (o.ANDI? || o.ORI? || o.NORI?)
    ensures Alu(w, rs, rt) == Compute(o, w, rs, rt)
  {
    hide Decode, Unsigned, Plus, Minus, Wrap, Pow2, ShiftLeft, ShiftRight, ShiftRightArithmetic, Imm, ShAmt,
         SignExtend16, Signed, Signed16, Not, And, Or, Xor, WidenHalf, UpperHalf, Bitwise, ImmNum, SignedImm, AmountNum;
    BitwiseImmediate(w, rs);
  }

  lemma OtherOpsAgree(o: Opcode, w: Word, rs: Word, rt: Word)
    requires Decode(w) == Some(o) && (o.SLT? || o.SLTI? || !WritesAlu(o))
    ensures Alu(w, rs, rt) == Compute(o, w, rs, rt)
  {
    hide Decode, Unsigned, Plus, Minus, Wrap, Pow2, ShiftLeft, ShiftRight, ShiftRightArithmetic, Imm, ShAmt,
         SignExtend16, Signed, Signed16, Not, And, Or, Xor, WidenHalf, UpperHalf, Bitwise, ImmNum, AmountNum;
    LowFieldsAreNumbers(w);
  }

  /** The EX lambdas compute what the opcodes mean. */
  lemma AluAgrees(o: Opcode, w: Word, rs: Word, rt: Word)
    requires Decode(w) == Some(o)
    ensures Alu(w, rs, rt) == Compute(o, w, rs, rt)
  {
    hide Decode, Alu, Compute;
    match o
    case ADD | ADDU | SUB => RegisterSumsAgree(o, w, rs, rt);
    case ADDI => SignedImmediateAgrees(w, rs, rt);
    case ADDIU => ZeroExtendedImmediateAgrees(w, rs, rt);
    case LUI => LuiAgrees(w, rs, rt);
    case SLL | SRL | SRA => ShiftOpsAgree(o, w, rs, rt);
    case AND | OR | XOR | NOR | NAND => BitwiseOpsAgree(o, w, rs, rt);
    case ANDI | ORI | NORI => BitwiseImmediatesAgree(o, w, rs, rt);
    case _ => OtherOpsAgree(o, w, rs, rt);
  }

  // ---------------------------------------------------------------- one instruction

  function AddressOf(w: Word, rs: Word): Word { Wrap(Unsigned(rs) + SignedImm(w)) }

  function Next(pc: Word): Word { Wrap(Unsigned(pc) + 4) }

  function BranchTo(pc: Word, w: Word): Word { Wrap(Unsigned(pc) + 4 + 4 * SignedImm(w)) }

  /** The region of the next address, and four times the address field. */
  function JumpTo(pc: Word, w: Word): Word {
    Wrap((Unsigned(pc) + 4) % TWO_32 / 0x1000_0000 * 0x1000_0000 + 4 * AddrNum(w))
  }

  /** The word at an address of the text: four bytes each, from the start on. */
  function WordAt(im: Image, pc: Word): Option<Word> {
    var n := Unsigned(pc) - Unsigned(im.start);
    if 0 <= n <= 4 * (|im.text| - 1) then Some(im.text[n / 4]) else None
  }

  /** The word there is a HALT. */
  predicate HaltsThere(im: Image, pc: Word) { WordAt(im, pc).Some? && OpNum(WordAt(im, pc).value) == 0x3F }

  function WriteReg(regs: RegFile, r: Reg, v: Word): RegFile { if r == 0 then regs else regs[r := v] }

  /** Go to t if it is aligned and not behind the last word of the text; else go on. */
  function GoTo(im: Image, pc: Word, t: Word): Word {
    if Unsigned(t) % 4 == 0 && Unsigned(t) <= Unsigned(im.start) + 4 * (|im.text| - 1) then t else Next(pc)
  }

  /** May size bytes be accessed at address n? At the very top of the address space the check fails to
      notice the end of the memory. */
  predicate Accessible(n: int, size: nat)
    requires size > 0
  {
    0 <= n && n % size == 0 && n + size <= 1024
  }

  predicate Unnoticed(n: int, size: nat) { n == TWO_32 - size }

  /** The number that a load finds, the register unchanged for a fault. */
  function Loaded(u: Undefined, m: Mem, a: Word, size: nat, signed: bool, before: Word): Word
    requires size > 0
  {
    var n := Unsigned(a);
    if Unnoticed(n, size) then u.astrayLoad(m, a)
    else if Accessible(n, size) then Wrap(Extended(NumberAt(m, n, size), size, signed))
    else before
  }

  function StoredTo(u: Undefined, m: Mem, a: Word, size: nat, v: Word): Mem
    requires size > 0
  {
    var n := Unsigned(a);
    if Unnoticed(n, size) then u.astrayStore(m, a, v)
    else if Accessible(n, size) then Written(m, n, size, Unsigned(v))
    else m
  }

  function Perform(im: Image, u: Undefined, c: Cpu, w: Word, o: Opcode): Cpu {
    var rs, rt := c.regs[RsNum(w)], c.regs[RtNum(w)];
    var next, a := Next(c.pc), AddressOf(w, rs);
    match o
    case ADD | ADDU | SUB | AND | OR | XOR | NOR | NAND | SLT | SLL | SRL | SRA =>
      Cpu(next, WriteReg(c.regs, RdNum(w), Compute(o, w, rs, rt)), c.mem)
    case ADDI | ADDIU | ANDI | ORI | NORI | SLTI | LUI =>
      Cpu(next, WriteReg(c.regs, RtNum(w), Compute(o, w, rs, rt)), c.mem)
    case LW => Cpu(next, WriteReg(c.regs, RtNum(w), Loaded(u, c.mem, a, 4, false, rt)), c.mem)
    case LH => Cpu(next, WriteReg(c.regs, RtNum(w), Loaded(u, c.mem, a, 2, true, rt)), c.mem)
    case LHU => Cpu(next, WriteReg(c.regs, RtNum(w), Loaded(u, c.mem, a, 2, false, rt)), c.mem)
    case LB => Cpu(next, WriteReg(c.regs, RtNum(w), Loaded(u, c.mem, a, 1, true, rt)), c.mem)
    case LBU => Cpu(next, WriteReg(c.regs, RtNum(w), Loaded(u, c.mem, a, 1, false, rt)), c.mem)
    case SW => Cpu(next, c.regs, StoredTo(u, c.mem, a, 4, rt))
    case SH => Cpu(next, c.regs, StoredTo(u, c.mem, a, 2, rt))
    case SB => Cpu(next, c.regs, StoredTo(u, c.mem, a, 1, rt))
    case BEQ => Cpu(if rs == rt then GoTo(im, c.pc, BranchTo(c.pc, w)) else next, c.regs, c.mem)
    case BNE => Cpu(if rs != rt then GoTo(im, c.pc, BranchTo(c.pc, w)) else next, c.regs, c.mem)
    case BGTZ => Cpu(if Signed(rs) > 0 then GoTo(im, c.pc, BranchTo(c.pc, w)) else next, c.regs, c.mem)
    case JR => Cpu(GoTo(im, c.pc, rs), c.regs, c.mem)
    case J => Cpu(GoTo(im, c.pc, JumpTo(c.pc, w)), c.regs, c.mem)
    case JAL => Cpu(GoTo(im, c.pc, JumpTo(c.pc, w)), WriteReg(c.regs, 31, next), c.mem)
    case NoOp | HALT => Cpu(next, c.regs, c.mem)
  }

  /** Outside the text nothing happens but the next address. */
  function Execute(im: Image, u: Undefined, c: Cpu): Cpu {
    match WordAt(im, c.pc)
    case None => c.(pc := Next(c.pc))
    case Some(w) =>
      match Decode(w)
      case Some(o) => Perform(im, u, c, w, o)
      case None => c.(pc := Next(c.pc))
  }

  // ---------------------------------------------------------------- agreement

  function CpuOf(a: Arch): Cpu { Cpu(a.pc, a.regs, a.mem) }

  lemma EndIs(im: Image)
    requires im.Valid()
    ensures im.End() == Unsigned(im.start) + 4 * (|im.text| - 1) && 0 <= Unsigned(im.start)
  {
    UnsignedRange(im.start);
    hide Unsigned, Decode;
  }

  lemma FetchAgrees(im: Image, pc: Word)
    requires im.Valid()
    ensures Fetch(im, pc) == match WordAt(im, pc) case Some(w) => InstrOf(w) case None => NOP
  {
    EndIs(im);
    hide Unsigned, InstrOf, Decode;
  }

  lemma AdvanceIsPlus(pc: Word)
    ensures Advance(pc) == Plus(pc, 4)
  {
  }

  /** The PC goes on by four, modulo 2^32. */
  lemma NextAgrees(pc: Word)
    ensures Advance(pc) == Next(pc) && Unsigned(Advance(pc)) == (Unsigned(pc) + 4) % TWO_32
  {
    hide Unsigned, Advance, Plus, Wrap;
    Literals();
    AdvanceIsPlus(pc);
    PlusWraps(pc, 4);
    WrapIs(Plus(pc, 4), Unsigned(pc) + 4);
  }

  lemma JumpAgrees(pc: Word, w: Word)
    ensures JumpTarget(pc, Addr(w)) == JumpTo(pc, w)
  {
    hide Unsigned, JumpTarget, Addr, AddrNum, Wrap;
    JumpTargetIs(pc, w);
    UnsignedIs(JumpTarget(pc, Addr(w)), (Unsigned(pc) + 4) % TWO_32 / 0x1000_0000 * 0x1000_0000 + 4 * AddrNum(w));
  }

  /** SetPC accepts exactly the aligned addresses up to that of the last word, this one included. */
  lemma SettableIff(im: Image, t: Word)
    requires im.Valid()
    ensures Settable(im, t) <==>
              Unsigned(t) % 4 == 0 && Unsigned(t) <= Unsigned(im.start) + 4 * (|im.text| - 1)
  {
    EndIs(im);
    AlignedIs(t);
    hide Unsigned, Image.Valid, Image.End;
  }

  lemma GoToAgrees(im: Image, pc: Word, t: Word)
    requires im.Valid()
    ensures GoTo(im, pc, t) == if Settable(im, t) then t else Next(pc)
  {
    hide Settable, Unsigned, Image.Valid, Next;
    SettableIff(im, t);
  }

  /** IF finds each word of the text at its own address, and a NOP before and behind the text. */
  lemma FetchIs(im: Image, pc: Word, k: nat)
    requires im.Valid()
    ensures k < |im.text| && Unsigned(pc) == Unsigned(im.start) + 4 * k ==> Fetch(im, pc) == InstrOf(im.text[k])
    ensures Unsigned(pc) < Unsigned(im.start) || Unsigned(pc) > Unsigned(im.start) + 4 * (|im.text| - 1) ==>
              Fetch(im, pc) == NOP
  {
    FetchAgrees(im, pc);
    hide Unsigned, InstrOf, Fetch, Image.Valid;
  }

  /** What the pipeline takes for a HALT is a HALT word of the text. */
  lemma FetchHalts(im: Image, u: Undefined, pc: Word)
    requires im.Valid()
    ensures Mips(im, u).fetch(pc).kind.Halt? <==> HaltsThere(im, pc)
  {
    hide InstrOf, Fetch, WordAt, OpNum, Image.Valid;
    FetchAgrees(im, pc);
    if WordAt(im, pc).Some? { HaltIff(WordAt(im, pc).value); }
  }

  lemma AddressAgrees(w: Word, rs: Word)
    ensures Address(w, rs) == AddressOf(w, rs)
  {
    hide Plus, SignExtend16, Imm, Unsigned, Signed16, Wrap, SignedImm;
    LowFieldsAreNumbers(w);
    ImmediateSumAgrees(rs, Imm(w));
  }

  lemma BranchAgrees(pc: Word, w: Word)
    ensures BranchTarget(pc, Imm(w)) == BranchTo(pc, w)
  {
    hide BranchTarget, Imm, Unsigned, Signed16, Wrap, SignedImm;
    LowFieldsAreNumbers(w);
    BranchTargetIsRelative(pc, Imm(w));
    WrapIs(BranchTarget(pc, Imm(w)), Unsigned(pc) + 4 + 4 * Signed16(Imm(w)));
  }

  /** The classes read no more operands than they pass on. */
  lemma ShiftsReadRt(o: Opcode, w: Word, rs: Word, rt: Word)
    requires KindOf(o).Shift?
    ensures Compute(o, w, 0, rt) == Compute(o, w, rs, rt)
  {
    assert o.SLL? || o.SRL? || o.SRA?;
    hide KindOf, Unsigned, Signed, Wrap, Pow2, Bitwise, ImmNum, SignedImm, AmountNum;
  }

  lemma ImmediatesReadRs(o: Opcode, w: Word, rs: Word, rt: Word)
    requires KindOf(o).IAlu?
    ensures Compute(o, w, rs, 0) == Compute(o, w, rs, rt)
  {
    assert o.ADDI? || o.ADDIU? || o.ANDI? || o.ORI? || o.NORI? || o.SLTI?;
    hide KindOf, Unsigned, Signed, Wrap, Pow2, Bitwise, ImmNum, SignedImm, AmountNum;
  }

  lemma LuiReadsNothing(w: Word, rs: Word, rt: Word)
    ensures Compute(LUI, w, 0, 0) == Compute(LUI, w, rs, rt)
  {
    hide Unsigned, Signed, Wrap, Pow2, Bitwise, ImmNum, SignedImm, AmountNum;
  }

  /** Fetching at pc gives the word w, which decodes to o. */
  predicate Located(im: Image, pc: Word, w: Word, o: Opcode) {
    Fetch(im, pc) == InstrOf(w) && Decode(w) == Some(o)
  }

  predicate WritesResult(k: Kind) { k.RAlu? || k.Shift? || k.IAlu? || k.Lui? || k.Load? }

  /** The classes that write a result and go on. */
  lemma WriterParts(isa: Isa, a: Arch)
    requires WritesResult(isa.fetch(a.pc).kind)
    ensures CpuOf(IdealStep(isa, a)) ==
            Cpu(Next(a.pc), WriteReg(a.regs, Dest(isa.fetch(a.pc)), IdealResult(isa, a)), a.mem)
  {
    hide NextPast, Advance, Next, IdealResult;
    NextAgrees(a.pc);
  }

  lemma ResultOf(isa: Isa, a: Arch)
    requires var k := isa.fetch(a.pc).kind; k.RAlu? || k.Shift? || k.IAlu? || k.Lui?
    ensures var i := isa.fetch(a.pc); var rs, rt := a.regs[i.rs], a.regs[i.rt];
      IdealResult(isa, a) ==
      isa.alu(i.bits, if i.kind.RAlu? || i.kind.IAlu? then rs else 0, if i.kind.RAlu? || i.kind.Shift? then rt else 0)
  {
  }

  lemma AluIgnores(o: Opcode, w: Word, rs: Word, rt: Word)
    requires Decode(w) == Some(o) && WritesAlu(o)
    ensures var k := KindOf(o);
      Alu(w, if k.RAlu? || k.IAlu? then rs else 0, if k.RAlu? || k.Shift? then rt else 0) == Compute(o, w, rs, rt)
  {
    assert KindOf(o).Lui? ==> o == LUI;
    hide Decode, Alu, Compute, KindOf;
    match KindOf(o)
    case RAlu => AluAgrees(o, w, rs, rt);
    case Shift => AluAgrees(o, w, 0, rt); ShiftsReadRt(o, w, rs, rt);
    case IAlu => AluAgrees(o, w, rs, 0); ImmediatesReadRs(o, w, rs, rt);
    case Lui => AluAgrees(o, w, 0, 0); LuiReadsNothing(w, rs, rt);
  }

  lemma InstrIs(w: Word, o: Opcode)
    requires Decode(w) == Some(o)
    ensures InstrOf(w) == Instr(KindOf(o), RsNum(w), RtNum(w), RdNum(w), w)
  {
    hide Decode, KindOf, Rs, Rt, Rd, RegOf, Unsigned;
    FieldsAreRegisters(w);
    FieldsAreNumbers(w);
  }

  lemma LocatedInstr(im: Image, u: Undefined, pc: Word, w: Word, o: Opcode)
    requires Located(im, pc, w, o)
    ensures Mips(im, u).fetch(pc) == Instr(KindOf(o), RsNum(w), RtNum(w), RdNum(w), w)
  {
    hide Decode, Fetch, KindOf, InstrOf, RsNum, RtNum, RdNum;
    InstrIs(w, o);
  }

  lemma AluResult(im: Image, u: Undefined, a: Arch, w: Word, o: Opcode)
    requires Located(im, a.pc, w, o) && WritesAlu(o)
    ensures IdealResult(Mips(im, u), a) == Compute(o, w, a.regs[RsNum(w)], a.regs[RtNum(w)])
  {
    LocatedInstr(im, u, a.pc, w, o);
    hide Decode, Fetch, Alu, Compute, KindOf, RsNum, RtNum, RdNum, IdealResult, InstrOf;
    AluIgnores(o, w, a.regs[RsNum(w)], a.regs[RtNum(w)]);
    ResultOf(Mips(im, u), a);
  }

  function ResultReg(o: Opcode, w: Word): Reg {
    if KindOf(o).RAlu? || KindOf(o).Shift? then RdNum(w) else RtNum(w)
  }

  lemma PerformArithmetic(im: Image, u: Undefined, c: Cpu, w: Word, o: Opcode)
    requires o.ADD? || o.ADDU? || o.SUB? || o.SLT?
    ensures var rs, rt := c.regs[RsNum(w)], c.regs[RtNum(w)];
      Perform(im, u, c, w, o) ==
      Cpu(Next(c.pc), WriteReg(c.regs, RdNum(w), Compute(o, w, rs, rt)), c.mem)
  {
    hide Compute, RsNum, RtNum, RdNum, WriteReg, Next, AddressOf, BranchTo, GoTo, Loaded, StoredTo, JumpTo, Signed;
  }

  lemma PerformBitwise(im: Image, u: Undefined, c: Cpu, w: Word, o: Opcode)
    requires o.AND? || o.OR? || o.XOR? || o.NOR? || o.NAND?
    ensures var rs, rt := c.regs[RsNum(w)], c.regs[RtNum(w)];
      Perform(im, u, c, w, o) ==
      Cpu(Next(c.pc), WriteReg(c.regs, RdNum(w), Compute(o, w, rs, rt)), c.mem)
  {
    hide Compute, RsNum, RtNum, RdNum, WriteReg, Next, AddressOf, BranchTo, GoTo, Loaded, StoredTo, JumpTo, Signed;
  }

  lemma PerformShift(im: Image, u: Undefined, c: Cpu, w: Word, o: Opcode)
    requires o.SLL? || o.SRL? || o.SRA?
    ensures var rs, rt := c.regs[RsNum(w)], c.regs[RtNum(w)];
      Perform(im, u, c, w, o) ==
      Cpu(Next(c.pc), WriteReg(c.regs, RdNum(w), Compute(o, w, rs, rt)), c.mem)
  {
    hide Compute, RsNum, RtNum, RdNum, WriteReg, Next, AddressOf, BranchTo, GoTo, Loaded, StoredTo, JumpTo, Signed;
  }

  lemma PerformImmediate(im: Image, u: Undefined, c: Cpu, w: Word, o: Opcode)
    requires o.ADDI? || o.ADDIU? || o.SLTI? || o.LUI?
    ensures var rs, rt := c.regs[RsNum(w)], c.regs[RtNum(w)];
      Perform(im, u, c, w, o) ==
      Cpu(Next(c.pc), WriteReg(c.regs, RtNum(w), Compute(o, w, rs, rt)), c.mem)
  {
    hide Compute, RsNum, RtNum, RdNum, WriteReg, Next, AddressOf, BranchTo, GoTo, Loaded, StoredTo, JumpTo, Signed;
  }

  lemma PerformImmediateBitwise(im: Image, u: Undefined, c: Cpu, w: Word, o: Opcode)
    requires o.ANDI? || o.ORI? || o.NORI?
    ensures var rs, rt := c.regs[RsNum(w)], c.regs[RtNum(w)];
      Perform(im, u, c, w, o) ==
      Cpu(Next(c.pc), WriteReg(c.regs, RtNum(w), Compute(o, w, rs, rt)), c.mem)
  {
    hide Compute, RsNum, RtNum, RdNum, WriteReg, Next, AddressOf, BranchTo, GoTo, Loaded, StoredTo, JumpTo, Signed;
  }

  lemma AluStepTo(im: Image, u: Undefined, a: Arch, w: Word, o: Opcode, r: Reg)
    requires Located(im, a.pc, w, o) && WritesAlu(o) && r == ResultReg(o, w)
    requires var rs, rt := a.regs[RsNum(w)], a.regs[RtNum(w)];
      Perform(im, u, CpuOf(a), w, o) == Cpu(Next(a.pc), WriteReg(a.regs, r, Compute(o, w, rs, rt)), a.mem)
    ensures CpuOf(IdealStep(Mips(im, u), a)) == Perform(im, u, CpuOf(a), w, o)
  {
    LocatedInstr(im, u, a.pc, w, o);
    hide Decode, Fetch, InstrOf, Located, Alu, Compute, RsNum, RtNum, RdNum, IdealStep, IdealResult, Perform, Next,
         WriteReg, Address, KindOf;
    AluResult(im, u, a, w, o);
    WriterParts(Mips(im, u), a);
  }

  lemma AluStep(im: Image, u: Undefined, a: Arch, w: Word, o: Opcode)
    requires Located(im, a.pc, w, o) && WritesAlu(o)
    ensures CpuOf(IdealStep(Mips(im, u), a)) == Perform(im, u, CpuOf(a), w, o)
  {
    hide Decode, Fetch, InstrOf, Located, Compute, RsNum, RtNum, RdNum, IdealStep, Perform, Next, WriteReg, Mips;
    if KindOf(o).Shift? {
      PerformShift(im, u, CpuOf(a), w, o);
      AluStepTo(im, u, a, w, o, RdNum(w));
    } else if KindOf(o).RAlu? {
      if o.ADD? || o.ADDU? || o.SUB? || o.SLT? {
        PerformArithmetic(im, u, CpuOf(a), w, o);
      } else {
        PerformBitwise(im, u, CpuOf(a), w, o);
      }
      AluStepTo(im, u, a, w, o, RdNum(w));
    } else {
      if o.ANDI? || o.ORI? || o.NORI? {
        PerformImmediateBitwise(im, u, CpuOf(a), w, o);
      } else {
        PerformImmediate(im, u, CpuOf(a), w, o);
      }
      AluStepTo(im, u, a, w, o, RtNum(w));
    }
  }

  predicate SignedOf(o: Opcode) { o.LH? || o.LB? }

  function SizeOf(o: Opcode): (size: nat)
    ensures size > 0
  {
    match o
    case LH | LHU | SH => 2
    case LB | LBU | SB => 1
    case _ => 4
  }

  lemma WidthsAgree(w: Word, o: Opcode)
    requires Decode(w) == Some(o)
    ensures Size(WidthOf(w)) == SizeOf(o) && SignedLoad(w) == SignedOf(o)
  {
    hide Decode;
  }

  lemma ChecksAgree(a: Word, size: nat)
    requires size == 1 || size == 2 || size == 4
    ensures Check(a, size) == Astray <==> Unnoticed(Unsigned(a), size)
    ensures Check(a, size) == Within <==> Accessible(Unsigned(a), size)
    ensures Unnoticed(Unsigned(a), size) ==> !Accessible(Unsigned(a), size)
  {
    hide Unsigned, Check;
    UnsignedRange(a);
    CheckIsExactBut(a, size);
  }

  lemma LoadAgrees(u: Undefined, w: Word, o: Opcode, m: Mem, a: Word, before: Word)
    requires Decode(w) == Some(o)
    ensures LoadFrom(u, w, m, a).GetOr(before) == Loaded(u, m, a, SizeOf(o), SignedOf(o), before)
  {
    hide Decode, Check, DataMemory.Get, Unsigned, WidthOf, SignedLoad, SizeOf, SignedOf, Wrap, Extended, NumberAt,
         Unnoticed;
    WidthsAgree(w, o);
    SizesOf(w);
    ChecksAgree(a, SizeOf(o));
    if Accessible(Unsigned(a), SizeOf(o)) { GetIsNumber(m, Unsigned(a), WidthOf(w), SignedLoad(w)); }
  }

  lemma SizesOf(w: Word)
    ensures var size := Size(WidthOf(w)); size == 1 || size == 2 || size == 4
  {
    hide WidthOf;
  }

  lemma StoreAgrees(u: Undefined, w: Word, o: Opcode, m: Mem, a: Word, v: Word)
    requires Decode(w) == Some(o)
    ensures StoreTo(u, w, m, a, v).GetOr(m) == StoredTo(u, m, a, SizeOf(o), v)
  {
    hide Decode, Check, DataMemory.Put, Unsigned, WidthOf, SizeOf, Written, Unnoticed;
    WidthsAgree(w, o);
    SizesOf(w);
    ChecksAgree(a, SizeOf(o));
    if Accessible(Unsigned(a), SizeOf(o)) { PutIsWritten(m, Unsigned(a), WidthOf(w), v); }
  }

  lemma LoadResult(im: Image, u: Undefined, a: Arch, w: Word, o: Opcode)
    requires Located(im, a.pc, w, o) && KindOf(o).Load?
    ensures var rs, rt := a.regs[RsNum(w)], a.regs[RtNum(w)];
      IdealResult(Mips(im, u), a) == Loaded(u, a.mem, AddressOf(w, rs), SizeOf(o), SignedOf(o), rt)
  {
    hide Decode, Fetch, InstrOf, KindOf, RsNum, RtNum, RdNum, Address, AddressOf, LoadFrom, Loaded, SizeOf, SignedOf,
         Result;
    LocatedInstr(im, u, a.pc, w, o);
    var rs := a.regs[RsNum(w)];
    AddressAgrees(w, rs);
    LoadAgrees(u, w, o, a.mem, Address(w, rs), a.regs[RtNum(w)]);
  }

  lemma PerformLoad(im: Image, u: Undefined, c: Cpu, w: Word, o: Opcode)
    requires KindOf(o).Load?
    ensures var rs, rt := c.regs[RsNum(w)], c.regs[RtNum(w)];
      Perform(im, u, c, w, o) ==
      Cpu(Next(c.pc),
          WriteReg(c.regs, RtNum(w), Loaded(u, c.mem, AddressOf(w, rs), SizeOf(o), SignedOf(o), rt)),
          c.mem)
  {
    hide Compute, RsNum, RtNum, RdNum, WriteReg, Next, AddressOf, BranchTo, GoTo, Loaded, StoredTo, JumpTo, Signed;
  }

  lemma LoadStep(im: Image, u: Undefined, a: Arch, w: Word, o: Opcode)
    requires Located(im, a.pc, w, o) && KindOf(o).Load?
    ensures CpuOf(IdealStep(Mips(im, u), a)) == Perform(im, u, CpuOf(a), w, o)
  {
    hide Decode, Fetch, RsNum, RtNum, RdNum, IdealStep, IdealResult, Perform, Next, WriteReg, Loaded, AddressOf,
         SizeOf, SignedOf;
    LocatedInstr(im, u, a.pc, w, o);
    LoadResult(im, u, a, w, o);
    PerformLoad(im, u, CpuOf(a), w, o);
    WriterParts(Mips(im, u), a);
  }

  lemma StoreParts(isa: Isa, a: Arch)
    requires isa.fetch(a.pc).kind.Store?
    ensures CpuOf(IdealStep(isa, a)) == Cpu(Next(a.pc), a.regs, StoreWord(isa, a, a.regs[isa.fetch(a.pc).rt]))
  {
    hide NextPast, Advance, Next, StoreWord;
    NextAgrees(a.pc);
  }

  lemma StoreResult(im: Image, u: Undefined, a: Arch, w: Word, o: Opcode)
    requires Located(im, a.pc, w, o) && KindOf(o).Store?
    ensures var rs, rt := a.regs[RsNum(w)], a.regs[RtNum(w)];
      StoreWord(Mips(im, u), a, rt) == StoredTo(u, a.mem, AddressOf(w, rs), SizeOf(o), rt)
  {
    hide Decode, Fetch, InstrOf, KindOf, RsNum, RtNum, RdNum, Address, AddressOf, StoreTo, StoredTo, SizeOf;
    LocatedInstr(im, u, a.pc, w, o);
    var rs := a.regs[RsNum(w)];
    AddressAgrees(w, rs);
    StoreAgrees(u, w, o, a.mem, Address(w, rs), a.regs[RtNum(w)]);
  }

  lemma PerformStore(im: Image, u: Undefined, c: Cpu, w: Word, o: Opcode)
    requires KindOf(o).Store?
    ensures var rs, rt := c.regs[RsNum(w)], c.regs[RtNum(w)];
      Perform(im, u, c, w, o) ==
      Cpu(Next(c.pc), c.regs, StoredTo(u, c.mem, AddressOf(w, rs), SizeOf(o), rt))
  {
    hide Compute, RsNum, RtNum, RdNum, WriteReg, Next, AddressOf, BranchTo, GoTo, Loaded, StoredTo, JumpTo, Signed;
  }

  lemma StoreStep(im: Image, u: Undefined, a: Arch, w: Word, o: Opcode)
    requires Located(im, a.pc, w, o) && KindOf(o).Store?
    ensures CpuOf(IdealStep(Mips(im, u), a)) == Perform(im, u, CpuOf(a), w, o)
  {
    hide Decode, Fetch, RsNum, RtNum, RdNum, IdealStep, StoreWord, Perform, Next, StoredTo, AddressOf, SizeOf;
    LocatedInstr(im, u, a.pc, w, o);
    StoreResult(im, u, a, w, o);
    PerformStore(im, u, CpuOf(a), w, o);
    StoreParts(Mips(im, u), a);
  }

  /** The branches write nothing. */
  lemma BranchParts(isa: Isa, a: Arch)
    requires Branches(isa.fetch(a.pc).kind)
    ensures CpuOf(IdealStep(isa, a)) == Cpu(NextPc(isa, a), a.regs, a.mem)
  {
    hide NextPast, NextPc;
  }

  predicate Branches(k: Kind) { k.BranchTwo? || k.BranchOne? }

  lemma BranchNextOf(isa: Isa, a: Arch)
    requires Branches(isa.fetch(a.pc).kind) && a.view == a.regs
    ensures var i := isa.fetch(a.pc); var rs, rt, t := a.regs[i.rs], a.regs[i.rt], isa.target(i.bits, a.pc);
      NextPc(isa, a) ==
      if isa.taken(i.bits, rs, if i.kind.BranchTwo? then rt else 0) && isa.settable(t) then t else Next(a.pc)
  {
    hide Advance, Next;
    NextAgrees(a.pc);
  }

  predicate TakenBy(o: Opcode, rs: Word, rt: Word) {
    if o.BEQ? then rs == rt else if o.BNE? then rs != rt else Signed(rs) > 0
  }

  lemma TakenAgrees(w: Word, o: Opcode, pc: Word, rs: Word, rt: Word)
    requires Decode(w) == Some(o) && Branches(KindOf(o))
    ensures Taken(w, rs, if KindOf(o).BranchTwo? then rt else 0) == TakenBy(o, rs, rt)
    ensures TargetOf(w, pc) == BranchTarget(pc, Imm(w))
  {
    hide Decode, Signed, Imm, BranchTarget;
  }

  lemma MipsControl(im: Image, u: Undefined, bits: Word, pc: Word, t: Word)
    ensures Mips(im, u).target(bits, pc) == TargetOf(bits, pc)
    ensures Mips(im, u).settable(t) == Settable(im, t)
  {
    hide TargetOf, Settable;
  }

  lemma MipsTaken(im: Image, u: Undefined, bits: Word, rs: Word, rt: Word)
    ensures Mips(im, u).taken(bits, rs, rt) == Taken(bits, rs, rt)
  {
    hide Taken;
  }

  lemma BranchNext(im: Image, u: Undefined, a: Arch, w: Word, o: Opcode)
    requires im.Valid() && Located(im, a.pc, w, o) && Branches(KindOf(o)) && a.view == a.regs
    ensures var rs, rt := a.regs[RsNum(w)], a.regs[RtNum(w)];
      NextPc(Mips(im, u), a) == if TakenBy(o, rs, rt) then GoTo(im, a.pc, BranchTo(a.pc, w)) else Next(a.pc)
  {
    hide Decode, Fetch, RsNum, RtNum, RdNum, BranchTarget, BranchTo, Settable, Next, Imm, Taken, TakenBy, TargetOf,
         NextPc, InstrOf, KindOf, Mips;
    var rs, rt := a.regs[RsNum(w)], a.regs[RtNum(w)];
    LocatedInstr(im, u, a.pc, w, o);
    BranchNextOf(Mips(im, u), a);
    TakenAgrees(w, o, a.pc, rs, rt);
    BranchAgrees(a.pc, w);
    MipsTaken(im, u, w, rs, if KindOf(o).BranchTwo? then rt else 0);
    MipsControl(im, u, w, a.pc, TargetOf(w, a.pc));
    GoToAgrees(im, a.pc, TargetOf(w, a.pc));
  }

  lemma PerformBranch(im: Image, u: Undefined, c: Cpu, w: Word, o: Opcode)
    requires Branches(KindOf(o))
    ensures var rs, rt := c.regs[RsNum(w)], c.regs[RtNum(w)];
      Perform(im, u, c, w, o) ==
      Cpu(if TakenBy(o, rs, rt) then GoTo(im, c.pc, BranchTo(c.pc, w)) else Next(c.pc), c.regs, c.mem)
  {
    hide Compute, RsNum, RtNum, RdNum, WriteReg, Next, AddressOf, BranchTo, GoTo, Loaded, StoredTo, JumpTo, Signed;
  }

  lemma BranchStep(im: Image, u: Undefined, a: Arch, w: Word, o: Opcode)
    requires im.Valid() && Located(im, a.pc, w, o) && Branches(KindOf(o)) && a.view == a.regs
    ensures CpuOf(IdealStep(Mips(im, u), a)) == Perform(im, u, CpuOf(a), w, o)
  {
    hide Decode, Fetch, RsNum, RtNum, RdNum, IdealStep, NextPc, Perform, Next, BranchTo, GoTo, Signed, TakenBy;
    LocatedInstr(im, u, a.pc, w, o);
    BranchNext(im, u, a, w, o);
    PerformBranch(im, u, CpuOf(a), w, o);
    BranchParts(Mips(im, u), a);
  }

  predicate Jumps(k: Kind) { k.JumpReg? || k.Jump? || k.JumpLink? || k.Nop? || k.Halt? }

  lemma JumpParts(isa: Isa, a: Arch)
    requires Jumps(isa.fetch(a.pc).kind)
    ensures var i := isa.fetch(a.pc);
      CpuOf(IdealStep(isa, a)) ==
      Cpu(NextPc(isa, a), if i.kind.JumpLink? then WriteReg(a.regs, 31, Next(a.pc)) else a.regs, a.mem)
  {
    hide NextPast, Advance, Next, NextPc;
    NextAgrees(a.pc);
  }

  function JumpsTo(im: Image, c: Cpu, w: Word, o: Opcode): Word {
    match o
    case JR => GoTo(im, c.pc, c.regs[RsNum(w)])
    case J | JAL => GoTo(im, c.pc, JumpTo(c.pc, w))
    case _ => Next(c.pc)
  }

  lemma NextOf(isa: Isa, a: Arch)
    requires Jumps(isa.fetch(a.pc).kind) && a.view == a.regs
    ensures var i := isa.fetch(a.pc);
      var t := if i.kind.JumpReg? then a.regs[i.rs] else isa.target(i.bits, a.pc);
      NextPc(isa, a) ==
      if (i.kind.JumpReg? || i.kind.Jump? || i.kind.JumpLink?) && isa.settable(t) then t else Next(a.pc)
  {
    hide Advance, Next;
    NextAgrees(a.pc);
  }

  lemma JumpTargetAgrees(w: Word, o: Opcode, pc: Word)
    requires Decode(w) == Some(o) && (o.J? || o.JAL?)
    ensures TargetOf(w, pc) == JumpTo(pc, w)
  {
    hide Decode, JumpTarget, Addr, JumpTo;
    JumpAgrees(pc, w);
  }

  lemma JumpNext(im: Image, u: Undefined, a: Arch, w: Word, o: Opcode)
    requires im.Valid() && Located(im, a.pc, w, o) && Jumps(KindOf(o)) && a.view == a.regs
    ensures NextPc(Mips(im, u), a) == JumpsTo(im, CpuOf(a), w, o)
  {
    hide Decode, Fetch, InstrOf, RsNum, RtNum, RdNum, TargetOf, JumpTo, Settable, Next, NextPc, Mips;
    LocatedInstr(im, u, a.pc, w, o);
    NextOf(Mips(im, u), a);
    MipsControl(im, u, w, a.pc, if o.JR? then a.regs[RsNum(w)] else TargetOf(w, a.pc));
    GoToAgrees(im, a.pc, if o.JR? then a.regs[RsNum(w)] else TargetOf(w, a.pc));
    if o.J? || o.JAL? { JumpTargetAgrees(w, o, a.pc); }
  }

  lemma PerformJr(im: Image, u: Undefined, c: Cpu, w: Word)
    ensures Perform(im, u, c, w, JR) ==
            Cpu(JumpsTo(im, c, w, JR), c.regs, c.mem)
  {
    hide Compute, RsNum, RtNum, RdNum, WriteReg, Next, AddressOf, BranchTo, GoTo, Loaded, StoredTo, JumpTo, Signed;
  }

  lemma PerformJ(im: Image, u: Undefined, c: Cpu, w: Word)
    ensures Perform(im, u, c, w, J) ==
            Cpu(JumpsTo(im, c, w, J), c.regs, c.mem)
  {
    hide Compute, RsNum, RtNum, RdNum, WriteReg, Next, AddressOf, BranchTo, GoTo, Loaded, StoredTo, JumpTo, Signed;
  }

  lemma PerformJal(im: Image, u: Undefined, c: Cpu, w: Word)
    ensures Perform(im, u, c, w, JAL) ==
            Cpu(JumpsTo(im, c, w, JAL), WriteReg(c.regs, 31, Next(c.pc)), c.mem)
  {
    hide Compute, RsNum, RtNum, RdNum, WriteReg, Next, AddressOf, BranchTo, GoTo, Loaded, StoredTo, JumpTo, Signed;
  }

  lemma PerformNoop(im: Image, u: Undefined, c: Cpu, w: Word)
    ensures Perform(im, u, c, w, NoOp) ==
            Cpu(JumpsTo(im, c, w, NoOp), c.regs, c.mem)
  {
    hide Compute, RsNum, RtNum, RdNum, WriteReg, Next, AddressOf, BranchTo, GoTo, Loaded, StoredTo, JumpTo, Signed;
  }

  lemma PerformHalt(im: Image, u: Undefined, c: Cpu, w: Word)
    ensures Perform(im, u, c, w, HALT) ==
            Cpu(JumpsTo(im, c, w, HALT), c.regs, c.mem)
  {
    hide Compute, RsNum, RtNum, RdNum, WriteReg, Next, AddressOf, BranchTo, GoTo, Loaded, StoredTo, JumpTo, Signed;
  }

  lemma PerformJump(im: Image, u: Undefined, c: Cpu, w: Word, o: Opcode)
    requires Jumps(KindOf(o))
    ensures Perform(im, u, c, w, o) ==
            Cpu(JumpsTo(im, c, w, o), if o.JAL? then WriteReg(c.regs, 31, Next(c.pc)) else c.regs, c.mem)
  {
    assert o.JR? || o.J? || o.JAL? || o.NoOp? || o.HALT?;
    hide *;
    match o
    case JR => PerformJr(im, u, c, w);
    case J => PerformJ(im, u, c, w);
    case JAL => PerformJal(im, u, c, w);
    case NoOp => PerformNoop(im, u, c, w);
    case HALT => PerformHalt(im, u, c, w);
  }

  lemma JumpStep(im: Image, u: Undefined, a: Arch, w: Word, o: Opcode)
    requires im.Valid() && Located(im, a.pc, w, o) && Jumps(KindOf(o)) && a.view == a.regs
    ensures CpuOf(IdealStep(Mips(im, u), a)) == Perform(im, u, CpuOf(a), w, o)
  {
    hide Decode, Fetch, RsNum, RtNum, RdNum, IdealStep, NextPc, Perform, Next, WriteReg, JumpsTo;
    LocatedInstr(im, u, a.pc, w, o);
    JumpNext(im, u, a, w, o);
    PerformJump(im, u, CpuOf(a), w, o);
    JumpParts(Mips(im, u), a);
  }

  /** Main theorem: for a loaded program the ideal reference machine is the interpreter. */
  lemma IdealIsInterpreter(im: Image, u: Undefined, a: Arch)
    requires im.Valid() && a.view == a.regs
    ensures CpuOf(IdealStep(Mips(im, u), a)) == Execute(im, u, CpuOf(a))
  {
    hide Decode, Fetch, InstrOf, Perform, IdealStep;
    FetchAgrees(im, a.pc);
    match WordAt(im, a.pc)
    case None => NothingThere(im, u, a);
    case Some(w) =>
      assert Decode(w).Some?;
      var o := Decode(w).value;
      match KindOf(o)
      case RAlu | Shift | IAlu | Lui => AluStep(im, u, a, w, o);
      case Load => LoadStep(im, u, a, w, o);
      case Store => StoreStep(im, u, a, w, o);
      case BranchTwo | BranchOne => BranchStep(im, u, a, w, o);
      case _ => JumpStep(im, u, a, w, o);
  }

  lemma NothingThere(im: Image, u: Undefined, a: Arch)
    requires Fetch(im, a.pc) == NOP
    ensures CpuOf(IdealStep(Mips(im, u), a)) == Cpu(Next(a.pc), a.regs, a.mem)
  {
    hide Fetch, NextPast, Advance, Next;
    NextAgrees(a.pc);
  }

  /** n instructions. */
  function ExecuteAll(im: Image, u: Undefined, c: Cpu, n: nat): Cpu {
    if n == 0 then c else Execute(im, u, ExecuteAll(im, u, c, n - 1))
  }

  lemma {:induction false} IdealRunIsInterpreter(im: Image, u: Undefined, a0: Arch, n: nat)
    requires im.Valid() && Boot(a0)
    ensures CpuOf(IdealRun(Mips(im, u), a0, n)) == ExecuteAll(im, u, CpuOf(a0), n)
  {
    hide Mips, Execute, IdealStep, Boot;
    if n > 0 {
      IdealRunIsInterpreter(im, u, a0, n - 1);
      IdealView(Mips(im, u), a0, n - 1);
      IdealIsInterpreter(im, u, IdealRun(Mips(im, u), a0, n - 1));
    }
  }
}
