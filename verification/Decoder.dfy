/** The instruction set: decoding as IF does it, and what the stage lambdas compute for each
    opcode. `Mips` is the `Isa` of a loaded program. */
module Decoder {
  import opened Basics
  import opened Words
  import opened DataMemory
  import opened Instructions

  datatype Opcode =
    | ADD | ADDU | SUB | AND | OR | XOR | NOR | NAND | SLT | SLL | SRL | SRA | JR
    | ADDI | ADDIU | LW | LH | LHU | LB | LBU | SW | SH | SB | LUI | ANDI | ORI | NORI | SLTI
    | BEQ | BNE | BGTZ | J | JAL | HALT | NoOp

  /** `RtypeInstrFuncMap`. */
  function FuncMap(func: Word): Option<Opcode> {
    if func == 0x20 then Some(ADD) else if func == 0x21 then Some(ADDU) else if func == 0x22 then Some(SUB)
    else if func == 0x24 then Some(AND) else if func == 0x25 then Some(OR) else if func == 0x26 then Some(XOR)
    else if func == 0x27 then Some(NOR) else if func == 0x28 then Some(NAND) else if func == 0x2A then Some(SLT)
    else if func == 0x00 then Some(SLL) else if func == 0x02 then Some(SRL) else if func == 0x03 then Some(SRA)
    else if func == 0x08 then Some(JR)
    else None
  }

  /** `FirstInstrOpMap`, without R type: its arithmetic entries, ... */
  function ImmediateMap(op: Word): Option<Opcode> {
    if op == 0x08 then Some(ADDI) else if op == 0x09 then Some(ADDIU) else if op == 0x0F then Some(LUI)
    else if op == 0x0C then Some(ANDI) else if op == 0x0D then Some(ORI) else if op == 0x0E then Some(NORI)
    else if op == 0x0A then Some(SLTI)
    else None
  }

  /** ... its loads and stores, ... */
  function MemoryMap(op: Word): Option<Opcode> {
    if op == 0x23 then Some(LW) else if op == 0x21 then Some(LH) else if op == 0x25 then Some(LHU)
    else if op == 0x20 then Some(LB) else if op == 0x24 then Some(LBU) else if op == 0x2B then Some(SW)
    else if op == 0x29 then Some(SH) else if op == 0x28 then Some(SB)
    else None
  }

  /** ... and its branches, jumps and HALT. */
  function ControlMap(op: Word): Option<Opcode> {
    if op == 0x04 then Some(BEQ) else if op == 0x05 then Some(BNE) else if op == 0x07 then Some(BGTZ)
    else if op == 0x02 then Some(J) else if op == 0x03 then Some(JAL) else if op == 0x3F then Some(HALT)
    else None
  }

  function OpMap(op: Word): Option<Opcode> {
    if ImmediateMap(op).Some? then ImmediateMap(op)
    else if MemoryMap(op).Some? then MemoryMap(op)
    else ControlMap(op)
  }

  /** None: IF returns and the simulation stops. */
  function Decode(w: Word): Option<Opcode> {
    if Op(w) != 0 then OpMap(Op(w))
    else if IsNop(w) then Some(NoOp)
    else FuncMap(Func(w))
  }

  function KindOf(o: Opcode): Kind {
    match o
    case ADD | ADDU | SUB | AND | OR | XOR | NOR | NAND | SLT => RAlu
    case SLL | SRL | SRA => Shift
    case ADDI | ADDIU | ANDI | ORI | NORI | SLTI => IAlu
    case LUI => Lui
    case LW | LH | LHU | LB | LBU => Load
    case SW | SH | SB => Store
    case BEQ | BNE => BranchTwo
    case BGTZ => BranchOne
    case JR => JumpReg
    case J => Jump
    case JAL => JumpLink
    case NoOp => Nop
    case HALT => Halt
  }

  /** A five-bit field as a register number. */
  function RegOf(field: Word): Reg {
    var n := Unsigned(field);
    if 0 <= n < REGISTER_COUNT then n else 0
  }

  lemma RsIsSmall(w: Word)
    ensures 0 <= Unsigned(Rs(w)) < 32
  {
  }

  lemma RtIsSmall(w: Word)
    ensures 0 <= Unsigned(Rt(w)) < 32
  {
  }

  lemma RdIsSmall(w: Word)
    ensures 0 <= Unsigned(Rd(w)) < 32
  {
  }

  lemma FieldsAreRegisters(w: Word)
    ensures RegOf(Rs(w)) == Unsigned(Rs(w)) && RegOf(Rt(w)) == Unsigned(Rt(w)) && RegOf(Rd(w)) == Unsigned(Rd(w))
  {
    hide Unsigned, Rs, Rt, Rd;
    RsIsSmall(w);
    RtIsSmall(w);
    RdIsSmall(w);
  }

  function InstrOf(w: Word): Instr {
    match Decode(w)
    case Some(o) => Instr(KindOf(o), RegOf(Rs(w)), RegOf(Rt(w)), RegOf(Rd(w)), w)
    case None => NOP
  }

  // ---------------------------------------------------------------- the loaded program

  /** The text segment: its first address and its words. */
  datatype Image = Image(start: Word, text: seq<Word>) {
    /** `GetInstrEndAddr`: the last address, in 32 bits. */
    function End(): int { (Unsigned(start) + 4 * (|text| - 1)) % TWO_32 }

    /** Every word decodes and the text does not run over the end of the address space. */
    predicate Valid() {
      && 0 < |text|
      && Unsigned(start) + 4 * (|text| - 1) < TWO_32
      && forall k: nat :: k < |text| ==> Decode(text[k]).Some?
    }
  }

  /** IF: a NOP outside the text. */
  function Fetch(im: Image, pc: Word): Instr {
    var n, s := Unsigned(pc), Unsigned(im.start);
    if n < s || n > im.End() then NOP
    else
      var k := (n - s) / 4;
      if k < |im.text| then InstrOf(im.text[k]) else NOP
  }

  /** In a valid image every fetch inside the bounds finds a word of the text, the k-th one at
      its own address, and that word decodes. */
  lemma FetchFinds(im: Image, pc: Word)
    requires im.Valid() && Unsigned(im.start) <= Unsigned(pc) <= Unsigned(im.start) + 4 * (|im.text| - 1)
    ensures var k := (Unsigned(pc) - Unsigned(im.start)) / 4;
      && 0 <= k < |im.text| && Decode(im.text[k]).Some? && Fetch(im, pc) == InstrOf(im.text[k])
      && (Unsigned(pc) == Unsigned(im.start) + 4 * k <==> (Unsigned(pc) - Unsigned(im.start)) % 4 == 0)
  {
    UnsignedRange(im.start);
    hide Unsigned, Decode, InstrOf;
  }

  /** `SetPC`. */
  predicate Settable(im: Image, pc: Word) { pc & 3 == 0 && Unsigned(pc) <= im.End() }

  // ---------------------------------------------------------------- what the lambdas compute

  /** The results of the EX lambdas of the register and immediate classes. */
  function Alu(bits: Word, rs: Word, rt: Word): Word {
    var imm := Imm(bits);
    match Decode(bits)
    case Some(ADD) | Some(ADDU) => Plus(rt, rs)
    case Some(SUB) => Minus(rs, rt)
    case Some(AND) => And(rt, rs)
    case Some(OR) => Or(rt, rs)
    case Some(XOR) => Xor(rt, rs)
    case Some(NOR) => Not(Or(rt, rs))
    case Some(NAND) => Not(And(rt, rs))
    case Some(SLT) => if Signed(rs) < Signed(rt) then 1 else 0
    case Some(SLL) => ShiftLeft(rt, ShAmt(bits))
    case Some(SRL) => ShiftRight(rt, ShAmt(bits))
    case Some(SRA) => ShiftRightArithmetic(rt, ShAmt(bits))
    case Some(ADDI) => Plus(rs, SignExtend16(imm))
    case Some(ADDIU) => Plus(rs, WidenHalf(imm)) // not sign-extended
    case Some(LUI) => UpperHalf(imm)
    case Some(ANDI) => And(rs, WidenHalf(imm))
    case Some(ORI) => Or(rs, WidenHalf(imm))
    case Some(NORI) => Not(Or(rs, WidenHalf(imm)))
    case Some(SLTI) => if Signed(rs) < Signed16(imm) then 1 else 0
    case _ => 0
  }

  function Address(bits: Word, rs: Word): Word { Plus(rs, SignExtend16(Imm(bits))) }

  function Taken(bits: Word, rs: Word, rt: Word): bool {
    match Decode(bits)
    case Some(BEQ) => rs == rt
    case Some(BNE) => rs != rt
    case Some(BGTZ) => Signed(rs) > 0
    case _ => false
  }

  function TargetOf(bits: Word, pc: Word): Word {
    match Decode(bits)
    case Some(J) | Some(JAL) => JumpTarget(pc, Addr(bits))
    case _ => BranchTarget(pc, Imm(bits))
  }

  function WidthOf(bits: Word): Width {
    match Decode(bits)
    case Some(LH) | Some(LHU) | Some(SH) => AsHalf
    case Some(LB) | Some(LBU) | Some(SB) => AsByte
    case _ => AsWord
  }

  predicate SignedLoad(bits: Word) { Decode(bits) == Some(LH) || Decode(bits) == Some(LB) }

  /** What the source leaves open: the content of fields that nothing has assigned, and the
      accesses that the bound check lets astray. */
  datatype Undefined = Undefined(junk: nat -> Word,
                                 astrayLoad: (Mem, Word) -> Word,
                                 astrayStore: (Mem, Word, Word) -> Mem)

  function LoadFrom(u: Undefined, bits: Word, m: Mem, a: Word): Option<Word> {
    match Check(a, Size(WidthOf(bits)))
    case Within => Some(Get(m, Unsigned(a), WidthOf(bits), SignedLoad(bits)))
    case Denied(_) => None
    case Astray => Some(u.astrayLoad(m, a))
  }

  function StoreTo(u: Undefined, bits: Word, m: Mem, a: Word, v: Word): Option<Mem> {
    match Check(a, Size(WidthOf(bits)))
    case Within => Some(Put(m, Unsigned(a), WidthOf(bits), v))
    case Denied(_) => None
    case Astray => Some(u.astrayStore(m, a, v))
  }

  /** The instruction set of the source, for one program. */
  function Mips(im: Image, u: Undefined): Isa {
    Isa(pc => Fetch(im, pc), Alu, Address,
        (bits: Word, m: Mem, a: Word) => LoadFrom(u, bits, m, a),
        (bits: Word, m: Mem, a: Word, v: Word) => StoreTo(u, bits, m, a, v),
        Taken, TargetOf, pc => Settable(im, pc), u.junk)
  }
}
