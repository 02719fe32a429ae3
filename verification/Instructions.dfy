/** Instructions as the stage lambdas see them.

    The 33 opcodes fall into thirteen classes: two opcodes of one class run the same code in
    every stage and differ only in the ALU result, the memory width or the branch condition.
    Those differences are the fields of `Isa`, so everything proved about the pipeline holds
    for every choice of them; module `Decoder` gives the choice that the source makes. */
module Instructions {
  import opened Basics

  datatype Kind =
    | RAlu       // ADD ADDU SUB AND OR XOR NOR NAND SLT
    | Shift      // SLL SRL SRA
    | IAlu       // ADDI ADDIU ANDI ORI NORI SLTI
    | Lui
    | Load       // LW LH LHU LB LBU
    | Store      // SW SH SB
    | BranchTwo  // BEQ BNE
    | BranchOne  // BGTZ
    | JumpReg    // JR
    | Jump       // J
    | JumpLink   // JAL
    | Nop
    | Halt

  datatype Instr = Instr(kind: Kind, rs: Reg, rt: Reg, rd: Reg, bits: Word)

  const NOP := Instr(Nop, 0, 0, 0, 0)

  /** What the pipeline does not decide by itself. */
  datatype Isa = Isa(
    fetch: Word -> Instr,                       // PC to instruction; NOP outside the text
    alu: (Word, Word, Word) -> Word,            // bits, rs value, rt value
    address: (Word, Word) -> Word,              // bits, rs value
    load: (Word, Mem, Word) -> Option<Word>,    // bits, memory, address; None is a fault
    store: (Word, Mem, Word, Word) -> Option<Mem>, // bits, memory, address, rt value
    taken: (Word, Word, Word) -> bool,          // bits, rs value, rt value
    target: (Word, Word) -> Word,               // bits, address of the branch or jump
    settable: Word -> bool,                     // does SetPC accept this PC
    junk: nat -> Word                           // what an uninitialised value field of the
                                                // k-th instruction reads as
  )

  const WORD_WIDTH: Word := 4

  /** `AdvancePC`. */
  function Advance(pc: Word): Word { pc + WORD_WIDTH }

  /** `ExportRegIndex`: the register that WB writes; 0 for the classes that write none. */
  function Dest(i: Instr): Reg {
    match i.kind
    case RAlu | Shift => i.rd
    case IAlu | Lui | Load => i.rt
    case JumpLink => 31
    case _ => 0
  }

  /** `ExportReg != kNone`. */
  predicate Exports(i: Instr) {
    i.kind.RAlu? || i.kind.Shift? || i.kind.IAlu? || i.kind.Lui? || i.kind.Load? || i.kind.JumpLink?
  }

  /** The classes whose EX lambda publishes its result in the scoreboard. */
  predicate Forwards(i: Instr) {
    i.kind.RAlu? || i.kind.Shift? || i.kind.IAlu? || i.kind.Lui? || i.kind.JumpLink?
  }

  /** The register operands that the ID lambda takes from the scoreboard after the fence. */
  predicate AcquiresRs(i: Instr) {
    i.kind.RAlu? || i.kind.IAlu? || i.kind.Load? || i.kind.Store?
  }

  predicate AcquiresRt(i: Instr) {
    i.kind.RAlu? || i.kind.Shift? || i.kind.Store?
  }

  /** The register operands that the EX lambda replaces by a forwarded value. A store is not
      among the second: its EX lambda forwards rs only. */
  predicate ExReadsRs(i: Instr) { AcquiresRs(i) }

  predicate ExReadsRt(i: Instr) { i.kind.RAlu? || i.kind.Shift? }

  /** The register operands that a control transfer resolves in ID. */
  predicate ResolvesRs(i: Instr) { i.kind.BranchTwo? || i.kind.BranchOne? || i.kind.JumpReg? }

  predicate ResolvesRt(i: Instr) { i.kind.BranchTwo? }

  /** Does the instruction read register r through the scoreboard in ID? When it also writes r,
      the ID lambda delegates the reservation of r instead of resetting it. */
  predicate Acquires(i: Instr, r: Reg) {
    (AcquiresRs(i) && i.rs == r) || (AcquiresRt(i) && i.rt == r)
  }

  predicate ResolvesReg(i: Instr, r: Reg) {
    (ResolvesRs(i) && i.rs == r) || (ResolvesRt(i) && i.rt == r)
  }

  /** How ID and EX meet at a register that both of them write in one half cycle. EX publishes:
      `Value`, then `IDAvailable`. ID resets: `Value` and `IDAvailable` to nothing. If the last write of
      `IDAvailable` is that of ID, nothing is on offer. Else it is the published value, or zero,
      as the last write of `Value` says. */
  datatype Race = Won | Old | Zero
}
