/** The one-instruction-at-a-time machine that the pipeline is compared with. */
module Reference {
  import opened Basics
  import opened Instructions

  /** What the reference machine remembers of the two instructions before the next one. Only
      `Tainted`, `Adjacent` and `Overwritten` look at it. */
  datatype Past = Past(
    prev1: Option<Instr>,   // the last instruction
    prev2: Option<Instr>,   // the one before it
    fired: bool,            // did the last one transfer control
    adjacent: bool          // did the last one leave ID in the cycle after the one before it
  )

  const NO_PAST := Past(None, None, false, false)

  /** `view` is what ID sees of the registers when it resolves the next branch or JR: the registers,
      but for one that a lost race leaves at an overwritten value, or at zero. */
  datatype Arch = Arch(pc: Word, regs: RegFile, view: RegFile, mem: Mem, past: Past)

  predicate WritesReg(i: Option<Instr>, r: Reg) {
    r != 0 && i.Some? && Dest(i.value) == r
  }

  predicate ForwardsReg(i: Option<Instr>, r: Reg) {
    WritesReg(i, r) && Forwards(i.value)
  }

  /** Operand r of the next instruction is there the first time ID looks: its youngest writer
      in flight is just ahead and publishes in EX, or no writer is in flight. */
  predicate Ready(p: Past, r: Reg) {
    r == 0 || (if WritesReg(p.prev1, r) then Forwards(p.prev1.value)
               else !(WritesReg(p.prev2, r) && p.adjacent))
  }

  /** Does instruction i, coming after p, pass ID without waiting? The second operand cannot
      take the forward that the first one has taken. */
  predicate Adjacent(i: Instr, p: Past) {
    && p.prev1.Some?
    && !p.fired
    && (AcquiresRs(i) ==> Ready(p, i.rs))
    && (AcquiresRt(i) ==> Ready(p, i.rt))
    && (AcquiresRs(i) && AcquiresRt(i) && i.rs == i.rt ==> !WritesReg(p.prev1, i.rs))
  }

  /** The stores whose data register never gets a value: rt was "forwarded", but the EX lambda
      of a store does not look at the forward. The instruction just ahead is an ALU write of
      rt, and rs does not hold the store back in ID. */
  predicate Tainted(i: Instr, p: Past) {
    && i.kind.Store?
    && ForwardsReg(p.prev1, i.rt)
    && !p.prev1.value.kind.JumpLink?
    && i.rs != i.rt
    && !(WritesReg(p.prev2, i.rs) && p.adjacent)
  }

  /** The triple that makes the order of EX and ID in the second half matter: a publishing
      write of r, a write of r that does not read r, and a branch on r. */
  predicate Overwritten(i: Instr, p: Past, r: Reg) {
    && ResolvesReg(i, r)
    && ForwardsReg(p.prev2, r)
    && WritesReg(p.prev1, r)
    && !Acquires(p.prev1.value, r)
    && p.adjacent
    && !p.fired
  }

  /** The register that the last instruction writes, or 0. */
  function LastDest(p: Past): Reg {
    if p.prev1.Some? then Dest(p.prev1.value) else 0
  }

  /** BEQ and BNE of a register with itself. Their second look at the scoreboard finds the value
      withdrawn by the first, so they never use what they have captured. */
  predicate ComparesWithItself(i: Instr) { i.kind.BranchTwo? && i.rs == i.rt }

  /** Instruction i, coming after p, takes what is on offer if the last instruction has left ID
      before the one ahead of it has published. */
  predicate Exposed(i: Instr, p: Past) {
    Overwritten(i, p, LastDest(p)) && !ComparesWithItself(i)
  }

  /** The value that a lost race leaves on offer: that of the register before the last instruction,
      or zero. */
  function LostValue(race: Race, before: Word): Word {
    if race.Old? then before else 0
  }

  /** The registers as i sees them. `before` are the registers before the last instruction. */
  function Seen(i: Instr, p: Past, before: RegFile, regs: RegFile, race: Race): RegFile {
    if !race.Won? && Exposed(i, p) then regs[LastDest(p) := LostValue(race, before[LastDest(p)])] else regs
  }

  /** The word that a store of rt puts in memory. */
  function StoreData(isa: Isa, k: nat, a: Arch): Word {
    var i := isa.fetch(a.pc);
    if Tainted(i, a.past) then isa.junk(k) else a.regs[i.rt]
  }

  /** The value that WB writes. */
  function Result(isa: Isa, k: nat, a: Arch): Word {
    var i := isa.fetch(a.pc);
    match i.kind
    case RAlu => isa.alu(i.bits, a.regs[i.rs], a.regs[i.rt])
    case Shift => isa.alu(i.bits, 0, a.regs[i.rt])
    case IAlu => isa.alu(i.bits, a.regs[i.rs], 0)
    case Lui => isa.alu(i.bits, 0, 0)
    case Load => isa.load(i.bits, a.mem, isa.address(i.bits, a.regs[i.rs])).GetOr(isa.junk(k))
    case JumpLink => Advance(a.pc)
    case _ => 0
  }

  /** Does the instruction transfer control, as ID decides it? */
  predicate Fires(isa: Isa, a: Arch) {
    var i := isa.fetch(a.pc);
    match i.kind
    case BranchTwo => isa.taken(i.bits, a.view[i.rs], a.view[i.rt])
    case BranchOne => isa.taken(i.bits, a.view[i.rs], 0)
    case JumpReg | Jump | JumpLink => true
    case _ => false
  }

  function Target(isa: Isa, a: Arch): Word {
    var i := isa.fetch(a.pc);
    if i.kind.JumpReg? then a.view[i.rs] else isa.target(i.bits, a.pc)
  }

  /** What ID decides: no transfer, or the target. */
  function JumpOf(isa: Isa, a: Arch): Option<Word> {
    if Fires(isa, a) then Some(Target(isa, a)) else None
  }

  /** A transfer to a PC that `SetPC` rejects falls through. */
  function NextPc(isa: Isa, a: Arch): Word {
    if Fires(isa, a) && isa.settable(Target(isa, a)) then Target(isa, a) else Advance(a.pc)
  }

  function NextMem(isa: Isa, k: nat, a: Arch): Mem {
    var i := isa.fetch(a.pc);
    if i.kind.Store?
    then isa.store(i.bits, a.mem, isa.address(i.bits, a.regs[i.rs]), StoreData(isa, k, a)).GetOr(a.mem)
    else a.mem
  }

  function NextRegs(isa: Isa, k: nat, a: Arch): RegFile {
    var i := isa.fetch(a.pc);
    if Dest(i) == 0 then a.regs else a.regs[Dest(i) := Result(isa, k, a)]
  }

  function NextPast(isa: Isa, a: Arch): Past {
    Past(Some(isa.fetch(a.pc)), a.past.prev1, Fires(isa, a), Adjacent(isa.fetch(a.pc), a.past))
  }

  /** Execute the k-th instruction; `race` is how it meets EX when it leaves ID. */
  function Step(isa: Isa, k: nat, race: Race, a: Arch): Arch {
    var pc, regs, past := NextPc(isa, a), NextRegs(isa, k, a), NextPast(isa, a);
    Arch(pc, regs, Seen(isa.fetch(pc), past, a.regs, regs, race), NextMem(isa, k, a), past)
  }

  /** The state before the k-th instruction, when the races of ID and EX go as `race` says. */
  function Run(isa: Isa, race: nat -> Race, a0: Arch, k: nat): Arch {
    if k == 0 then a0 else Step(isa, k - 1, race(k - 1), Run(isa, race, a0, k - 1))
  }

  /** No race is ever lost. */
  const NEVER: nat -> Race := (_: nat) => Won

  predicate Boot(a0: Arch) {
    a0.regs[0] == 0 && a0.view == a0.regs && a0.past == NO_PAST
  }

  function BootState(pc: Word, regs: RegFile, mem: Mem): Arch { Arch(pc, regs, regs, mem, NO_PAST) }
}
