/** The sequential run, instruction by instruction, as the proofs about the pipeline use it. */
module SequentialRun {
  import opened Basics
  import opened Instructions
  import opened Reference

  /** The instruction set, the state at boot, and how the races of ID and EX go. */
  datatype World = World(isa: Isa, a0: Arch, race: nat -> Race)

  function At(w: World, k: nat): Arch { Run(w.isa, w.race, w.a0, k) }

  function InstrAt(w: World, k: nat): Instr { w.isa.fetch(At(w, k).pc) }

  function ResultAt(w: World, k: nat): Word { Result(w.isa, k, At(w, k)) }

  predicate AdjacentAt(w: World, k: nat) {
    Adjacent(InstrAt(w, k), At(w, k).past)
  }

  predicate Transfers(i: Instr) {
    i.kind.BranchTwo? || i.kind.BranchOne? || i.kind.JumpReg? || i.kind.Jump? || i.kind.JumpLink?
  }

  /** The k-th instruction resolves a register from what a lost race has left on offer. */
  predicate Loses(w: World, k: nat) {
    0 < k && !w.race(k - 1).Won? && Exposed(InstrAt(w, k), At(w, k).past)
  }

  lemma PastAt(w: World, k: nat)
    ensures At(w, k + 1).past ==
            Past(Some(InstrAt(w, k)), At(w, k).past.prev1, Fires(w.isa, At(w, k)), AdjacentAt(w, k))
  {
    hide NextPc, NextMem, NextRegs, Fires, Adjacent, Seen;
  }

  lemma RegAt(w: World, k: nat, r: Reg)
    ensures At(w, k + 1).regs[r] ==
            if r != 0 && Dest(InstrAt(w, k)) == r then ResultAt(w, k) else At(w, k).regs[r]
  {
    hide NextPc, NextMem, NextPast, Result, Seen;
  }

  lemma PcAt(w: World, k: nat)
    ensures At(w, k + 1).pc == NextPc(w.isa, At(w, k))
  {
    hide NextPc, NextMem, NextRegs, NextPast, Seen;
  }

  lemma {:induction false} ZeroAt(w: World, k: nat)
    requires Boot(w.a0)
    ensures At(w, k).regs[0] == 0
  {
    if k > 0 {
      ZeroAt(w, k - 1);
      RegAt(w, k - 1, 0);
    }
  }

  lemma RegsAt(w: World, k: nat)
    ensures At(w, k + 1).regs == NextRegs(w.isa, k, At(w, k))
  {
    hide NextPc, NextMem, NextRegs, NextPast, Seen;
  }

  lemma MemAt(w: World, k: nat)
    ensures At(w, k + 1).mem == NextMem(w.isa, k, At(w, k))
  {
    hide NextPc, NextMem, NextRegs, NextPast, Seen;
  }

  lemma FiresAt(w: World, k: nat)
    ensures At(w, k + 1).past.fired == Fires(w.isa, At(w, k))
    ensures Fires(w.isa, At(w, k)) ==> Transfers(InstrAt(w, k))
    ensures InstrAt(w, k).kind.JumpLink? ==> Fires(w.isa, At(w, k))
  {
    hide At;
    PastAt(w, k);
  }

  lemma NoPastAtBoot(w: World)
    requires Boot(w.a0)
    ensures At(w, 0).past == NO_PAST
  {
  }

  /** What ID sees of the registers, and when it is not what they hold. */
  lemma ViewAt(w: World, k: nat)
    requires Boot(w.a0)
    ensures var a := At(w, k); var d := LastDest(a.past);
      if Loses(w, k) then a.view == a.regs[d := LostValue(w.race(k - 1), At(w, k - 1).regs[d])] else a.view == a.regs
  {
    hide NextPc, NextMem, NextRegs, NextPast, Exposed, LastDest;
  }

  /** A register that resolves a branch is taken from the view. */
  lemma ViewOfOthers(w: World, k: nat, r: Reg)
    requires Boot(w.a0) && !(Loses(w, k) && r == LastDest(At(w, k).past))
    ensures At(w, k).view[r] == At(w, k).regs[r]
  {
    hide At, Loses, LastDest;
    ViewAt(w, k);
  }

  /** Runs with the same races are the same. */
  lemma {:induction false} SameRaces(isa: Isa, race: nat -> Race, race': nat -> Race, a0: Arch, k: nat)
    requires forall l: nat :: l < k ==> race'(l) == race(l)
    ensures Run(isa, race', a0, k) == Run(isa, race, a0, k)
  {
    hide Step;
    if k > 0 { SameRaces(isa, race, race', a0, k - 1); }
  }

  /** The HALTs among the first k instructions. */
  function HaltsUpTo(w: World, k: nat): nat {
    if k == 0 then 0 else HaltsUpTo(w, k - 1) + if InstrAt(w, k - 1).kind.Halt? then 1 else 0
  }
}
