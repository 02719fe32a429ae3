/** The machine that the instruction set describes, and exactly when the pipeline is it.

    `CaculateMemOffsetEX` does not look at the forward of a store's data register, so the data
    of some stores, and the result of a faulting load, is a field that nothing has assigned.
    The reference machine of `Reference` reads such a field as `junk`. This module removes the
    junk and says for which instructions it can be seen. */
module Ideal {
  import opened Basics
  import opened Instructions
  import opened Reference

  /** Memory after the store at a puts d. */
  function StoreWord(isa: Isa, a: Arch, d: Word): Mem {
    var i := isa.fetch(a.pc);
    isa.store(i.bits, a.mem, isa.address(i.bits, a.regs[i.rs]), d).GetOr(a.mem)
  }

  function LoadWord(isa: Isa, a: Arch): Option<Word> {
    var i := isa.fetch(a.pc);
    isa.load(i.bits, a.mem, isa.address(i.bits, a.regs[i.rs]))
  }

  /** A load that faults leaves its register alone. */
  function IdealResult(isa: Isa, a: Arch): Word {
    var i := isa.fetch(a.pc);
    if i.kind.Load? then LoadWord(isa, a).GetOr(a.regs[Dest(i)]) else Result(isa, 0, a)
  }

  function IdealStep(isa: Isa, a: Arch): Arch {
    var i := isa.fetch(a.pc);
    var regs := if Dest(i) == 0 then a.regs else a.regs[Dest(i) := IdealResult(isa, a)];
    Arch(NextPc(isa, a), regs, regs, if i.kind.Store? then StoreWord(isa, a, a.regs[i.rt]) else a.mem,
         NextPast(isa, a))
  }

  function IdealRun(isa: Isa, a0: Arch, k: nat): Arch {
    if k == 0 then a0 else IdealStep(isa, IdealRun(isa, a0, k - 1))
  }

  /** The instruction at a lets an unassigned field be seen: a tainted store whose effect depends
      on the data, or a faulting load of a register other than $0. */
  ghost predicate Spoiled(isa: Isa, a: Arch) {
    var i := isa.fetch(a.pc);
    || (Tainted(i, a.past) && exists d: Word :: StoreWord(isa, a, d) != StoreWord(isa, a, a.regs[i.rt]))
    || (i.kind.Load? && Dest(i) != 0 && LoadWord(isa, a).None?)
  }

  /** The instruction set with another content of unassigned fields. */
  function WithJunk(isa: Isa, g: nat -> Word): Isa { isa.(junk := g) }

  lemma StepIgnoresJunk(isa: Isa, g: nat -> Word, k: nat, a: Arch)
    requires !Spoiled(isa, a)
    ensures Step(WithJunk(isa, g), k, Won, a) == IdealStep(isa, a)
  {
    hide Adjacent, Tainted;
    var i := isa.fetch(a.pc);
    SameControl(isa, g, a);
    assert NextMem(WithJunk(isa, g), k, a) == IdealStep(isa, a).mem by {
      hide Result, NextPc, Fires;
      assert Tainted(i, a.past) ==> StoreWord(isa, a, g(k)) == StoreWord(isa, a, a.regs[i.rt]);
    }
    assert NextRegs(WithJunk(isa, g), k, a) == IdealStep(isa, a).regs by { hide NextPc, Fires, NextMem; }
    hide NextPc, NextMem, NextRegs, Fires;
  }

  lemma SameControl(isa: Isa, g: nat -> Word, a: Arch)
    ensures NextPc(WithJunk(isa, g), a) == NextPc(isa, a)
    ensures Fires(WithJunk(isa, g), a) == Fires(isa, a)
  {
  }

  lemma {:induction false} RunIgnoresJunk(isa: Isa, a0: Arch, g: nat -> Word, k: nat)
    requires forall l: nat :: l < k ==> !Spoiled(isa, IdealRun(isa, a0, l))
    ensures Run(WithJunk(isa, g), NEVER, a0, k) == IdealRun(isa, a0, k)
  {
    hide Step, IdealStep, Spoiled;
    if k > 0 {
      RunIgnoresJunk(isa, a0, g, k - 1);
      StepIgnoresJunk(isa, g, k - 1, IdealRun(isa, a0, k - 1));
    }
  }

  /** At a spoiled instruction some junk shows. */
  lemma SpoiledShows(isa: Isa, k: nat, a: Arch) returns (g: nat -> Word)
    requires Spoiled(isa, a)
    ensures var b, b' := Step(WithJunk(isa, g), k, Won, a), IdealStep(isa, a);
      b.regs != b'.regs || b.mem != b'.mem
  {
    hide Adjacent, Tainted, NextPc, NextPast, Fires;
    var i := isa.fetch(a.pc);
    if Tainted(i, a.past) && exists d: Word :: StoreWord(isa, a, d) != StoreWord(isa, a, a.regs[i.rt]) {
      var d: Word :| StoreWord(isa, a, d) != StoreWord(isa, a, a.regs[i.rt]);
      g := (_: nat) => d;
      TaintedIsStore(i, a.past);
      assert Step(WithJunk(isa, g), k, Won, a).mem == StoreWord(isa, a, d);
    } else {
      var d: Word := if a.regs[Dest(i)] == 0 then 1 else 0;
      g := (_: nat) => d;
      assert Step(WithJunk(isa, g), k, Won, a).regs[Dest(i)] == d;
    }
  }

  lemma TaintedIsStore(i: Instr, p: Past)
    requires Tainted(i, p)
    ensures i.kind.Store?
  {
  }

  ghost predicate NoneSpoiled(isa: Isa, a0: Arch, n: nat) {
    forall k: nat :: k < n ==> !Spoiled(isa, IdealRun(isa, a0, k))
  }

  /** The first spoiled instruction. */
  lemma {:induction false} FirstSpoiled(isa: Isa, a0: Arch, n: nat) returns (k: nat)
    requires !NoneSpoiled(isa, a0, n)
    ensures k < n && Spoiled(isa, IdealRun(isa, a0, k)) && NoneSpoiled(isa, a0, k)
  {
    hide Spoiled, IdealRun;
    if n > 0 && !NoneSpoiled(isa, a0, n - 1) {
      k := FirstSpoiled(isa, a0, n - 1);
    } else {
      k := n - 1;
    }
  }

  lemma {:induction false} IdealView(isa: Isa, a0: Arch, k: nat)
    requires Boot(a0)
    ensures IdealRun(isa, a0, k).view == IdealRun(isa, a0, k).regs
  {
    hide NextPc, NextPast, StoreWord, IdealResult;
  }
}
