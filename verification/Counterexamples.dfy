/** Three programs, of two and of three instructions, for which the pipeline is not the machine that
    the instruction set describes. */
module Counterexamples {
  import opened Basics
  import opened Words
  import opened DataMemory
  import opened Instructions
  import opened Reference
  import opened Decoder
  import Pipeline
  import opened PipelineTheorems
  import Ideal
  import IdealPipeline
  import StageOrder

  // ---------------------------------------------------------------- a spoiled store

  const ADDI_1_0_5: Word := 0x2001_0005 // addi $1, $0, 5
  const SW_1_AT_0: Word := 0xAC01_0000  // sw $1, 0($0)

  const STORE_BEHIND_WRITE := Image(0, [ADDI_1_0_5, SW_1_AT_0])

  lemma DecodeAddi()
    ensures Decode(ADDI_1_0_5) == Some(ADDI) && InstrOf(ADDI_1_0_5) == Instr(IAlu, 0, 1, 0, ADDI_1_0_5)
  {
  }

  lemma DecodeSw()
    ensures Decode(SW_1_AT_0) == Some(SW) && InstrOf(SW_1_AT_0) == Instr(Store, 0, 1, 0, SW_1_AT_0)
  {
  }

  /** The k-th instruction of a program at address 0 that does not transfer control. */
  lemma FetchAt(im: Image, pc: Word, k: nat)
    requires im.start == 0 && k < |im.text| < 100 && Unsigned(pc) == 4 * k
    ensures Fetch(im, pc) == InstrOf(im.text[k])
  {
    Literals();
    hide Unsigned, InstrOf;
  }

  lemma SmallValues()
    ensures Plus(0, SignExtend16(Imm(ADDI_1_0_5))) == 5 && Plus(0, SignExtend16(Imm(SW_1_AT_0))) == 0
    ensures Advance(0) == 4 && Unsigned(4) == 4 && Unsigned(0) == 0 && Unsigned(8) == 8
  {
  }

  lemma RunUnfolds(isa: Isa, a0: Arch, k: nat)
    ensures Run(isa, NEVER, a0, 0) == a0 && Run(isa, NEVER, a0, k + 1) == Step(isa, k, Won, Run(isa, NEVER, a0, k))
  {
    hide Step;
  }

  /** Both programs start with an addi. */
  lemma AfterAddi(im: Image, u: Undefined, a0: Arch)
    requires Boot(a0) && a0.pc == 0
    requires im.start == 0 && 0 < |im.text| < 100 && im.text[0] == ADDI_1_0_5
    ensures var a := Run(Mips(im, u), NEVER, a0, 1);
      && a.pc == 4 && a.regs == a0.regs[1 := 5] && a.mem == a0.mem
      && a.past == Past(Some(InstrOf(ADDI_1_0_5)), None, false, false)
  {
    SmallValues();
    DecodeAddi();
    FetchAt(im, 0, 0);
    RunUnfolds(Mips(im, u), a0, 0);
    hide Run, Fetch, InstrOf, Decode, Unsigned, SignExtend16, Imm, Plus, Advance, LoadFrom, StoreTo;
  }

  lemma StoreIsTainted(u: Undefined, a0: Arch)
    requires Boot(a0) && a0.pc == 0
    ensures var isa := Mips(STORE_BEHIND_WRITE, u); var a := Run(isa, NEVER, a0, 1);
      && isa.fetch(a.pc) == Instr(Store, 0, 1, 0, SW_1_AT_0) && a.regs[0] == 0 && a.regs[1] == 5
      && Tainted(isa.fetch(a.pc), a.past)
      && !isa.fetch(a0.pc).kind.Store? && !isa.fetch(a0.pc).kind.Load?
  {
    AfterAddi(STORE_BEHIND_WRITE, u, a0);
    FetchAt(STORE_BEHIND_WRITE, 4, 1);
    FetchAt(STORE_BEHIND_WRITE, 0, 0);
    DecodeAddi();
    DecodeSw();
    SmallValues();
    hide Run, InstrOf, Decode, SignExtend16, Imm, Plus, Fetch, Unsigned, LoadFrom, StoreTo, Advance;
  }

  lemma StoreAtZero(u: Undefined, a: Arch, d: Word)
    requires Mips(STORE_BEHIND_WRITE, u).fetch(a.pc) == Instr(Store, 0, 1, 0, SW_1_AT_0) && a.regs[0] == 0
    ensures Ideal.StoreWord(Mips(STORE_BEHIND_WRITE, u), a, d) == Put(a.mem, 0, AsWord, d)
  {
    DecodeSw();
    SmallValues();
    assert Check(0, 4) == Within;
    hide InstrOf, Decode, SignExtend16, Imm, Plus, Fetch, Put, Check, Unsigned;
    assert Address(SW_1_AT_0, 0) == 0;
  }

  /** The word that the store puts in memory is whatever the unassigned field holds, not the 5 of
      the instruction before it. */
  lemma StoreBehindWriteIsSpoiled(u: Undefined, a0: Arch)
    requires Boot(a0) && a0.pc == 0
    ensures var isa := Mips(STORE_BEHIND_WRITE, u);
      Get(Run(isa, NEVER, a0, 2).mem, 0, AsWord, false) == u.junk(1) && Run(isa, NEVER, a0, 2).regs[1] == 5
  {
    var isa := Mips(STORE_BEHIND_WRITE, u);
    var a := Run(isa, NEVER, a0, 1);
    StoreIsTainted(u, a0);
    StoreAtZero(u, a, u.junk(1));
    RunUnfolds(isa, a0, 1);
    TaintedStoresJunk(isa, 1, a);
    WordRoundTrip(a.mem, 0, u.junk(1), false);
    hide Run, Step, Tainted, Get, Put, Fetch, Unsigned, Ideal.StoreWord;
  }

  lemma TaintedStoresJunk(isa: Isa, k: nat, a: Arch)
    requires isa.fetch(a.pc).kind.Store? && Tainted(isa.fetch(a.pc), a.past)
    ensures var b := Step(isa, k, Won, a); b.mem == Ideal.StoreWord(isa, a, isa.junk(k)) && b.regs == a.regs
  {
    hide Tainted, NextPc, NextPast;
  }

  /** So some content of that field shows in some reachable state of the pipeline. */
  lemma StoreBehindWriteIsNotIdeal(u: Undefined, a0: Arch)
    requires Boot(a0) && a0.pc == 0
    ensures var isa := Mips(STORE_BEHIND_WRITE, u);
      !Ideal.NoneSpoiled(isa, a0, 2) && !IdealPipeline.IdealUpTo(isa, a0, 2)
  {
    var isa := Mips(STORE_BEHIND_WRITE, u);
    var a := Run(isa, NEVER, a0, 1);
    StoreIsTainted(u, a0);
    StoreAtZero(u, a, 0);
    StoreAtZero(u, a, 5);
    AddiIsIdeal(isa, a0);
    WordRoundTrip(a.mem, 0, 0, false);
    WordRoundTrip(a.mem, 0, 5, false);
    hide Run, Tainted, Get, Put, Fetch, Mips, Unsigned, Ideal.StoreWord, Ideal.IdealRun;
    assert Ideal.StoreWord(isa, a, 0) != Ideal.StoreWord(isa, a, a.regs[1]);
    SpoiledIsNotIdeal(isa, a0, a);
  }

  lemma AddiIsIdeal(isa: Isa, a0: Arch)
    requires !isa.fetch(a0.pc).kind.Store? && !isa.fetch(a0.pc).kind.Load?
    ensures Ideal.IdealRun(isa, a0, 1) == Run(isa, NEVER, a0, 1)
  {
    RunUnfolds(isa, a0, 0);
    hide Run, NextPc, NextPast;
    assert Ideal.IdealRun(isa, a0, 1) == Ideal.IdealStep(isa, a0);
  }

  lemma SpoiledIsNotIdeal(isa: Isa, a0: Arch, a: Arch)
    requires Boot(a0) && a == Ideal.IdealRun(isa, a0, 1) && Ideal.Spoiled(isa, a)
    ensures !Ideal.NoneSpoiled(isa, a0, 2) && !IdealPipeline.IdealUpTo(isa, a0, 2)
  {
    hide Ideal.IdealRun, Ideal.Spoiled, Boot, IdealPipeline.IdealUpTo;
    IdealPipeline.IdealIffUnspoiled(isa, a0, 2);
  }

  // ---------------------------------------------------------------- a wrong transfer

  const LUI_1_0: Word := 0x3C01_0000  // lui $1, 0
  const BGTZ_1: Word := 0x1C20_0001   // bgtz $1, +1

  const BRANCH_BEHIND_TWO_WRITES := Image(0, [ADDI_1_0_5, LUI_1_0, BGTZ_1])

  lemma DecodeLui()
    ensures Decode(LUI_1_0) == Some(LUI) && InstrOf(LUI_1_0) == Instr(Lui, 0, 1, 0, LUI_1_0)
  {
  }

  lemma DecodeBgtz()
    ensures Decode(BGTZ_1) == Some(BGTZ) && InstrOf(BGTZ_1) == Instr(BranchOne, 1, 0, 0, BGTZ_1)
  {
  }

  lemma MoreSmallValues()
    ensures Plus(0, SignExtend16(Imm(ADDI_1_0_5))) == 5 && UpperHalf(Imm(LUI_1_0)) == 0
    ensures Advance(0) == 4 && Advance(4) == 8 && Unsigned(4) == 4 && Unsigned(0) == 0 && Unsigned(8) == 8
  {
  }

  lemma AfterTwoWrites(u: Undefined, a0: Arch)
    requires Boot(a0) && a0.pc == 0
    ensures var isa := Mips(BRANCH_BEHIND_TWO_WRITES, u);
      && Run(isa, NEVER, a0, 1).regs[1] == 5
      && Run(isa, NEVER, a0, 2).regs[1] == 0 && Run(isa, NEVER, a0, 2).pc == 8
      && Run(isa, NEVER, a0, 2).past == Past(Some(InstrOf(LUI_1_0)), Some(InstrOf(ADDI_1_0_5)), false, true)
      && isa.fetch(8) == InstrOf(BGTZ_1)
  {
    hide Run, Fetch, InstrOf, Decode, Unsigned, SignExtend16, Imm, Plus, Advance, LoadFrom, StoreTo;
    var im, isa := BRANCH_BEHIND_TWO_WRITES, Mips(BRANCH_BEHIND_TWO_WRITES, u);
    AfterAddi(im, u, a0);
    MoreSmallValues();
    DecodeLui();
    FetchAt(im, 4, 1);
    FetchAt(im, 8, 2);
    RunUnfolds(isa, a0, 1);
  }

  lemma BranchDiverges(u: Undefined, a0: Arch)
    requires Boot(a0) && a0.pc == 0
    ensures var isa := Mips(BRANCH_BEHIND_TWO_WRITES, u);
      && StageOrder.DivergesBy(isa, a0, 2, Old)
      && JumpOf(isa, StageOrder.Stale(isa, a0, 2, Old)) == Some(TargetOf(BGTZ_1, 8))
      && JumpOf(isa, StageOrder.Plain(isa, a0, 2)) == None
  {
    hide Run, InstrOf, Decode, Taken, TargetOf, Fetch;
    var isa := Mips(BRANCH_BEHIND_TWO_WRITES, u);
    AfterTwoWrites(u, a0);
    DecodeAddi();
    DecodeLui();
    DecodeBgtz();
    BgtzDecides();
    PlainView(isa, a0, 2);
  }

  lemma PlainView(isa: Isa, a0: Arch, k: nat)
    requires Boot(a0)
    ensures StageOrder.Plain(isa, a0, k).view == StageOrder.Plain(isa, a0, k).regs
  {
    hide Step, NextPc, NextRegs, NextMem, NextPast;
    if k > 0 { assert NEVER(k - 1).Won?; UnfoldView(isa, k - 1, StageOrder.Plain(isa, a0, k - 1)); }
  }

  lemma UnfoldView(isa: Isa, k: nat, a: Arch)
    ensures Step(isa, k, Won, a).view == Step(isa, k, Won, a).regs
  {
    hide NextPc, NextRegs, NextMem, NextPast;
  }

  lemma BgtzDecides()
    ensures Taken(BGTZ_1, 5, 0) && !Taken(BGTZ_1, 0, 0)
  {
  }

  /** Under some schedule the branch takes the 5 that the second write has replaced by 0, and jumps;
      the sequential machine goes on. */
  lemma BranchGoesWrong(u: Undefined, a0: Arch) returns (m: Pipeline.Machine)
    requires Boot(a0) && a0.pc == 0
    ensures var isa := Mips(BRANCH_BEHIND_TWO_WRITES, u);
      && Reachable(isa, a0, false, m) && m.hist.issued == 2 && StageOrder.Issues(isa, m)
      && Pipeline.Decide(isa, m.sh, m.lo).jump == Some(TargetOf(BGTZ_1, 8))
      && !Fires(isa, StageOrder.Plain(isa, a0, 2))
  {
    var isa := Mips(BRANCH_BEHIND_TWO_WRITES, u);
    BranchDiverges(u, a0);
    hide Reachable, StageOrder.Issues, StageOrder.DivergesBy, StageOrder.Stale, StageOrder.Plain, Pipeline.Decide,
         Boot, Mips, TargetOf, Fires;
    m := StageOrder.DivergenceShows(isa, a0, 2, Old);
  }

  // ---------------------------------------------------------------- a lost transfer

  const ADDI_1_0_3: Word := 0x2001_0003 // addi $1, $0, 3

  const BRANCH_BEHIND_POSITIVES := Image(0, [ADDI_1_0_5, ADDI_1_0_3, BGTZ_1])

  lemma DecodeSecondAddi()
    ensures Decode(ADDI_1_0_3) == Some(ADDI) && InstrOf(ADDI_1_0_3) == Instr(IAlu, 0, 1, 0, ADDI_1_0_3)
  {
  }

  lemma ValuesOfPositives()
    ensures Plus(0, SignExtend16(Imm(ADDI_1_0_5))) == 5 && Plus(0, SignExtend16(Imm(ADDI_1_0_3))) == 3
    ensures Advance(0) == 4 && Advance(4) == 8 && Unsigned(4) == 4 && Unsigned(0) == 0 && Unsigned(8) == 8
    ensures Taken(BGTZ_1, 5, 0) && Taken(BGTZ_1, 3, 0) && !Taken(BGTZ_1, 0, 0)
  {
  }

  lemma AfterTwoPositives(u: Undefined, a0: Arch)
    requires Boot(a0) && a0.pc == 0
    ensures var isa := Mips(BRANCH_BEHIND_POSITIVES, u);
      && Run(isa, NEVER, a0, 1).regs[1] == 5
      && Run(isa, NEVER, a0, 2).regs[1] == 3 && Run(isa, NEVER, a0, 2).pc == 8
      && Run(isa, NEVER, a0, 2).past == Past(Some(InstrOf(ADDI_1_0_3)), Some(InstrOf(ADDI_1_0_5)), false, true)
      && isa.fetch(8) == InstrOf(BGTZ_1)
  {
    hide Run, Fetch, InstrOf, Decode, Unsigned, SignExtend16, Imm, Plus, Advance, LoadFrom, StoreTo, Taken;
    var im, isa := BRANCH_BEHIND_POSITIVES, Mips(BRANCH_BEHIND_POSITIVES, u);
    AfterAddi(im, u, a0);
    ValuesOfPositives();
    DecodeSecondAddi();
    FetchAt(im, 4, 1);
    FetchAt(im, 8, 2);
    RunUnfolds(isa, a0, 1);
  }

  /** Both values of the register jump; only zero does not. */
  lemma ZeroDiverges(u: Undefined, a0: Arch)
    requires Boot(a0) && a0.pc == 0
    ensures var isa := Mips(BRANCH_BEHIND_POSITIVES, u);
      && StageOrder.DivergesBy(isa, a0, 2, Zero) && !StageOrder.DivergesBy(isa, a0, 2, Old)
      && JumpOf(isa, StageOrder.Stale(isa, a0, 2, Zero)) == None
      && JumpOf(isa, StageOrder.Stale(isa, a0, 2, Old)) == Some(TargetOf(BGTZ_1, 8))
      && JumpOf(isa, StageOrder.Plain(isa, a0, 2)) == Some(TargetOf(BGTZ_1, 8))
  {
    hide Run, InstrOf, Decode, Taken, TargetOf, Fetch;
    var isa := Mips(BRANCH_BEHIND_POSITIVES, u);
    AfterTwoPositives(u, a0);
    DecodeAddi();
    DecodeSecondAddi();
    DecodeBgtz();
    ValuesOfPositives();
    PlainView(isa, a0, 2);
  }

  /** Under some schedule the branch takes a zero that no instruction has computed, and goes on; the
      sequential machine jumps. */
  lemma BranchFallsThrough(u: Undefined, a0: Arch) returns (m: Pipeline.Machine)
    requires Boot(a0) && a0.pc == 0
    ensures var isa := Mips(BRANCH_BEHIND_POSITIVES, u);
      && Reachable(isa, a0, false, m) && m.hist.issued == 2 && StageOrder.Issues(isa, m)
      && Pipeline.Decide(isa, m.sh, m.lo).jump == None
      && Fires(isa, StageOrder.Plain(isa, a0, 2))
  {
    var isa := Mips(BRANCH_BEHIND_POSITIVES, u);
    ZeroDiverges(u, a0);
    hide Reachable, StageOrder.Issues, StageOrder.DivergesBy, StageOrder.Stale, StageOrder.Plain, Pipeline.Decide,
         Boot, Mips, TargetOf, Fires;
    m := StageOrder.DivergenceShows(isa, a0, 2, Zero);
  }
}
