/** Loaded programs: the pipeline is the interpreter. */
module Programs {
  import opened Basics
  import opened Instructions
  import opened Reference
  import opened Pipeline
  import opened SequentialRun
  import opened PipelineTheorems
  import opened StageOrder
  import opened Ideal
  import opened IdealPipeline
  import Decoder
  import Interpreter

  // ---------------------------------------------------------------- safe programs

  /** Does the ideal run meet a store right behind an ALU write of its data register? */
  ghost predicate StoreSafe(isa: Isa, a0: Arch, n: nat) {
    forall k: nat :: k < n ==> var a := IdealRun(isa, a0, k); var i := isa.fetch(a.pc);
      i.kind.Store? ==> !ForwardsReg(a.past.prev1, i.rt)
  }

  ghost predicate FaultFree(isa: Isa, a0: Arch, n: nat) {
    forall k: nat :: k < n ==> var a := IdealRun(isa, a0, k);
      isa.fetch(a.pc).kind.Load? ==> LoadWord(isa, a).Some?
  }

  lemma SafeIsUnspoiled(isa: Isa, a0: Arch, n: nat)
    requires StoreSafe(isa, a0, n) && FaultFree(isa, a0, n)
    ensures NoneSpoiled(isa, a0, n)
  {
    hide IdealRun, StoreWord, LoadWord;
    forall k: nat | k < n ensures !Spoiled(isa, IdealRun(isa, a0, k)) {
      var a := IdealRun(isa, a0, k);
      assert isa.fetch(a.pc).kind.Store? ==> !ForwardsReg(a.past.prev1, isa.fetch(a.pc).rt);
      assert isa.fetch(a.pc).kind.Load? ==> LoadWord(isa, a).Some?;
    }
  }

  // ---------------------------------------------------------------- programs

  /** Registers and memory of the interpreter, after the retired and the stored instructions. */
  ghost predicate ShowsProgram(im: Decoder.Image, u: Decoder.Undefined, a0: Arch, m: Machine) {
    && 0 <= RetiredAt(m) <= StoredAt(m)
    && m.sh.regs == Interpreter.ExecuteAll(im, u, Interpreter.CpuOf(a0), RetiredAt(m)).regs
    && m.sh.mem == Interpreter.ExecuteAll(im, u, Interpreter.CpuOf(a0), StoredAt(m)).mem
  }

  lemma IdealShowsProgram(im: Decoder.Image, u: Decoder.Undefined, a0: Arch, m: Machine)
    requires im.Valid() && Boot(a0) && ShowsIdeal(Decoder.Mips(im, u), a0, m) && RetiredAt(m) <= StoredAt(m)
    ensures ShowsProgram(im, u, a0, m)
  {
    hide Boot, RetiredAt, StoredAt, Decoder.Mips, Interpreter.ExecuteAll, IdealRun;
    Interpreter.IdealRunIsInterpreter(im, u, a0, RetiredAt(m));
    Interpreter.IdealRunIsInterpreter(im, u, a0, StoredAt(m));
  }

  /** A loaded program, on the pipeline and on the interpreter, under every schedule: as long as no
      instruction that has got through DM is spoiled, and none of them diverges, the registers are
      those of the interpreter after the retired instructions, and the memory is its memory after
      the stored ones. */
  lemma PipelineRunsPrograms(im: Decoder.Image, u: Decoder.Undefined, a0: Arch, trace: seq<Machine>, j: nat, n: nat)
    requires im.Valid() && RunFrom(Decoder.Mips(im, u), a0, trace) && j < |trace| && StoredAt(trace[j]) <= n
    requires NoneSpoiled(Decoder.Mips(im, u), a0, n) && NoneDivergesBefore(Decoder.Mips(im, u), a0, n)
    ensures ShowsProgram(im, u, a0, trace[j])
  {
    hide Execution, Boot, Init, RetiredAt, StoredAt, Decoder.Mips, NoneSpoiled, NoneDivergesBefore, ShowsIdeal,
         ShowsProgram;
    PipelineIsIdeal(Decoder.Mips(im, u), a0, trace, j, n);
    PipelineRefinesReference(Decoder.Mips(im, u), a0, trace, j);
    IdealShowsProgram(im, u, a0, trace[j]);
  }

  /** If ID waits for EX, branches may be anything. */
  lemma OrderedPipelineRunsPrograms(im: Decoder.Image, u: Decoder.Undefined, a0: Arch, m: Machine, n: nat)
    requires im.Valid() && Reachable(Decoder.Mips(im, u), a0, true, m) && StoredAt(m) <= n
    requires NoneSpoiled(Decoder.Mips(im, u), a0, n)
    ensures ShowsProgram(im, u, a0, m)
  {
    hide Boot, RetiredAt, StoredAt, Decoder.Mips, NoneSpoiled, ShowsIdeal, ShowsProgram, Reachable, Good;
    var isa := Decoder.Mips(im, u);
    assert WithJunk(isa, isa.junk) == isa by { SameJunk(isa); }
    OrderedIsIdeal(isa, a0, isa.junk, n, m);
    ReachGood(isa, a0, true, m);
    GoodRefines(WorldAt(isa, a0, m), m);
    IdealShowsProgram(im, u, a0, m);
  }
}
