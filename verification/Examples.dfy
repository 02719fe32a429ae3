/** A program of five words at address 0x00400000, followed through to the end. */
module Examples {
  import opened Basics
  import opened Words
  import opened Integers
  import opened Bytes
  import opened Instructions
  import opened Reference
  import opened Decoder
  import opened Ideal
  import opened StageOrder
  import Interpreter
  import Programs
  import Processor
  import Halting
  import Shutdown
  import opened Termination

  const ADDI: Word := 0x2001_0005 // addi $1, $0, 5
  const HALT: Word := 0xFC00_0000

  const FIVE_WORDS := Image(0x0040_0000, [ADDI, HALT, HALT, HALT, HALT])

  lemma WordsDecode()
    ensures Decode(ADDI) == Some(Opcode.ADDI) && Decode(HALT) == Some(Opcode.HALT)
  {
  }

  lemma Numbers()
    ensures Unsigned(ADDI) == 0x2001_0005 && Unsigned(HALT) == 0xFC00_0000 && Unsigned(0x0040_0000) == 0x40_0000
    ensures Unsigned(0x0040_0004) == 0x40_0004 && Unsigned(0x0040_0008) == 0x40_0008
    ensures Unsigned(0x0040_000C) == 0x40_000C && Unsigned(0x0040_0010) == 0x40_0010
    ensures Unsigned(0) == 0 && Unsigned(5) == 5
  {
  }

  lemma IsValid()
    ensures FIVE_WORDS.Valid()
  {
    hide Decode, Unsigned;
    WordsDecode();
    Numbers();
  }

  /** The k-th word. */
  lemma Located(k: nat, pc: Word)
    requires k < 5 && Unsigned(pc) == 0x40_0000 + 4 * k
    ensures Interpreter.WordAt(FIVE_WORDS, pc) == Some(FIVE_WORDS.text[k])
  {
    hide Unsigned;
    Numbers();
  }

  lemma Wraps()
    ensures Wrap(0x40_0004) == 0x0040_0004 && Wrap(0x40_0008) == 0x0040_0008
    ensures Wrap(0x40_000C) == 0x0040_000C && Wrap(0x40_0010) == 0x0040_0010 && Wrap(5) == 5
  {
    hide Unsigned, Wrap;
    Numbers();
    WrapIs(0x0040_0004, 0x40_0004);
    WrapIs(0x0040_0008, 0x40_0008);
    WrapIs(0x0040_000C, 0x40_000C);
    WrapIs(0x0040_0010, 0x40_0010);
    WrapIs(5, 5);
  }

  lemma AddiRuns(u: Undefined, regs: RegFile, mem: Mem)
    requires regs[0] == 0
    ensures var c := Interpreter.Cpu(0x0040_0000, regs, mem);
      Interpreter.ExecuteAll(FIVE_WORDS, u, c, 1) == Interpreter.Cpu(0x0040_0004, regs[1 := 5], mem)
  {
    hide Decode, Unsigned, Wrap, Interpreter.WordAt;
    var c := Interpreter.Cpu(0x0040_0000, regs, mem);
    Numbers();
    Wraps();
    WordsDecode();
    Located(0, 0x0040_0000);
    assert RsNum(ADDI) == 0 && RtNum(ADDI) == 1 && SignedImm(ADDI) == 5;
    assert Interpreter.ExecuteAll(FIVE_WORDS, u, c, 1) ==
           Interpreter.Execute(FIVE_WORDS, u, Interpreter.ExecuteAll(FIVE_WORDS, u, c, 0));
    assert Interpreter.Execute(FIVE_WORDS, u, c) == Interpreter.Perform(FIVE_WORDS, u, c, ADDI, Opcode.ADDI);
  }

  lemma HaltsAre(k: nat, pc: Word)
    requires 1 <= k < 5 && Unsigned(pc) == 0x40_0000 + 4 * k
    ensures Interpreter.HaltsThere(FIVE_WORDS, pc)
  {
    hide Unsigned, Interpreter.WordAt;
    Numbers();
    Located(k, pc);
  }

  lemma FirstIsNoHalt()
    ensures !Interpreter.HaltsThere(FIVE_WORDS, 0x0040_0000)
  {
    hide Unsigned, Interpreter.WordAt;
    Numbers();
    Located(0, 0x0040_0000);
  }

  lemma Comes(u: Undefined, regs: RegFile, mem: Mem)
    requires regs[0] == 0
    ensures ComesToHalt(FIVE_WORDS, u, BootState(0x0040_0000, regs, mem), 1)
  {
    hide Unsigned, Wrap, Interpreter.HaltsThere, Interpreter.Execute;
    Numbers();
    Wraps();
    AddiRuns(u, regs, mem);
    HaltsAre(1, 0x0040_0004);
    HaltsAre(2, 0x0040_0008);
    HaltsAre(3, 0x0040_000C);
    HaltsAre(4, 0x0040_0010);
    FirstIsNoHalt();
  }

  lemma Behaves(u: Undefined, regs: RegFile, mem: Mem)
    requires regs[0] == 0
    ensures WellBehaved(FIVE_WORDS, u, BootState(0x0040_0000, regs, mem), 1)
  {
    hide ComesToHalt, Fetch, Image.Valid, Unsigned, Decode, LoadFrom, StoreTo, Settable, Alu, Address, Taken, TargetOf;
    IsValid();
    Comes(u, regs, mem);
    var isa, a0 := Mips(FIVE_WORDS, u), BootState(0x0040_0000, regs, mem);
    Numbers();
    Interpreter.FetchIs(FIVE_WORDS, 0x0040_0000, 0);
    WordsDecode();
    Interpreter.InstrIs(ADDI, Opcode.ADDI);
    assert IdealRun(isa, a0, 0) == a0;
    assert Programs.StoreSafe(isa, a0, 1) && Programs.FaultFree(isa, a0, 1);
    Programs.SafeIsUnspoiled(isa, a0, 1);
    assert !Diverges(isa, a0, 0);
  }

  /** Under every schedule the processor ends within a few hundred steps, with 5 in $1 and all other
      registers and the memory as they were; and there is such a run. */
  lemma FiveInRegisterOne(u: Undefined, regs: RegFile, mem: Mem) returns (run: seq<Processor.System>)
    requires regs[0] == 0
    ensures var isa, a0 := Mips(FIVE_WORDS, u), BootState(0x0040_0000, regs, mem);
      && Processor.Execution(isa, a0, run) && 0 < |run| && Processor.Final(isa, Halting.Last(run))
      && (forall trace :: Processor.Execution(isa, a0, trace) ==>
            && 0 < |trace| <= Bound(1, TransfersOf(FIVE_WORDS, u, a0, 1))
            && (Processor.Final(isa, Halting.Last(trace)) ==>
                  var s := Halting.Last(trace);
                  Processor.AllAt(s, Shutdown.Exited) && s.m.sh.regs == regs[1 := 5] && s.m.sh.mem == mem))
  {
    hide Processor.Execution, Processor.Final, Processor.AllAt, Processor.Next, WellBehaved, Mips, TransfersOf,
         Interpreter.ExecuteAll, Bound, Boot;
    var isa, a0 := Mips(FIVE_WORDS, u), BootState(0x0040_0000, regs, mem);
    Behaves(u, regs, mem);
    AddiRuns(u, regs, mem);
    forall trace | Processor.Execution(isa, a0, trace)
      ensures 0 < |trace| <= Bound(1, TransfersOf(FIVE_WORDS, u, a0, 1))
      ensures Processor.Final(isa, Halting.Last(trace)) ==>
                var s := Halting.Last(trace);
                Processor.AllAt(s, Shutdown.Exited) && s.m.sh.regs == regs[1 := 5] && s.m.sh.mem == mem
    {
      ProgramHalts(FIVE_WORDS, u, a0, 1, trace);
    }
    Boots(u, a0, 1);
    var start := [Processor.Started(a0)];
    Starts(isa, a0);
    run := ProgramEnds(FIVE_WORDS, u, a0, 1, start);
  }

  lemma Boots(u: Undefined, a0: Arch, n: nat)
    requires WellBehaved(FIVE_WORDS, u, a0, n)
    ensures Boot(a0)
  {
    hide ComesToHalt, Image.Valid, NoneSpoiled, NoneDivergesBefore, Boot, Mips;
  }

  lemma Starts(isa: Isa, a0: Arch)
    requires Boot(a0)
    ensures Processor.Execution(isa, a0, [Processor.Started(a0)])
  {
    hide Boot, Processor.Started, Processor.Next;
  }
}
