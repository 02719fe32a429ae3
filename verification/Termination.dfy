/** Total correctness of loaded programs: if the interpreter comes to a HALT and three more follow, every
    run of the whole processor ends after a bounded number of steps, and ends right. */
module Termination {
  import opened Basics
  import opened Instructions
  import opened Reference
  import opened Pipeline
  import opened SequentialRun
  import opened PipelineInvariant
  import opened PipelineSteps
  import opened PipelineTheorems
  import opened StageOrder
  import opened Ideal
  import opened IdealPipeline
  import opened Words
  import opened Bytes
  import opened Processor
  import opened BeforeHalt
  import opened AfterHalt
  import opened Drain
  import opened Halting
  import opened Lifting
  import Deadlines
  import Shutdown
  import Decoder
  import Interpreter

  // ---------------------------------------------------------------- four HALT words

  lemma {:induction false} AheadIs(pc: Word, k: nat)
    ensures Unsigned(Ahead(pc, k)) == (Unsigned(pc) + 4 * k) % TWO_32
  {
    hide Unsigned, Advance, Interpreter.Next;
    UnsignedRange(pc);
    if k > 0 {
      AheadIs(pc, k - 1);
      Interpreter.NextAgrees(Ahead(pc, k - 1));
      AddModulo(Unsigned(pc) + 4 * (k - 1));
    }
  }

  lemma AddModulo(n: int)
    ensures (n % TWO_32 + 4) % TWO_32 == (n + 4) % TWO_32
  {
  }

  /** The three words behind pc are HALT. */
  predicate ThreeMoreHalts(im: Decoder.Image, pc: Word) {
    && Interpreter.HaltsThere(im, Wrap(Unsigned(pc) + 4))
    && Interpreter.HaltsThere(im, Wrap(Unsigned(pc) + 8))
    && Interpreter.HaltsThere(im, Wrap(Unsigned(pc) + 12))
  }

  lemma HaltWordIs(im: Decoder.Image, u: Decoder.Undefined, pc: Word, k: nat)
    requires im.Valid()
    ensures HaltWords(Decoder.Mips(im, u), pc)(k) <==> Interpreter.HaltsThere(im, Wrap(Unsigned(pc) + 4 * k))
  {
    hide Unsigned, Ahead, Wrap, Interpreter.HaltsThere, Decoder.Mips;
    AheadIs(pc, k);
    WrapIs(Ahead(pc, k), Unsigned(pc) + 4 * k);
    Interpreter.FetchHalts(im, u, Ahead(pc, k));
  }

  lemma FourHaltsIs(im: Decoder.Image, u: Decoder.Undefined, pc: Word)
    requires im.Valid()
    ensures Shutdown.FourHalts(HaltWords(Decoder.Mips(im, u), pc)) <==> ThreeMoreHalts(im, pc)
  {
    hide Unsigned, HaltWords, Wrap, Interpreter.HaltsThere, Decoder.Mips;
    HaltWordIs(im, u, pc, 1);
    HaltWordIs(im, u, pc, 2);
    HaltWordIs(im, u, pc, 3);
  }

  /** At its first HALT a loaded program shuts down cleanly, under every schedule, if and only if the next
      three words of its text are HALT too. */
  lemma ProgramIsCleanIff(im: Decoder.Image, u: Decoder.Undefined, a0: Arch, s: System)
    requires im.Valid() && FirstHalt(Decoder.Mips(im, u), a0, s)
    ensures StopsCleanly(Decoder.Mips(im, u), s) <==> ThreeMoreHalts(im, s.m.sh.pc)
  {
    hide FirstHalt, StopsCleanly, ThreeMoreHalts, Decoder.Mips, Shutdown.FourHalts, HaltWords;
    CleanIffFourHalts(Decoder.Mips(im, u), a0, s);
    FourHaltsIs(im, u, s.m.sh.pc);
  }

  // ---------------------------------------------------------------- steps and cycles

  function PlaceRank(p: Place): nat {
    match p
    case Top => 1
    case AtRising => 2
    case Work => 3
    case Tally => 4
    case AtFalling => 5
    case _ => 0
  }

  /** No step takes it back, before the first HALT. */
  function Rank(s: System): int {
    PlaceRank(s.threads[0].place) + PlaceRank(s.threads[1].place) + PlaceRank(s.threads[2].place)
    + PlaceRank(s.threads[3].place) + PlaceRank(s.threads[4].place) + 26 * s.m.hist.cycles
  }

  lemma MoveRanks(isa: Isa, a0: Arch, s: System, i: Index, text: string)
    requires Before(isa, a0, s) && CanMove(s, i) && Before(isa, a0, Move(isa, s, i, text))
    ensures Rank(Move(isa, s, i, text)) > Rank(s)
  {
    hide Reachable, Clocked, FlagBefore, ClockAt, Move;
    var s' := Move(isa, s, i, text);
    MoveKeepsCycles(isa, s, i, text);
    MoveSteps(isa, s, i, text);
    assert ClockAt(s, i) && ClockAt(s', i) by { ClockHere(s, i); ClockHere(s', i); }
    assert AliveBefore(s, i) && AliveBefore(s', i);
    PlaceRises(isa, s, i, text);
    RankOfMover(s, s', i);
  }

  lemma PlaceRises(isa: Isa, s: System, i: Index, text: string)
    requires CanMove(s, i) && ClockAt(s, i) && !s.threads[i].ended
    requires var s' := Move(isa, s, i, text); ClockAt(s', i) && !s'.threads[i].ended
    ensures PlaceRank(Move(isa, s, i, text).threads[i].place) > PlaceRank(s.threads[i].place)
  {
    hide Do, IsHalt, TaskAt, StageOf, UpdatePC;
  }

  lemma RankOfMover(s: System, s': System, i: Index)
    requires s'.m.hist.cycles == s.m.hist.cycles && Steps(s, s', i)
    requires PlaceRank(s'.threads[i].place) > PlaceRank(s.threads[i].place)
    ensures Rank(s') > Rank(s)
  {
    hide PlaceRank, StageOf;
  }

  lemma EdgeRanks(s: System)
    requires Clocked(s)
    ensures AllAt(s, Shutdown.AtRising) ==> Rank(Rise(s)) > Rank(s)
    ensures AllAt(s, Shutdown.AtFalling) ==> Rank(Fall(s)) > Rank(s)
  {
    hide RaceOf, Clocked;
    ClockedEdge(s);
    if AllAt(s, Shutdown.AtRising) {
      assert s.threads[0].place.AtRising? && s.threads[1].place.AtRising? && s.threads[2].place.AtRising? &&
             s.threads[3].place.AtRising? && s.threads[4].place.AtRising?;
    }
    if AllAt(s, Shutdown.AtFalling) {
      assert s.threads[0].place.AtFalling? && s.threads[1].place.AtFalling? && s.threads[2].place.AtFalling? &&
             s.threads[3].place.AtFalling? && s.threads[4].place.AtFalling?;
    }
  }

  lemma NextRanks(isa: Isa, a0: Arch, s: System, s': System)
    requires Before(isa, a0, s) && Uncounted(s) && Processor.Next(isa, s, s') && Before(isa, a0, s')
    ensures Rank(s') > Rank(s)
  {
    hide Before, Uncounted, Move, Rise, Fall, AllAt, Together, Rank, WorksAlong, CanMove;
    if i: Index, text: string :| CanMove(s, i) && s' == Move(isa, s, i, text) {
      MoveRanks(isa, a0, s, i, text);
    } else if i: Index :| WorksAlong(s, i) && s' == Together(Move(isa, s, i, "")) {
      AlongMoves(s, i);
      MoveBefore(isa, a0, s, i, "");
      MoveRanks(isa, a0, s, i, "");
      assert Rank(s') == Rank(Move(isa, s, i, "")) by { SameRank(Move(isa, s, i, "")); }
    } else {
      assert Clocked(s) by { BeforeIsClocked(isa, a0, s); }
      EdgeRanks(s);
    }
  }

  lemma SameRank(s: System)
    ensures Rank(Together(s)) == Rank(s)
  {
    TogetherIs(s);
    hide Together;
  }

  lemma BeforeIsClocked(isa: Isa, a0: Arch, s: System)
    requires Before(isa, a0, s)
    ensures Clocked(s)
  {
    hide Clocked, Reachable, AliveBefore;
  }

  /** The number of steps is bounded by that of the cycles. */
  lemma {:induction false} StepsOfCycles(isa: Isa, a0: Arch, trace: seq<System>, j: nat)
    requires Processor.Execution(isa, a0, trace) && j < |trace|
    requires forall i :: 0 <= i <= j ==> !FirstHalt(isa, a0, trace[i])
    ensures j <= Rank(trace[j]) <= 26 * trace[j].m.hist.cycles + 25
  {
    hide Before, Uncounted, FirstHalt, Boot, Processor.Next, Started, Rank;
    RankIsSmall(trace[j]);
    if j == 0 {
      assert 0 <= Rank(trace[0]) by { RankIsNat(trace[0]); }
    } else {
      StepsOfCycles(isa, a0, trace, j - 1);
      BeforeHolds(isa, a0, trace, j - 1);
      BeforeHolds(isa, a0, trace, j);
      NextRanks(isa, a0, trace[j - 1], trace[j]);
    }
  }

  lemma RankIsSmall(s: System)
    ensures Rank(s) <= 26 * s.m.hist.cycles + 25
  {
  }

  lemma RankIsNat(s: System)
    ensures 0 <= Rank(s)
  {
  }

  // ---------------------------------------------------------------- cycles and instructions

  /** In every state, not only at an edge. */
  lemma CyclesOf(w: World, m: Machine)
    requires Good(w, m)
    ensures m.hist.cycles <= 3 * m.hist.issued + FiresUpTo(w, m.hist.issued) + 3
  {
    hide Inv, Run, Back, FrontEnd, Pair, Issuing, Scoreboard, Order, Ids, Slots, FiresUpTo, RolesOf;
    Unfold(w, m, RolesOf(m));
  }

  /** If the n-th instruction is a HALT, and IF has counted none, no later instruction has been issued. */
  lemma IssuedBeforeHalt(w: World, m: Machine, n: nat)
    requires Good(w, m) && m.hist.halts == 0 && InstrAt(w, n).kind.Halt?
    ensures m.hist.issued <= n
  {
    hide Inv, Order, Ids, Slots, Back, Scoreboard, Timing, Account, RolesOf, At, HaltsUpTo, FrontFirst,
         FrontSecond;
    Unfold(w, m, RolesOf(m));
    NoHaltsIssued(w, m);
    if n < m.hist.issued { NoHaltAmong(w, m.hist.issued, n); }
  }

  /** The cycles of a run that has not counted a HALT. */
  lemma EarlyCycles(isa: Isa, a0: Arch, m: Machine, n: nat)
    requires Reachable(isa, a0, false, m) && m.hist.halts == 0 && NoneDivergesBefore(isa, a0, n)
    requires isa.fetch(StageOrder.Plain(isa, a0, n).pc).kind.Halt?
    ensures m.hist.cycles <= 3 * n + FiresUpTo(World(isa, a0, NEVER), n) + 3
  {
    hide Reachable, Good, FiresUpTo, Run, NEVER, RaceIn, Boot, NoneDivergesBefore, Fires, Target;
    var w, w' := WorldAt(isa, a0, m), World(isa, a0, NEVER);
    ReachGood(isa, a0, false, m);
    CyclesOf(w, m);
    SameButView(isa, w.race, a0, n, n);
    IssuedBeforeHalt(w, m, n);
    forall l: nat | l < m.hist.issued ensures Fires(isa, At(w', l)) == Fires(isa, At(w, l)) {
      SameButView(isa, w.race, a0, l, n);
    }
    SameFires(w, w', m.hist.issued);
    Deadlines.FiresGrow(w', m.hist.issued, n);
  }

  // ---------------------------------------------------------------- every run ends

  /** The interpreter comes to its first HALT after n instructions, and three more follow. */
  ghost predicate ComesToHalt(im: Decoder.Image, u: Decoder.Undefined, a0: Arch, n: nat) {
    && Interpreter.HaltsThere(im, PcAfter(im, u, a0, n)) && ThreeMoreHalts(im, PcAfter(im, u, a0, n))
    && (forall k: nat :: k < n ==> !Interpreter.HaltsThere(im, PcAfter(im, u, a0, k)))
  }

  function PcAfter(im: Decoder.Image, u: Decoder.Undefined, a0: Arch, k: nat): Word {
    Interpreter.ExecuteAll(im, u, Interpreter.CpuOf(a0), k).pc
  }

  /** A program as it is meant to be: no instruction before its HALT is spoiled or diverges. */
  ghost predicate WellBehaved(im: Decoder.Image, u: Decoder.Undefined, a0: Arch, n: nat) {
    && im.Valid() && Boot(a0) && ComesToHalt(im, u, a0, n)
    && NoneSpoiled(Decoder.Mips(im, u), a0, n) && NoneDivergesBefore(Decoder.Mips(im, u), a0, n)
  }

  /** The steps that a run can take, with t control transfers before the HALT. */
  function Bound(n: nat, t: nat): nat { 26 * (3 * n + t + 3) + 222 }

  function TransfersOf(im: Decoder.Image, u: Decoder.Undefined, a0: Arch, n: nat): nat {
    FiresUpTo(World(Decoder.Mips(im, u), a0, NEVER), n)
  }

  /** Whatever the races, the k-th instruction is at the interpreter's PC. */
  lemma SamePlace(im: Decoder.Image, u: Decoder.Undefined, a0: Arch, races: seq<Race>, n: nat, k: nat)
    requires WellBehaved(im, u, a0, n) && k <= n
    ensures Run(Decoder.Mips(im, u), RaceIn(races), a0, k).pc == PcAfter(im, u, a0, k)
    ensures StageOrder.Plain(Decoder.Mips(im, u), a0, k).pc == PcAfter(im, u, a0, k)
  {
    hide ComesToHalt, Run, RaceIn, NEVER, Decoder.Mips, NoneSpoiled, NoneDivergesBefore, Boot,
         Interpreter.ExecuteAll;
    var isa := Decoder.Mips(im, u);
    assert RacesHarmless(isa, a0, races, n);
    HarmlessIsInterpreter(im, u, a0, races, n, k);
    SameButView(isa, RaceIn(races), a0, k, n);
  }

  /** Up to the first HALT a run is short. */
  lemma EarlySteps(im: Decoder.Image, u: Decoder.Undefined, a0: Arch, n: nat, trace: seq<System>, j: nat)
    requires WellBehaved(im, u, a0, n) && Processor.Execution(Decoder.Mips(im, u), a0, trace) && j < |trace|
    requires forall i :: 0 <= i <= j ==> !FirstHalt(Decoder.Mips(im, u), a0, trace[i])
    ensures j <= 26 * (3 * n + TransfersOf(im, u, a0, n) + 3) + 25
  {
    hide FirstHalt, Processor.Execution, Reachable, Decoder.Mips, NoneSpoiled, NoneDivergesBefore, Boot, ThreeMoreHalts,
         Interpreter.HaltsThere, PcAfter, FiresUpTo, NEVER, Run, Rank, Uncounted;
    var isa := Decoder.Mips(im, u);
    StepsOfCycles(isa, a0, trace, j);
    BeforeHolds(isa, a0, trace, j);
    assert Reachable(isa, a0, false, trace[j].m) && trace[j].m.hist.halts == 0;
    SamePlace(im, u, a0, [], n, n);
    Interpreter.FetchHalts(im, u, PcAfter(im, u, a0, n));
    EarlyCycles(isa, a0, trace[j].m, n);
  }

  /** Where a run has its first HALT in hand, the interpreter has come to its own. */
  lemma FirstHaltIsThere(im: Decoder.Image, u: Decoder.Undefined, a0: Arch, n: nat, s: System)
    requires WellBehaved(im, u, a0, n) && FirstHalt(Decoder.Mips(im, u), a0, s)
    ensures s.m.hist.issued == n && s.m.sh.pc == PcAfter(im, u, a0, n)
  {
    hide Reachable, Good, Decoder.Mips, NoneSpoiled, NoneDivergesBefore, Boot, ThreeMoreHalts, Interpreter.HaltsThere,
         PcAfter, Run, Clocked, AliveBefore, RaceIn, Counts;
    var isa, m := Decoder.Mips(im, u), s.m;
    var w, k := WorldAt(isa, a0, m), m.hist.issued;
    assert Reachable(isa, a0, false, m) && m.hist.halts == 0 && Counts(m);
    EdgeClock(s);
    ReachGood(isa, a0, false, m);
    SamePlace(im, u, a0, m.hist.races, n, n);
    Interpreter.FetchHalts(im, u, PcAfter(im, u, a0, n));
    IssuedBeforeHalt(w, m, n);
    SamePlace(im, u, a0, m.hist.races, n, k);
    Interpreter.FetchHalts(im, u, PcAfter(im, u, a0, k));
    HaltInHand(w, m);
  }

  /** Main theorem: every run of a loaded program on the whole processor, under any schedule, is short;
      where it ends, all five threads have left, and registers and memory are those of the interpreter at
      its first HALT. */
  lemma ProgramHalts(im: Decoder.Image, u: Decoder.Undefined, a0: Arch, n: nat, trace: seq<System>)
    requires WellBehaved(im, u, a0, n) && Processor.Execution(Decoder.Mips(im, u), a0, trace)
    ensures 0 < |trace| <= Bound(n, TransfersOf(im, u, a0, n))
    ensures Final(Decoder.Mips(im, u), Last(trace)) ==>
              var s, c := Last(trace), Interpreter.ExecuteAll(im, u, Interpreter.CpuOf(a0), n);
              AllAt(s, Shutdown.Exited) && s.m.sh.regs == c.regs && s.m.sh.mem == c.mem
  {
    hide FirstHalt, Processor.Execution, Final, AllAt, Decoder.Mips, TransfersOf, WellBehaved, Interpreter.ExecuteAll;
    var isa := Decoder.Mips(im, u);
    assert 0 < |trace| by { NeverEmpty(isa, a0, trace); }
    if forall i :: 0 <= i < |trace| ==> !FirstHalt(isa, a0, trace[i]) {
      EarlySteps(im, u, a0, n, trace, |trace| - 1);
      if Final(isa, Last(trace)) { var i := EndsAfterHalt(isa, a0, trace); }
    } else {
      var k :| 0 <= k < |trace| && FirstHalt(isa, a0, trace[k]);
      var i := LeastHalt(isa, a0, trace, k);
      LateSteps(im, u, a0, n, trace, i);
    }
  }

  lemma NeverEmpty(isa: Isa, a0: Arch, trace: seq<System>)
    requires Processor.Execution(isa, a0, trace)
    ensures 0 < |trace|
  {
    hide Boot, Processor.Next;
  }

  lemma LateSteps(im: Decoder.Image, u: Decoder.Undefined, a0: Arch, n: nat, trace: seq<System>, i: nat)
    requires WellBehaved(im, u, a0, n) && Processor.Execution(Decoder.Mips(im, u), a0, trace) && i < |trace|
    requires FirstHalt(Decoder.Mips(im, u), a0, trace[i])
    requires forall l :: 0 <= l < i ==> !FirstHalt(Decoder.Mips(im, u), a0, trace[l])
    ensures |trace| <= Bound(n, TransfersOf(im, u, a0, n))
    ensures Final(Decoder.Mips(im, u), Last(trace)) ==>
              var s, c := Last(trace), Interpreter.ExecuteAll(im, u, Interpreter.CpuOf(a0), n);
              AllAt(s, Shutdown.Exited) && s.m.sh.regs == c.regs && s.m.sh.mem == c.mem
  {
    hide FirstHalt, Processor.Execution, Final, AllAt, Decoder.Mips, TransfersOf, Interpreter.ExecuteAll, NoneSpoiled,
         NoneDivergesBefore, ThreeMoreHalts, Interpreter.HaltsThere, Shutdown.FourHalts, HaltWords, Boot, Continues;
    var isa := Decoder.Mips(im, u);
    if i > 0 { EarlySteps(im, u, a0, n, trace, i - 1); }
    FirstHaltIsThere(im, u, a0, n, trace[i]);
    FourHaltsIs(im, u, trace[i].m.sh.pc);
    CutRun(isa, a0, trace, i);
    LastOfCut(trace, i);
    StopsIfFourHalts(isa, a0, trace[i], trace[i..]);
    if Final(isa, Last(trace)) {
      assert HasHalted(isa, a0, trace, i);
      HaltedProgram(im, u, a0, trace, i);
    }
  }

  /** And there is such a run: any run that has not ended goes on to one that has. */
  lemma {:induction false} ProgramEnds(im: Decoder.Image, u: Decoder.Undefined, a0: Arch, n: nat, trace: seq<System>)
    returns (run: seq<System>)
    requires WellBehaved(im, u, a0, n) && Processor.Execution(Decoder.Mips(im, u), a0, trace)
    ensures Processor.Execution(Decoder.Mips(im, u), a0, run) && trace <= run
    ensures 0 < |run| && Final(Decoder.Mips(im, u), Last(run))
    decreases Bound(n, TransfersOf(im, u, a0, n)) - |trace|
  {
    hide Processor.Execution, Processor.Next, AllAt, Decoder.Mips, TransfersOf, WellBehaved, Interpreter.ExecuteAll,
         Bound;
    var isa := Decoder.Mips(im, u);
    ProgramHalts(im, u, a0, n, trace);
    if Final(isa, Last(trace)) {
      run := trace;
    } else {
      var s' :| Processor.Next(isa, Last(trace), s');
      OneStepMore(isa, a0, trace, s');
      ProgramHalts(im, u, a0, n, trace + [s']);
      run := ProgramEnds(im, u, a0, n, trace + [s']);
    }
  }

  lemma OneStepMore(isa: Isa, a0: Arch, trace: seq<System>, s': System)
    requires Processor.Execution(isa, a0, trace) && 0 < |trace| && Processor.Next(isa, Last(trace), s')
    ensures Processor.Execution(isa, a0, trace + [s'])
  {
    hide Processor.Next, Boot, Started;
  }
}
