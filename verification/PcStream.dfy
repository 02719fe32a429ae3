/** The PCs that IF reports: one for each cycle, with which it fetches, and the last one as it leaves. */
module PcStream {
  import opened Basics
  import opened Instructions
  import opened Reference
  import opened Pipeline
  import opened PipelineTheorems
  import opened Reports
  import opened Processor
  import opened BeforeHalt
  import opened AfterHalt
  import opened Halting
  import opened Snapshots
  import opened Lifting
  import Shutdown

  /** As long as IF is alive: one PC for each cycle, and in the first half the last one is the present. */
  predicate PcsSoFar(s: System) {
    !s.threads[0].ended ==>
      && |s.pcQueue| == s.m.hist.cycles + One(Taken(s, 0))
      && (Taken(s, 0) && s.m.clock.half.First? ==> 0 < |s.pcQueue| && s.pcQueue[|s.pcQueue| - 1] == s.m.sh.pc)
  }

  /** What a step of another thread does. */
  lemma OthersKeepPc(isa: Isa, m: Machine, i: Index)
    requires i != 0 && m.clock.half.First?
    ensures Do(isa, m, i).sh.pc == m.sh.pc && Do(isa, m, i).clock.half.First?
  {
    hide ResetTo, WrittenValue, AddressOf, Compute;
    if i == 1 { PickKeepsPc(m); }
  }

  lemma PickKeepsPc(m: Machine)
    ensures FirstID(m).sh.pc == m.sh.pc
  {
    hide Capture, ResolvesRs, ResolvesRt;
  }

  lemma OthersKeepPcs(isa: Isa, s: System, i: Index, text: string)
    requires i != 0 && ClockAt(s, i)
    ensures var s' := Move(isa, s, i, text);
      && s'.pcQueue == s.pcQueue && s'.threads[0] == s.threads[0]
      && (s.m.clock.half.First? ==> s'.m.sh.pc == s.m.sh.pc)
  {
    hide Do, DiffOf, IsHalt, TaskAt, StageOf;
    if s.m.clock.half.First? { OthersKeepPc(isa, s.m, i); }
  }

  lemma HalfStays(isa: Isa, s: System, i: Index, text: string)
    ensures Move(isa, s, i, text).m.clock.half == s.m.clock.half
  {
    hide Move, StageOf;
    MoveSteps(isa, s, i, text);
    MarkOne(s.m.clock, i);
  }

  lemma OthersPcs(isa: Isa, s: System, i: Index, text: string)
    requires PcsSoFar(s) && Clocked(s) && i != 0
    ensures PcsSoFar(Move(isa, s, i, text)) && Move(isa, s, i, text).pcQueue == s.pcQueue
  {
    hide Move, Clocked, ClockAt;
    ClockHere(s, i);
    OthersKeepPcs(isa, s, i, text);
    MoveKeepsCycles(isa, s, i, text);
    HalfStays(isa, s, i, text);
  }

  /** IF pushes the PC with which it fetches, and one more when it leaves. */
  lemma IFPcs(isa: Isa, s: System, text: string)
    requires PcsSoFar(s) && Clocked(s) && CanMove(s, 0)
    ensures var s' := Move(isa, s, 0, text);
      && PcsSoFar(s')
      && s'.pcQueue == s.pcQueue + (if Pushes(s, s') then [s'.m.sh.pc] else [])
      && (s.threads[0].ended ==> !Pushes(s, s'))
  {
    hide Do, UpdatePC, IsHalt, TaskAt, Clocked, StageOf;
    ClockHere(s, 0);
    MoveKeepsCycles(isa, s, 0, text);
    HalfStays(isa, s, 0, text);
  }

  predicate Pushes(s: System, s': System) {
    (s.threads[0].place.Top? && s'.threads[0].place.AtRising?) || (!s.threads[0].ended && s'.threads[0].ended)
  }

  lemma EdgePcs(s: System)
    requires PcsSoFar(s) && Clocked(s)
    ensures AllAt(s, Shutdown.AtRising) ==> PcsSoFar(Rise(s))
    ensures AllAt(s, Shutdown.AtFalling) ==> PcsSoFar(Fall(s))
  {
    hide Clocked, RaceOf;
    ClockedEdge(s);
    if AllAt(s, Shutdown.AtRising) { assert s.threads[0].place.AtRising?; }
    if AllAt(s, Shutdown.AtFalling) { assert s.threads[0].place.AtFalling?; }
  }

  lemma TogetherPcs(s: System)
    requires PcsSoFar(s)
    ensures PcsSoFar(Together(s)) && Together(s).pcQueue == s.pcQueue
  {
    TogetherIs(s);
    hide Together;
  }

  lemma NextPcs(isa: Isa, s: System, s': System)
    requires PcsSoFar(s) && Clocked(s) && Processor.Next(isa, s, s')
    ensures PcsSoFar(s') && s.pcQueue <= s'.pcQueue
  {
    hide PcsSoFar, Clocked, Move, Rise, Fall, AllAt, Together, Pushes;
    if i: Index, text: string :| CanMove(s, i) && s' == Move(isa, s, i, text) {
      if i == 0 { IFPcs(isa, s, text); } else { OthersPcs(isa, s, i, text); }
    } else if i: Index :| WorksAlong(s, i) && s' == Together(Move(isa, s, i, "")) {
      OthersPcs(isa, s, i, "");
      TogetherPcs(Move(isa, s, i, ""));
    } else {
      EdgePcs(s);
      assert s'.pcQueue == s.pcQueue by { EdgeKeepsPcs(s); }
    }
  }

  lemma EdgeKeepsPcs(s: System)
    ensures Rise(s).pcQueue == s.pcQueue && Fall(s).pcQueue == s.pcQueue
  {
    hide Edge;
  }

  lemma {:induction false} PcsHold(isa: Isa, a0: Arch, trace: seq<System>, j: nat)
    requires Processor.Execution(isa, a0, trace) && j < |trace|
    ensures PcsSoFar(trace[j]) && Clocked(trace[j])
  {
    hide Boot, Processor.Next, Started, PcsSoFar, Clocked, Snapshots.Mirrored;
    StreamIsExact(isa, a0, trace, j);
    if j == 0 {
      FreshPcs(a0);
    } else {
      PcsHold(isa, a0, trace, j - 1);
      NextPcs(isa, trace[j - 1], trace[j]);
    }
  }

  lemma FreshPcs(a0: Arch)
    ensures PcsSoFar(Started(a0))
  {
    hide FreeBoard;
  }

  lemma {:induction false} PcsGrow(isa: Isa, a0: Arch, trace: seq<System>, i: nat, j: nat)
    requires Processor.Execution(isa, a0, trace) && i <= j < |trace|
    ensures trace[i].pcQueue <= trace[j].pcQueue
  {
    hide Boot, Processor.Next, Started, PcsSoFar, Clocked;
    if i < j {
      PcsGrow(isa, a0, trace, i, j - 1);
      PcsHold(isa, a0, trace, j - 1);
      NextPcs(isa, trace[j - 1], trace[j]);
    }
  }

  // ---------------------------------------------------------------- the theorems

  /** Entry j of the queue is the PC with which IF has fetched in cycle j. */
  lemma PcsAreExact(isa: Isa, a0: Arch, trace: seq<System>, k: nat, l: nat)
    requires Processor.Execution(isa, a0, trace) && k <= l < |trace|
    requires AllAt(trace[k], Shutdown.AtRising) && !trace[k].threads[0].ended
    ensures var j := trace[k].m.hist.cycles;
      j < |trace[l].pcQueue| && trace[l].pcQueue[j] == trace[k].m.sh.pc
  {
    hide Processor.Execution, Clocked;
    PcsHold(isa, a0, trace, k);
    PcsGrow(isa, a0, trace, k, l);
    ClockedEdge(trace[k]);
    assert trace[k].threads[0].place.AtRising?;
  }

  /** Does IF leave its main loop in this step? */
  predicate Leaves(s: System, s': System) { !s.threads[0].ended && s'.threads[0].ended }

  lemma IFLeaves(isa: Isa, s: System, s': System)
    requires Processor.Next(isa, s, s') && Leaves(s, s') && Clocked(s) && PcsSoFar(s)
    ensures s'.pcQueue == s.pcQueue + [s'.m.sh.pc] && s'.m.sh == UpdatePC(s.m.sh, true)
    ensures |s.pcQueue| == s.m.hist.cycles
  {
    hide Clocked, Rise, Fall, Together;
    assert ClockAt(s, 0) by { ClockHere(s, 0); }
    if i: Index, text: string :| CanMove(s, i) && s' == Move(isa, s, i, text) {
      if i == 0 { IFLeavesBy(isa, s, text); } else { OthersPcs(isa, s, i, text); OthersKeepPcs(isa, s, i, text); }
    } else if i: Index :| WorksAlong(s, i) && s' == Together(Move(isa, s, i, "")) {
      assert ClockAt(s, i) by { ClockHere(s, i); }
      OthersKeepPcs(isa, s, i, "");
      TogetherIs(Move(isa, s, i, ""));
    } else {
      EdgeKeepsEnded(s);
    }
  }

  lemma IFLeavesBy(isa: Isa, s: System, text: string)
    requires CanMove(s, 0) && Leaves(s, Move(isa, s, 0, text)) && ClockAt(s, 0) && PcsSoFar(s)
    ensures var s' := Move(isa, s, 0, text);
      s'.pcQueue == s.pcQueue + [s'.m.sh.pc] && s'.m.sh == UpdatePC(s.m.sh, true) && |s.pcQueue| == s.m.hist.cycles
  {
    hide Do, UpdatePC, IsHalt, TaskAt, StageOf;
  }

  lemma EdgeKeepsEnded(s: System)
    ensures Rise(s).threads[0].ended == s.threads[0].ended && Fall(s).threads[0].ended == s.threads[0].ended
  {
    hide Edge;
  }

  /** A step of IF after that pushes nothing. */
  lemma NothingMore(isa: Isa, s: System, s': System)
    requires Processor.Next(isa, s, s') && s.threads[0].ended && Clocked(s) && PcsSoFar(s)
    ensures s'.pcQueue == s.pcQueue && s'.threads[0].ended
  {
    hide Clocked, Rise, Fall, Together, Move, AllAt, Pushes;
    if i: Index, text: string :| CanMove(s, i) && s' == Move(isa, s, i, text) {
      if i == 0 { IFPcs(isa, s, text); EndedIFStays(isa, s, text); }
      else { ClockHere(s, i); OthersKeepPcs(isa, s, i, text); }
    } else if i: Index :| WorksAlong(s, i) && s' == Together(Move(isa, s, i, "")) {
      ClockHere(s, i);
      OthersKeepPcs(isa, s, i, "");
      TogetherIs(Move(isa, s, i, ""));
    } else {
      EdgeKeepsEnded(s);
      EdgeKeepsPcs(s);
    }
  }

  lemma EndedIFStays(isa: Isa, s: System, text: string)
    requires s.threads[0].ended && Clocked(s) && CanMove(s, 0)
    ensures Move(isa, s, 0, text).threads[0].ended
  {
    hide Do, UpdatePC, IsHalt, TaskAt, Clocked, StageOf;
    ClockHere(s, 0);
  }

  lemma {:induction false} NothingMoreEver(isa: Isa, a0: Arch, trace: seq<System>, k: nat, l: nat)
    requires Processor.Execution(isa, a0, trace) && k <= l < |trace| && trace[k].threads[0].ended
    ensures trace[l].pcQueue == trace[k].pcQueue && trace[l].threads[0].ended
  {
    hide Boot, Processor.Next, Started, PcsSoFar, Clocked;
    if k < l {
      NothingMoreEver(isa, a0, trace, k, l - 1);
      PcsHold(isa, a0, trace, l - 1);
      NothingMore(isa, trace[l - 1], trace[l]);
    }
  }

  /** The last entry is pushed when IF leaves: the address behind the PC of its last fetch. */
  lemma LastPcIsExact(isa: Isa, a0: Arch, trace: seq<System>, i: nat) returns (k: nat)
    requires HasHalted(isa, a0, trace, i)
    ensures k + 1 < |trace| && Leaves(trace[k], trace[k + 1])
    ensures var q := Last(trace).pcQueue;
      |q| == trace[k].m.hist.cycles + 1 && q[trace[k].m.hist.cycles] == Advance(trace[k].m.sh.pc)
  {
    hide FirstHalt, Before, Processor.Next, Final, Shutdown.FourHalts, Boot, Started, Clocked, PcsSoFar, Advance,
         InID, InFirstCycle, FlagAfter, LongEnough;
    CutIsRun(isa, a0, trace, i);
    IFHasEnded(isa, a0, trace, i);
    k := WhereIFLeaves(isa, a0, trace, |trace| - 1);
    PcsHold(isa, a0, trace, k);
    assert Processor.Next(isa, trace[k], trace[k + 1]);
    IFLeaves(isa, trace[k], trace[k + 1]);
    NothingMoreEver(isa, a0, trace, k + 1, |trace| - 1);
    if k < i {
      if k + 1 == i { FirstHaltAlive(isa, a0, trace[i]); }
      else {
        BeforeHolds(isa, a0, trace, k + 1);
        BeforeAlive(isa, a0, trace[k + 1]);
      }
      assert false;
    }
    AfterAlong(isa, a0, trace[i], trace[i..], k - i);
  }

  lemma {:induction false} WhereIFLeaves(isa: Isa, a0: Arch, trace: seq<System>, j: nat) returns (k: nat)
    requires Processor.Execution(isa, a0, trace) && j < |trace| && trace[j].threads[0].ended
    ensures k < j && Leaves(trace[k], trace[k + 1])
  {
    hide Boot, Processor.Next;
    if j == 0 {
      FreshIF(a0);
      assert false;
    } else if trace[j - 1].threads[0].ended {
      k := WhereIFLeaves(isa, a0, trace, j - 1);
    } else {
      k := j - 1;
    }
  }

  lemma FreshIF(a0: Arch)
    ensures !Started(a0).threads[0].ended
  {
    hide Init;
  }

  lemma IFHasEnded(isa: Isa, a0: Arch, trace: seq<System>, i: nat)
    requires HasHalted(isa, a0, trace, i)
    ensures 0 < |trace| && Last(trace).threads[0].ended
  {
    hide FirstHalt, Processor.Execution, Processor.Next, View, Final, AllAt, Shutdown.FourHalts, Continues, QueuesCover;
    CutIsRun(isa, a0, trace, i);
    LastOfCut(trace, i);
    EndOfControl(isa, a0, trace[i], trace[i..]);
  }

  lemma BeforeAlive(isa: Isa, a0: Arch, s: System)
    requires Before(isa, a0, s)
    ensures !s.threads[0].ended
  {
    hide Clocked, Reachable, FlagBefore;
    assert AliveBefore(s, 0);
  }

  lemma FirstHaltAlive(isa: Isa, a0: Arch, s: System)
    requires FirstHalt(isa, a0, s)
    ensures !s.threads[0].ended
  {
    hide Before, Counts;
    BeforeAlive(isa, a0, s);
  }
}
