/** What the threads have put into their queues: the end markers, and the stream of register
    differences, which replayed on the initial registers gives the register file. */
module Snapshots {
  import opened Basics
  import opened Instructions
  import opened Reference
  import opened Pipeline
  import opened PipelineTheorems
  import opened Reports
  import opened Processor
  import opened BeforeHalt
  import Shutdown

  // ---------------------------------------------------------------- end markers

  /** The end marker is the last message of a thread that has ended, and of no other. */
  predicate MarkedMessages(q: seq<Message>, ended: bool) {
    && (forall j :: 0 <= j < |q| ==> (q[j].End? <==> ended && j == |q| - 1))
    && (ended ==> q != [])
  }

  predicate MarkedDiffs(q: seq<RegsDiff>, ended: bool) {
    && (forall j :: 0 <= j < |q| ==> !q[j].abort && (q[j].terminated <==> ended && j == |q| - 1))
    && (ended ==> q != [])
  }

  predicate Marked(s: System) {
    && (forall i: Index :: MarkedMessages(s.messages[i], s.threads[i].ended))
    && MarkedDiffs(s.regsQueue, s.threads[4].ended)
  }

  lemma MarkOneMore(q: seq<Message>, text: string)
    requires MarkedMessages(q, false)
    ensures MarkedMessages(q + [Line(text)], false) && MarkedMessages(q + [Line(text), End], true)
  {
  }

  lemma MarkOneDiff(q: seq<RegsDiff>, d: RegsDiff)
    requires MarkedDiffs(q, false) && !d.abort
    ensures MarkedDiffs(q + [d], d.terminated)
  {
  }

  /** Only a report changes the queues of messages and of differences. */
  lemma MoveKeepsQueues(isa: Isa, s: System, i: Index, text: string)
    requires !s.threads[i].place.PostEdge?
    ensures var s' := Move(isa, s, i, text);
      && s'.messages == s.messages && s'.regsQueue == s.regsQueue
      && forall j: Index :: s'.threads[j].ended == s.threads[j].ended
  {
    hide Do, Skip, IsHalt, TaskAt;
  }

  /** What a report appends. */
  predicate Reported(s: System, s': System, i: Index, text: string) {
    var ended, t' := s'.threads[i].ended, s'.threads[i];
    && s'.threads == s.threads[i := t']
    && s'.messages == s.messages[i := s.messages[i] + (if ended then [Line(text), End] else [Line(text)])]
    && s'.regsQueue == s.regsQueue + (if i == 4 then [DiffOf(s.m.hist.mod).(terminated := ended)] else [])
  }

  lemma ReportIs(isa: Isa, s: System, i: Index, text: string)
    requires s.threads[i].place.PostEdge? && !s.threads[i].ended
    ensures Reported(s, Move(isa, s, i, text), i, text)
  {
    hide UpdatePC, DiffOf, DropTask;
  }

  lemma EndedReport(isa: Isa, s: System, i: Index, text: string)
    requires s.threads[i].place.PostEdge? && s.threads[i].ended
    ensures var s' := Move(isa, s, i, text);
      && s'.messages == s.messages && s'.regsQueue == s.regsQueue
      && forall j: Index :: s'.threads[j].ended == s.threads[j].ended
  {
  }

  lemma MarkedReport(s: System, s': System, i: Index, text: string)
    requires Marked(s) && !s.threads[i].ended && Reported(s, s', i, text)
    ensures Marked(s')
  {
    hide MarkedMessages, MarkedDiffs;
    MarkOneMore(s.messages[i], text);
    if i == 4 {
      DiffIsNormal(s.m.hist.mod);
      MarkOneDiff(s.regsQueue, DiffOf(s.m.hist.mod).(terminated := s'.threads[4].ended));
    } else {
      assert s'.regsQueue == s.regsQueue;
    }
  }

  lemma DiffIsNormal(write: Option<(Reg, Word)>)
    ensures !DiffOf(write).abort && !DiffOf(write).terminated
  {
  }

  lemma MarkedNext(isa: Isa, s: System, s': System)
    requires Marked(s) && Processor.Next(isa, s, s')
    ensures Marked(s')
  {
    hide MarkedMessages, MarkedDiffs, Move, Reported, AllAt;
    if i: Index, text: string :| CanMove(s, i) && s' == Move(isa, s, i, text) {
      if !s.threads[i].place.PostEdge? { MoveKeepsQueues(isa, s, i, text); }
      else if s.threads[i].ended { EndedReport(isa, s, i, text); }
      else {
        ReportIs(isa, s, i, text);
        MarkedReport(s, s', i, text);
      }
    } else if i: Index :| WorksAlong(s, i) && s' == Together(Move(isa, s, i, "")) {
      MoveKeepsQueues(isa, s, i, "");
    }
  }

  lemma {:induction false} MarkedHolds(isa: Isa, a0: Arch, trace: seq<System>, j: nat)
    requires Processor.Execution(isa, a0, trace) && j < |trace|
    ensures Marked(trace[j])
  {
    hide Boot, Processor.Next, Marked, Init;
    if j == 0 {
      FreshIsMarked(a0);
    } else {
      MarkedHolds(isa, a0, trace, j - 1);
      MarkedNext(isa, trace[j - 1], trace[j]);
    }
  }

  lemma FreshIsMarked(a0: Arch)
    ensures Marked(Started(a0))
  {
  }

  // ---------------------------------------------------------------- the stream of differences

  function Erased(q: seq<RegsDiff>): seq<RegsDiff> {
    seq(|q|, i requires 0 <= i < |q| => q[i].(terminated := false))
  }

  lemma ErasedOne(q: seq<RegsDiff>, d: RegsDiff)
    ensures Erased(q + [d]) == Erased(q) + [d.(terminated := false)]
  {
  }

  lemma {:induction false} ReplayErased(regs: RegFile, q: seq<RegsDiff>)
    ensures Replay(regs, Erased(q)) == Replay(regs, q)
  {
    if q == [] {
    } else {
      var q1, d := q[..|q| - 1], q[|q| - 1];
      assert q == q1 + [d];
      ReplayErased(regs, q1);
      ErasedOne(q1, d);
      ReplayOne(regs, Erased(q1), d.(terminated := false));
      ReplayOne(regs, q1, d);
    }
  }

  /** WB has written, and not yet reported it. */
  predicate Unreported(s: System) {
    !s.threads[4].ended && (Taken(s, 4) || s.threads[4].place.PostEdge?)
  }

  /** The differences so far, the one that WB is about to report included. */
  function Stream(s: System): seq<RegsDiff> {
    Erased(s.regsQueue) + if Unreported(s) then [DiffOf(s.m.hist.mod)] else []
  }

  ghost predicate Mirrored(regs: RegFile, s: System) { Replay(regs, Stream(s)) == s.m.sh.regs }

  lemma SameStream(s: System, s': System)
    requires s'.regsQueue == s.regsQueue && Unreported(s') == Unreported(s)
    requires s'.m.hist.mod == s.m.hist.mod
    ensures Stream(s') == Stream(s)
  {
  }

  lemma WBReportsStream(s: System, s': System, text: string)
    requires s.threads[4].place.PostEdge? && !s.threads[4].ended && Reported(s, s', 4, text)
    requires !Taken(s', 4) && !s'.threads[4].place.PostEdge?
    ensures Stream(s') == Stream(s)
  {
    hide DiffOf;
    DiffIsNormal(s.m.hist.mod);
    ErasedOne(s.regsQueue, DiffOf(s.m.hist.mod).(terminated := s'.threads[4].ended));
  }

  lemma WBWrites(isa: Isa, m: Machine)
    requires m.clock.half.First?
    ensures var m' := Fire(isa, m, WB); m'.sh.regs == Apply(m.sh.regs, DiffOf(m'.hist.mod))
  {
    hide WrittenValue, ResetTo;
  }

  lemma WBTakes(isa: Isa, regs: RegFile, s: System, s': System)
    requires Mirrored(regs, s) && !Unreported(s) && Unreported(s') && s.m.clock.half.First?
    requires s'.regsQueue == s.regsQueue && s'.m == Fire(isa, s.m, WB)
    ensures Mirrored(regs, s') && Stream(s') == Stream(s) + [DiffOf(s'.m.hist.mod)]
  {
    hide Fire, DiffOf, Apply;
    WBWrites(isa, s.m);
    assert Stream(s) == Erased(s.regsQueue);
    ReplayOne(regs, Stream(s), DiffOf(s'.m.hist.mod));
  }

  /** The step appends to the stream, and the registers follow. */
  ghost predicate Follows(regs: RegFile, s: System, s': System) {
    Mirrored(regs, s') && Stream(s) <= Stream(s')
  }

  lemma ReportFollows(isa: Isa, regs: RegFile, s: System, i: Index, text: string)
    requires Mirrored(regs, s) && Clocked(s) && s.threads[i].place.PostEdge?
    ensures Follows(regs, s, Move(isa, s, i, text))
  {
    hide Clocked, Stream, Reported, UpdatePC, Difference, IsHalt;
    var s' := Move(isa, s, i, text);
    assert ClockAt(s, i) by { ClockAtOf(s, i); }
    ReportSpec(s, i, text);
    ReportKeepsRegs(s, i, text);
    hide Move;
    if s.threads[i].ended {
      EndedReport(isa, s, i, text);
      SameStream(s, s') by { EndedIsSame(isa, s, i, text); }
    } else {
      ReportIs(isa, s, i, text);
      if i == 4 { WBReportsStream(s, s', text) by { NotTakenYet(isa, s, text); } }
      else { OtherReport(s, s', i, text) by { MoveSteps(isa, s, i, text); } }
    }
  }

  lemma ClockAtOf(s: System, i: Index)
    requires Clocked(s)
    ensures ClockAt(s, i)
  {
  }

  lemma ReportKeepsRegs(s: System, i: Index, text: string)
    ensures var m, m' := s.m, Report(s, i, text).m;
      m'.sh.regs == m.sh.regs && m'.hist == m.hist && m'.clock == m.clock
  {
    hide DiffOf;
  }

  lemma EndedIsSame(isa: Isa, s: System, i: Index, text: string)
    requires s.threads[i].place.PostEdge? && s.threads[i].ended && ClockAt(s, i)
    ensures var s' := Move(isa, s, i, text);
      s'.regsQueue == s.regsQueue && s'.m.hist.mod == s.m.hist.mod && Unreported(s') == Unreported(s)
  {
  }

  lemma NotTakenYet(isa: Isa, s: System, text: string)
    requires s.threads[4].place.PostEdge? && !s.threads[4].ended && ClockAt(s, 4)
    ensures var s' := Move(isa, s, 4, text); !Taken(s', 4) && !s'.threads[4].place.PostEdge?
  {
    hide DiffOf;
  }

  lemma OtherReport(s: System, s': System, i: Index, text: string)
    requires i != 4 && Reported(s, s', i, text) && Steps(s, s', i) && s'.m.hist == s.m.hist
    ensures Stream(s') == Stream(s)
  {
    hide DiffOf, Erased;
    assert s'.regsQueue == s.regsQueue;
  }

  lemma OtherFollows(isa: Isa, regs: RegFile, s: System, i: Index, text: string)
    requires Mirrored(regs, s) && Clocked(s) && CanMove(s, i) && !s.threads[i].place.PostEdge? && i != 4
    ensures Follows(regs, s, Move(isa, s, i, text))
  {
    hide Clocked, Stream, Do, StageOf, IsHalt;
    var s' := Move(isa, s, i, text);
    MoveKeepsQueues(isa, s, i, text);
    MoveSteps(isa, s, i, text);
    MoveApart(isa, s, i, text);
    hide Move;
    SameStream(s, s');
  }

  lemma MoveApart(isa: Isa, s: System, i: Index, text: string)
    requires !s.threads[i].place.PostEdge? && i != 4
    ensures var s' := Move(isa, s, i, text); s'.m.sh.regs == s.m.sh.regs && s'.m.hist.mod == s.m.hist.mod
  {
    hide Do, IsHalt;
    DoApart(isa, s.m, i);
  }

  lemma WBFollows(isa: Isa, regs: RegFile, s: System, text: string)
    requires Mirrored(regs, s) && Clocked(s) && CanMove(s, 4)
    requires !s.threads[4].place.PostEdge? && !s.threads[4].place.Top?
    ensures Follows(regs, s, Move(isa, s, 4, text))
  {
    hide Clocked, Stream, Do, IsHalt, Take, Report;
    ClockAtOf(s, 4);
    if s.threads[4].place.Work? { WBKeeps(isa, s.m); DoClock(isa, s.m, 4); }
    SameStream(s, Move(isa, s, 4, text));
  }

  lemma WBKeeps(isa: Isa, m: Machine)
    requires m.clock.half.Second?
    ensures Do(isa, m, 4).hist.mod == m.hist.mod && Do(isa, m, 4).sh.regs == m.sh.regs
  {
  }

  lemma TakeFollows(isa: Isa, regs: RegFile, s: System, text: string)
    requires Mirrored(regs, s) && Clocked(s) && s.threads[4].place.Top?
    ensures Follows(regs, s, Move(isa, s, 4, text))
  {
    hide Clocked, Stream, Fire, IsHalt, TaskAt;
    ClockAtOf(s, 4);
    var s' := Move(isa, s, 4, text);
    WBTakes(isa, regs, s, s');
  }

  lemma EdgeFollows(regs: RegFile, s: System)
    requires Mirrored(regs, s) && Clocked(s)
    ensures AllAt(s, Shutdown.AtRising) ==> Follows(regs, s, Rise(s))
    ensures AllAt(s, Shutdown.AtFalling) ==> Follows(regs, s, Fall(s))
  {
    hide Clocked, Stream, RaceOf;
    ClockAtOf(s, 4);
    if AllAt(s, Shutdown.AtRising) { SameStream(s, Rise(s)); }
    if AllAt(s, Shutdown.AtFalling) { SameStream(s, Fall(s)); }
  }

  lemma TogetherFollows(regs: RegFile, s: System, s': System)
    requires Follows(regs, s, s')
    ensures Follows(regs, s, Together(s'))
  {
    TogetherIs(s');
    hide Together, DiffOf, Replay, Erased;
    assert Stream(Together(s')) == Stream(s');
  }

  lemma NextFollows(isa: Isa, regs: RegFile, s: System, s': System)
    requires Mirrored(regs, s) && Clocked(s) && Processor.Next(isa, s, s')
    ensures Follows(regs, s, s') && Clocked(s')
  {
    hide Clocked, Follows, Mirrored, Move, Rise, Fall, AllAt, Together;
    if i: Index, text: string :| CanMove(s, i) && s' == Move(isa, s, i, text) {
      ClockedMove(isa, s, i, text);
      if s.threads[i].place.PostEdge? { ReportFollows(isa, regs, s, i, text); }
      else if i == 4 && s.threads[4].place.Top? { TakeFollows(isa, regs, s, text); }
      else if i == 4 { WBFollows(isa, regs, s, text); }
      else { OtherFollows(isa, regs, s, i, text); }
    } else if i: Index :| WorksAlong(s, i) && s' == Together(Move(isa, s, i, "")) {
      AlongMoves(s, i);
      ClockedMove(isa, s, i, "");
      ClockedTogether(Move(isa, s, i, ""));
      OtherFollows(isa, regs, s, i, "");
      TogetherFollows(regs, s, Move(isa, s, i, ""));
    } else {
      ClockedEdge(s);
      EdgeFollows(regs, s);
    }
  }

  /** In every execution, at every step: the differences reported so far, with the one that WB is
      about to report, replayed on the initial registers give the register file. */
  lemma {:induction false} StreamIsExact(isa: Isa, a0: Arch, trace: seq<System>, j: nat)
    requires Processor.Execution(isa, a0, trace) && j < |trace|
    ensures Mirrored(a0.regs, trace[j]) && Clocked(trace[j])
  {
    hide Boot, Processor.Next, Init, Mirrored, Clocked, Started;
    if j == 0 {
      FreshIsMirrored(a0);
    } else {
      StreamIsExact(isa, a0, trace, j - 1);
      NextFollows(isa, a0.regs, trace[j - 1], trace[j]);
    }
  }

  lemma FreshIsMirrored(a0: Arch)
    ensures Mirrored(a0.regs, Started(a0)) && Clocked(Started(a0))
  {
    hide FreeBoard;
    assert Stream(Started(a0)) == [];
  }

  /** Nothing is taken back. */
  lemma {:induction false} StreamGrows(isa: Isa, a0: Arch, trace: seq<System>, i: nat, j: nat)
    requires Processor.Execution(isa, a0, trace) && i <= j < |trace|
    ensures Stream(trace[i]) <= Stream(trace[j])
  {
    hide Boot, Processor.Next, Init, Mirrored, Clocked, Started, Stream;
    if i < j {
      StreamGrows(isa, a0, trace, i, j - 1);
      StreamIsExact(isa, a0, trace, j - 1);
      NextFollows(isa, a0.regs, trace[j - 1], trace[j]);
    }
  }
}
