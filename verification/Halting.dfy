/** How a run of the whole processor ends. From the edge at which IF has its first HALT in hand: every
    schedule lets all five threads leave if and only if three more HALT words follow; registers and
    memory are then those of the sequential machine at the first HALT, and the queues are full. */
module Halting {
  import opened Basics
  import opened Instructions
  import opened Reference
  import opened Pipeline
  import opened SequentialRun
  import opened PipelineTheorems
  import opened StageOrder
  import opened Reports
  import opened Ideal
  import opened IdealPipeline
  import opened Processor
  import opened BeforeHalt
  import opened AfterHalt
  import opened Drain
  import opened Snapshots
  import Shutdown
  import ShutdownRace
  import Decoder
  import Interpreter

  // ---------------------------------------------------------------- runs and their views

  /** A run of the processor from the state s0. */
  ghost predicate Continues(isa: Isa, s0: System, run: seq<System>) {
    && 0 < |run| && run[0] == s0
    && (forall j :: 0 <= j < |run| - 1 ==> Processor.Next(isa, run[j], run[j + 1]))
  }

  function Last(run: seq<System>): System
    requires 0 < |run|
  {
    run[|run| - 1]
  }

  function Halts(isa: Isa, s0: System): nat -> bool { HaltWords(isa, s0.m.sh.pc) }

  function Views(run: seq<System>, c: nat): (r: seq<Shutdown.State>)
    ensures |r| == |run| && forall j :: 0 <= j < |run| ==> r[j] == View(run[j], c)
  {
    seq(|run|, j requires 0 <= j < |run| => View(run[j], c))
  }

  lemma {:induction false} AfterAlong(isa: Isa, a0: Arch, s0: System, run: seq<System>, j: nat)
    requires FirstHalt(isa, a0, s0) && Continues(isa, s0, run) && j < |run|
    ensures After(isa, a0, OriginOf(s0), run[j])
  {
    hide FirstHalt, After, Processor.Next;
    if j == 0 {
      FirstHaltIsAfter(isa, a0, s0);
    } else {
      AfterAlong(isa, a0, s0, run, j - 1);
      MatchNext(isa, a0, OriginOf(s0), run[j - 1], run[j]);
    }
  }

  /** Seen from outside, the processor shuts down as `Shutdown` says. */
  lemma ViewsAreShutdown(isa: Isa, a0: Arch, s0: System, run: seq<System>)
    requires FirstHalt(isa, a0, s0) && Continues(isa, s0, run)
    ensures Shutdown.Execution(Halts(isa, s0), Views(run, OriginOf(s0).c))
  {
    hide FirstHalt, After, Processor.Next, Shutdown.Next, Shutdown.Start, View, HaltWords;
    var o := OriginOf(s0);
    var views := Views(run, o.c);
    FirstHaltIsStart(isa, a0, s0);
    forall j | 0 <= j < |views| - 1 ensures Shutdown.Next(Halts(isa, s0), views[j], views[j + 1]) {
      AfterAlong(isa, a0, s0, run, j);
      MatchNext(isa, a0, o, run[j], run[j + 1]);
    }
  }

  lemma FinalSame(isa: Isa, a0: Arch, o: Origin, s: System)
    requires After(isa, a0, o, s)
    ensures Final(isa, s) <==> Shutdown.Final(HaltWords(isa, o.pc), View(s, o.c))
  {
    hide After, Processor.Next, Shutdown.Next, View, HaltWords;
    if s' :| Processor.Next(isa, s, s') {
      MatchNext(isa, a0, o, s, s');
    }
    if v' :| Shutdown.Next(HaltWords(isa, o.pc), View(s, o.c), v') {
      var s' := LiftNext(isa, a0, o, s, v');
    }
  }

  lemma ExitedSame(s: System, c: nat)
    ensures Shutdown.AllExited(View(s, c)) <==> AllAt(s, Shutdown.Exited)
  {
    SamePlaces(s, c);
    hide View;
  }

  // ---------------------------------------------------------------- clean if and only if four HALTs

  /** Every run from s0 is short and, where it stops, everybody has left. */
  ghost predicate StopsCleanly(isa: Isa, s0: System) {
    forall run :: Continues(isa, s0, run) ==>
      |run| <= 196 && (Final(isa, Last(run)) ==> AllAt(Last(run), Shutdown.Exited))
  }

  lemma StopsIfFourHalts(isa: Isa, a0: Arch, s0: System, run: seq<System>)
    requires FirstHalt(isa, a0, s0) && Continues(isa, s0, run) && Shutdown.FourHalts(Halts(isa, s0))
    ensures |run| <= 196 && (Final(isa, Last(run)) ==> AllAt(Last(run), Shutdown.Exited))
  {
    hide FirstHalt, After, Processor.Next, Shutdown.Next, Shutdown.Start, View, Shutdown.FourHalts, AllAt,
         Shutdown.Final, Final, Shutdown.AllExited, HaltWords;
    var o := OriginOf(s0);
    ViewsAreShutdown(isa, a0, s0, run);
    Shutdown.ShutdownIsClean(Halts(isa, s0), Views(run, o.c));
    AfterAlong(isa, a0, s0, run, |run| - 1);
    FinalSame(isa, a0, o, Last(run));
    ExitedSame(Last(run), o.c);
  }

  /** Every schedule of `Shutdown` is one of the processor. */
  lemma {:induction false} LiftRun(isa: Isa, a0: Arch, s0: System, views: seq<Shutdown.State>)
    returns (run: seq<System>)
    requires FirstHalt(isa, a0, s0)
    requires Shutdown.Execution(Halts(isa, s0), views) && views[0] == View(s0, OriginOf(s0).c)
    ensures Continues(isa, s0, run) && Views(run, OriginOf(s0).c) == views
    decreases |views|
  {
    hide FirstHalt, After, Processor.Next, Shutdown.Next, Shutdown.Start, View, HaltWords;
    var o := OriginOf(s0);
    if |views| == 1 {
      run := [s0];
    } else {
      var before := views[..|views| - 1];
      assert before[0] == views[0];
      forall j | 0 <= j < |before| - 1 ensures Shutdown.Next(Halts(isa, s0), before[j], before[j + 1]) {
        assert before[j] == views[j] && before[j + 1] == views[j + 1];
      }
      run := LiftRun(isa, a0, s0, before);
      AfterAlong(isa, a0, s0, run, |run| - 1);
      assert View(Last(run), o.c) == before[|before| - 1] == views[|views| - 2];
      var s' := LiftNext(isa, a0, o, Last(run), views[|views| - 1]);
      run := run + [s'];
      assert Views(run, o.c) == views;
    }
  }

  lemma StuckWithoutFourHalts(isa: Isa, a0: Arch, s0: System)
    requires FirstHalt(isa, a0, s0) && !Shutdown.FourHalts(Halts(isa, s0))
    ensures !StopsCleanly(isa, s0)
  {
    hide FirstHalt, After, Processor.Next, Shutdown.Next, Shutdown.Start, View, Shutdown.FourHalts, AllAt,
         Shutdown.Final, Final, Shutdown.AllExited, HaltWords;
    var o, halts := OriginOf(s0), Halts(isa, s0);
    var v0 := View(s0, o.c);
    FirstHaltIsStart(isa, a0, s0);
    ShutdownRace.CleanIffFourHalts(halts, v0);
    var views: seq<Shutdown.State> :| Shutdown.Execution(halts, views) && views[0] == v0 &&
      !(|views| <= 196 && (Shutdown.Final(halts, views[|views| - 1]) ==> Shutdown.AllExited(views[|views| - 1])));
    var run := LiftRun(isa, a0, s0, views);
    AfterAlong(isa, a0, s0, run, |run| - 1);
    assert View(Last(run), o.c) == views[|views| - 1];
    FinalSame(isa, a0, o, Last(run));
    ExitedSame(Last(run), o.c);
  }

  /** Main theorem: from the first HALT, every schedule of the processor shuts down cleanly if and
      only if the three words after it are HALT too. */
  lemma CleanIffFourHalts(isa: Isa, a0: Arch, s0: System)
    requires FirstHalt(isa, a0, s0)
    ensures StopsCleanly(isa, s0) <==> Shutdown.FourHalts(Halts(isa, s0))
  {
    hide FirstHalt, Continues, Final, AllAt, Shutdown.FourHalts;
    if Shutdown.FourHalts(Halts(isa, s0)) {
      forall run | Continues(isa, s0, run)
        ensures 0 < |run| && |run| <= 196 && (Final(isa, Last(run)) ==> AllAt(Last(run), Shutdown.Exited))
      {
        assert 0 < |run| by { NotEmpty(isa, s0, run); }
        StopsIfFourHalts(isa, a0, s0, run);
      }
    } else {
      StuckWithoutFourHalts(isa, a0, s0);
    }
  }

  lemma NotEmpty(isa: Isa, s0: System, run: seq<System>)
    requires Continues(isa, s0, run)
    ensures 0 < |run|
  {
  }

  // ---------------------------------------------------------------- runs from boot

  /** A run from boot that has come to its end. At its i-th state IF has its first HALT in hand, and
      three more HALT words follow. */
  ghost predicate HasHalted(isa: Isa, a0: Arch, trace: seq<System>, i: nat) {
    && Processor.Execution(isa, a0, trace) && i < |trace|
    && FirstHalt(isa, a0, trace[i]) && (forall l :: 0 <= l < i ==> !FirstHalt(isa, a0, trace[l]))
    && Shutdown.FourHalts(Halts(isa, trace[i])) && Final(isa, Last(trace))
  }

  lemma CutRun(isa: Isa, a0: Arch, trace: seq<System>, i: nat)
    requires Processor.Execution(isa, a0, trace) && i < |trace|
    ensures Continues(isa, trace[i], trace[i..])
  {
    hide Processor.Next, Boot, Started;
    var run := trace[i..];
    forall j | 0 <= j < |run| - 1 ensures Processor.Next(isa, run[j], run[j + 1]) {
      assert run[j] == trace[i + j] && run[j + 1] == trace[i + j + 1];
    }
  }

  /** Control and data after the first HALT. */
  lemma {:induction false} TailHolds(isa: Isa, a0: Arch, s0: System, run: seq<System>, j: nat)
    requires FirstHalt(isa, a0, s0) && Continues(isa, s0, run) && j < |run| && Shutdown.FourHalts(Halts(isa, s0))
    ensures var o := OriginOf(s0);
      After(isa, a0, o, run[j]) && Shutdown.Inv(View(run[j], o.c)) && Draining(isa, a0, o, run[j])
  {
    hide FirstHalt, After, Draining, Processor.Next, Shutdown.Execution, Shutdown.FourHalts, Shutdown.Inv, View,
         HaltWords;
    var o := OriginOf(s0);
    AfterAlong(isa, a0, s0, run, j);
    ViewsAreShutdown(isa, a0, s0, run);
    Shutdown.InvariantHolds(Halts(isa, s0), Views(run, o.c), j);
    if j == 0 {
      NothingDrains(isa, a0, s0);
    } else {
      TailHolds(isa, a0, s0, run, j - 1);
      NextDraining(isa, a0, o, run[j - 1], run[j]);
    }
  }

  lemma NothingDrains(isa: Isa, a0: Arch, s: System)
    ensures Draining(isa, a0, OriginOf(s), s)
  {
  }

  /** What the control looks like at the end. */
  lemma EndOfControl(isa: Isa, a0: Arch, s0: System, run: seq<System>)
    requires FirstHalt(isa, a0, s0) && Continues(isa, s0, run) && Shutdown.FourHalts(Halts(isa, s0))
    requires Final(isa, Last(run))
    ensures var s, c := Last(run), OriginOf(s0).c;
      && AllAt(s, Shutdown.Exited) && s.m.hist.cycles == c + 4 && s.m.clock == FIRST_HALF
      && QueuesCover(s, c)
      && (forall i: Index :: s.threads[i].ended &&
                             View(s, c).threads[i].messages == if i == 0 then 4 else i + 1)
      && View(s, c).pcs == 4 && View(s, c).diffs == 5
  {
    hide FirstHalt, After, Draining, Processor.Next, Shutdown.Next, Shutdown.FourHalts, Shutdown.Start, View, HaltWords,
         Final, Shutdown.Final, Shutdown.AllExited, AllAt, Shutdown.Inv;
    var o, s := OriginOf(s0), Last(run);
    StopsIfFourHalts(isa, a0, s0, run);
    TailHolds(isa, a0, s0, run, |run| - 1);
    ViewsAreShutdown(isa, a0, s0, run);
    Shutdown.ShutdownIsClean(Halts(isa, s0), Views(run, o.c));
    FinalSame(isa, a0, o, s);
    AfterCovers(isa, a0, o, s);
    forall i: Index ensures s.threads[i].ended && View(s, o.c).threads[i].messages == if i == 0 then 4 else i + 1 {
      ViewThread(s, o.c, i);
    }
    AfterClocked(isa, a0, o, s);
    ExitedClock(s);
    LastEdge(s, o);
  }

  lemma ExitedClock(s: System)
    requires Clocked(s) && AllAt(s, Shutdown.Exited)
    ensures s.m.clock == FIRST_HALF
  {
    assert ClockAt(s, 0) && ClockAt(s, 1) && ClockAt(s, 2) && ClockAt(s, 3) && ClockAt(s, 4);
  }

  lemma LastEdge(s: System, o: Origin)
    requires Shutdown.Inv(View(s, o.c)) && AllAt(s, Shutdown.Exited) && o.c <= s.m.hist.cycles
    ensures s.m.hist.cycles == o.c + 4
  {
    ViewThread(s, o.c, 0);
    ViewParts(s, o.c);
    assert Shutdown.ThreadAt(View(s, o.c), 0);
    hide View;
  }

  lemma LastOfCut(trace: seq<System>, i: nat)
    requires i < |trace|
    ensures Last(trace[i..]) == Last(trace)
  {
  }

  /** Main theorem: when the processor has halted, all five threads have left, and registers and memory
      are those of the sequential machine at its first HALT. */
  lemma HaltedState(isa: Isa, a0: Arch, trace: seq<System>, i: nat)
    requires HasHalted(isa, a0, trace, i)
    ensures var s, n := Last(trace), trace[i].m.hist.issued; var a := Run(isa, RaceIn(s.m.hist.races), a0, n);
      && AllAt(s, Shutdown.Exited) && s.dead == Shutdown.THREAD_COUNT
      && s.m.sh.regs == a.regs && s.m.sh.mem == a.mem
      && isa.fetch(a.pc).kind.Halt?
      && (forall k: nat :: k < n ==> !isa.fetch(Run(isa, RaceIn(s.m.hist.races), a0, k).pc).kind.Halt?)
  {
    hide FirstHalt, After, Processor.Execution, Processor.Next, View, Final, AllAt, Shutdown.FourHalts, Shutdown.Inv,
         Draining, Run, RaceIn, HaltsUpTo, Continues;
    var s0, run, s := trace[i], trace[i..], Last(trace);
    CutIsRun(isa, a0, trace, i);
    LastOfCut(trace, i);
    EndOfControl(isa, a0, s0, run);
    TailHolds(isa, a0, s0, run, |run| - 1);
    Drained(isa, a0, OriginOf(s0), s);
    DeadAreFive(s, OriginOf(s0));
    var w := WorldAt(isa, a0, s.m);
    forall k: nat | k < trace[i].m.hist.issued
      ensures !isa.fetch(Run(isa, RaceIn(s.m.hist.races), a0, k).pc).kind.Halt?
    {
      NoHaltAmong(w, trace[i].m.hist.issued, k);
    }
  }

  lemma CutIsRun(isa: Isa, a0: Arch, trace: seq<System>, i: nat)
    requires HasHalted(isa, a0, trace, i)
    ensures i < |trace| && Continues(isa, trace[i], trace[i..]) && Processor.Execution(isa, a0, trace)
    ensures 0 < |trace[i..]|
  {
    hide FirstHalt, Processor.Execution, Continues, Final, Shutdown.FourHalts;
    CutRun(isa, a0, trace, i);
  }

  lemma DeadAreFive(s: System, o: Origin)
    requires Shutdown.Inv(View(s, o.c)) && s.m.hist.cycles == o.c + 4
    ensures s.dead == Shutdown.THREAD_COUNT
  {
    ViewParts(s, o.c);
    Shutdown.WhenFive(View(s, o.c));
    hide View, Shutdown.Inv;
  }

  // ---------------------------------------------------------------- the queues

  /** Main theorem for the queues: a processor that has halted leaves one difference and one PC for each
      of c + 4 cycles, c being the cycles up to the first HALT, and every stage its messages, the end
      marker last. */
  lemma HaltedQueues(isa: Isa, a0: Arch, trace: seq<System>, i: nat)
    requires HasHalted(isa, a0, trace, i)
    ensures var s := Last(trace); Supplied(trace[i].m.hist.cycles + 4, s.regsQueue, s.pcQueue, s.messages)
  {
    hide FirstHalt, After, Processor.Execution, Processor.Next, View, Final, AllAt, Shutdown.FourHalts, Shutdown.Inv,
         Draining, Continues, HaltWords, MarkedMessages, MarkedDiffs;
    var s0, run, s := trace[i], trace[i..], Last(trace);
    CutIsRun(isa, a0, trace, i);
    LastOfCut(trace, i);
    EndOfControl(isa, a0, s0, run);
    MarkedHolds(isa, a0, trace, |trace| - 1);
    ViewParts(s, s0.m.hist.cycles);
    forall k: Index ensures |s.messages[k]| == Entries(k, s0.m.hist.cycles + 4) { ViewThread(s, s0.m.hist.cycles, k); }
    MarkedIsSupplied(s, s0.m.hist.cycles + 4);
  }

  lemma MarkedIsSupplied(s: System, n: nat)
    requires Marked(s) && (forall i: Index :: s.threads[i].ended) && 3 <= n
    requires |s.regsQueue| == n && |s.pcQueue| == n
    requires forall k: Index :: |s.messages[k]| == Entries(k, n)
    ensures Supplied(n, s.regsQueue, s.pcQueue, s.messages)
  {
    forall k, j | 0 <= k < 5 && 0 <= j < |s.messages[k]|
      ensures s.messages[k][j].End? <==> j == |s.messages[k]| - 1
    {
      var i: Index := k;
      assert MarkedMessages(s.messages[i], s.threads[i].ended);
    }
    forall k | 0 <= k < 5 ensures |s.messages[k]| == Entries(k, n) {
      var i: Index := k;
      assert |s.messages[i]| == Entries(i, n);
    }
  }

  // ---------------------------------------------------------------- the snapshots

  /** At an edge, the stream has one difference for every cycle. */
  lemma EdgeBefore(isa: Isa, a0: Arch, s: System)
    requires Before(isa, a0, s) && AllAt(s, Shutdown.PostEdge)
    ensures |Stream(s)| == s.m.hist.cycles && 1 <= s.m.hist.cycles
  {
    hide Reachable, Clocked, DiffOf;
    assert AliveBefore(s, 4) && s.threads[4].place.PostEdge?;
  }

  lemma EdgeAfterHalt(isa: Isa, a0: Arch, o: Origin, s: System)
    requires After(isa, a0, o, s) && Shutdown.Inv(View(s, o.c)) && AllAt(s, Shutdown.PostEdge)
    ensures |Stream(s)| == s.m.hist.cycles <= o.c + 4
  {
    hide After, DiffOf;
    AfterCovers(isa, a0, o, s);
    ViewThread(s, o.c, 4);
    ViewParts(s, o.c);
    assert s.threads[4].place.PostEdge?;
    assert Shutdown.ThreadAt(View(s, o.c), 4);
    hide View;
  }

  /** The stream at the end is what lies in the queue. */
  lemma StreamAtEnd(s: System)
    requires s.threads[4].ended
    ensures Stream(s) == Erased(s.regsQueue)
  {
  }

  lemma ErasedPrefix(q: seq<RegsDiff>, n: nat)
    requires n <= |q|
    ensures Erased(q)[..n] == Erased(q[..n])
  {
  }

  lemma EdgeCycles(isa: Isa, a0: Arch, trace: seq<System>, i: nat, k: nat)
    requires HasHalted(isa, a0, trace, i) && k < |trace| && AllAt(trace[k], Shutdown.PostEdge)
    ensures |Stream(trace[k])| == trace[k].m.hist.cycles <= trace[i].m.hist.cycles + 4
  {
    hide After, Before, Uncounted, Processor.Next, Processor.Execution, View, Final, AllAt, Shutdown.FourHalts,
         Shutdown.Inv, Draining, Continues, Stream, Counts;
    CutIsRun(isa, a0, trace, i);
    if k >= i {
      TailHolds(isa, a0, trace[i], trace[i..], k - i);
      EdgeAfterHalt(isa, a0, OriginOf(trace[i]), trace[k]);
    } else {
      BeforeHolds(isa, a0, trace, k);
      EdgeBefore(isa, a0, trace[k]);
      EdgeBefore(isa, a0, trace[i]);
      StreamGrows(isa, a0, trace, k, i);
    }
  }

  /** Main theorem for the snapshots: the first j differences in the queue, replayed on the initial
      registers, give the register file at the edge of cycle j, for every cycle of the run. */
  lemma SnapshotsAreExact(isa: Isa, a0: Arch, trace: seq<System>, i: nat, k: nat)
    requires HasHalted(isa, a0, trace, i) && k < |trace| && AllAt(trace[k], Shutdown.PostEdge)
    ensures var s, j := Last(trace), trace[k].m.hist.cycles;
      && j <= |s.regsQueue| == trace[i].m.hist.cycles + 4
      && Replay(a0.regs, s.regsQueue[..j]) == trace[k].m.sh.regs
  {
    hide HasHalted, Processor.Next, Processor.Execution, AllAt, Stream, Continues, Supplied;
    CutIsRun(isa, a0, trace, i);
    HaltedQueues(isa, a0, trace, i);
    EdgeCycles(isa, a0, trace, i, k);
    StreamGrows(isa, a0, trace, k, |trace| - 1);
    StreamIsExact(isa, a0, trace, k);
    var s, j := Last(trace), trace[k].m.hist.cycles;
    SuppliedLength(trace[i].m.hist.cycles + 4, s);
    WBHasEnded(isa, a0, trace, i);
    StreamAtEnd(s);
    ErasedPrefix(s.regsQueue, j);
    assert Stream(trace[k]) == Erased(s.regsQueue)[..j];
    ReplayErased(a0.regs, s.regsQueue[..j]);
  }

  lemma SuppliedLength(n: nat, s: System)
    requires Supplied(n, s.regsQueue, s.pcQueue, s.messages)
    ensures |s.regsQueue| == n
  {
  }

  lemma WBHasEnded(isa: Isa, a0: Arch, trace: seq<System>, i: nat)
    requires HasHalted(isa, a0, trace, i)
    ensures 0 < |trace| && Last(trace).threads[4].ended
  {
    hide FirstHalt, Processor.Execution, Processor.Next, View, Final, AllAt, Shutdown.FourHalts, Continues, QueuesCover;
    CutIsRun(isa, a0, trace, i);
    LastOfCut(trace, i);
    EndOfControl(isa, a0, trace[i], trace[i..]);
  }

  /** All of them give the register file at the end. */
  lemma HaltedReplay(isa: Isa, a0: Arch, trace: seq<System>, i: nat)
    requires HasHalted(isa, a0, trace, i)
    ensures 0 < |trace| && Replay(a0.regs, Last(trace).regsQueue) == Last(trace).m.sh.regs
  {
    hide HasHalted, Processor.Execution, Stream, Continues;
    CutIsRun(isa, a0, trace, i);
    WBHasEnded(isa, a0, trace, i);
    StreamIsExact(isa, a0, trace, |trace| - 1);
    StreamAtEnd(Last(trace));
    ReplayErased(a0.regs, Last(trace).regsQueue);
  }

  lemma MoveKeepsCycles(isa: Isa, s: System, i: Index, text: string)
    ensures Move(isa, s, i, text).m.hist.cycles == s.m.hist.cycles
  {
    hide Do, UpdatePC, DiffOf, IsHalt;
    DoApart(isa, s.m, i);
  }

  /** Every cycle has its edge in the run. */
  lemma {:induction false} EdgeOfCycle(isa: Isa, a0: Arch, trace: seq<System>, k: nat, c: nat) returns (e: nat)
    requires Processor.Execution(isa, a0, trace) && k < |trace| && 1 <= c <= trace[k].m.hist.cycles
    ensures e <= k && AllAt(trace[e], Shutdown.PostEdge) && trace[e].m.hist.cycles == c
  {
    hide Boot, Move, AllAt, CanMove, Init, Clocked, Snapshots.Mirrored, Rise, Fall, WorksAlong, Together;
    if k == 0 {
      FreshCycles(a0);
      assert false;
    } else if c <= trace[k - 1].m.hist.cycles {
      e := EdgeOfCycle(isa, a0, trace, k - 1, c);
    } else {
      e := k;
      var s, s' := trace[k - 1], trace[k];
      assert Processor.Next(isa, s, s');
      if i: Index, text: string :| CanMove(s, i) && s' == Move(isa, s, i, text) {
        MoveKeepsCycles(isa, s, i, text);
      } else if i: Index :| WorksAlong(s, i) && s' == Together(Move(isa, s, i, "")) {
        MoveKeepsCycles(isa, s, i, "");
        TogetherIs(Move(isa, s, i, ""));
      } else {
        StreamIsExact(isa, a0, trace, k - 1);
        ClockedEdge(s);
        FallIsEdge(s);
      }
    }
  }

  lemma FreshCycles(a0: Arch)
    ensures Started(a0).m.hist.cycles == 0
  {
    hide FreeBoard;
  }

  lemma FallIsEdge(s: System)
    ensures AllAt(Fall(s), Shutdown.PostEdge)
    ensures Rise(s).m.hist.cycles <= s.m.hist.cycles + 1 && Fall(s).m.hist.cycles <= s.m.hist.cycles + 1
    ensures AllAt(s, Shutdown.AtRising) && s.m.clock.half.First? ==> Rise(s).m.hist.cycles == s.m.hist.cycles
  {
    hide RaceOf;
  }

  // ---------------------------------------------------------------- ending

  /** Before its first HALT the processor never stops. */
  lemma NeverFinalBefore(isa: Isa, a0: Arch, s: System)
    requires Before(isa, a0, s)
    ensures !Final(isa, s)
  {
    hide Reachable, Move, Rise, Fall, FlagBefore;
    if i: Index :| CanMove(s, i) {
      assert Processor.Next(isa, s, Move(isa, s, i, ""));
    } else {
      forall i: Index
        ensures s.threads[i].place == if s.m.clock.half.First? then Shutdown.AtRising else Shutdown.AtFalling
      {
        assert ClockAt(s, i) && AliveBefore(s, i) && !CanMove(s, i);
      }
      if s.m.clock.half.First? { assert Processor.Next(isa, s, Rise(s)); }
      else { assert Processor.Next(isa, s, Fall(s)); }
    }
  }

  /** So a run that has come to its end has had a HALT in hand. */
  lemma EndsAfterHalt(isa: Isa, a0: Arch, trace: seq<System>) returns (i: nat)
    requires Processor.Execution(isa, a0, trace) && Final(isa, Last(trace))
    ensures i < |trace| && FirstHalt(isa, a0, trace[i]) && forall l :: 0 <= l < i ==> !FirstHalt(isa, a0, trace[l])
  {
    hide FirstHalt, Before, Uncounted, Processor.Next, Boot, Final, Started;
    if forall l :: 0 <= l < |trace| ==> !FirstHalt(isa, a0, trace[l]) {
      BeforeHolds(isa, a0, trace, |trace| - 1);
      NeverFinalBefore(isa, a0, Last(trace));
      assert false;
    }
    var k :| 0 <= k < |trace| && FirstHalt(isa, a0, trace[k]);
    i := LeastHalt(isa, a0, trace, k);
  }

  lemma {:induction false} LeastHalt(isa: Isa, a0: Arch, trace: seq<System>, k: nat) returns (i: nat)
    requires k < |trace| && FirstHalt(isa, a0, trace[k])
    ensures i <= k && FirstHalt(isa, a0, trace[i]) && forall l :: 0 <= l < i ==> !FirstHalt(isa, a0, trace[l])
  {
    hide FirstHalt;
    if l :| 0 <= l < k && FirstHalt(isa, a0, trace[l]) {
      i := LeastHalt(isa, a0, trace, l);
    } else {
      i := k;
    }
  }

  // ---------------------------------------------------------------- loaded programs

  /** What the outcomes of the races may be: nothing is lost, or nothing that matters. */
  ghost predicate RacesHarmless(isa: Isa, a0: Arch, races: seq<Race>, n: nat) {
    NoneDivergesBefore(isa, a0, n) || forall k :: 0 <= k < |races| && k < n ==> races[k].Won?
  }

  lemma HarmlessIsPlain(isa: Isa, a0: Arch, races: seq<Race>, n: nat)
    requires Boot(a0) && RacesHarmless(isa, a0, races, n)
    ensures var a, b := Run(isa, RaceIn(races), a0, n), Plain(isa, a0, n);
      a.pc == b.pc && a.regs == b.regs && a.mem == b.mem
  {
    hide NoneDivergesBefore, Run, Boot, JumpOf, NEVER, RaceIn;
    if NoneDivergesBefore(isa, a0, n) {
      SameButView(isa, RaceIn(races), a0, n, n);
    } else {
      forall l: nat | l < n ensures RaceIn(races)(l) == NEVER(l) { WonIs(races, l); }
      SameRaces(isa, NEVER, RaceIn(races), a0, n);
    }
  }

  lemma WonIs(races: seq<Race>, l: nat)
    requires l < |races| ==> races[l].Won?
    ensures RaceIn(races)(l) == NEVER(l)
  {
  }

  /** The instructions of a run whose lost races do no harm are those of the interpreter. */
  lemma HarmlessIsInterpreter(im: Decoder.Image, u: Decoder.Undefined, a0: Arch, races: seq<Race>, n: nat, k: nat)
    requires im.Valid() && Boot(a0) && k <= n
    requires NoneSpoiled(Decoder.Mips(im, u), a0, n) && RacesHarmless(Decoder.Mips(im, u), a0, races, n)
    ensures var a := Run(Decoder.Mips(im, u), RaceIn(races), a0, k);
      var c := Interpreter.ExecuteAll(im, u, Interpreter.CpuOf(a0), k);
      a.pc == c.pc && a.regs == c.regs && a.mem == c.mem
  {
    hide Spoiled, NoneDivergesBefore, Run, IdealRun, Interpreter.ExecuteAll, Boot, RaceIn, NEVER, Decoder.Mips, Plain;
    var isa := Decoder.Mips(im, u);
    assert RacesHarmless(isa, a0, races, k) by { StillHarmless(isa, a0, races, n, k); }
    HarmlessIsPlain(isa, a0, races, k);
    assert Plain(isa, a0, k) == Run(WithJunk(isa, isa.junk), NEVER, a0, k) by { SameJunk(isa); PlainIs(isa, a0, k); }
    PlainIsIdeal(isa, a0, isa.junk, n, k);
    Interpreter.IdealRunIsInterpreter(im, u, a0, k);
  }

  lemma StillHarmless(isa: Isa, a0: Arch, races: seq<Race>, n: nat, k: nat)
    requires RacesHarmless(isa, a0, races, n) && k <= n
    ensures RacesHarmless(isa, a0, races, k)
  {
    hide Diverges;
  }

  /** End to end: a loaded program runs on the whole processor, under any schedule, until all threads
      have left. The interpreter has then come to the first HALT word of its run, and registers and memory
      are its registers and memory, if no instruction before it is spoiled and no race lost before it
      matters. */
  lemma HaltedProgram(im: Decoder.Image, u: Decoder.Undefined, a0: Arch, trace: seq<System>, i: nat)
    requires im.Valid() && HasHalted(Decoder.Mips(im, u), a0, trace, i)
    requires NoneSpoiled(Decoder.Mips(im, u), a0, trace[i].m.hist.issued)
    requires RacesHarmless(Decoder.Mips(im, u), a0, Last(trace).m.hist.races, trace[i].m.hist.issued)
    ensures var s, n := Last(trace), trace[i].m.hist.issued;
      var c := Interpreter.ExecuteAll(im, u, Interpreter.CpuOf(a0), n);
      && AllAt(s, Shutdown.Exited)
      && s.m.sh.regs == c.regs && s.m.sh.mem == c.mem
      && Interpreter.HaltsThere(im, c.pc)
      && (forall k: nat :: k < n ==>
            !Interpreter.HaltsThere(im, Interpreter.ExecuteAll(im, u, Interpreter.CpuOf(a0), k).pc))
  {
    hide FirstHalt, Processor.Execution, Final, Shutdown.FourHalts, AllAt, NoneSpoiled, NoneDivergesBefore,
         RacesHarmless, Run, IdealRun, Interpreter.ExecuteAll, Interpreter.HaltsThere, Boot, RaceIn, NEVER,
         Decoder.Mips;
    var isa, s, n := Decoder.Mips(im, u), Last(trace), trace[i].m.hist.issued;
    BootOf(isa, a0, trace, i);
    HaltedState(isa, a0, trace, i);
    HarmlessIsInterpreter(im, u, a0, s.m.hist.races, n, n);
    Interpreter.FetchHalts(im, u, Run(isa, RaceIn(s.m.hist.races), a0, n).pc);
    forall k: nat | k < n
      ensures !Interpreter.HaltsThere(im, Interpreter.ExecuteAll(im, u, Interpreter.CpuOf(a0), k).pc)
    {
      HarmlessIsInterpreter(im, u, a0, s.m.hist.races, n, k);
      Interpreter.FetchHalts(im, u, Run(isa, RaceIn(s.m.hist.races), a0, k).pc);
    }
  }

  lemma BootOf(isa: Isa, a0: Arch, trace: seq<System>, i: nat)
    requires HasHalted(isa, a0, trace, i)
    ensures Boot(a0)
  {
    hide FirstHalt, Final, Shutdown.FourHalts, Processor.Next, Boot, Started;
  }

  lemma PlainIs(isa: Isa, a0: Arch, n: nat)
    ensures Plain(isa, a0, n) == Run(isa, NEVER, a0, n)
  {
  }
}
