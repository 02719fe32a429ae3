/** Up to its first HALT the whole processor does everything that the pipeline can do: the converse of
    `BeforeHalt.BeforeHolds`. So what goes wrong on the pipeline goes wrong on the processor. */
module Lifting {
  import opened Basics
  import opened Instructions
  import opened Reference
  import opened Pipeline
  import opened SequentialRun
  import opened PipelineInvariant
  import opened PipelineSteps
  import opened PipelineSecondID
  import opened PipelineTheorems
  import opened StageOrder
  import opened Processor
  import opened BeforeHalt
  import Shutdown

  // ---------------------------------------------------------------- runs without a HALT in hand

  /** A run of the processor in which no HALT has been in hand at an edge. */
  ghost predicate Unhalted(isa: Isa, a0: Arch, trace: seq<System>) {
    Processor.Execution(isa, a0, trace) && forall i :: 0 <= i < |trace| ==> !FirstHalt(isa, a0, trace[i])
  }

  ghost predicate Leads(isa: Isa, a0: Arch, trace: seq<System>, s: System) {
    Unhalted(isa, a0, trace) && trace[|trace| - 1] == s
  }

  /** The processor can be in state s, and is as `BeforeHalt` says. */
  ghost predicate Runs(isa: Isa, a0: Arch, s: System) {
    && (exists trace: seq<System> :: Leads(isa, a0, trace, s))
    && Before(isa, a0, s) && Uncounted(s)
  }

  lemma NotFirst(isa: Isa, a0: Arch, s: System)
    requires Before(isa, a0, s) && Uncounted(s)
    ensures !FirstHalt(isa, a0, s)
  {
    hide Reachable, Counts;
    assert ClockAt(s, 0);
    if AllAt(s, Shutdown.PostEdge) { assert s.threads[0].place.PostEdge?; }
  }

  lemma RunsNext(isa: Isa, a0: Arch, s: System, s': System)
    requires Runs(isa, a0, s) && Processor.Next(isa, s, s') && Before(isa, a0, s') && Uncounted(s')
    ensures Runs(isa, a0, s')
  {
    hide Before, Uncounted, Boot, Processor.Next, Started, FirstHalt;
    NotFirst(isa, a0, s');
    var trace: seq<System> :| Leads(isa, a0, trace, s);
    assert Leads(isa, a0, trace + [s'], s');
  }

  lemma RunsMove(isa: Isa, a0: Arch, s: System, i: Index)
    requires Runs(isa, a0, s) && CanMove(s, i)
    ensures Runs(isa, a0, Move(isa, s, i, ""))
  {
    hide Before, Uncounted, Boot, Move, Started, FirstHalt, CanMove, Unhalted;
    MoveBefore(isa, a0, s, i, "");
    RunsNext(isa, a0, s, Move(isa, s, i, ""));
  }

  lemma RunsBoot(isa: Isa, a0: Arch)
    requires Boot(a0)
    ensures Runs(isa, a0, Started(a0))
  {
    hide Before, Uncounted, Boot, Started, FirstHalt;
    StartedBefore(isa, a0);
    NotFirst(isa, a0, Started(a0));
    assert Leads(isa, a0, [Started(a0)], Started(a0));
  }

  // ---------------------------------------------------------------- each step of the pipeline is one of a thread

  function IndexOf(s: Stage): Index {
    match s case IF => 0 case ID => 1 case EX => 2 case DM => 3 case WB => 4
  }

  lemma IndexIs(s: Stage)
    ensures StageOf(IndexOf(s)) == s
  {
  }

  /** A thread that has not stepped yet is on its way. */
  lemma WhereItIs(isa: Isa, a0: Arch, s: System, st: Stage)
    requires Before(isa, a0, s) && !s.m.clock.Done(st)
    ensures var p := s.threads[IndexOf(st)].place;
      if s.m.clock.half.First? then p.PostEdge? || p.Top? else p.Work?
    ensures !s.threads[IndexOf(st)].ended
  {
    hide Reachable, FlagBefore, StageOf;
    IndexIs(st);
    assert ClockAt(s, IndexOf(st)) && AliveBefore(s, IndexOf(st));
  }

  /** Before a HALT nobody reports more than a message. */
  lemma ReportsOnly(isa: Isa, a0: Arch, s: System, i: Index)
    requires Before(isa, a0, s) && Uncounted(s) && s.threads[i].place.PostEdge?
    ensures var s' := Move(isa, s, i, ""); s'.m == s.m && s'.threads[i].place.Top?
  {
    hide Reachable, Counts, StageOf, TaskAt, IsHalt, UpdatePC;
    assert AliveBefore(s, i) && ClockAt(s, i) && ClockAt(s, 0);
    if i == 0 { NotCounted(s); }
  }

  lemma ReportFirst(isa: Isa, a0: Arch, s: System, st: Stage) returns (s': System)
    requires Runs(isa, a0, s) && s.m.clock.half.First? && !s.m.clock.Done(st)
    ensures Runs(isa, a0, s') && s'.m == s.m && s'.threads[IndexOf(st)].place.Top?
  {
    hide Before, Uncounted, Move;
    var i := IndexOf(st);
    WhereItIs(isa, a0, s, st);
    s' := s;
    if s.threads[i].place.PostEdge? {
      ReportsOnly(isa, a0, s, i);
      RunsMove(isa, a0, s, i);
      s' := Move(isa, s, i, "");
    }
  }

  lemma TakeIs(isa: Isa, s: System, st: Stage)
    requires s.m.clock.half.First? && s.threads[IndexOf(st)].place.Top?
    ensures Move(isa, s, IndexOf(st), "").m == Fire(isa, s.m, st)
  {
    hide Fire, IsHalt, TaskAt;
    IndexIs(st);
  }

  lemma WorkIs(isa: Isa, s: System, st: Stage)
    requires CanFire(false, s.m, st) && s.m.clock.half.Second?
    requires s.threads[IndexOf(st)].place.Work? && !s.threads[IndexOf(st)].ended
    ensures Move(isa, s, IndexOf(st), "").m == Fire(isa, s.m, st)
  {
    hide Fire;
    IndexIs(st);
  }

  lemma LiftFire(isa: Isa, a0: Arch, s: System, st: Stage) returns (s': System)
    requires Runs(isa, a0, s) && CanFire(false, s.m, st)
    ensures Runs(isa, a0, s') && s'.m == Fire(isa, s.m, st)
  {
    hide Before, Uncounted, Move, Fire;
    var s1 := s;
    if s.m.clock.half.First? {
      s1 := ReportFirst(isa, a0, s, st);
      TakeIs(isa, s1, st);
    } else {
      WhereItIs(isa, a0, s, st);
      WorkIs(isa, s, st);
    }
    RunsMove(isa, a0, s1, IndexOf(st));
    s' := Move(isa, s1, IndexOf(st), "");
  }

  lemma LiftOverlap(isa: Isa, a0: Arch, s: System, st: Stage) returns (s': System)
    requires Runs(isa, a0, s) && CanOverlap(false, s.m, st)
    ensures Runs(isa, a0, s') && s'.m == Overlap(Fire(isa, s.m, st))
  {
    hide Before, Uncounted, Move, Fire, Overlap;
    var i := IndexOf(st);
    WhereItIs(isa, a0, s, st);
    WorkIs(isa, s, st);
    TogetherBefore(isa, a0, s, i);
    s' := Together(Move(isa, s, i, ""));
    assert WorksAlong(s, i);
    RunsNext(isa, a0, s, s');
  }

  // ---------------------------------------------------------------- the edges

  lemma CountsNothing(isa: Isa, a0: Arch, s: System, i: Index)
    requires Before(isa, a0, s) && s.m.clock.half.Second? && s.threads[i].place.Tally?
    ensures Move(isa, s, i, "") == s.(threads := s.threads[i := s.threads[i].(place := Shutdown.AtFalling)])
  {
    hide Reachable, StageOf, TaskAt, IsHalt;
    assert AliveBefore(s, i);
  }

  /** The first k threads have come to the falling edge. */
  lemma {:induction false} SettleAll(isa: Isa, a0: Arch, s: System, k: nat) returns (s': System)
    requires Runs(isa, a0, s) && s.m.clock.half.Second? && s.m.clock.AllDone() && k <= Shutdown.THREAD_COUNT
    ensures Runs(isa, a0, s') && s'.m == s.m
    ensures forall i: Index :: i < k ==> s'.threads[i].place.AtFalling?
  {
    hide Before, Uncounted, Move;
    s' := s;
    if k > 0 {
      s' := SettleAll(isa, a0, s, k - 1);
      var i: Index := k - 1;
      DoneIsThere(isa, a0, s', i);
      if s'.threads[i].place.Tally? {
        CountsNothing(isa, a0, s', i);
        RunsMove(isa, a0, s', i);
        s' := Move(isa, s', i, "");
      }
    }
  }

  lemma DoneIsThere(isa: Isa, a0: Arch, s: System, i: Index)
    requires Before(isa, a0, s) && s.m.clock.AllDone()
    ensures var p := s.threads[i].place;
      if s.m.clock.half.First? then p.AtRising? else p.Tally? || p.AtFalling?
  {
    hide Reachable, AliveBefore;
    assert ClockAt(s, i);
  }

  lemma LiftEdge(isa: Isa, a0: Arch, s: System) returns (s': System)
    requires Runs(isa, a0, s) && s.m.clock.AllDone()
    requires var m' := Edge(s.m); m'.clock.half.First? ==> !Counts(m')
    ensures Runs(isa, a0, s') && s'.m == Edge(s.m)
  {
    hide Before, Move, Rise, Fall, Counts, Edge;
    if s.m.clock.half.First? {
      forall i: Index ensures s.threads[i].place.AtRising? { DoneIsThere(isa, a0, s, i); }
      RiseBefore(isa, a0, s);
      s' := Rise(s);
      RunsNext(isa, a0, s, s');
      RiseIs(s);
    } else {
      var s1 := SettleAll(isa, a0, s, Shutdown.THREAD_COUNT);
      FallBefore(isa, a0, s1);
      s' := Fall(s1);
      FallIs(s1);
      NotHalting(isa, a0, s');
      RunsNext(isa, a0, s1, s');
    }
  }

  lemma NotHalting(isa: Isa, a0: Arch, s: System)
    requires Uncounted(s) || FirstHalt(isa, a0, s)
    requires s.m.clock.half.First? ==> !Counts(s.m)
    ensures Uncounted(s)
  {
    hide Counts, Reachable, ClockAt;
    if FirstHalt(isa, a0, s) {
      assert Clocked(s) && s.threads[0].place.PostEdge?;
      PostEdgeIsFirst(s);
    }
  }

  lemma PostEdgeIsFirst(s: System)
    requires Clocked(s) && s.threads[0].place.PostEdge?
    ensures s.m.clock.half.First?
  {
    assert ClockAt(s, 0);
  }

  lemma RiseIs(s: System)
    ensures Rise(s).m == Edge(s.m)
  {
    hide Edge;
  }

  lemma FallIs(s: System)
    ensures Fall(s).m == Edge(s.m) && (s.m.clock.half.Second? ==> Fall(s).m.clock.half.First?)
  {
    hide RaceOf;
  }

  // ---------------------------------------------------------------- whole runs

  /** IF has counted no HALT, and has none in hand that it will count. */
  predicate NoHaltYet(m: Machine) {
    m.hist.halts == 0 && (m.clock.half.First? && !m.clock.doneIF ==> !Counts(m))
  }

  lemma FireHalts(isa: Isa, m: Machine, s: Stage)
    requires CanFire(false, m, s)
    ensures Fire(isa, m, s).hist.halts == m.hist.halts + One(s.IF? && m.clock.half.First? && Counts(m))
  {
    hide Counts, Fire;
    if s.IF? && m.clock.half.First? {
      FirstIFHalts(isa, m);
    } else {
      IndexIs(s);
      FireApart(isa, m, IndexOf(s));
    }
  }

  lemma FirstIFHalts(isa: Isa, m: Machine)
    requires m.clock.half.First?
    ensures Fire(isa, m, IF).hist.halts == m.hist.halts + One(Counts(m))
  {
    hide Counts, UpdatePC;
  }

  lemma NoHaltBeforeFire(isa: Isa, a0: Arch, m: Machine, s: Stage)
    requires Reachable(isa, a0, false, m) && CanFire(false, m, s) && NoHaltYet(Fire(isa, m, s))
    ensures NoHaltYet(m)
  {
    hide Reachable, Fire, Counts;
    FireHalts(isa, m, s);
    FireClock(isa, m, s);
    if m.clock.half.First? && !m.clock.doneIF && !s.IF? { CountsStays(isa, a0, m, s); }
  }

  lemma NoHaltBeforeEdge(m: Machine)
    requires m.clock.AllDone() && NoHaltYet(Edge(m))
    ensures NoHaltYet(m)
    ensures Edge(m).clock.half.First? ==> !Counts(Edge(m))
  {
    hide Counts, RaceOf;
  }

  lemma NoHaltBeforeOverlap(m: Machine)
    requires NoHaltYet(Overlap(m)) && m.clock.half.Second?
    ensures NoHaltYet(m)
  {
    hide Overlap, Counts;
    ShapeOverlap(m);
  }

  lemma {:induction false} LiftRun(isa: Isa, a0: Arch, trace: seq<Machine>, j: nat) returns (s: System)
    requires RunFrom(isa, a0, trace) && j < |trace| && NoHaltYet(trace[j])
    ensures Runs(isa, a0, s) && s.m == trace[j] && Reachable(isa, a0, false, trace[j])
  {
    hide Runs, Boot, Fire, Overlap, Edge, Init, NoHaltYet, Reachable, Started, Counts;
    if j == 0 {
      RunsBoot(isa, a0);
      ReachBoot(isa, a0, false);
      s := Started(a0);
      assert s.m == trace[0] by { StartedIs(a0); }
    } else {
      var m, m' := trace[j - 1], trace[j];
      assert Pipeline.Next(isa, false, m, m');
      ReachTrace(isa, a0, trace, j - 1);
      ReachNext(isa, a0, false, m, m');
      if st: Stage :| CanFire(false, m, st) && m' == Fire(isa, m, st) {
        NoHaltBeforeFire(isa, a0, m, st);
        s := LiftRun(isa, a0, trace, j - 1);
        s := LiftFire(isa, a0, s, st);
      } else if st: Stage :| CanOverlap(false, m, st) && m' == Overlap(Fire(isa, m, st)) {
        FireClock(isa, m, st);
        NoHaltBeforeOverlap(Fire(isa, m, st));
        NoHaltBeforeFire(isa, a0, m, st);
        s := LiftRun(isa, a0, trace, j - 1);
        s := LiftOverlap(isa, a0, s, st);
      } else {
        NoHaltBeforeEdge(m);
        s := LiftRun(isa, a0, trace, j - 1);
        s := LiftEdge(isa, a0, s);
      }
    }
  }

  lemma StartedIs(a0: Arch)
    ensures Started(a0).m == Init(a0.pc, a0.regs, a0.mem)
  {
    hide Init;
  }

  lemma {:induction false} ReachTrace(isa: Isa, a0: Arch, trace: seq<Machine>, j: nat)
    requires RunFrom(isa, a0, trace) && j < |trace|
    ensures Reachable(isa, a0, false, trace[j])
  {
    hide Boot, Init, Pipeline.Next, Reachable;
    if j == 0 {
      ReachBoot(isa, a0, false);
    } else {
      ReachTrace(isa, a0, trace, j - 1);
      ReachNext(isa, a0, false, trace[j - 1], trace[j]);
    }
  }

  /** Main theorem: the states of the pipeline in which IF has counted no HALT, and has none to count, are
      those of the processor before its first HALT. */
  lemma BeforeHaltIsPipeline(isa: Isa, a0: Arch, m: Machine)
    ensures (Reachable(isa, a0, false, m) && NoHaltYet(m)) <==> (exists s :: Runs(isa, a0, s) && s.m == m)
  {
    hide Pipeline.Next, Init, Boot, NoHaltYet, Runs;
    if Reachable(isa, a0, false, m) && NoHaltYet(m) {
      var trace :| Ends(isa, a0, false, trace, m);
      var s := LiftRun(isa, a0, trace, |trace| - 1);
    }
    if s :| Runs(isa, a0, s) && s.m == m { RunsIsPipeline(isa, a0, s); }
  }

  lemma RunsIsPipeline(isa: Isa, a0: Arch, s: System)
    requires Runs(isa, a0, s)
    ensures Reachable(isa, a0, false, s.m) && NoHaltYet(s.m)
  {
    hide Reachable, Clocked, AliveBefore, Unhalted, Counts;
  }

  // ---------------------------------------------------------------- transfers on the processor

  /** In every state of every run before the first HALT ID decides as the plain sequential machine. */
  ghost predicate ProcessorDecidesRight(isa: Isa, a0: Arch) {
    forall s :: Runs(isa, a0, s) ==> RightDecision(isa, a0, s.m)
  }

  /** No branch ahead of the first HALT diverges. */
  ghost predicate NoneDivergesAhead(isa: Isa, a0: Arch) {
    forall k: nat :: HaltsUpTo(World(isa, a0, NEVER), k + 1) == 0 ==> !Diverges(isa, a0, k)
  }

  lemma {:induction false} SameHalts(w: World, w': World, k: nat)
    requires w'.isa == w.isa && forall l: nat :: l < k ==> At(w', l).pc == At(w, l).pc
    ensures HaltsUpTo(w', k) == HaltsUpTo(w, k)
  {
    hide At;
    if k > 0 { SameHalts(w, w', k - 1); }
  }

  lemma {:induction false} HaltsGrow(w: World, k: nat, n: nat)
    requires k <= n
    ensures HaltsUpTo(w, k) <= HaltsUpTo(w, n)
  {
    hide At, InstrAt;
    if k < n { HaltsGrow(w, k, n - 1); }
  }

  /** Where no HALT has been counted, nothing up to there diverges. */
  lemma {:induction false} NoneSoFar(isa: Isa, a0: Arch, race: nat -> Race, n: nat)
    requires Boot(a0) && NoneDivergesAhead(isa, a0) && HaltsUpTo(World(isa, a0, race), n) == 0
    ensures NoneDivergesBefore(isa, a0, n)
  {
    hide At, Diverges, Boot, Run, NEVER, HaltsUpTo;
    if n > 0 {
      var w, w' := World(isa, a0, race), World(isa, a0, NEVER);
      HaltsGrow(w, n - 1, n);
      NoneSoFar(isa, a0, race, n - 1);
      forall l: nat | l < n ensures At(w', l).pc == At(w, l).pc {
        SameButView(isa, race, a0, l, n - 1);
        AtIs(isa, a0, race, l);
      }
      SameHalts(w, w', n);
      assert !Diverges(isa, a0, n - 1);
      BeforeAndLast(isa, a0, n);
    }
  }

  lemma AtIs(isa: Isa, a0: Arch, race: nat -> Race, l: nat)
    ensures At(World(isa, a0, NEVER), l) == StageOrder.Plain(isa, a0, l)
    ensures At(World(isa, a0, race), l) == Run(isa, race, a0, l)
  {
    hide Run;
  }

  lemma BeforeAndLast(isa: Isa, a0: Arch, n: nat)
    requires 0 < n && NoneDivergesBefore(isa, a0, n - 1) && !Diverges(isa, a0, n - 1)
    ensures NoneDivergesBefore(isa, a0, n)
  {
    hide Diverges;
  }

  /** At a decision IF has counted the HALTs up to the instruction in ID. */
  lemma CountedAtDecision(isa: Isa, a0: Arch, m: Machine)
    requires Reachable(isa, a0, false, m) && m.clock.half.Second? && !m.clock.doneID && m.lo.idTask.fetched
    ensures Boot(a0) && m.hist.halts == HaltsUpTo(WorldAt(isa, a0, m), m.hist.issued + 1)
  {
    hide Reachable, Inv, Order, Ids, Slots, Back, Scoreboard, Timing, Account, RolesOf, At, HaltsUpTo, FrontSecond,
         HoldsNext, Captured, WorldAt, Boot;
    var w := WorldAt(isa, a0, m);
    ReachGood(isa, a0, false, m);
    Unfold(w, m, RolesOf(m));
    FrontAtDecision(w, m);
    assert HaltCount(w, FetcherOf(m));
  }

  lemma RightIfNoneAhead(isa: Isa, a0: Arch, s: System)
    requires Runs(isa, a0, s) && NoneDivergesAhead(isa, a0)
    ensures RightDecision(isa, a0, s.m)
  {
    hide Runs, NoneDivergesAhead, Reachable, Issues, Decide, JumpOf, StageOrder.Plain, Counts, HaltsUpTo, Boot,
         NoneDivergesBefore;
    var m := s.m;
    RunsIsPipeline(isa, a0, s);
    if m.clock.half.Second? && !m.clock.doneID && Issues(isa, m) {
      assert m.lo.idTask.fetched by { IssuesFetched(isa, m); }
      CountedAtDecision(isa, a0, m);
      NoneSoFar(isa, a0, RaceIn(m.hist.races), m.hist.issued + 1);
      RightIfNoneDiverges(isa, a0, m);
    }
  }

  lemma IssuesFetched(isa: Isa, m: Machine)
    requires Issues(isa, m)
    ensures m.lo.idTask.fetched
  {
    hide Decide;
  }

  /** A branch ahead of the first HALT that diverges is decided wrongly on the processor. */
  lemma DivergenceShowsThere(isa: Isa, a0: Arch, k: nat, race: Race) returns (s: System)
    requires Boot(a0) && DivergesBy(isa, a0, k, race) && HaltsUpTo(World(isa, a0, NEVER), k + 1) == 0
    ensures Runs(isa, a0, s) && !RightDecision(isa, a0, s.m)
  {
    hide Runs, Reachable, Issues, Decide, JumpOf, HaltsUpTo, Boot, DivergesBy, Stale, Run, At, NEVER, WorldAt, Counts,
         RightDecision;
    var m := DivergenceShows(isa, a0, k, race);
    assert m.lo.idTask.fetched by { IssuesFetched(isa, m); }
    CountedAtDecision(isa, a0, m);
    var w, w' := WorldAt(isa, a0, m), World(isa, a0, NEVER);
    forall l: nat | l < k + 1 ensures At(w', l).pc == At(w, l).pc {
      AtIs(isa, a0, NEVER, l);
    }
    assert w.isa == isa by { WorldAtIs(isa, a0, m); }
    SameHalts(w, w', k + 1);
    WrongDecision(isa, a0, m);
    BeforeHaltIsPipeline(isa, a0, m);
    s :| Runs(isa, a0, s) && s.m == m;
  }

  lemma WorldAtIs(isa: Isa, a0: Arch, m: Machine)
    ensures WorldAt(isa, a0, m).isa == isa
  {
  }

  /** Main theorem: on the whole processor, before its first HALT, ID decides every transfer as the
      sequential machine does under every schedule if and only if no branch ahead of that HALT diverges. */
  lemma ProcessorDecidesRightIffNoneDiverges(isa: Isa, a0: Arch)
    requires Boot(a0)
    ensures ProcessorDecidesRight(isa, a0) <==> NoneDivergesAhead(isa, a0)
  {
    hide Runs, RightDecision, Boot, HaltsUpTo, DivergesBy;
    if NoneDivergesAhead(isa, a0) {
      forall s | Runs(isa, a0, s) ensures RightDecision(isa, a0, s.m) { RightIfNoneAhead(isa, a0, s); }
    } else {
      var k: nat :| HaltsUpTo(World(isa, a0, NEVER), k + 1) == 0 && Diverges(isa, a0, k);
      var race := DivergingRace(isa, a0, k);
      var s := DivergenceShowsThere(isa, a0, k, race);
    }
  }
}
