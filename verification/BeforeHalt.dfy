/** The processor until IF has counted its first HALT: nobody dies, the machine is the pipeline, and
    the queues hold one entry for every cycle. */
module BeforeHalt {
  import opened Basics
  import opened Instructions
  import opened Reference
  import opened Pipeline
  import opened SequentialRun
  import opened PipelineInvariant
  import opened PipelineSteps
  import opened PipelineFront
  import opened PipelineIssue
  import opened PipelineSecondID
  import opened PipelineTheorems
  import opened StageOrder
  import opened Reports
  import opened Processor
  import Shutdown

  function One(b: bool): nat { if b then 1 else 0 }

  // ---------------------------------------------------------------- threads and clock

  /** Thread i has taken its task of this cycle. */
  predicate Taken(s: System, i: Index) { s.m.clock.half.Second? || s.threads[i].place.AtRising? }

  /** Where a thread can be, and whether it has passed its fence. */
  predicate ClockAt(s: System, i: Index) {
    var t, done := s.threads[i], s.m.clock.Done(StageOf(i));
    && (if s.m.clock.half.First?
        then !(t.place.Work? || t.place.Tally? || t.place.AtFalling?) && done == t.place.AtRising?
        else (t.place.Work? || t.place.Tally? || t.place.AtFalling?) && done == !t.place.Work?)
    && (t.ended ==> t.dying && !t.place.Top? && !t.place.Tally?)
    && (t.dying && !t.ended ==> i != 0 && (t.place.AtFalling? || t.place.PostEdge?))
    && (t.place.Mortuary? || t.place.Exited? ==> t.ended)
  }

  predicate Clocked(s: System) { forall i: Index :: ClockAt(s, i) }

  lemma DoClock(isa: Isa, m: Machine, i: Index)
    ensures Do(isa, m, i).clock == m.clock.Mark(StageOf(i))
  {
    hide Fire;
    if !(i == 0 && m.clock.half.Second? && m.lo.ifTask.None?) { FireClock(isa, m, StageOf(i)); }
  }

  /** What a step of thread i does to the threads and to the clock. */
  predicate Steps(s: System, s': System, i: Index) {
    && s'.threads == s.threads[i := s'.threads[i]]
    && s'.messages == s.messages[i := s'.messages[i]]
    && s'.m.clock.half == s.m.clock.half
    && (forall j: Index :: j != i ==> s'.m.clock.Done(StageOf(j)) == s.m.clock.Done(StageOf(j)))
  }

  lemma MarkOne(c: Clock, i: Index)
    ensures var c' := c.Mark(StageOf(i));
      && c'.half == c.half && c'.Done(StageOf(i))
      && forall j: Index :: j != i ==> c'.Done(StageOf(j)) == c.Done(StageOf(j))
  {
  }

  lemma MoveSteps(isa: Isa, s: System, i: Index, text: string)
    ensures Steps(s, Move(isa, s, i, text), i)
  {
    hide Steps, Report, Take, LookAround, Work, Processor.Count;
    match s.threads[i].place
    case PostEdge => ReportSteps(s, i, text);
    case Top => TakeSteps(isa, s, i);
    case Mortuary => LookAroundSteps(s, i);
    case Work => WorkSteps(isa, s, i);
    case Tally => CountSteps(s, i);
    case _ => StaySteps(s, i);
  }

  lemma ReportSteps(s: System, i: Index, text: string)
    ensures Steps(s, Report(s, i, text), i)
  {
    hide UpdatePC, DiffOf, StageOf;
  }

  lemma TakeSteps(isa: Isa, s: System, i: Index)
    ensures Steps(s, Take(isa, s, i), i)
  {
    hide Do, IsHalt, TaskAt, StageOf;
    DoClock(isa, s.m, i);
    MarkOne(s.m.clock, i);
  }

  lemma LookAroundSteps(s: System, i: Index)
    ensures Steps(s, LookAround(s, i), i)
  {
    hide StageOf;
    MarkOne(s.m.clock, i);
  }

  lemma WorkSteps(isa: Isa, s: System, i: Index)
    ensures Steps(s, Work(isa, s, i), i)
  {
    hide Do, StageOf;
    DoClock(isa, s.m, i);
    MarkOne(s.m.clock, i);
  }

  lemma CountSteps(s: System, i: Index)
    ensures Steps(s, Processor.Count(s, i), i)
  {
  }

  lemma StaySteps(s: System, i: Index)
    ensures Steps(s, s, i)
  {
  }

  lemma ReportSpec(s: System, i: Index, text: string)
    ensures var s', t, t' := Report(s, i, text), s.threads[i], Report(s, i, text).threads[i];
      && s'.m.clock == s.m.clock && s'.m.hist == s.m.hist
      && t'.halt == t.halt && t'.ended == t'.place.Mortuary?
      && (t'.place.Mortuary? || t'.place.Top?)
      && t'.dying == (t.dying || (i == 0 && !t.ended && t'.ended))
      && (t.ended || (i != 0 && t.dying) ==> t'.ended)
      && (i != 0 && t'.ended ==> t.ended || t.dying)
  {
    hide UpdatePC, DiffOf;
  }

  lemma ClockOfMover(isa: Isa, s: System, i: Index, text: string)
    requires ClockAt(s, i) && CanMove(s, i)
    ensures ClockAt(Move(isa, s, i, text), i)
  {
    hide ClockAt, Report, Take, LookAround, Work, Processor.Count;
    match s.threads[i].place
    case PostEdge => ClockOfReport(s, i, text);
    case Top => ClockOfTake(isa, s, i);
    case Mortuary => ClockOfLookAround(s, i);
    case Work => ClockOfWork(isa, s, i);
    case Tally => ClockOfCount(s, i);
    case _ =>
  }

  lemma ClockOfReport(s: System, i: Index, text: string)
    requires ClockAt(s, i) && s.threads[i].place.PostEdge?
    ensures ClockAt(Report(s, i, text), i)
  {
    hide Report, StageOf;
    ReportSpec(s, i, text);
  }

  lemma ClockOfTake(isa: Isa, s: System, i: Index)
    requires ClockAt(s, i) && s.threads[i].place.Top?
    ensures ClockAt(Take(isa, s, i), i)
  {
    hide Do, IsHalt, TaskAt, StageOf;
    DoClock(isa, s.m, i);
    MarkOne(s.m.clock, i);
  }

  lemma ClockOfLookAround(s: System, i: Index)
    requires ClockAt(s, i) && s.threads[i].place.Mortuary?
    ensures ClockAt(LookAround(s, i), i)
  {
    hide StageOf;
    MarkOne(s.m.clock, i);
  }

  lemma ClockOfWork(isa: Isa, s: System, i: Index)
    requires ClockAt(s, i) && s.threads[i].place.Work?
    ensures ClockAt(Work(isa, s, i), i)
  {
    hide Do, StageOf;
    DoClock(isa, s.m, i);
    MarkOne(s.m.clock, i);
  }

  lemma ClockOfCount(s: System, i: Index)
    requires ClockAt(s, i) && s.threads[i].place.Tally?
    ensures ClockAt(Processor.Count(s, i), i)
  {
    hide StageOf;
  }

  lemma ClockedMove(isa: Isa, s: System, i: Index, text: string)
    requires Clocked(s) && CanMove(s, i)
    ensures Clocked(Move(isa, s, i, text))
  {
    hide Move, CanMove, StageOf;
    var s' := Move(isa, s, i, text);
    assert ClockAt(s, i);
    ClockOfMover(isa, s, i, text);
    MoveSteps(isa, s, i, text);
    forall j: Index ensures ClockAt(s', j) {
      if j != i { assert ClockAt(s, j); }
    }
  }

  lemma ClockedEdge(s: System)
    requires Clocked(s)
    ensures AllAt(s, Shutdown.AtRising) ==> Clocked(Rise(s)) && s.m.clock.half.First? && s.m.clock.AllDone()
    ensures AllAt(s, Shutdown.AtFalling) ==> Clocked(Fall(s)) && s.m.clock.half.Second? && s.m.clock.AllDone()
  {
    hide RaceOf;
    assert ClockAt(s, 0) && ClockAt(s, 1) && ClockAt(s, 2) && ClockAt(s, 3) && ClockAt(s, 4);
    if AllAt(s, Shutdown.AtRising) {
      forall j: Index ensures ClockAt(Rise(s), j) { assert s.threads[j].place.AtRising? && ClockAt(s, j); }
    }
    if AllAt(s, Shutdown.AtFalling) {
      forall j: Index ensures ClockAt(Fall(s), j) { assert s.threads[j].place.AtFalling? && ClockAt(s, j); }
    }
  }

  // ---------------------------------------------------------------- what the stages leave alone

  /** The local variables of the other threads, and what only IF and WB write. */
  predicate Apart(m: Machine, m': Machine, i: Index) {
    && m'.hist.cycles == m.hist.cycles
    && (forall j: Index :: j != i ==> TaskAt(m', j) == TaskAt(m, j))
    && (i != 0 || m.clock.half.Second? ==> m'.hist.halts == m.hist.halts)
    && (i != 4 ==> m'.hist.mod == m.hist.mod && m'.sh.regs == m.sh.regs)
    && (i != 0 ==> m'.lo.ifTask == m.lo.ifTask)
  }

  lemma FireApart(isa: Isa, m: Machine, i: Index)
    requires i == 0 && m.clock.half.Second? ==> m.lo.ifTask.Some?
    ensures Apart(m, Fire(isa, m, StageOf(i)), i)
  {
    hide Apart, FirstIF, FirstID, FirstEX, FirstDM, FirstWB, SecondIF, SecondID, SecondEX, SecondDM, SecondWB;
    if m.clock.half.First? { FirstApart(isa, m, i); } else { SecondApart(isa, m, i); }
    hide StageOf;
    MarkApart(m, if m.clock.half.First? then FirstStep(isa, m, i) else SecondStep(isa, m, i), StageOf(i), i);
  }

  function FirstStep(isa: Isa, m: Machine, i: Index): Machine {
    match i case 0 => FirstIF(isa, m) case 1 => FirstID(m) case 2 => FirstEX(isa, m)
    case 3 => FirstDM(isa, m) case 4 => FirstWB(isa, m)
  }

  function SecondStep(isa: Isa, m: Machine, i: Index): Machine
    requires i == 0 ==> m.lo.ifTask.Some?
  {
    match i case 0 => SecondIF(m) case 1 => SecondID(isa, m) case 2 => SecondEX(m)
    case 3 => SecondDM(isa, m) case 4 => SecondWB(m)
  }

  lemma MarkApart(m: Machine, m1: Machine, s: Stage, i: Index)
    requires Apart(m, m1, i)
    ensures Apart(m, m1.(clock := m1.clock.Mark(s)), i)
  {
  }

  lemma FirstApart(isa: Isa, m: Machine, i: Index)
    requires m.clock.half.First?
    ensures Apart(m, FirstStep(isa, m, i), i)
  {
    match i
    case 0 =>
      FirstIFTouches(isa, m);
      hide FirstIF;
    case 1 =>
      ShapePick(m);
      CaptureSpec(PickID(m));
      hide PickID, CaptureID;
    case 2 => hide Compute, Exports, Forwards, Dest;
    case 3 => hide AddressOf;
    case 4 => hide WrittenValue, ResetTo, Exports, Dest;
  }

  lemma SecondApart(isa: Isa, m: Machine, i: Index)
    requires m.clock.half.Second? && (i == 0 ==> m.lo.ifTask.Some?)
    ensures Apart(m, SecondStep(isa, m, i), i)
  {
    match i
    case 0 =>
    case 1 =>
      TransferSpec(isa, m.sh, Decide(isa, m.sh, m.lo).jump);
      hide Decide, Transfer, ReserveDest;
    case 2 => hide Executed, Dest, Forwards;
    case 3 => hide AddressOf, Dest, Forwards;
    case 4 =>
  }

  lemma DoApart(isa: Isa, m: Machine, i: Index)
    ensures Apart(m, Do(isa, m, i), i)
  {
    hide Fire;
    if !(i == 0 && m.clock.half.Second? && m.lo.ifTask.None?) { FireApart(isa, m, i); }
  }

  // ---------------------------------------------------------------- no HALT behind IF

  lemma {:induction false} NoHaltAmong(w: World, n: nat, k: nat)
    requires HaltsUpTo(w, n) == 0 && k < n
    ensures !InstrAt(w, k).kind.Halt?
  {
    hide InstrAt;
    if k + 1 < n { NoHaltAmong(w, n - 1, k); }
  }

  /** What EX, DM and WB take is no HALT. */
  lemma NoHaltBehind(w: World, m: Machine)
    requires Good(w, m) && m.hist.halts == 0 && m.clock.half.First?
    ensures !m.clock.doneEX ==> !IsHalt(m.sh.idEx.GetOr(BUBBLE))
    ensures !m.clock.doneDM ==> !IsHalt(m.sh.exDm.GetOr(BUBBLE))
    ensures !m.clock.doneWB ==> !IsHalt(m.sh.dmWb.GetOr(BUBBLE))
  {
    hide Inv, Ids, Back, Scoreboard, FrontFirst, FrontSecond, Timing, Account, InstrAt, At, HaltsUpTo, Agrees;
    var n := m.hist.issued;
    Unfold(w, m, RolesOf(m));
    NoHaltsIssued(w, m);
    if !m.clock.doneEX && m.sh.idEx.Some? && m.sh.idEx.value.fetched { NoHaltAmong(w, n, m.sh.idEx.value.ord); }
    if !m.clock.doneDM && m.sh.exDm.Some? && m.sh.exDm.value.fetched { NoHaltAmong(w, n, m.sh.exDm.value.ord); }
    if !m.clock.doneWB && m.sh.dmWb.Some? && m.sh.dmWb.value.fetched { NoHaltAmong(w, n, m.sh.dmWb.value.ord); }
  }

  lemma NoHaltsIssued(w: World, m: Machine)
    requires FrontEnd(w, FetcherOf(m)) && m.hist.halts == 0
    ensures HaltsUpTo(w, m.hist.issued) == 0
    ensures Counted(FetcherOf(m)) ==> !InstrAt(w, m.hist.issued).kind.Halt?
  {
    hide FrontFirst, FrontSecond, InstrAt, Counted;
    assert HaltCount(w, FetcherOf(m));
  }

  /** In the second half neither is what ID works on. */
  lemma NoHaltInID(w: World, m: Machine)
    requires Good(w, m) && m.hist.halts == 0 && m.clock.half.First? && m.clock.doneIF && m.clock.doneID
    ensures !IsHalt(m.lo.idTask)
  {
    hide Inv, Ids, Back, Scoreboard, FrontSecond, Timing, Account, InstrAt, At, HaltsUpTo, Agrees, Captured, Slots,
         Order, RolesOf, Advance;
    Unfold(w, m, RolesOf(m));
    NoHaltsIssued(w, m);
  }

  /** Until IF has looked at the task that it has in hand, the others do not change whether it counts. */
  lemma CountsStays(isa: Isa, a0: Arch, m: Machine, s: Stage)
    requires Reachable(isa, a0, false, m) && CanFire(false, m, s) && !s.IF? && m.clock.half.First? && !m.clock.doneIF
    ensures Counts(Fire(isa, m, s)) == Counts(m)
  {
    hide Inv, Agrees, FrontEnd, Order, Ids, Slots, Back, Scoreboard, Timing, Account, RolesOf, Reachable, Counts,
         Fire, FetcherOf, At;
    var w, m' := WorldAt(isa, a0, m), Fire(isa, m, s);
    FireElsewhere(isa, m, s);
    ReachFire(isa, a0, false, m, s);
    ReachGood(isa, a0, false, m);
    ReachGood(isa, a0, false, m');
    Unfold(w, m, RolesOf(m));
    Unfold(w, m', RolesOf(m'));
    CountFirstIF(w, m);
    CountFirstIF(w, m');
  }

  // ---------------------------------------------------------------- the invariant

  predicate FlagBefore(s: System, i: Index) {
    if i == 0 then s.threads[0].halt == IsHalt(TaskAt(s.m, 0))
    else Taken(s, i) ==> s.threads[i].halt == (i == 1 && s.m.clock.half.First? && IsHalt(TaskAt(s.m, 1)))
  }

  predicate AliveBefore(s: System, i: Index) {
    var t := s.threads[i];
    && !t.dying && !t.ended
    && (s.m.hist.cycles == 0 ==> !t.place.PostEdge?)
    && |s.messages[i]| + One(t.place.PostEdge?) == s.m.hist.cycles
    && FlagBefore(s, i)
  }

  ghost predicate Before(isa: Isa, a0: Arch, s: System) {
    && Clocked(s) && Reachable(isa, a0, false, s.m)
    && (forall i: Index :: AliveBefore(s, i))
    && s.counter == 0 && s.dead == 0 && s.m.hist.halts == 0
    && |s.pcQueue| == s.m.hist.cycles + One(Taken(s, 0))
    && |s.regsQueue| + One(s.threads[4].place.PostEdge?) == s.m.hist.cycles
  }

  /** IF has no HALT in hand that it has still to count. */
  predicate Uncounted(s: System) { s.m.clock.half.First? && !s.m.clock.doneIF ==> !Counts(s.m) }

  /** The edge at which IF has its first HALT in hand, and will count it. */
  ghost predicate FirstHalt(isa: Isa, a0: Arch, s: System) {
    Before(isa, a0, s) && AllAt(s, Shutdown.PostEdge) && Counts(s.m)
  }

  /** The others are as they were. */
  lemma OthersBefore(s: System, s': System, i: Index)
    requires Steps(s, s', i) && Apart(s.m, s'.m, i)
    requires forall j: Index :: AliveBefore(s, j)
    requires AliveBefore(s', i)
    ensures forall j: Index :: AliveBefore(s', j)
  {
    hide IsHalt, TaskAt;
    forall j: Index ensures AliveBefore(s', j) {
      if j != i { assert AliveBefore(s, j); }
    }
  }

  lemma ReportBefore(isa: Isa, a0: Arch, s: System, i: Index, text: string)
    requires Before(isa, a0, s) && Uncounted(s) && s.threads[i].place.PostEdge?
    ensures Before(isa, a0, Move(isa, s, i, text)) && Uncounted(Move(isa, s, i, text))
  {
    hide Reachable, UpdatePC, DiffOf, StageOf;
    ClockedMove(isa, s, i, text);
    MoveSteps(isa, s, i, text);
    assert AliveBefore(s, i) && ClockAt(s, i) && ClockAt(s, 0);
    var s' := Move(isa, s, i, text);
    if i == 0 { NotCounted(s); }
    hide Clocked, ClockAt;
    assert s' == s.(threads := s'.threads, messages := s'.messages, regsQueue := s'.regsQueue);
    assert AliveBefore(s', i);
    OthersBefore(s, s', i);
  }

  lemma NotCounted(s: System)
    requires Uncounted(s) && FlagBefore(s, 0) && s.threads[0].place.PostEdge? && ClockAt(s, 0)
    ensures s.threads[0].halt ==> s.m.sh.ifStall || s.m.sh.pcFlush > 0
  {
  }

  lemma TakeBefore(isa: Isa, a0: Arch, s: System, i: Index, text: string)
    requires Before(isa, a0, s) && Uncounted(s) && s.threads[i].place.Top?
    ensures Before(isa, a0, Move(isa, s, i, text)) && Uncounted(Move(isa, s, i, text))
  {
    hide Reachable, Good, Fire, Counts, IsHalt;
    ClockedMove(isa, s, i, text);
    MoveSteps(isa, s, i, text);
    assert AliveBefore(s, i) && ClockAt(s, i) && ClockAt(s, 0);
    var s' := Move(isa, s, i, text);
    assert s'.m == Fire(isa, s.m, StageOf(i));
    FireApart(isa, s.m, i);
    FireClock(isa, s.m, StageOf(i));
    ReachFire(isa, a0, false, s.m, StageOf(i));
    ReachGood(isa, a0, false, s.m);
    TakesNoHalt(isa, s.m, WorldAt(isa, a0, s.m), i);
    if i != 0 && !s.m.clock.doneIF { CountsStays(isa, a0, s.m, StageOf(i)); }
    hide Clocked, ClockAt, StageOf, TaskAt;
    assert AliveBefore(s', i);
    OthersBefore(s, s', i);
  }

  lemma TakesNoHalt(isa: Isa, m: Machine, w: World, i: Index)
    requires Good(w, m) && m.clock.half.First? && !m.clock.Done(StageOf(i)) && m.hist.halts == 0
    requires i == 0 ==> !Counts(m)
    ensures i >= 2 ==> !IsHalt(TaskAt(Fire(isa, m, StageOf(i)), i))
    ensures Fire(isa, m, StageOf(i)).hist.halts == 0
  {
    hide Good, IsHalt, Compute, WrittenValue, ResetTo, AddressOf, Exports, Forwards, Counts, UpdatePC, Capture, PickID,
         Get, CaptureID;
    NoHaltBehind(w, m);
    if i == 1 { FireApart(isa, m, 1); }
    hide FirstID;
  }

  lemma WorkBefore(isa: Isa, a0: Arch, s: System, i: Index, text: string)
    requires Before(isa, a0, s) && s.threads[i].place.Work?
    ensures Before(isa, a0, Move(isa, s, i, text)) && Uncounted(Move(isa, s, i, text))
  {
    hide Reachable, Good, Fire, Counts, IsHalt;
    ClockedMove(isa, s, i, text);
    MoveSteps(isa, s, i, text);
    assert AliveBefore(s, i) && ClockAt(s, i) && ClockAt(s, 0);
    ReachGood(isa, a0, false, s.m);
    HasFetched(WorldAt(isa, a0, s.m), s.m);
    var s' := Move(isa, s, i, text);
    assert s'.m == Fire(isa, s.m, StageOf(i));
    FireApart(isa, s.m, i);
    ReachFire(isa, a0, false, s.m, StageOf(i));
    if i == 0 { SecondKeepsTask(isa, s.m); }
    hide Clocked, ClockAt, StageOf, TaskAt;
    assert AliveBefore(s', i);
    OthersBefore(s, s', i);
  }

  lemma SecondKeepsTask(isa: Isa, m: Machine)
    requires m.clock.half.Second? && m.lo.ifTask.Some?
    ensures TaskAt(Fire(isa, m, IF), 0) == TaskAt(m, 0) && Fire(isa, m, IF).hist == m.hist
  {
  }

  lemma TallyBefore(isa: Isa, a0: Arch, s: System, i: Index, text: string)
    requires Before(isa, a0, s) && s.threads[i].place.Tally?
    ensures Before(isa, a0, Move(isa, s, i, text)) && Uncounted(Move(isa, s, i, text))
  {
    hide Reachable, Counts, IsHalt;
    ClockedMove(isa, s, i, text);
    MoveSteps(isa, s, i, text);
    assert AliveBefore(s, i) && ClockAt(s, i);
    var s' := Move(isa, s, i, text);
    assert s' == s.(threads := s'.threads);
    hide Clocked, ClockAt, StageOf, TaskAt;
    assert AliveBefore(s', i);
    OthersBefore(s, s', i);
  }

  /** Working together changes nothing but the scoreboard. */
  lemma TogetherIs(s: System)
    ensures var s' := Together(s); s' == s.(m := s.m.(sh := s.m.sh.(board := s'.m.sh.board)))
  {
    hide Overlap;
    ShapeOverlap(s.m);
  }

  lemma ClockedTogether(s: System)
    requires Clocked(s)
    ensures Clocked(Together(s))
  {
    hide StageOf;
    TogetherIs(s);
    hide Together;
    forall i: Index ensures ClockAt(Together(s), i) { assert ClockAt(s, i); }
  }

  lemma ReachTogether(isa: Isa, a0: Arch, s: System, i: Index)
    requires Reachable(isa, a0, false, s.m) && ClockAt(s, i) && WorksAlong(s, i)
    ensures Reachable(isa, a0, false, Together(Move(isa, s, i, "")).m)
  {
    hide Reachable, Fire, Overlap, IsHalt;
    assert Move(isa, s, i, "").m == Fire(isa, s.m, StageOf(i));
    ReachOverlap(isa, a0, s.m, StageOf(i));
  }

  lemma TogetherBefore(isa: Isa, a0: Arch, s: System, i: Index)
    requires Before(isa, a0, s) && Uncounted(s) && WorksAlong(s, i)
    ensures var s' := Together(Move(isa, s, i, "")); Before(isa, a0, s') && Uncounted(s')
  {
    hide Reachable, Move, StageOf, TaskAt, IsHalt, WorksAlong, Clocked;
    var s1 := Move(isa, s, i, "");
    assert ClockAt(s, i) by { ClockHere(s, i); }
    ReachTogether(isa, a0, s, i);
    assert CanMove(s, i) by { AlongMoves(s, i); }
    MoveBefore(isa, a0, s, i, "");
    ClockedTogether(s1);
    TogetherIs(s1);
    hide Together;
    forall j: Index ensures AliveBefore(Together(s1), j) {
      assert AliveBefore(s1, j);
      SameTaskAt(s1, j);
    }
  }

  lemma ClockHere(s: System, i: Index)
    requires Clocked(s)
    ensures ClockAt(s, i)
  {
    hide ClockAt;
  }

  lemma AlongMoves(s: System, i: Index)
    requires WorksAlong(s, i)
    ensures CanMove(s, i)
  {
  }

  lemma SameTaskAt(s: System, i: Index)
    ensures TaskAt(Together(s).m, i) == TaskAt(s.m, i)
  {
    TogetherIs(s);
    hide Together;
  }

  lemma MoveBefore(isa: Isa, a0: Arch, s: System, i: Index, text: string)
    requires Before(isa, a0, s) && Uncounted(s) && CanMove(s, i)
    ensures Before(isa, a0, Move(isa, s, i, text)) && Uncounted(Move(isa, s, i, text))
  {
    hide Uncounted, Reachable, Move, StageOf, TaskAt, IsHalt;
    assert AliveBefore(s, i) && ClockAt(s, i);
    match s.threads[i].place
    case PostEdge => ReportBefore(isa, a0, s, i, text);
    case Top => TakeBefore(isa, a0, s, i, text);
    case Work => WorkBefore(isa, a0, s, i, text);
    case Tally => TallyBefore(isa, a0, s, i, text);
    case _ =>
  }

  lemma RiseBefore(isa: Isa, a0: Arch, s: System)
    requires Before(isa, a0, s) && AllAt(s, Shutdown.AtRising)
    ensures Before(isa, a0, Rise(s)) && Uncounted(Rise(s))
  {
    hide Reachable, Good, IsHalt, RaceOf, Clocked, StageOf;
    ClockedEdge(s);
    ReachEdge(isa, a0, false, s.m);
    ReachGood(isa, a0, false, s.m);
    NoHaltInID(WorldAt(isa, a0, s.m), s.m);
    var s' := Rise(s);
    forall i: Index ensures AliveBefore(s', i) {
      assert AliveBefore(s, i) && s.threads[i].place.AtRising?;
    }
  }

  lemma FallBefore(isa: Isa, a0: Arch, s: System)
    requires Before(isa, a0, s) && AllAt(s, Shutdown.AtFalling)
    ensures Before(isa, a0, Fall(s)) && AllAt(Fall(s), Shutdown.PostEdge)
    ensures Uncounted(Fall(s)) || FirstHalt(isa, a0, Fall(s))
  {
    hide Reachable, IsHalt, RaceOf, Clocked, StageOf, Counts;
    ClockedEdge(s);
    ReachEdge(isa, a0, false, s.m);
    var s' := Fall(s);
    forall i: Index ensures AliveBefore(s', i) {
      assert AliveBefore(s, i) && s.threads[i].place.AtFalling?;
    }
  }

  lemma StartedBefore(isa: Isa, a0: Arch)
    requires Boot(a0)
    ensures Before(isa, a0, Started(a0)) && Uncounted(Started(a0))
  {
    hide Reachable, FreeBoard, Boot;
    ReachBoot(isa, a0, false);
  }

  /** Main invariant of this phase: as long as no HALT has been in hand at an edge, everything is as
      the pipeline alone has it. */
  lemma {:induction false} BeforeHolds(isa: Isa, a0: Arch, trace: seq<System>, j: nat)
    requires Processor.Execution(isa, a0, trace) && j < |trace|
    requires forall i :: 0 <= i <= j ==> !FirstHalt(isa, a0, trace[i])
    ensures Before(isa, a0, trace[j]) && Uncounted(trace[j])
  {
    hide Before, Uncounted, FirstHalt, Boot, Move, Started, Rise, Fall, AllAt, CanMove, WorksAlong, Together;
    if j == 0 {
      StartedBefore(isa, a0);
    } else {
      BeforeHolds(isa, a0, trace, j - 1);
      var s, s' := trace[j - 1], trace[j];
      assert Processor.Next(isa, s, s');
      if i: Index, text: string :| CanMove(s, i) && s' == Move(isa, s, i, text) {
        MoveBefore(isa, a0, s, i, text);
      } else if i: Index :| WorksAlong(s, i) && s' == Together(Move(isa, s, i, "")) {
        TogetherBefore(isa, a0, s, i);
      } else if AllAt(s, Shutdown.AtRising) && s' == Rise(s) {
        RiseBefore(isa, a0, s);
      } else {
        FallBefore(isa, a0, s);
      }
    }
  }
}
