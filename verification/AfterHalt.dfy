/** The processor from the edge at which IF has its first HALT in hand: what the threads do is what
    `Shutdown` says, step by step. In particular the HALT count of IF is never held back by a stall
    or a flush any more. */
module AfterHalt {
  import opened Basics
  import opened Instructions
  import opened Reference
  import opened Pipeline
  import opened SequentialRun
  import opened PipelineInvariant
  import opened PipelineSteps
  import opened PipelineFront
  import opened PipelineIssue
  import opened PipelineSecondID
  import opened PipelineTheorems
  import opened StageOrder
  import opened Reports
  import opened Processor
  import opened BeforeHalt
  import Shutdown

  /** The first HALT: the cycles before it, its place in program order, and its address. */
  datatype Origin = Origin(c: nat, n: nat, pc: Word)

  function OriginOf(s: System): Origin { Origin(s.m.hist.cycles, s.m.hist.issued, s.m.sh.pc) }

  function Ahead(pc: Word, k: nat): Word { if k == 0 then pc else Advance(Ahead(pc, k - 1)) }

  /** Is the k-th word from the first HALT on a HALT? */
  function HaltWords(isa: Isa, pc: Word): nat -> bool { (k: nat) => isa.fetch(Ahead(pc, k)).kind.Halt? }

  // ---------------------------------------------------------------- the abstraction

  function Less(a: nat, b: int): nat { if a >= b then a - b else 0 }

  function Flag(slot: Option<Task>): Option<bool> { if slot.Some? then Some(IsHalt(slot.value)) else None }

  function ThreadView(s: System, c: nat, i: Index): Shutdown.Thread {
    var t := s.threads[i];
    Shutdown.Thread(t.place, t.halt, t.dying, t.ended, Less(|s.messages[i]|, c - 1 + One(t.ended)))
  }

  function SlotsView(sh: Shared): Shutdown.Slots { [Flag(sh.ifId), Flag(sh.idEx), Flag(sh.exDm), Flag(sh.dmWb)] }

  /** The control of the processor, and how many entries its queues have got since cycle c. */
  function View(s: System, c: nat): Shutdown.State {
    Shutdown.State(
      [ThreadView(s, c, 0), ThreadView(s, c, 1), ThreadView(s, c, 2), ThreadView(s, c, 3), ThreadView(s, c, 4)],
      SlotsView(s.m.sh), s.dead, s.counter,
      1 + Less(|s.pcQueue|, c + One(s.threads[0].ended)), Less(|s.pcQueue|, c), Less(|s.regsQueue|, c - 1),
      Less(s.m.hist.cycles, c), s.m.clock.half.Second?)
  }

  lemma ViewThread(s: System, c: nat, i: Index)
    ensures View(s, c).threads[i] == ThreadView(s, c, i)
  {
  }

  // ---------------------------------------------------------------- the invariant

  /** IF fetches on, word by word: nothing stalls it, nothing flushes what it has fetched. */
  predicate Alone(o: Origin, s: System) {
    var t, sh := s.threads[0], s.m.sh;
    && t.halt == IsHalt(TaskAt(s.m, 0)) && s.m.lo.ifTask.Some?
    && !sh.ifStall && !sh.pcJump && sh.pcFlush <= 0
    && o.c + One(t.ended) <= |s.pcQueue|
    && (!t.ended ==> sh.pc == Ahead(o.pc, |s.pcQueue| - o.c))
  }

  /** ID gets the HALT in its last cycle. */
  predicate InID(o: Origin, s: System) {
    var t := s.threads[1];
    t.dying ||
      (&& s.m.hist.cycles == o.c && !s.m.lo.idStall && !t.place.AtFalling?
       && if s.m.clock.half.First? && !t.place.AtRising?
          then s.m.sh.ifId.Some? && s.m.sh.ifId.value.fetched && IsHalt(s.m.sh.ifId.value)
          else s.m.lo.idTask.fetched && IsHalt(s.m.lo.idTask))
  }

  predicate FlagAfter(s: System, i: Index) {
    !s.threads[i].ended && Taken(s, i) ==> s.threads[i].halt == IsHalt(TaskAt(s.m, i))
  }

  predicate LongEnough(o: Origin, s: System, i: Index) {
    o.c + One(s.threads[i].ended) <= |s.messages[i]| + 1
  }

  /** In the first cycle the machine is still the pipeline. */
  ghost predicate InFirstCycle(isa: Isa, a0: Arch, o: Origin, s: System) {
    s.m.hist.cycles == o.c ==>
      && Reachable(isa, a0, false, s.m)
      && (forall i: Index :: !s.threads[i].ended && (s.m.clock.half.First? ==> !s.threads[i].dying))
      && s.counter <= One(!s.threads[0].place.PostEdge?) && s.m.hist.halts <= One(Taken(s, 0))
      && s.m.hist.issued == o.n + One(s.m.clock.half.Second? && s.m.clock.doneID)
      && (s.m.clock.half.Second? && s.m.clock.doneID ==>
            s.m.sh.idEx.Some? && s.m.sh.idEx.value.fetched && IsHalt(s.m.sh.idEx.value))
  }

  ghost predicate After(isa: Isa, a0: Arch, o: Origin, s: System) {
    && Clocked(s) && 1 <= o.c <= s.m.hist.cycles && o.c <= |s.regsQueue| + 1
    && Alone(o, s) && InID(o, s)
    && (forall i: Index :: FlagAfter(s, i) && LongEnough(o, s, i))
    && InFirstCycle(isa, a0, o, s)
  }

  lemma HaltInHand(w: World, m: Machine)
    requires Good(w, m) && m.clock == FIRST_HALF && Counts(m)
    ensures !m.sh.ifStall && !m.sh.pcJump && m.sh.pcFlush <= 0 && !m.lo.idStall
    ensures m.sh.ifId.Some? && m.sh.ifId.value.fetched && IsHalt(m.sh.ifId.value)
    ensures m.sh.pc == At(w, m.hist.issued).pc && InstrAt(w, m.hist.issued).kind.Halt?
  {
    hide Inv, Order, Ids, Slots, Back, Scoreboard, Timing, Account, RolesOf, At, HaltCount, Agrees, Captured, HoldsNext,
         Counts;
    Unfold(w, m, RolesOf(m));
    CountFirstIF(w, m);
  }

  lemma EdgeClock(s: System)
    requires Clocked(s) && AllAt(s, Shutdown.PostEdge)
    ensures s.m.clock == FIRST_HALF
  {
    assert ClockAt(s, 0) && ClockAt(s, 1) && ClockAt(s, 2) && ClockAt(s, 3) && ClockAt(s, 4);
  }

  lemma FirstHaltIsAfter(isa: Isa, a0: Arch, s: System)
    requires FirstHalt(isa, a0, s)
    ensures After(isa, a0, OriginOf(s), s)
  {
    hide Reachable, Good, Counts, IsHalt, At, Clocked;
    EdgeClock(s);
    ReachGood(isa, a0, false, s.m);
    HaltInHand(WorldAt(isa, a0, s.m), s.m);
    CountsHasTask(s.m);
    assert AliveBefore(s, 0) && AliveBefore(s, 1);
    forall i: Index
      ensures FlagAfter(s, i) && LongEnough(OriginOf(s), s, i) && !s.threads[i].ended && !s.threads[i].dying
    {
      assert AliveBefore(s, i) && s.threads[i].place.PostEdge?;
    }
    assert s.threads[0].place.PostEdge? && s.threads[1].place.PostEdge? && s.threads[4].place.PostEdge?;
  }

  lemma CountsHasTask(m: Machine)
    requires Counts(m)
    ensures m.lo.ifTask.Some?
  {
  }

  /** At that edge the control is where `Shutdown` starts. */
  lemma FirstHaltIsStart(isa: Isa, a0: Arch, s: System)
    requires FirstHalt(isa, a0, s)
    ensures Shutdown.Start(View(s, OriginOf(s).c))
  {
    hide Reachable, Good, At, Clocked;
    var w := WorldAt(isa, a0, s.m);
    EdgeClock(s);
    ReachGood(isa, a0, false, s.m);
    HaltInHand(w, s.m);
    NoHaltBehind(w, s.m);
    var v := View(s, OriginOf(s).c);
    forall i: Index
      ensures AliveBefore(s, i) && s.threads[i].place.PostEdge? && v.threads[i] == ThreadView(s, OriginOf(s).c, i)
    {
      ViewThread(s, OriginOf(s).c, i);
    }
    assert s.threads[0].halt;
  }

  // ---------------------------------------------------------------- what a step does to the front end

  predicate FrontKept(m: Machine, m': Machine) {
    && m'.sh.pc == m.sh.pc && m'.sh.pcJump == m.sh.pcJump && m'.sh.pcFlush == m.sh.pcFlush
    && m'.sh.ifStall == m.sh.ifStall && m'.sh.ifId == m.sh.ifId
    && m'.lo.ifTask == m.lo.ifTask && m'.lo.idTask == m.lo.idTask && m'.lo.idStall == m.lo.idStall
    && m'.hist.issued == m.hist.issued && m'.hist.cycles == m.hist.cycles && m'.hist.halts == m.hist.halts
  }

  lemma BackStepsKeepFront(isa: Isa, m: Machine, i: Index)
    requires i >= 2
    ensures FrontKept(m, Fire(isa, m, StageOf(i)))
  {
    hide Compute, Executed, AddressOf, WrittenValue, ResetTo, Dest, Forwards, Exports;
  }

  lemma FirstIFAlone(isa: Isa, m: Machine)
    requires m.clock.half.First? && m.lo.ifTask.Some?
    requires !m.sh.ifStall && !m.sh.pcJump && m.sh.pcFlush <= 0
    ensures var m' := Fire(isa, m, IF);
      && m'.sh == m.sh.(pc := Advance(m.sh.pc), pcFlush := m.sh.pcFlush - 1)
      && m'.lo == m.lo.(ifTask := Some(Get(m.allocs, isa.fetch(Advance(m.sh.pc)), Advance(m.sh.pc))))
      && m'.hist == m.hist.(halts := m'.hist.halts) && m'.hist.halts <= m.hist.halts + 1
  {
    hide Advance, Counts, Get;
  }

  lemma SecondIFAlone(isa: Isa, m: Machine)
    requires m.clock.half.Second? && m.lo.ifTask.Some?
    ensures var m' := Fire(isa, m, IF);
      m'.sh == m.sh.(ifId := PushTask(m.sh.ifId, m.lo.ifTask.value)) && m'.lo == m.lo && m'.hist == m.hist
  {
  }

  lemma FirstIDTakes(isa: Isa, m: Machine)
    requires m.clock.half.First? && !m.lo.idStall && m.sh.pcFlush <= 0 && m.sh.ifId.Some?
    ensures var m' := Fire(isa, m, ID);
      && m'.sh == m.sh.(ifId := None, pcFlush := m.sh.pcFlush - 1, board := m'.sh.board)
      && m'.lo == m.lo.(idTask := m.sh.ifId.value, rsSeen := m'.lo.rsSeen, rtSeen := m'.lo.rtSeen)
      && m'.hist == m.hist
  {
    CaptureSpec(PickID(m));
    hide CaptureID;
  }

  lemma SecondIDPasses(isa: Isa, m: Machine)
    requires m.clock.half.Second? && m.lo.idTask.fetched && IsHalt(m.lo.idTask) && m.sh.idEx.None?
    ensures var m' := Fire(isa, m, ID);
      && m'.sh == m.sh.(ifStall := false, idEx := m'.sh.idEx, board := m'.sh.board)
      && m'.lo == m.lo.(idTask := m'.lo.idTask, idStall := false)
      && m'.sh.idEx == Some(m'.lo.idTask) && m'.lo.idTask.fetched && IsHalt(m'.lo.idTask)
      && m'.hist.issued == m.hist.issued + 1 && m'.hist.cycles == m.hist.cycles && m'.hist.halts == m.hist.halts
  {
    hide ReserveDest;
  }

  lemma EmptyAhead(isa: Isa, a0: Arch, m: Machine)
    requires Reachable(isa, a0, false, m) && m.clock.half.Second? && !m.clock.doneID
    ensures m.sh.idEx.None?
  {
    hide Reachable, Inv, Agrees, Order, Ids, Back, Scoreboard, FrontEnd, Timing, Account, RolesOf;
    ReachGood(isa, a0, false, m);
    Unfold(WorldAt(isa, a0, m), m, RolesOf(m));
  }

  // ---------------------------------------------------------------- each move keeps the invariant

  /** The clauses that say nothing about the machine but what thread i has just done. */
  lemma OthersAfter(o: Origin, s: System, s': System, i: Index)
    requires Steps(s, s', i) && Apart(s.m, s'.m, i)
    requires forall j: Index :: FlagAfter(s, j) && LongEnough(o, s, j)
    requires FlagAfter(s', i) && LongEnough(o, s', i)
    ensures forall j: Index :: FlagAfter(s', j) && LongEnough(o, s', j)
  {
    hide IsHalt, TaskAt;
    forall j: Index ensures FlagAfter(s', j) && LongEnough(o, s', j) {
      if j != i { assert FlagAfter(s, j) && LongEnough(o, s, j); }
    }
  }

  lemma ReportIFAfter(isa: Isa, a0: Arch, o: Origin, s: System, text: string)
    requires After(isa, a0, o, s) && s.threads[0].place.PostEdge?
    ensures After(isa, a0, o, Move(isa, s, 0, text))
  {
    hide Reachable, IsHalt, Advance, Clocked, ClockAt, StageOf;
    ClockedMove(isa, s, 0, text);
    MoveSteps(isa, s, 0, text);
    assert FlagAfter(s, 0) && LongEnough(o, s, 0);
    ClockOf(s, 0);
    NotMortuary(s, 0);
    var s' := Move(isa, s, 0, text);
    assert Apart(s.m, s'.m, 0);
    assert FlagAfter(s', 0) && LongEnough(o, s', 0);
    OthersAfter(o, s, s', 0);
  }

  lemma NotMortuary(s: System, i: Index)
    requires ClockAt(s, i) && s.threads[i].place.PostEdge?
    ensures s.m.clock.half.First? && !Taken(s, i) && !s.m.clock.Done(StageOf(i))
  {
  }

  lemma ReportOtherSpec(isa: Isa, s: System, i: Index, text: string)
    requires s.threads[i].place.PostEdge? && i != 0
    ensures var s', t, t' := Move(isa, s, i, text), s.threads[i], Move(isa, s, i, text).threads[i];
      && s' == s.(threads := s.threads[i := t'], m := s.m.(lo := s'.m.lo),
                  messages := s.messages[i := s'.messages[i]], regsQueue := s'.regsQueue)
      && t' == t.(place := t'.place, ended := t.ended || t.dying) && (t'.place.Mortuary? || t'.place.Top?)
      && s'.m.lo.ifTask == s.m.lo.ifTask && s'.m.lo.idStall == s.m.lo.idStall
      && (!t.dying ==> s'.m.lo == s.m.lo)
      && (forall j: Index :: j != i ==> TaskAt(s'.m, j) == TaskAt(s.m, j))
      && |s'.messages[i]| >= |s.messages[i]| + One(t'.ended) - One(t.ended)
      && |s'.regsQueue| >= |s.regsQueue|
  {
    hide DiffOf;
  }

  /** A thread behind IF that reports. */
  predicate OnlyReports(s: System, s': System, i: Index) {
    var t, t' := s.threads[i], s'.threads[i];
    && i != 0 && s'.threads == s.threads[i := t']
    && t' == t.(place := t'.place, ended := t.ended || t.dying) && (t'.place.Mortuary? || t'.place.Top?)
    && s' == s.(threads := s'.threads, m := s.m.(lo := s'.m.lo), messages := s'.messages, regsQueue := s'.regsQueue)
    && s'.m.lo.ifTask == s.m.lo.ifTask && s'.m.lo.idStall == s.m.lo.idStall && (!t.dying ==> s'.m.lo == s.m.lo)
    && (i != 1 ==> s'.m.lo.idTask == s.m.lo.idTask)
    && t.place.PostEdge? && s.m.clock.half.First?
  }

  lemma ReportsAlone(o: Origin, s: System, s': System, i: Index)
    requires Alone(o, s) && OnlyReports(s, s', i)
    ensures Alone(o, s')
  {
    hide IsHalt, Ahead;
  }

  lemma ReportsInID(o: Origin, s: System, s': System, i: Index)
    requires InID(o, s) && OnlyReports(s, s', i)
    ensures InID(o, s')
  {
    hide IsHalt;
  }

  lemma ReportsFirst(isa: Isa, a0: Arch, o: Origin, s: System, s': System, i: Index)
    requires InFirstCycle(isa, a0, o, s) && OnlyReports(s, s', i)
    ensures InFirstCycle(isa, a0, o, s')
  {
    hide Reachable, IsHalt;
  }

  lemma ReportOtherAfter(isa: Isa, a0: Arch, o: Origin, s: System, i: Index, text: string)
    requires After(isa, a0, o, s) && s.threads[i].place.PostEdge? && i != 0
    ensures After(isa, a0, o, Move(isa, s, i, text))
  {
    hide Reachable, IsHalt, Clocked, ClockAt, StageOf, Move, TaskAt, Alone, InID, InFirstCycle, Steps;
    var s' := Move(isa, s, i, text);
    ClockedMove(isa, s, i, text);
    MoveSteps(isa, s, i, text);
    ReportOtherSpec(isa, s, i, text);
    assert FlagAfter(s, i) && LongEnough(o, s, i);
    ClockOf(s, i);
    NotMortuary(s, i);
    SameIDTask(s.m, s'.m, i);
    assert FlagAfter(s', i) && LongEnough(o, s', i);
    OthersAfter(o, s, s', i);
    ReportsAlone(o, s, s', i);
    ReportsInID(o, s, s', i);
    ReportsFirst(isa, a0, o, s, s', i);
  }

  lemma SameIDTask(m: Machine, m': Machine, i: Index)
    requires forall j: Index :: j != i ==> TaskAt(m', j) == TaskAt(m, j)
    ensures i != 1 ==> m'.lo.idTask == m.lo.idTask
  {
    if i != 1 { assert TaskAt(m', 1) == TaskAt(m, 1); }
  }

  lemma ClockOf(s: System, i: Index)
    requires Clocked(s)
    ensures ClockAt(s, i)
  {
  }
  lemma TakeSpec(isa: Isa, s: System, i: Index, text: string)
    requires s.threads[i].place.Top? && s.m.clock.half.First?
    ensures var s', t, t' := Move(isa, s, i, text), s.threads[i], Move(isa, s, i, text).threads[i];
      && s' == s.(threads := s.threads[i := t'], m := Fire(isa, s.m, StageOf(i)), pcQueue := s'.pcQueue)
      && t' == t.(place := Shutdown.AtRising, halt := IsHalt(TaskAt(s'.m, i)))
      && s'.pcQueue == (if i == 0 then s.pcQueue + [s'.m.sh.pc] else s.pcQueue)
  {
    hide Fire, TaskAt;
  }

  /** The part of `After` that looks at one thread, and at the clock. */
  lemma TakeFlags(isa: Isa, a0: Arch, o: Origin, s: System, i: Index, text: string)
    requires After(isa, a0, o, s) && s.threads[i].place.Top?
    ensures s.m.clock.half.First? && !s.threads[i].ended && !s.m.clock.Done(StageOf(i))
    ensures var s' := Move(isa, s, i, text);
      && Clocked(s') && Steps(s, s', i) && s'.m == Fire(isa, s.m, StageOf(i)) && Apart(s.m, s'.m, i)
      && (forall j: Index :: FlagAfter(s', j) && LongEnough(o, s', j))
  {
    hide Alone, InID, InFirstCycle, Fire, Clocked;
    ClockOf(s, i);
    ClockedMove(isa, s, i, text);
    MoveSteps(isa, s, i, text);
    TakeSpec(isa, s, i, text);
    FireApart(isa, s.m, i);
    hide Move, StageOf, Apart;
    assert FlagAfter(s, i) && LongEnough(o, s, i);
    OthersAfter(o, s, Move(isa, s, i, text), i);
  }

  lemma StillPipeline(isa: Isa, a0: Arch, o: Origin, s: System)
    requires InFirstCycle(isa, a0, o, s) && s.m.hist.cycles == o.c
    ensures Reachable(isa, a0, false, s.m)
  {
    hide Reachable;
  }

  /** Taking a task in the first cycle. */
  lemma FirstCycleTakes(isa: Isa, a0: Arch, o: Origin, s: System, s': System, i: Index)
    requires InFirstCycle(isa, a0, o, s) && Steps(s, s', i) && s.m.clock.half.First?
    requires s.threads[i].place.Top?
    requires s'.threads[i] == s.threads[i].(place := Shutdown.AtRising, halt := s'.threads[i].halt)
    requires s'.m.hist.issued == s.m.hist.issued && s'.m.hist.cycles == s.m.hist.cycles && s'.counter == s.counter
    requires s'.m.hist.halts <= s.m.hist.halts + One(i == 0)
    requires s.m.hist.cycles == o.c ==> Reachable(isa, a0, false, s'.m)
    ensures InFirstCycle(isa, a0, o, s')
  {
    hide Reachable, IsHalt, StageOf;
  }

  lemma AloneFetches(isa: Isa, o: Origin, s: System, s': System)
    requires Alone(o, s) && !s.threads[0].ended && s.m.clock.half.First?
    requires s'.m == Fire(isa, s.m, IF) && s'.pcQueue == s.pcQueue + [s'.m.sh.pc]
    requires s'.threads[0] == s.threads[0].(place := Shutdown.AtRising, halt := IsHalt(TaskAt(s'.m, 0)))
    ensures Alone(o, s')
    ensures TaskAt(s'.m, 0).instr == isa.fetch(Ahead(o.pc, |s.pcQueue| + 1 - o.c))
    ensures s'.m.hist.halts <= s.m.hist.halts + 1 && s'.m.hist == s.m.hist.(halts := s'.m.hist.halts)
    ensures s'.m.sh.ifId == s.m.sh.ifId && s'.m.lo == s.m.lo.(ifTask := s'.m.lo.ifTask)
  {
    hide Fire, IsHalt, Advance;
    FirstIFAlone(isa, s.m);
  }

  lemma TakeIFAfter(isa: Isa, a0: Arch, o: Origin, s: System, text: string)
    requires After(isa, a0, o, s) && s.threads[0].place.Top?
    ensures After(isa, a0, o, Move(isa, s, 0, text))
    ensures TaskAt(Move(isa, s, 0, text).m, 0).instr == isa.fetch(Ahead(o.pc, |s.pcQueue| + 1 - o.c))
  {
    hide Reachable, Fire, Clocked, Move, FlagAfter, LongEnough, IsHalt, Apart, Advance, TaskAt, Alone, InFirstCycle;
    var m, s' := s.m, Move(isa, s, 0, text);
    TakeFlags(isa, a0, o, s, 0, text);
    TakeSpec(isa, s, 0, text);
    AloneFetches(isa, o, s, s');
    if m.hist.cycles == o.c { StillPipeline(isa, a0, o, s); ReachFire(isa, a0, false, m, IF); }
    FirstCycleTakes(isa, a0, o, s, s', 0);
  }

  lemma AloneInID(isa: Isa, o: Origin, s: System, s': System)
    requires Alone(o, s) && InID(o, s) && s.m.clock.half.First?
    requires !s.threads[1].dying && !s.threads[1].place.AtRising?
    requires s'.m == Fire(isa, s.m, ID) && s'.pcQueue == s.pcQueue && s'.m.clock.half == s.m.clock.half
    requires s'.threads == s.threads[1 := s.threads[1].(place := Shutdown.AtRising, halt := IsHalt(TaskAt(s'.m, 1)))]
    ensures Alone(o, s') && InID(o, s') && s'.m.hist == s.m.hist
  {
    hide Fire, Ahead;
    FirstIDTakes(isa, s.m);
  }

  lemma TakeIDAfter(isa: Isa, a0: Arch, o: Origin, s: System, text: string)
    requires After(isa, a0, o, s) && s.threads[1].place.Top?
    ensures After(isa, a0, o, Move(isa, s, 1, text))
  {
    hide Reachable, Fire, Clocked, Move, FlagAfter, LongEnough, IsHalt, Apart, Advance, TaskAt, Alone, InFirstCycle,
         InID;
    var m, s' := s.m, Move(isa, s, 1, text);
    TakeFlags(isa, a0, o, s, 1, text);
    TakeSpec(isa, s, 1, text);
    TopLives(s, 1) by { ClockOf(s, 1); }
    AloneInID(isa, o, s, s');
    if m.hist.cycles == o.c { StillPipeline(isa, a0, o, s); ReachFire(isa, a0, false, m, ID); }
    FirstCycleTakes(isa, a0, o, s, s', 1);
  }

  lemma TopLives(s: System, i: Index)
    requires ClockAt(s, i) && s.threads[i].place.Top?
    ensures !s.threads[i].dying && !s.threads[i].ended
  {
  }

  /** A step of EX, DM or WB leaves the front end alone. */
  lemma BackAfter(isa: Isa, a0: Arch, o: Origin, s: System, s': System, i: Index)
    requires After(isa, a0, o, s) && i >= 2 && Steps(s, s', i) && Clocked(s') && FrontKept(s.m, s'.m)
    requires s'.pcQueue == s.pcQueue && s'.counter == s.counter && |s.regsQueue| <= |s'.regsQueue|
    requires forall j: Index :: FlagAfter(s', j) && LongEnough(o, s', j)
    requires s.m.hist.cycles == o.c ==> Reachable(isa, a0, false, s'.m)
    requires s'.threads[i].ended == s.threads[i].ended && s'.threads[i].dying == s.threads[i].dying
    requires s.m.clock.half.Second? ==> s'.m.sh.idEx == s.m.sh.idEx && s'.m.clock.doneID == s.m.clock.doneID
    ensures After(isa, a0, o, s')
  {
    hide Clocked, FlagAfter, LongEnough, IsHalt, Reachable, Advance;
    AloneKept(o, s, s', i);
    InIDKept(o, s, s', i);
    hide Alone, InID, FrontKept;
    FirstCycleKept(isa, a0, o, s, s', i);
  }

  lemma AloneKept(o: Origin, s: System, s': System, i: Index)
    requires Alone(o, s) && i >= 2 && Steps(s, s', i) && FrontKept(s.m, s'.m) && s'.pcQueue == s.pcQueue
    ensures Alone(o, s')
  {
    hide IsHalt, Ahead;
  }

  lemma InIDKept(o: Origin, s: System, s': System, i: Index)
    requires InID(o, s) && i >= 2 && Steps(s, s', i) && FrontKept(s.m, s'.m)
    ensures InID(o, s')
  {
    hide IsHalt;
  }

  lemma FirstCycleKept(isa: Isa, a0: Arch, o: Origin, s: System, s': System, i: Index)
    requires InFirstCycle(isa, a0, o, s) && i >= 2 && Steps(s, s', i)
    requires s'.m.hist.issued == s.m.hist.issued && s'.m.hist.cycles == s.m.hist.cycles && s'.counter == s.counter
    requires s.m.hist.cycles == o.c ==> Reachable(isa, a0, false, s'.m)
    requires s'.m.hist.halts == s.m.hist.halts
    requires s'.threads[i].ended == s.threads[i].ended && s'.threads[i].dying == s.threads[i].dying
    requires s.m.clock.half.Second? ==> s'.m.sh.idEx == s.m.sh.idEx && s'.m.clock.doneID == s.m.clock.doneID
    ensures InFirstCycle(isa, a0, o, s')
  {
    hide Reachable, IsHalt, StageOf;
  }

  lemma TakeBackAfter(isa: Isa, a0: Arch, o: Origin, s: System, i: Index, text: string)
    requires After(isa, a0, o, s) && s.threads[i].place.Top? && i >= 2
    ensures After(isa, a0, o, Move(isa, s, i, text))
  {
    var m := s.m;
    TakeFlags(isa, a0, o, s, i, text);
    TakeSpec(isa, s, i, text);
    BackStepsKeepFront(isa, m, i);
    if m.hist.cycles == o.c { ReachFire(isa, a0, false, m, StageOf(i)); }
    hide Reachable, Fire, Clocked, Move, FlagAfter, LongEnough, IsHalt, Apart, StageOf, Steps, FrontKept, After, TaskAt;
    BackAfter(isa, a0, o, s, Move(isa, s, i, text), i);
  }

  // ---------------------------------------------------------------- the mortuary loop

  /** A step that only moves thread i on. */
  predicate OnlyMovesOn(s: System, s': System, i: Index) {
    && Steps(s, s', i) && s'.m == s.m.(clock := s'.m.clock)
    && s' == s.(threads := s'.threads, m := s'.m, dead := s'.dead)
    && s'.threads[i].halt == s.threads[i].halt && s'.threads[i].ended == s.threads[i].ended
    && (s.threads[i].dying ==> s'.threads[i].dying)
    && !s.threads[i].place.PostEdge? && !s'.threads[i].place.PostEdge?
  }

  lemma QuietAfter(isa: Isa, a0: Arch, o: Origin, s: System, s': System, i: Index)
    requires After(isa, a0, o, s) && OnlyMovesOn(s, s', i) && Clocked(s')
    requires i == 1 ==> s'.threads[1].dying
    requires FlagAfter(s', i)
    requires s.m.hist.cycles == o.c ==> s'.m == s.m && s.m.clock.half.Second?
    ensures After(isa, a0, o, s')
  {
    hide Reachable, IsHalt, Clocked, InID, Alone, InFirstCycle, TaskAt, StageOf;
    QuietAlone(o, s, s', i);
    QuietInID(o, s, s', i);
    QuietFirst(isa, a0, o, s, s', i);
    assert FlagAfter(s, i) && LongEnough(o, s, i);
    QuietApart(s, s', i);
    OthersAfter(o, s, s', i);
  }

  lemma QuietApart(s: System, s': System, i: Index)
    requires OnlyMovesOn(s, s', i)
    ensures Apart(s.m, s'.m, i)
  {
    hide StageOf;
  }

  lemma QuietAlone(o: Origin, s: System, s': System, i: Index)
    requires Alone(o, s) && OnlyMovesOn(s, s', i)
    ensures Alone(o, s')
  {
    hide IsHalt, Ahead, StageOf;
  }

  lemma QuietInID(o: Origin, s: System, s': System, i: Index)
    requires InID(o, s) && OnlyMovesOn(s, s', i) && (i == 1 ==> s'.threads[1].dying)
    ensures InID(o, s')
  {
    hide IsHalt, StageOf;
  }

  lemma QuietFirst(isa: Isa, a0: Arch, o: Origin, s: System, s': System, i: Index)
    requires InFirstCycle(isa, a0, o, s) && OnlyMovesOn(s, s', i)
    requires s.m.hist.cycles == o.c ==> s'.m == s.m && s.m.clock.half.Second?
    ensures InFirstCycle(isa, a0, o, s')
  {
    hide Reachable, IsHalt, StageOf;
  }

  /** A thread that has ended only goes to the edges. */
  lemma EndedAfter(isa: Isa, a0: Arch, o: Origin, s: System, s': System, i: Index)
    requires After(isa, a0, o, s) && s.threads[i].ended && OnlyMovesOn(s, s', i) && Clocked(s')
    ensures After(isa, a0, o, s')
  {
    ClockOf(s, i);
    NotInFirstCycle(isa, a0, o, s, i);
    hide After, Clocked, StageOf, TaskAt, IsHalt;
    QuietAfter(isa, a0, o, s, s', i);
  }

  lemma NotInFirstCycle(isa: Isa, a0: Arch, o: Origin, s: System, i: Index)
    requires After(isa, a0, o, s) && s.threads[i].ended
    ensures s.m.hist.cycles != o.c
  {
    hide Reachable, Clocked, Alone, InID;
  }

  lemma LookAroundAfter(isa: Isa, a0: Arch, o: Origin, s: System, i: Index, text: string)
    requires After(isa, a0, o, s) && s.threads[i].place.Mortuary?
    ensures After(isa, a0, o, Move(isa, s, i, text))
  {
    hide After, Clocked, IsHalt;
    AfterIsClocked(isa, a0, o, s, i);
    ClockedMove(isa, s, i, text);
    MoveSteps(isa, s, i, text);
    EndedAfter(isa, a0, o, s, Move(isa, s, i, text), i);
  }

  lemma AfterIsClocked(isa: Isa, a0: Arch, o: Origin, s: System, i: Index)
    requires After(isa, a0, o, s)
    ensures Clocked(s) && ClockAt(s, i)
  {
    hide Alone, InID, InFirstCycle, ClockAt;
  }

  // ---------------------------------------------------------------- between the edges

  lemma WorkSpec(isa: Isa, s: System, i: Index, text: string)
    requires s.threads[i].place.Work? && !s.threads[i].ended && s.m.lo.ifTask.Some?
    ensures Move(isa, s, i, text) == Put(s, i, s.threads[i].(place := Shutdown.Tally)).(m := Fire(isa, s.m, StageOf(i)))
  {
    hide Fire;
  }

  lemma WorkFlags(isa: Isa, a0: Arch, o: Origin, s: System, i: Index, text: string)
    requires After(isa, a0, o, s) && s.threads[i].place.Work? && !s.threads[i].ended
    ensures s.m.clock.half.Second? && !s.m.clock.Done(StageOf(i)) && !s.threads[i].dying
    ensures var s' := Move(isa, s, i, text);
      && Clocked(s') && Steps(s, s', i) && s'.m == Fire(isa, s.m, StageOf(i)) && Apart(s.m, s'.m, i)
      && (forall j: Index :: FlagAfter(s', j) && LongEnough(o, s', j))
  {
    ClockOf(s, i);
    WorkKind(isa, s.m, i);
    hide InID, InFirstCycle, Fire, Clocked;
    ClockedMove(isa, s, i, text);
    MoveSteps(isa, s, i, text);
    WorkSpec(isa, s, i, text);
    FireApart(isa, s.m, i);
    hide Move, StageOf, Apart, IsHalt, TaskAt;
    assert FlagAfter(s, i) && LongEnough(o, s, i);
    OthersAfter(o, s, Move(isa, s, i, text), i);
  }

  /** A task keeps its opcode while its thread works on it. */
  lemma WorkKind(isa: Isa, m: Machine, i: Index)
    requires m.clock.half.Second? && m.lo.ifTask.Some?
    ensures IsHalt(TaskAt(Fire(isa, m, StageOf(i)), i)) == IsHalt(TaskAt(m, i))
  {
    hide FirstIF, FirstID, FirstEX, FirstDM, FirstWB;
    if i == 1 { DecideKeepsKind(isa, m.sh, m.lo); }
    hide Decide, ReserveDest, Transfer, AddressOf, Dest, Forwards;
  }

  lemma DecideKeepsKind(isa: Isa, sh: Shared, lo: Locals)
    ensures Decide(isa, sh, lo).task.instr == lo.idTask.instr
  {
    hide Acquire, Resolve;
  }

  lemma AlonePushes(isa: Isa, o: Origin, s: System, s': System)
    requires Alone(o, s) && s.m.clock.half.Second?
    requires s'.m == Fire(isa, s.m, IF) && s'.pcQueue == s.pcQueue
    requires s'.threads[0] == s.threads[0].(place := Shutdown.Tally)
    ensures Alone(o, s') && s'.m.hist == s.m.hist && s'.m.lo == s.m.lo && s'.m.sh == s.m.sh.(ifId := s'.m.sh.ifId)
  {
    hide Fire, Ahead, IsHalt;
    SecondIFAlone(isa, s.m);
  }

  /** Working between the edges in the first cycle. */
  lemma FirstCycleWorks(isa: Isa, a0: Arch, o: Origin, s: System, s': System, i: Index)
    requires InFirstCycle(isa, a0, o, s) && Steps(s, s', i) && s.m.clock.half.Second?
    requires s.threads[i].place.Work? && s'.threads[i] == s.threads[i].(place := Shutdown.Tally)
    requires s'.m.hist.cycles == s.m.hist.cycles && s'.counter == s.counter && s'.m.hist.halts == s.m.hist.halts
    requires if i == 1
             then s'.m.hist.issued == s.m.hist.issued + 1 && !s.m.clock.doneID && s'.m.clock.doneID &&
                  s'.m.sh.idEx.Some? && s'.m.sh.idEx.value.fetched && IsHalt(s'.m.sh.idEx.value)
             else s'.m.hist.issued == s.m.hist.issued && s'.m.sh.idEx == s.m.sh.idEx &&
                  s'.m.clock.doneID == s.m.clock.doneID
    requires s.m.hist.cycles == o.c ==> Reachable(isa, a0, false, s'.m)
    ensures InFirstCycle(isa, a0, o, s')
  {
    hide Reachable, IsHalt, StageOf;
  }

  lemma WorkIFAfter(isa: Isa, a0: Arch, o: Origin, s: System, text: string)
    requires After(isa, a0, o, s) && s.threads[0].place.Work? && !s.threads[0].ended
    ensures After(isa, a0, o, Move(isa, s, 0, text))
  {
    hide Reachable, Fire, Clocked, Move, FlagAfter, LongEnough, IsHalt, Apart, Advance, TaskAt, Alone, InFirstCycle;
    var m, s' := s.m, Move(isa, s, 0, text);
    TaskInHand(isa, a0, o, s);
    WorkFlags(isa, a0, o, s, 0, text);
    WorkSpec(isa, s, 0, text);
    AlonePushes(isa, o, s, s');
    FireClock(isa, m, IF);
    if m.hist.cycles == o.c { StillPipeline(isa, a0, o, s); ReachFire(isa, a0, false, m, IF); }
    FirstCycleWorks(isa, a0, o, s, s', 0);
  }

  lemma PassesInID(isa: Isa, o: Origin, s: System, s': System)
    requires Alone(o, s) && InID(o, s) && s.m.clock.half.Second? && !s.threads[1].dying && s.m.sh.idEx.None?
    requires s'.m == Fire(isa, s.m, ID) && s'.pcQueue == s.pcQueue && s'.m.clock.half == s.m.clock.half
    requires s'.threads == s.threads[1 := s.threads[1].(place := Shutdown.Tally)]
    ensures Alone(o, s') && InID(o, s')
    ensures s'.m.hist.cycles == s.m.hist.cycles && s'.m.hist.halts == s.m.hist.halts
    ensures s'.m.hist.issued == s.m.hist.issued + 1
    ensures s'.m.sh.idEx.Some? && s'.m.sh.idEx.value.fetched && IsHalt(s'.m.sh.idEx.value)
  {
    hide Fire, Ahead;
    SecondIDPasses(isa, s.m);
  }

  lemma WorkIDAfter(isa: Isa, a0: Arch, o: Origin, s: System, text: string)
    requires After(isa, a0, o, s) && s.threads[1].place.Work? && !s.threads[1].ended
    ensures After(isa, a0, o, Move(isa, s, 1, text))
  {
    hide Reachable, Fire, Clocked, Move, FlagAfter, LongEnough, IsHalt, Apart, Advance, TaskAt, Alone, InFirstCycle;
    var m, s' := s.m, Move(isa, s, 1, text);
    TaskInHand(isa, a0, o, s);
    WorkFlags(isa, a0, o, s, 1, text);
    WorkSpec(isa, s, 1, text);
    StillPipeline(isa, a0, o, s);
    EmptyAhead(isa, a0, m);
    PassesInID(isa, o, s, s');
    FireClock(isa, m, ID);
    ReachFire(isa, a0, false, m, ID);
    FirstCycleWorks(isa, a0, o, s, s', 1);
  }

  lemma WorkBackAfter(isa: Isa, a0: Arch, o: Origin, s: System, i: Index, text: string)
    requires After(isa, a0, o, s) && s.threads[i].place.Work? && !s.threads[i].ended && i >= 2
    ensures After(isa, a0, o, Move(isa, s, i, text))
  {
    var m := s.m;
    TaskInHand(isa, a0, o, s);
    WorkFlags(isa, a0, o, s, i, text);
    WorkSpec(isa, s, i, text);
    BackStepsKeepFront(isa, m, i);
    BackStepsKeepIssue(isa, m, i);
    if m.hist.cycles == o.c { ReachFire(isa, a0, false, m, StageOf(i)); }
    hide Reachable, Fire, Clocked, Move, FlagAfter, LongEnough, IsHalt, Apart, StageOf, Steps, FrontKept, After;
    BackAfter(isa, a0, o, s, Move(isa, s, i, text), i);
  }

  lemma TaskInHand(isa: Isa, a0: Arch, o: Origin, s: System)
    requires After(isa, a0, o, s)
    ensures s.m.lo.ifTask.Some?
  {
  }

  lemma BackStepsKeepIssue(isa: Isa, m: Machine, i: Index)
    requires i >= 2 && m.clock.half.Second?
    ensures Fire(isa, m, StageOf(i)).sh.idEx == m.sh.idEx
    ensures Fire(isa, m, StageOf(i)).clock.doneID == m.clock.doneID
  {
    hide Executed, AddressOf, Dest, Forwards;
  }

  lemma IdleAfter(isa: Isa, a0: Arch, o: Origin, s: System, i: Index, text: string)
    requires After(isa, a0, o, s) && s.threads[i].place.Work? && s.threads[i].ended
    ensures After(isa, a0, o, Move(isa, s, i, text))
  {
    hide After, Clocked, IsHalt, Do;
    AfterIsClocked(isa, a0, o, s, i);
    ClockedMove(isa, s, i, text);
    MoveSteps(isa, s, i, text);
    EndedAfter(isa, a0, o, s, Move(isa, s, i, text), i);
  }

  lemma TallyAfter(isa: Isa, a0: Arch, o: Origin, s: System, i: Index, text: string)
    requires After(isa, a0, o, s) && s.threads[i].place.Tally?
    ensures After(isa, a0, o, Move(isa, s, i, text))
  {
    hide Clocked, IsHalt, Alone, InFirstCycle, TaskAt, InID, FlagAfter;
    AfterIsClocked(isa, a0, o, s, i);
    ClockedMove(isa, s, i, text);
    MoveSteps(isa, s, i, text);
    assert FlagAfter(s, i);
    if i == 1 { HaltIsTallied(o, s); }
    TallyKeepsFlag(isa, s, i, text);
    QuietAfter(isa, a0, o, s, Move(isa, s, i, text), i);
  }

  lemma TallyKeepsFlag(isa: Isa, s: System, i: Index, text: string)
    requires s.threads[i].place.Tally? && FlagAfter(s, i) && ClockAt(s, i)
    ensures FlagAfter(Move(isa, s, i, text), i)
  {
    hide IsHalt, TaskAt, StageOf;
  }

  lemma HaltIsTallied(o: Origin, s: System)
    requires FlagAfter(s, 1) && InID(o, s) && ClockAt(s, 1) && s.threads[1].place.Tally?
    ensures s.threads[1].halt
  {
  }

  lemma MoveAfter(isa: Isa, a0: Arch, o: Origin, s: System, i: Index, text: string)
    requires After(isa, a0, o, s) && CanMove(s, i)
    ensures After(isa, a0, o, Move(isa, s, i, text))
  {
    hide After, Move;
    match s.threads[i].place
    case PostEdge =>
      if i == 0 { ReportIFAfter(isa, a0, o, s, text); }
      else { ReportOtherAfter(isa, a0, o, s, i, text); }
    case Top =>
      if i == 0 { TakeIFAfter(isa, a0, o, s, text); }
      else if i == 1 { TakeIDAfter(isa, a0, o, s, text); }
      else { TakeBackAfter(isa, a0, o, s, i, text); }
    case Mortuary => LookAroundAfter(isa, a0, o, s, i, text);
    case Work =>
      if s.threads[i].ended { IdleAfter(isa, a0, o, s, i, text); }
      else if i == 0 { WorkIFAfter(isa, a0, o, s, text); }
      else if i == 1 { WorkIDAfter(isa, a0, o, s, text); }
      else { WorkBackAfter(isa, a0, o, s, i, text); }
    case Tally => TallyAfter(isa, a0, o, s, i, text);
    case _ =>
  }

  lemma FlagsTogether(o: Origin, s: System)
    requires forall i: Index :: FlagAfter(s, i) && LongEnough(o, s, i)
    ensures forall i: Index :: FlagAfter(Together(s), i) && LongEnough(o, Together(s), i)
  {
    hide IsHalt, TaskAt;
    TogetherIs(s);
    hide Together;
    forall i: Index ensures FlagAfter(Together(s), i) && LongEnough(o, Together(s), i) {
      assert FlagAfter(s, i) && LongEnough(o, s, i);
      SameTaskAt(s, i);
    }
  }

  lemma TogetherIsAfter(isa: Isa, a0: Arch, o: Origin, s: System)
    requires After(isa, a0, o, s)
    requires s.m.hist.cycles == o.c ==> Reachable(isa, a0, false, Together(s).m)
    ensures After(isa, a0, o, Together(s))
  {
    hide Reachable, IsHalt, FlagAfter, LongEnough, Clocked, Ahead;
    ClockedTogether(s);
    FlagsTogether(o, s);
    SameTaskAt(s, 0);
    TogetherIs(s);
    hide Together, TaskAt;
  }

  lemma TogetherAfter(isa: Isa, a0: Arch, o: Origin, s: System, i: Index)
    requires After(isa, a0, o, s) && WorksAlong(s, i)
    ensures After(isa, a0, o, Together(Move(isa, s, i, "")))
  {
    hide After, Move, Together, Clocked, WorksAlong, Reachable;
    AlongMoves(s, i);
    MoveAfter(isa, a0, o, s, i, "");
    AlongSteps(isa, s, i);
    if s.m.hist.cycles == o.c {
      AfterIsPipeline(isa, a0, o, s, i);
      ReachTogether(isa, a0, s, i);
    }
    TogetherIsAfter(isa, a0, o, Move(isa, s, i, ""));
  }

  lemma AfterIsPipeline(isa: Isa, a0: Arch, o: Origin, s: System, i: Index)
    requires After(isa, a0, o, s) && s.m.hist.cycles == o.c
    ensures Reachable(isa, a0, false, s.m) && ClockAt(s, i)
  {
    hide Reachable, ClockAt;
  }

  lemma AlongSteps(isa: Isa, s: System, i: Index)
    requires WorksAlong(s, i)
    ensures Move(isa, s, i, "").m.hist.cycles == s.m.hist.cycles
  {
    hide Do, IsHalt;
    DoApart(isa, s.m, i);
  }

  lemma EdgeAfter(isa: Isa, a0: Arch, o: Origin, s: System)
    requires After(isa, a0, o, s)
    ensures AllAt(s, Shutdown.AtRising) ==> After(isa, a0, o, Rise(s))
    ensures AllAt(s, Shutdown.AtFalling) ==> After(isa, a0, o, Fall(s))
  {
    ClockedEdge(s);
    if AllAt(s, Shutdown.AtRising) { RiseAfter(isa, a0, o, s); }
    if AllAt(s, Shutdown.AtFalling) { FallAfter(isa, a0, o, s); }
  }

  lemma RiseAfter(isa: Isa, a0: Arch, o: Origin, s: System)
    requires After(isa, a0, o, s) && AllAt(s, Shutdown.AtRising)
    ensures After(isa, a0, o, Rise(s))
  {
    hide Reachable, IsHalt, Advance, Clocked;
    ClockedEdge(s);
    if s.m.hist.cycles == o.c { ReachEdge(isa, a0, false, s.m); }
    assert s.threads[0].place.AtRising? && s.threads[1].place.AtRising?;
    forall i: Index ensures FlagAfter(Rise(s), i) && LongEnough(o, Rise(s), i) {
      assert FlagAfter(s, i) && LongEnough(o, s, i) && s.threads[i].place.AtRising?;
    }
  }

  lemma FallAfter(isa: Isa, a0: Arch, o: Origin, s: System)
    requires After(isa, a0, o, s) && AllAt(s, Shutdown.AtFalling)
    ensures After(isa, a0, o, Fall(s))
  {
    hide Reachable, IsHalt, Advance, Clocked, RaceOf;
    ClockedEdge(s);
    assert s.threads[0].place.AtFalling? && s.threads[1].place.AtFalling?;
    forall i: Index ensures FlagAfter(Fall(s), i) && LongEnough(o, Fall(s), i) {
      assert FlagAfter(s, i) && LongEnough(o, s, i) && s.threads[i].place.AtFalling?;
    }
  }

  // ---------------------------------------------------------------- the same step in `Shutdown`

  /** The parts of the view but for the threads. */
  lemma ViewParts(s: System, c: nat)
    ensures var v := View(s, c);
      && v.slots == SlotsView(s.m.sh) && v.dead == s.dead && v.counter == s.counter
      && v.fetched == 1 + Less(|s.pcQueue|, c + One(s.threads[0].ended))
      && v.pcs == Less(|s.pcQueue|, c) && v.diffs == Less(|s.regsQueue|, c - 1)
      && v.edges == Less(s.m.hist.cycles, c) && v.second == s.m.clock.half.Second?
  {
  }

  /** The queues are at least as long as the view assumes. */
  predicate QueuesCover(s: System, c: nat) {
    && 1 <= c <= s.m.hist.cycles && c <= |s.regsQueue| + 1
    && c + One(s.threads[0].ended) <= |s.pcQueue|
    && forall i: Index :: c + One(s.threads[i].ended) <= |s.messages[i]| + 1
  }

  lemma AfterCovers(isa: Isa, a0: Arch, o: Origin, s: System)
    requires After(isa, a0, o, s)
    ensures QueuesCover(s, o.c)
  {
    hide Clocked, InID, InFirstCycle;
    forall i: Index ensures o.c + One(s.threads[i].ended) <= |s.messages[i]| + 1 { assert LongEnough(o, s, i); }
  }

  /** What of the view a step of thread i can change. */
  predicate ViewSteps(s: System, s': System, i: Index) {
    && s'.threads == s.threads[i := s'.threads[i]]
    && s'.messages == s.messages[i := s'.messages[i]]
    && s'.m.hist.cycles == s.m.hist.cycles && s'.m.clock.half == s.m.clock.half
  }

  lemma OtherThreads(s: System, s': System, c: nat, i: Index, j: Index)
    requires ViewSteps(s, s', i) && j != i
    ensures View(s', c).threads[j] == View(s, c).threads[j]
  {
    ViewThread(s, c, j);
    ViewThread(s', c, j);
  }

  /** The view after a step of thread i, part by part. */
  predicate StepView(s: System, s': System, c: nat, i: Index, v: Shutdown.State, v': Shutdown.State) {
    && v'.threads == v.threads[i := ThreadView(s', c, i)]
    && v'.slots == SlotsView(s'.m.sh) && v'.dead == s'.dead && v'.counter == s'.counter
    && v'.fetched == 1 + Less(|s'.pcQueue|, c + One(s'.threads[0].ended))
    && v'.pcs == Less(|s'.pcQueue|, c) && v'.diffs == Less(|s'.regsQueue|, c - 1)
    && v'.edges == v.edges && v'.second == v.second
  }

  lemma StepViewIs(s: System, s': System, c: nat, i: Index, v': Shutdown.State)
    requires ViewSteps(s, s', i) && StepView(s, s', c, i, View(s, c), v')
    ensures View(s', c) == v'
  {
    hide View, ThreadView, SlotsView;
    ViewParts(s, c);
    ViewParts(s', c);
    forall j: Index ensures View(s', c).threads[j] == v'.threads[j] {
      if j == i { ViewThread(s', c, i); } else { OtherThreads(s, s', c, i, j); }
    }
    assert View(s', c).threads == v'.threads;
  }

  /** To show that the view is v', show what thread i looks like and what else has changed. */
  lemma StepViewFrom(s: System, s': System, c: nat, i: Index, t': Shutdown.Thread, v': Shutdown.State)
    requires ViewSteps(s, s', i) && ThreadView(s', c, i) == t'
    requires v' == View(s, c).(threads := View(s, c).threads[i := t'], slots := v'.slots, dead := v'.dead,
                               counter := v'.counter, fetched := v'.fetched, pcs := v'.pcs, diffs := v'.diffs)
    requires v'.slots == SlotsView(s'.m.sh) && v'.dead == s'.dead && v'.counter == s'.counter
    requires v'.fetched == 1 + Less(|s'.pcQueue|, c + One(s'.threads[0].ended))
    requires v'.pcs == Less(|s'.pcQueue|, c) && v'.diffs == Less(|s'.regsQueue|, c - 1)
    ensures View(s', c) == v'
  {
    hide View, ThreadView, SlotsView;
    StepViewIs(s, s', c, i, v');
  }

  lemma MatchEnded(isa: Isa, o: Origin, s: System, i: Index, text: string)
    requires s.threads[i].place.PostEdge? && s.threads[i].ended
    ensures View(Move(isa, s, i, text), o.c) == Shutdown.Report(View(s, o.c), i)
  {
    hide View, SlotsView, IsHalt;
    ViewThread(s, o.c, i);
    ViewParts(s, o.c);
    var s', t' := Move(isa, s, i, text), View(s, o.c).threads[i].(place := Shutdown.Mortuary);
    StepViewFrom(s, s', o.c, i, t', Shutdown.Report(View(s, o.c), i));
  }

  lemma AliveSpec(isa: Isa, s: System, i: Index, text: string)
    requires s.threads[i].place.PostEdge? && i != 0 && !s.threads[i].ended && !s.threads[i].dying
    ensures var s' := Move(isa, s, i, text);
      && s' == s.(threads := s.threads[i := s.threads[i].(place := Shutdown.Top)],
                  messages := s.messages[i := s.messages[i] + [Line(text)]], regsQueue := s'.regsQueue)
      && |s'.regsQueue| == |s.regsQueue| + One(i == 4)
  {
    hide DiffOf;
  }

  lemma AliveReports(v: Shutdown.State, i: Index)
    requires v.threads[i].place.PostEdge? && i != 0 && !v.threads[i].ended && !v.threads[i].dying
    ensures var u := v.threads[i];
      Shutdown.Report(v, i) ==
      v.(threads := v.threads[i := u.(place := Shutdown.Top, messages := u.messages + 1)],
         diffs := v.diffs + One(i == 4))
  {
  }

  lemma MatchAlive(isa: Isa, a0: Arch, o: Origin, s: System, i: Index, text: string)
    requires QueuesCover(s, o.c) && s.threads[i].place.PostEdge? && i != 0
    requires !s.threads[i].ended && !s.threads[i].dying
    ensures View(Move(isa, s, i, text), o.c) == Shutdown.Report(View(s, o.c), i)
  {
    hide View, SlotsView, Move, Shutdown.Report;
    ViewThread(s, o.c, i);
    ViewParts(s, o.c);
    AliveSpec(isa, s, i, text);
    AliveReports(View(s, o.c), i);
    var u := View(s, o.c).threads[i];
    StepViewFrom(s, Move(isa, s, i, text), o.c, i, u.(place := Shutdown.Top, messages := u.messages + 1),
                 Shutdown.Report(View(s, o.c), i));
  }

  lemma DyingSpec(isa: Isa, s: System, i: Index, text: string)
    requires s.threads[i].place.PostEdge? && i != 0 && !s.threads[i].ended && s.threads[i].dying
    ensures var s' := Move(isa, s, i, text);
      && s' == s.(threads := s.threads[i := s.threads[i].(place := Shutdown.Mortuary, ended := true)],
                  messages := s.messages[i := s.messages[i] + [Line(text), End]],
                  m := s.m.(lo := s'.m.lo), regsQueue := s'.regsQueue)
      && |s'.regsQueue| == |s.regsQueue| + One(i == 4)
  {
    hide DiffOf;
  }

  lemma DyingReports(v: Shutdown.State, i: Index)
    requires v.threads[i].place.PostEdge? && i != 0 && !v.threads[i].ended && v.threads[i].dying
    ensures var u := v.threads[i];
      Shutdown.Report(v, i) ==
      v.(threads := v.threads[i := u.(place := Shutdown.Mortuary, ended := true, messages := u.messages + 1)],
         diffs := v.diffs + One(i == 4))
  {
  }

  lemma MatchDying(isa: Isa, a0: Arch, o: Origin, s: System, i: Index, text: string)
    requires QueuesCover(s, o.c) && s.threads[i].place.PostEdge? && i != 0
    requires !s.threads[i].ended && s.threads[i].dying
    ensures View(Move(isa, s, i, text), o.c) == Shutdown.Report(View(s, o.c), i)
  {
    hide View, SlotsView, Move, Shutdown.Report;
    ViewThread(s, o.c, i);
    ViewParts(s, o.c);
    DyingSpec(isa, s, i, text);
    DyingReports(View(s, o.c), i);
    var u := View(s, o.c).threads[i];
    StepViewFrom(s, Move(isa, s, i, text), o.c, i,
                 u.(place := Shutdown.Mortuary, ended := true, messages := u.messages + 1),
                 Shutdown.Report(View(s, o.c), i));
  }

  /** IF, when nothing holds its count back. */
  lemma ReportIFSpec(isa: Isa, s: System, text: string)
    requires s.threads[0].place.PostEdge? && !s.threads[0].ended
    requires !s.m.sh.ifStall && s.m.sh.pcFlush <= 0
    ensures var s', t, n := Move(isa, s, 0, text), s.threads[0], s.counter + One(s.threads[0].halt);
      if t.halt && n >= 4 then
        && s' == s.(threads := s.threads[0 := t.(place := Shutdown.Mortuary, dying := true, ended := true)],
                    messages := s.messages[0 := s.messages[0] + [Line(text), End]],
                    m := s.m.(sh := UpdatePC(s.m.sh, true)), counter := n, dead := s.dead + 1, pcQueue := s'.pcQueue)
        && |s'.pcQueue| == |s.pcQueue| + 1
      else
        s' == s.(threads := s.threads[0 := t.(place := Shutdown.Top)],
                 messages := s.messages[0 := s.messages[0] + [Line(text)]], counter := n)
  {
    hide UpdatePC;
  }

  lemma IFReports(v: Shutdown.State)
    requires v.threads[0].place.PostEdge? && !v.threads[0].ended
    ensures var u, n := v.threads[0], v.counter + One(v.threads[0].halt);
      Shutdown.Report(v, 0) ==
      if u.halt && n >= 4 then
        v.(threads := v.threads[0 := u.(place := Shutdown.Mortuary, dying := true, ended := true,
                                        messages := u.messages + 1)],
           counter := n, dead := v.dead + 1, pcs := v.pcs + 1)
      else v.(threads := v.threads[0 := u.(place := Shutdown.Top, messages := u.messages + 1)], counter := n)
  {
  }

  lemma MatchLastIF(isa: Isa, o: Origin, s: System, text: string)
    requires QueuesCover(s, o.c) && s.threads[0].place.PostEdge? && !s.threads[0].ended
    requires !s.m.sh.ifStall && s.m.sh.pcFlush <= 0
    requires s.threads[0].halt && s.counter + 1 >= 4
    ensures View(Move(isa, s, 0, text), o.c) == Shutdown.Report(View(s, o.c), 0)
  {
    hide UpdatePC, View, SlotsView, Move, Shutdown.Report;
    ViewThread(s, o.c, 0);
    ViewParts(s, o.c);
    UpdateKeepsSlots(s.m.sh);
    ReportIFSpec(isa, s, text);
    IFReports(View(s, o.c));
    var u := View(s, o.c).threads[0];
    StepViewFrom(s, Move(isa, s, 0, text), o.c, 0,
                 u.(place := Shutdown.Mortuary, dying := true, ended := true, messages := u.messages + 1),
                 Shutdown.Report(View(s, o.c), 0));
  }

  lemma MatchCountingIF(isa: Isa, o: Origin, s: System, text: string)
    requires QueuesCover(s, o.c) && s.threads[0].place.PostEdge? && !s.threads[0].ended
    requires !s.m.sh.ifStall && s.m.sh.pcFlush <= 0
    requires !(s.threads[0].halt && s.counter + 1 >= 4)
    ensures View(Move(isa, s, 0, text), o.c) == Shutdown.Report(View(s, o.c), 0)
  {
    hide UpdatePC, View, SlotsView, Move, Shutdown.Report;
    ViewThread(s, o.c, 0);
    ViewParts(s, o.c);
    ReportIFSpec(isa, s, text);
    IFReports(View(s, o.c));
    var u := View(s, o.c).threads[0];
    StepViewFrom(s, Move(isa, s, 0, text), o.c, 0, u.(place := Shutdown.Top, messages := u.messages + 1),
                 Shutdown.Report(View(s, o.c), 0));
  }

  lemma UpdateKeepsSlots(sh: Shared)
    ensures SlotsView(UpdatePC(sh, true)) == SlotsView(sh)
  {
  }

  lemma MatchReport(isa: Isa, a0: Arch, o: Origin, s: System, i: Index, text: string)
    requires After(isa, a0, o, s) && s.threads[i].place.PostEdge?
    ensures View(Move(isa, s, i, text), o.c) == Shutdown.Move(HaltWords(isa, o.pc), View(s, o.c), i)
  {
    hide InID, InFirstCycle, Clocked, View, Move, Shutdown.Report, FlagAfter, LongEnough;
    AfterCovers(isa, a0, o, s);
    ViewThread(s, o.c, i);
    if s.threads[i].ended { MatchEnded(isa, o, s, i, text); }
    else if i == 0 && s.threads[0].halt && s.counter + 1 >= 4 { MatchLastIF(isa, o, s, text); }
    else if i == 0 { MatchCountingIF(isa, o, s, text); }
    else if s.threads[i].dying { MatchDying(isa, a0, o, s, i, text); }
    else { MatchAlive(isa, a0, o, s, i, text); }
  }

  // ---- taking a task

  /** What taking a task does to the HALT flags of the stage registers. */
  lemma BackStepsTake(isa: Isa, m: Machine, i: Index)
    requires i >= 2 && m.clock.half.First?
    ensures var m' := Fire(isa, m, StageOf(i));
      && SlotsView(m'.sh) == SlotsView(m.sh)[i - 1 := None]
      && IsHalt(TaskAt(m', i)) == (SlotsView(m.sh)[i - 1] == Some(true))
  {
    hide Compute, AddressOf, WrittenValue, ResetTo, Dest, Forwards, Exports;
  }

  lemma FireTime(isa: Isa, m: Machine, i: Index)
    requires i == 0 && m.clock.half.Second? ==> m.lo.ifTask.Some?
    ensures Fire(isa, m, StageOf(i)).hist.cycles == m.hist.cycles
    ensures Fire(isa, m, StageOf(i)).clock.half == m.clock.half
  {
    FireApart(isa, m, i);
    FireClock(isa, m, StageOf(i));
    hide Fire;
  }

  lemma OthersTake(halts: nat -> bool, v: Shutdown.State, i: Index)
    requires i != 0
    ensures Shutdown.Take(halts, v, i) ==
            v.(threads := v.threads[i := v.threads[i].(place := Shutdown.AtRising,
                                                      halt := v.slots[i - 1] == Some(true))],
               slots := v.slots[i - 1 := None])
  {
  }

  lemma IFTakes(halts: nat -> bool, v: Shutdown.State)
    ensures Shutdown.Take(halts, v, 0) ==
            v.(threads := v.threads[0 := v.threads[0].(place := Shutdown.AtRising, halt := halts(v.fetched))],
               fetched := v.fetched + 1, pcs := v.pcs + 1)
  {
  }

  /** Thread i has taken what lay in front of it. */
  lemma MatchTakes(isa: Isa, o: Origin, s: System, i: Index, text: string)
    requires s.threads[i].place.Top? && s.m.clock.half.First? && i != 0
    requires var m' := Fire(isa, s.m, StageOf(i));
      && SlotsView(m'.sh) == SlotsView(s.m.sh)[i - 1 := None]
      && IsHalt(TaskAt(m', i)) == (SlotsView(s.m.sh)[i - 1] == Some(true))
    ensures View(Move(isa, s, i, text), o.c) == Shutdown.Take(HaltWords(isa, o.pc), View(s, o.c), i)
  {
    hide View, SlotsView, Move, Fire, IsHalt, TaskAt, HaltWords, Shutdown.Take, StageOf;
    ViewThread(s, o.c, i);
    ViewParts(s, o.c);
    TakeSpec(isa, s, i, text);
    FireTime(isa, s.m, i);
    OthersTake(HaltWords(isa, o.pc), View(s, o.c), i);
    var u := View(s, o.c).threads[i];
    StepViewFrom(s, Move(isa, s, i, text), o.c, i,
                 u.(place := Shutdown.AtRising, halt := View(s, o.c).slots[i - 1] == Some(true)),
                 Shutdown.Take(HaltWords(isa, o.pc), View(s, o.c), i));
  }

  lemma FirstIDTakesFlag(isa: Isa, m: Machine)
    requires m.clock.half.First? && !m.lo.idStall && m.sh.pcFlush <= 0 && m.sh.ifId.Some?
    ensures var m' := Fire(isa, m, ID);
      && SlotsView(m'.sh) == SlotsView(m.sh)[0 := None]
      && IsHalt(TaskAt(m', 1)) == (SlotsView(m.sh)[0] == Some(true))
  {
    FirstIDTakes(isa, m);
    hide Fire;
  }

  lemma MatchTakeIF(isa: Isa, a0: Arch, o: Origin, s: System, text: string)
    requires After(isa, a0, o, s) && s.threads[0].place.Top? && s.m.clock.half.First? && !s.threads[0].ended
    ensures View(Move(isa, s, 0, text), o.c) == Shutdown.Take(HaltWords(isa, o.pc), View(s, o.c), 0)
  {
    AfterCovers(isa, a0, o, s);
    TakeIFAfter(isa, a0, o, s, text);
    TaskInHand(isa, a0, o, s);
    FirstIFSlots(isa, a0, o, s);
    hide After;
    MatchFetches(isa, o, s, text);
  }

  lemma FirstIFSlots(isa: Isa, a0: Arch, o: Origin, s: System)
    requires After(isa, a0, o, s) && s.m.clock.half.First?
    ensures SlotsView(Fire(isa, s.m, IF).sh) == SlotsView(s.m.sh)
  {
    hide Clocked, InID, InFirstCycle, FlagAfter, LongEnough, IsHalt, TaskAt, Advance;
    FirstIFAlone(isa, s.m);
    hide Fire;
  }

  lemma FlagOfFetch(isa: Isa, o: Origin, t: Task, k: nat)
    requires t.instr == isa.fetch(Ahead(o.pc, k))
    ensures IsHalt(t) == HaltWords(isa, o.pc)(k)
  {
  }

  lemma MatchFetches(isa: Isa, o: Origin, s: System, text: string)
    requires o.c <= |s.pcQueue| && s.threads[0].place.Top? && s.m.clock.half.First? && !s.threads[0].ended
    requires SlotsView(Fire(isa, s.m, IF).sh) == SlotsView(s.m.sh)
    requires TaskAt(Move(isa, s, 0, text).m, 0).instr == isa.fetch(Ahead(o.pc, |s.pcQueue| + 1 - o.c))
    ensures View(Move(isa, s, 0, text), o.c) == Shutdown.Take(HaltWords(isa, o.pc), View(s, o.c), 0)
  {
    hide View, SlotsView, Move, Fire, Ahead, TaskAt, IsHalt, HaltWords, Shutdown.Take;
    ViewThread(s, o.c, 0);
    ViewParts(s, o.c);
    TakeSpec(isa, s, 0, text);
    FireTime(isa, s.m, 0);
    IFTakes(HaltWords(isa, o.pc), View(s, o.c));
    var u, v := View(s, o.c).threads[0], View(s, o.c);
    assert v.fetched == |s.pcQueue| + 1 - o.c;
    FlagOfFetch(isa, o, TaskAt(Move(isa, s, 0, text).m, 0), v.fetched);
    StepViewFrom(s, Move(isa, s, 0, text), o.c, 0,
                 u.(place := Shutdown.AtRising, halt := HaltWords(isa, o.pc)(v.fetched)),
                 Shutdown.Take(HaltWords(isa, o.pc), v, 0));
  }

  lemma MatchTake(isa: Isa, a0: Arch, o: Origin, s: System, i: Index, text: string)
    requires After(isa, a0, o, s) && s.threads[i].place.Top?
    ensures View(Move(isa, s, i, text), o.c) == Shutdown.Move(HaltWords(isa, o.pc), View(s, o.c), i)
  {
    AfterCovers(isa, a0, o, s);
    ViewThread(s, o.c, i);
    TakeFlags(isa, a0, o, s, i, text);
    TopLives(s, i) by { ClockOf(s, i); }
    hide InFirstCycle, Clocked, View, Move, Shutdown.Take, FlagAfter, LongEnough, IsHalt, Fire;
    if i == 0 { MatchTakeIF(isa, a0, o, s, text); }
    else if i == 1 {
      FirstIDTakesFlag(isa, s.m);
      MatchTakes(isa, o, s, 1, text);
    } else {
      BackStepsTake(isa, s.m, i);
      MatchTakes(isa, o, s, i, text);
    }
  }

  // ---- the mortuary loop, work, and the count

  lemma LookAroundSpec(isa: Isa, s: System, i: Index, text: string)
    requires s.threads[i].place.Mortuary?
    ensures var s', t := Move(isa, s, i, text), s.threads[i];
      && s' == s.(threads := s.threads[i := t.(place := if s.dead < Shutdown.THREAD_COUNT then Shutdown.AtRising
                                                       else Shutdown.Exited)],
                  m := s.m.(clock := s'.m.clock))
      && s'.m.clock.half == s.m.clock.half
  {
    hide StageOf;
    MarkOne(s.m.clock, i);
  }

  lemma ThreadLooksAround(halts: nat -> bool, v: Shutdown.State, i: Index)
    requires v.threads[i].place.Mortuary?
    ensures Shutdown.Move(halts, v, i) ==
            v.(threads := v.threads[i := v.threads[i].(place := if v.dead < Shutdown.THREAD_COUNT
                                                                then Shutdown.AtRising else Shutdown.Exited)])
  {
  }

  lemma MatchLookAround(isa: Isa, o: Origin, s: System, i: Index, text: string)
    requires s.threads[i].place.Mortuary?
    ensures View(Move(isa, s, i, text), o.c) == Shutdown.Move(HaltWords(isa, o.pc), View(s, o.c), i)
  {
    hide View, SlotsView, Move, HaltWords, Shutdown.Move;
    ViewThread(s, o.c, i);
    ViewParts(s, o.c);
    LookAroundSpec(isa, s, i, text);
    ThreadLooksAround(HaltWords(isa, o.pc), View(s, o.c), i);
    var u := View(s, o.c).threads[i];
    StepViewFrom(s, Move(isa, s, i, text), o.c, i,
                 u.(place := if s.dead < Shutdown.THREAD_COUNT then Shutdown.AtRising else Shutdown.Exited),
                 Shutdown.Move(HaltWords(isa, o.pc), View(s, o.c), i));
  }

  lemma MatchIdle(isa: Isa, o: Origin, s: System, i: Index, text: string)
    requires s.threads[i].place.Work? && s.threads[i].ended
    ensures View(Move(isa, s, i, text), o.c) == Shutdown.Move(HaltWords(isa, o.pc), View(s, o.c), i)
  {
    hide View, SlotsView, HaltWords, StageOf;
    ViewThread(s, o.c, i);
    ViewParts(s, o.c);
    MarkOne(s.m.clock, i);
    var u := View(s, o.c).threads[i];
    StepViewFrom(s, Move(isa, s, i, text), o.c, i, u.(place := Shutdown.AtFalling), Shutdown.Push(View(s, o.c), i));
  }

  lemma TallySpec(isa: Isa, s: System, i: Index, text: string)
    requires s.threads[i].place.Tally?
    ensures var s', t := Move(isa, s, i, text), s.threads[i]; var counts := i != 0 && t.halt;
      s' == s.(threads := s.threads[i := t.(place := Shutdown.AtFalling, dying := t.dying || counts)],
               dead := s.dead + One(counts))
  {
  }

  lemma ThreadTallies(halts: nat -> bool, v: Shutdown.State, i: Index)
    requires v.threads[i].place.Tally?
    ensures var t := v.threads[i]; var counts := i != 0 && t.halt;
      Shutdown.Move(halts, v, i) ==
      v.(threads := v.threads[i := t.(place := Shutdown.AtFalling, dying := t.dying || counts)],
         dead := v.dead + One(counts))
  {
  }

  lemma MatchTally(isa: Isa, o: Origin, s: System, i: Index, text: string)
    requires s.threads[i].place.Tally?
    ensures View(Move(isa, s, i, text), o.c) == Shutdown.Move(HaltWords(isa, o.pc), View(s, o.c), i)
  {
    hide View, SlotsView, Move, HaltWords, Shutdown.Move;
    ViewThread(s, o.c, i);
    ViewParts(s, o.c);
    TallySpec(isa, s, i, text);
    ThreadTallies(HaltWords(isa, o.pc), View(s, o.c), i);
    var u := View(s, o.c).threads[i];
    StepViewFrom(s, Move(isa, s, i, text), o.c, i,
                 u.(place := Shutdown.AtFalling, dying := u.dying || (i != 0 && u.halt)),
                 Shutdown.Move(HaltWords(isa, o.pc), View(s, o.c), i));
  }

  /** What a push does to the HALT flags of the stage registers. */
  predicate PushesFlag(v: Shutdown.Slots, v': Shutdown.Slots, i: Index, halt: bool) {
    v' == if i < 4 && v[i].None? then v[i := Some(halt)] else v
  }

  lemma BackStepsPush(isa: Isa, m: Machine, i: Index)
    requires i >= 2 && m.clock.half.Second?
    ensures PushesFlag(SlotsView(m.sh), SlotsView(Fire(isa, m, StageOf(i)).sh), i, IsHalt(TaskAt(m, i)))
  {
    hide AddressOf, Dest, Forwards;
  }

  lemma IFPushes(isa: Isa, m: Machine)
    requires m.clock.half.Second? && m.lo.ifTask.Some?
    ensures PushesFlag(SlotsView(m.sh), SlotsView(Fire(isa, m, IF).sh), 0, IsHalt(TaskAt(m, 0)))
  {
    SecondIFAlone(isa, m);
    hide Fire;
  }

  lemma IDPushes(isa: Isa, m: Machine)
    requires m.clock.half.Second? && m.lo.idTask.fetched && IsHalt(m.lo.idTask) && m.sh.idEx.None?
    ensures PushesFlag(SlotsView(m.sh), SlotsView(Fire(isa, m, ID).sh), 1, IsHalt(TaskAt(m, 1)))
  {
    SecondIDPasses(isa, m);
    hide Fire;
  }

  lemma ThreadPushes(v: Shutdown.State, v': Shutdown.Slots, i: Index)
    requires !v.threads[i].ended && PushesFlag(v.slots, v', i, v.threads[i].halt)
    ensures Shutdown.Push(v, i) ==
            v.(threads := v.threads[i := v.threads[i].(place := Shutdown.Tally)], slots := v')
  {
  }

  lemma MatchPushes(isa: Isa, o: Origin, s: System, i: Index, text: string)
    requires s.threads[i].place.Work? && !s.threads[i].ended && s.m.clock.half.Second? && s.m.lo.ifTask.Some?
    requires PushesFlag(SlotsView(s.m.sh), SlotsView(Fire(isa, s.m, StageOf(i)).sh), i, s.threads[i].halt)
    ensures View(Move(isa, s, i, text), o.c) == Shutdown.Push(View(s, o.c), i)
  {
    hide View, SlotsView, Move, Fire, Shutdown.Push, StageOf, PushesFlag;
    ViewThread(s, o.c, i);
    ViewParts(s, o.c);
    WorkSpec(isa, s, i, text);
    FireTime(isa, s.m, i);
    ThreadPushes(View(s, o.c), SlotsView(Fire(isa, s.m, StageOf(i)).sh), i);
    var u := View(s, o.c).threads[i];
    StepViewFrom(s, Move(isa, s, i, text), o.c, i, u.(place := Shutdown.Tally), Shutdown.Push(View(s, o.c), i));
  }

  lemma MatchWork(isa: Isa, a0: Arch, o: Origin, s: System, i: Index, text: string)
    requires After(isa, a0, o, s) && s.threads[i].place.Work?
    ensures View(Move(isa, s, i, text), o.c) == Shutdown.Move(HaltWords(isa, o.pc), View(s, o.c), i)
  {
    hide After, View, Move, Shutdown.Push, IsHalt, Fire, PushesFlag, Clocked, Steps, Apart, FlagAfter, LongEnough,
         HaltWords, TaskAt, StageOf;
    ViewThread(s, o.c, i);
    if s.threads[i].ended {
      MatchIdle(isa, o, s, i, text);
    } else {
      TaskInHand(isa, a0, o, s);
      WorkFlags(isa, a0, o, s, i, text);
      WorkTask(isa, a0, o, s, i);
      StagePushes(isa, s.m, i);
      MatchPushes(isa, o, s, i, text);
    }
  }

  lemma StagePushes(isa: Isa, m: Machine, i: Index)
    requires m.clock.half.Second? && m.lo.ifTask.Some?
    requires i == 1 ==> m.lo.idTask.fetched && IsHalt(m.lo.idTask) && m.sh.idEx.None?
    ensures PushesFlag(SlotsView(m.sh), SlotsView(Fire(isa, m, StageOf(i)).sh), i, IsHalt(TaskAt(m, i)))
  {
    hide PushesFlag, SlotsView, Fire, IsHalt;
    if i == 0 { IFPushes(isa, m); } else if i == 1 { IDPushes(isa, m); } else { BackStepsPush(isa, m, i); }
  }

  lemma WorkTask(isa: Isa, a0: Arch, o: Origin, s: System, i: Index)
    requires After(isa, a0, o, s) && s.threads[i].place.Work? && !s.threads[i].ended && !s.threads[i].dying
    requires s.m.clock.half.Second? && !s.m.clock.Done(StageOf(i))
    ensures s.threads[i].halt == IsHalt(TaskAt(s.m, i))
    ensures i == 1 ==> s.m.lo.idTask.fetched && IsHalt(s.m.lo.idTask) && s.m.sh.idEx.None?
  {
    hide Reachable, IsHalt, Clocked, Alone;
    assert FlagAfter(s, i);
    if i == 1 { EmptyAhead(isa, a0, s.m); }
  }

  /** Main lemma of this module: a move of thread i is the move of thread i in `Shutdown`. */
  lemma MatchMove(isa: Isa, a0: Arch, o: Origin, s: System, i: Index, text: string)
    requires After(isa, a0, o, s) && CanMove(s, i)
    ensures View(Move(isa, s, i, text), o.c) == Shutdown.Move(HaltWords(isa, o.pc), View(s, o.c), i)
    ensures !Shutdown.Waits(View(s, o.c).threads[i].place)
  {
    ViewThread(s, o.c, i);
    hide After, View, Move, Shutdown.Move;
    match s.threads[i].place
    case PostEdge => MatchReport(isa, a0, o, s, i, text);
    case Top => MatchTake(isa, a0, o, s, i, text);
    case Mortuary => MatchLookAround(isa, o, s, i, text);
    case Work => MatchWork(isa, a0, o, s, i, text);
    case Tally => MatchTally(isa, o, s, i, text);
    case _ =>
  }

  lemma SamePlaces(s: System, c: nat)
    ensures forall i: Index :: View(s, c).threads[i].place == s.threads[i].place
    ensures forall p: Place :: Shutdown.AllAt(View(s, c), p) <==> AllAt(s, p)
  {
    forall i: Index ensures View(s, c).threads[i].place == s.threads[i].place { ViewThread(s, c, i); }
    hide View;
  }

  lemma MatchRise(isa: Isa, a0: Arch, o: Origin, s: System)
    requires After(isa, a0, o, s) && AllAt(s, Shutdown.AtRising)
    ensures View(Rise(s), o.c) == Shutdown.Rise(View(s, o.c))
  {
    hide After, Clocked, Edge, View, SlotsView, ThreadView, AllAt;
    AfterIsClocked(isa, a0, o, s, 0);
    ClockedEdge(s);
    EdgeMachine(s.m);
    var v, v' := View(s, o.c), View(Rise(s), o.c);
    RiseThreads(s, o.c);
    ViewParts(s, o.c);
    ViewParts(Rise(s), o.c);
    assert v'.threads == Shutdown.Rise(v).threads;
  }

  lemma RiseThreads(s: System, c: nat)
    ensures forall i: Index :: View(Rise(s), c).threads[i] == View(s, c).threads[i].(place := Shutdown.Work)
  {
    hide View, Edge;
    forall i: Index ensures View(Rise(s), c).threads[i] == View(s, c).threads[i].(place := Shutdown.Work) {
      ViewThread(s, c, i);
      ViewThread(Rise(s), c, i);
    }
  }

  lemma MatchFall(isa: Isa, a0: Arch, o: Origin, s: System)
    requires After(isa, a0, o, s) && AllAt(s, Shutdown.AtFalling)
    ensures View(Fall(s), o.c) == Shutdown.Fall(View(s, o.c))
  {
    hide After, Clocked, QueuesCover, Edge, View, SlotsView, ThreadView, AllAt;
    AfterIsClocked(isa, a0, o, s, 0);
    AfterCovers(isa, a0, o, s);
    ClockedEdge(s);
    EdgeMachine(s.m);
    CoversCycles(s, o.c);
    var v, v' := View(s, o.c), View(Fall(s), o.c);
    FallThreads(s, o.c);
    ViewParts(s, o.c);
    ViewParts(Fall(s), o.c);
    assert v'.threads == Shutdown.Fall(v).threads;
  }

  lemma CoversCycles(s: System, c: nat)
    requires QueuesCover(s, c)
    ensures c <= s.m.hist.cycles
  {
  }

  lemma EdgeMachine(m: Machine)
    ensures Edge(m).sh == m.sh && Edge(m).clock.half == (if m.clock.half.First? then Second else First)
    ensures Edge(m).hist.cycles == m.hist.cycles + (if m.clock.half.First? then 0 else 1)
  {
    hide RaceOf;
  }

  lemma FallThreads(s: System, c: nat)
    ensures forall i: Index :: View(Fall(s), c).threads[i] == View(s, c).threads[i].(place := Shutdown.PostEdge)
  {
    hide View, Edge;
    forall i: Index ensures View(Fall(s), c).threads[i] == View(s, c).threads[i].(place := Shutdown.PostEdge) {
      ViewThread(s, c, i);
      ViewThread(Fall(s), c, i);
    }
  }

  lemma ViewTogether(s: System, c: nat)
    ensures View(Together(s), c) == View(s, c)
  {
    TogetherIs(s);
    hide Together;
  }

  /** Every step of the processor is a step of `Shutdown`. */
  lemma MatchNext(isa: Isa, a0: Arch, o: Origin, s: System, s': System)
    requires After(isa, a0, o, s) && Processor.Next(isa, s, s')
    ensures After(isa, a0, o, s')
    ensures Shutdown.Next(HaltWords(isa, o.pc), View(s, o.c), View(s', o.c))
  {
    hide After, View, Move, Shutdown.Move, Rise, Fall, Shutdown.Rise, Shutdown.Fall, HaltWords, AllAt, Shutdown.AllAt,
         WorksAlong, Together;
    SamePlaces(s, o.c);
    if i: Index, text: string :| CanMove(s, i) && s' == Move(isa, s, i, text) {
      MatchMove(isa, a0, o, s, i, text);
      MoveAfter(isa, a0, o, s, i, text);
    } else if i: Index :| WorksAlong(s, i) && s' == Together(Move(isa, s, i, "")) {
      AlongMoves(s, i);
      MatchMove(isa, a0, o, s, i, "");
      TogetherAfter(isa, a0, o, s, i);
      ViewTogether(Move(isa, s, i, ""), o.c);
    } else if AllAt(s, Shutdown.AtRising) && s' == Rise(s) {
      MatchRise(isa, a0, o, s);
      EdgeAfter(isa, a0, o, s);
    } else {
      MatchFall(isa, a0, o, s);
      EdgeAfter(isa, a0, o, s);
    }
  }

  /** And every step of `Shutdown` is one of the processor. */
  lemma LiftNext(isa: Isa, a0: Arch, o: Origin, s: System, v': Shutdown.State) returns (s': System)
    requires After(isa, a0, o, s) && Shutdown.Next(HaltWords(isa, o.pc), View(s, o.c), v')
    ensures Processor.Next(isa, s, s') && View(s', o.c) == v' && After(isa, a0, o, s')
  {
    hide After, View, Move, Shutdown.Move, Rise, Fall, Shutdown.Rise, Shutdown.Fall, HaltWords, AllAt, Shutdown.AllAt;
    SamePlaces(s, o.c);
    var v := View(s, o.c);
    if i: Index :| !Shutdown.Waits(v.threads[i].place) && v' == Shutdown.Move(HaltWords(isa, o.pc), v, i) {
      s' := Move(isa, s, i, "");
      MatchMove(isa, a0, o, s, i, "");
      MoveAfter(isa, a0, o, s, i, "");
    } else if Shutdown.AllAt(v, Shutdown.AtRising) && v' == Shutdown.Rise(v) {
      s' := Rise(s);
      MatchRise(isa, a0, o, s);
      EdgeAfter(isa, a0, o, s);
    } else {
      s' := Fall(s);
      MatchFall(isa, a0, o, s);
      EdgeAfter(isa, a0, o, s);
    }
  }
}
