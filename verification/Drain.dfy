/** What becomes of the instructions ahead of the first HALT: EX, DM and WB finish them before they
    die, so registers and memory end as the sequential machine has them at that HALT. */
module Drain {
  import opened Basics
  import opened Instructions
  import opened Reference
  import opened Pipeline
  import opened SequentialRun
  import opened PipelineInvariant
  import opened PipelineSteps
  import opened PipelineFront
  import opened PipelineTheorems
  import opened Processor
  import opened BeforeHalt
  import opened AfterHalt
  import Shutdown

  // ---------------------------------------------------------------- DM and WB

  predicate RearSlots(m: Machine) {
    && (m.clock.half.First? && m.clock.doneDM ==> m.sh.exDm.None?)
    && (m.clock.half.First? && m.clock.doneWB ==> m.sh.dmWb.None?)
    && (m.clock.half.Second? && !m.clock.doneDM ==> m.sh.dmWb.None?)
    && PlainSlot(m.sh.exDm) && PlainSlot(m.sh.dmWb) && Plain(m.lo.dmTask)
  }

  /** The first k instructions have got through EX. */
  ghost predicate Rear(w: World, m: Machine, k: nat) {
    var y, z := TagOf(TaskY(m)), TagOf(TaskZ(m));
    && RearSlots(m)
    && Placed(w, y, k - 1) && Placed(w, z, k - 1 - PipelineInvariant.Count(y))
    && RegsOk(w, m.sh.regs, k - PipelineInvariant.Count(y) - PipelineInvariant.Count(z))
    && MemOk(w, m.sh.mem, k - if BeforeDM(m.clock) then PipelineInvariant.Count(y) else 0)
    && YOk(w, TaskY(m), m.clock) && ZOk(w, TaskZ(m))
  }

  /** A step that DM and WB do not notice. */
  predicate RearKept(m: Machine, m': Machine) {
    && m'.sh.regs == m.sh.regs && m'.sh.mem == m.sh.mem && m'.sh.dmWb == m.sh.dmWb && m'.lo.dmTask == m.lo.dmTask
    && m'.clock.half == m.clock.half && m'.clock.doneDM == m.clock.doneDM && m'.clock.doneWB == m.clock.doneWB
    && (m'.sh.exDm == m.sh.exDm || (m.clock.half.Second? && PlainSlot(m'.sh.exDm)))
  }

  lemma KeepRear(w: World, m: Machine, m': Machine, k: nat)
    requires Rear(w, m, k) && RearKept(m, m')
    ensures Rear(w, m', k)
  {
    hide Placed, RegsOk, MemOk, Finished, Complete;
  }

  lemma FirstDMRear(isa: Isa, m: Machine)
    requires m.clock.half.First? && !m.clock.doneDM && RearSlots(m)
    ensures var m' := Fire(isa, m, DM);
      && RearSlots(m') && m'.sh.regs == m.sh.regs && TaskY(m') == TaskY(m) && TaskZ(m') == TaskZ(m)
      && m'.clock.half == m.clock.half && m'.clock.doneDM
  {
    hide AddressOf;
  }

  lemma RearStores(w: World, m: Machine, k: nat)
    requires m.clock.half.First? && !m.clock.doneDM && RearSlots(m)
    requires Placed(w, TagOf(TaskY(m)), k - 1) && YOk(w, TaskY(m), m.clock)
    requires MemOk(w, m.sh.mem, k - PipelineInvariant.Count(TagOf(TaskY(m))))
    ensures MemOk(w, Fire(w.isa, m, DM).sh.mem, k)
  {
    hide At, Tainted, StoreData;
    if TaskY(m).Some? { MemAt(w, TaskY(m).value.ord); }
  }

  lemma RearFirstDM(w: World, m: Machine, k: nat)
    requires Rear(w, m, k) && m.clock.half.First? && !m.clock.doneDM
    ensures Rear(w, Fire(w.isa, m, DM), k)
  {
    hide Fire, TaskY, TaskZ, Placed, MemOk, RegsOk, Finished, Complete, RearSlots;
    FirstDMRear(w.isa, m);
    RearStores(w, m, k);
  }

  lemma RearSecondDM(w: World, m: Machine, k: nat)
    requires Rear(w, m, k) && m.clock.half.Second? && !m.clock.doneDM
    ensures Rear(w, Fire(w.isa, m, DM), k)
  {
    hide At, Carried, Read, RegsOk, Dest, Forwards, InstrAt, Finished, Complete;
    var m', y := Fire(w.isa, m, DM), TaskY(m);
    SecondDMRear(w.isa, m);
    if y.Some? {
      LoadIsCorrect(w, y.value, m.sh.mem);
    }
    hide Fire;
  }

  lemma SecondDMRear(isa: Isa, m: Machine)
    requires m.clock.half.Second? && !m.clock.doneDM && RearSlots(m)
    ensures var m' := Fire(isa, m, DM);
      && RearSlots(m') && m'.sh.regs == m.sh.regs && m'.sh.mem == m.sh.mem
      && TaskY(m') == (if TaskY(m).Some? then Some(Read(isa, TaskY(m).value, m.sh.mem)) else None)
      && TagOf(TaskY(m')) == TagOf(TaskY(m)) && TaskZ(m') == TaskZ(m)
      && m'.clock.half == m.clock.half && m'.clock.doneDM
  {
    hide AddressOf, Dest, Forwards;
  }

  lemma FirstWBRear(isa: Isa, m: Machine)
    requires m.clock.half.First? && !m.clock.doneWB && RearSlots(m)
    ensures var m' := Fire(isa, m, WB); var t := m.sh.dmWb.GetOr(BUBBLE);
      && RearSlots(m') && m'.sh.mem == m.sh.mem && TaskY(m') == TaskY(m) && TaskZ(m') == None
      && TaskZ(m) == Live(m.sh.dmWb) && BeforeDM(m'.clock) == BeforeDM(m.clock)
      && m'.clock.half == m.clock.half && m'.clock.doneDM == m.clock.doneDM
      && m'.sh.regs == (if Exports(t.instr) && Dest(t.instr) != 0
                        then m.sh.regs[Dest(t.instr) := WrittenValue(isa, t)] else m.sh.regs)
  {
    hide WrittenValue, ResetTo;
  }

  lemma RearFirstWB(w: World, m: Machine, k: nat)
    requires Rear(w, m, k) && m.clock.half.First? && !m.clock.doneWB
    ensures Rear(w, Fire(w.isa, m, WB), k)
  {
    hide Fire, At, Result, WrittenValue, Finished, Carried, TaskY, TaskZ, MemOk, BeforeDM;
    FirstWBRear(w.isa, m);
    var z := Live(m.sh.dmWb);
    if z.Some? { RegsAt(w, z.value.ord); }
  }

  lemma RearRise(w: World, m: Machine, k: nat)
    requires Rear(w, m, k) && m.clock.half.First? && m.clock.AllDone()
    ensures Rear(w, Edge(m), k)
  {
    hide Placed, RegsOk, MemOk, Finished, Complete;
  }

  /** At the falling edge the task of EX comes in, if there is one. */
  lemma RearFall(w: World, m: Machine, k: nat)
    requires Rear(w, m, k) && m.clock.half.Second? && m.clock.AllDone()
    requires m.sh.exDm.Some? && m.sh.exDm.value.fetched ==>
               Placed(w, TagOf(m.sh.exDm), k) && Finished(w, m.sh.exDm.value)
    ensures Rear(w, Edge(m), k + PipelineInvariant.Count(TagOf(Live(m.sh.exDm))))
  {
    hide RaceOf, At, InstrAt, Finished, Complete;
  }

  // ---------------------------------------------------------------- the last cycles

  /** The HALT in EX. */
  ghost predicate HaltInEX(w: World, n: nat, x: Option<Task>) {
    && x.Some? && Placed(w, TagOf(x), n) && x.value.fetched && IsHalt(x.value)
  }

  predicate LastTasks(o: Origin, s: System) {
    var m, e := s.m, s.m.hist.cycles - o.c;
    && (m.clock.half.Second? || m.clock.doneEX || e >= 2 ==> m.sh.idEx.None?)
    && (m.clock.half.Second? && (!m.clock.doneEX || e >= 2) ==> m.sh.exDm.None?)
    && (e >= 3 ==> m.sh.exDm.None?)
    && (e >= 4 ==> m.sh.dmWb.None?)
    && (s.threads[3].ended ==> m.lo.dmTask == BUBBLE && (m.clock.half.Second? ==> m.sh.dmWb.None?))
  }

  ghost predicate Draining(isa: Isa, a0: Arch, o: Origin, s: System) {
    var w, e := WorldAt(isa, a0, s.m), s.m.hist.cycles - o.c;
    e >= 1 ==>
      && LastTasks(o, s)
      && Rear(w, s.m, if e == 1 then o.n else o.n + 1)
      && (e == 1 ==> HaltInEX(w, o.n, TaskX(s.m)))
      && HaltsUpTo(w, o.n) == 0 && InstrAt(w, o.n).kind.Halt?
  }

  /** What `Shutdown` knows about the threads behind ID. */
  lemma WhoIsAlive(s: System, o: Origin, i: Index)
    requires Shutdown.Inv(View(s, o.c)) && o.c <= s.m.hist.cycles && i >= 1
    ensures var t, e := s.threads[i], s.m.hist.cycles - o.c;
      && e <= 4
      && (!t.dying ==> e < i) && (t.ended ==> e >= i)
      && (t.dying && t.place.PostEdge? ==> e >= i)
      && (i == 4 && t.ended ==> s.dead == Shutdown.THREAD_COUNT && !s.m.clock.half.Second?)
  {
    var v := View(s, o.c);
    ViewThread(s, o.c, i);
    ViewParts(s, o.c);
    assert Shutdown.ThreadAt(v, i);
    if i == 4 && s.threads[4].ended { Shutdown.WhenFive(v); }
    hide View;
  }

  /** The instructions ahead of the HALT when it has just left ID. */
  lemma DrainStarts(isa: Isa, a0: Arch, o: Origin, m: Machine)
    requires Reachable(isa, a0, false, m) && m.clock == FIRST_HALF && m.hist.issued == o.n + 1
    requires m.sh.idEx.Some? && m.sh.idEx.value.fetched && IsHalt(m.sh.idEx.value)
    requires m.hist.halts <= 1
    ensures var w := WorldAt(isa, a0, m);
      && Rear(w, m, o.n) && HaltInEX(w, o.n, TaskX(m)) && HaltsUpTo(w, o.n) == 0 && InstrAt(w, o.n).kind.Halt?
  {
    hide Reachable, Agrees, Inv, Ids, FrontSecond, Scoreboard, Timing, Account, At, InstrAt, XOk, NOk,
         Finished, Complete, HoldsNext, Captured;
    var w := WorldAt(isa, a0, m);
    ReachGood(isa, a0, false, m);
    Unfold(w, m, RolesOf(m));
    assert HaltCount(w, FetcherOf(m));
    CountsUp(w, o.n);
    if Counted(FetcherOf(m)) { CountsUp(w, o.n + 1); }
  }

  lemma CountsUp(w: World, k: nat)
    ensures HaltsUpTo(w, k + 1) == HaltsUpTo(w, k) + One(InstrAt(w, k).kind.Halt?)
  {
    hide InstrAt;
  }

  // ---------------------------------------------------------------- each move keeps what is said of the tail

  /** A step that neither EX, DM nor WB notices. */
  predicate TailKept(m: Machine, m': Machine) {
    && RearKept(m, m') && m'.sh.idEx == m.sh.idEx && m'.sh.exDm == m.sh.exDm && m'.lo.exTask == m.lo.exTask
    && m'.clock.doneEX == m.clock.doneEX
    && m'.hist.cycles == m.hist.cycles && m'.hist.races == m.hist.races
  }

  lemma KeepDraining(isa: Isa, a0: Arch, o: Origin, s: System, s': System)
    requires Draining(isa, a0, o, s) && TailKept(s.m, s'.m)
    requires s'.threads[3].ended == s.threads[3].ended
    ensures Draining(isa, a0, o, s')
  {
    hide Rear, Placed, HaltsUpTo, InstrAt, IsHalt, RearKept;
    KeepLast(o, s, s');
    if s.m.hist.cycles - o.c >= 1 {
      KeepRear(WorldAt(isa, a0, s.m), s.m, s'.m, if s.m.hist.cycles - o.c == 1 then o.n else o.n + 1);
      SameTaskX(s.m, s'.m);
    }
    hide LastTasks;
  }

  lemma SameTaskX(m: Machine, m': Machine)
    requires TailKept(m, m')
    ensures TaskX(m') == TaskX(m)
  {
  }

  lemma KeepLast(o: Origin, s: System, s': System)
    requires TailKept(s.m, s'.m) && s'.threads[3].ended == s.threads[3].ended
    requires s.m.hist.cycles - o.c >= 1 ==> LastTasks(o, s)
    ensures s.m.hist.cycles - o.c >= 1 ==> LastTasks(o, s')
  {
  }

  lemma FrontKeepsTail(isa: Isa, m: Machine)
    requires m.lo.ifTask.Some?
    ensures TailKept(m, Fire(isa, m, IF))
  {
    hide Counts, UpdatePC, Get;
    if m.clock.half.First? { UpdateKeepsTail(m); }
  }

  lemma UpdateKeepsTail(m: Machine)
    ensures var sh := UpdatePC(m.sh, m.lo.ifTask.Some?); sh == m.sh.(pc := sh.pc, pcJump := sh.pcJump)
    ensures var sh := UpdatePC(m.sh, true); sh == m.sh.(pc := sh.pc, pcJump := sh.pcJump)
  {
  }

  lemma SkipKeepsTail(m: Machine, i: Index)
    requires i <= 1
    ensures TailKept(m, Skip(m, i))
  {
  }

  lemma IFReportsTail(isa: Isa, s: System, text: string)
    requires s.threads[0].place.PostEdge?
    ensures TailKept(s.m, Move(isa, s, 0, text).m) && Move(isa, s, 0, text).threads[3] == s.threads[3]
  {
    hide UpdatePC;
    UpdateKeepsTail(s.m);
  }

  /** The report of a thread behind IF touches the machine only when the thread dies. */
  lemma ReportsMachine(isa: Isa, s: System, i: Index, text: string)
    requires s.threads[i].place.PostEdge? && i != 0
    ensures var s', t := Move(isa, s, i, text), s.threads[i];
      && s'.m == (if t.dying && !t.ended then DropTask(s.m, i) else s.m)
      && ((i == 3 && t.dying) || s'.threads[3].ended == s.threads[3].ended)
  {
    hide Difference, DropTask;
  }

  lemma DropKeepsTail(m: Machine, i: Index)
    requires i == 1 || i == 4
    ensures TailKept(m, DropTask(m, i))
  {
  }

  lemma ReportDraining(isa: Isa, a0: Arch, o: Origin, s: System, i: Index, text: string)
    requires Draining(isa, a0, o, s) && After(isa, a0, o, s) && Shutdown.Inv(View(s, o.c))
    requires s.threads[i].place.PostEdge?
    ensures Draining(isa, a0, o, Move(isa, s, i, text))
  {
    hide Draining, After, Shutdown.Inv, View, Move, TailKept;
    AfterIs(isa, a0, o, s, i);
    var s' := Move(isa, s, i, text);
    if i == 0 {
      IFReportsTail(isa, s, text);
      KeepDraining(isa, a0, o, s, s');
    } else {
      WhoIsAlive(s, o, i);
      ReportsMachine(isa, s, i, text);
      if s.threads[i].ended {
        EndedStays(isa, s, i, text);
        SameMachine(isa, a0, o, s, s');
      } else if !s.threads[i].dying {
        SameMachine(isa, a0, o, s, s');
      } else if i == 2 {
        DropEX(isa, a0, o, s, s');
      } else if i == 3 {
        DropDM(isa, a0, o, s, s');
      } else {
        DropKeepsTail(s.m, i);
        KeepDraining(isa, a0, o, s, s');
      }
    }
  }

  lemma EndedStays(isa: Isa, s: System, i: Index, text: string)
    requires s.threads[i].place.PostEdge? && s.threads[i].ended
    ensures Move(isa, s, i, text).threads[3].ended == s.threads[3].ended
  {
    hide ReportIF, ReportOther;
  }

  lemma AfterIs(isa: Isa, a0: Arch, o: Origin, s: System, i: Index)
    requires After(isa, a0, o, s)
    ensures ClockAt(s, i) && o.c <= s.m.hist.cycles && s.m.lo.ifTask.Some?
    ensures i == 1 && s.m.hist.cycles > o.c ==> s.threads[1].dying
  {
    hide InFirstCycle, FlagAfter, LongEnough, ClockAt, IsHalt, Ahead;
  }

  lemma DropEX(isa: Isa, a0: Arch, o: Origin, s: System, s': System)
    requires Draining(isa, a0, o, s) && s.m.hist.cycles - o.c >= 2
    requires s'.m == s.m.(lo := s.m.lo.(exTask := BUBBLE)) && s'.threads[3].ended == s.threads[3].ended
    ensures Draining(isa, a0, o, s')
  {
    hide Rear, HaltsUpTo, InstrAt, HaltInEX;
    KeepRear(WorldAt(isa, a0, s.m), s.m, s'.m, o.n + 1);
  }

  lemma DropDM(isa: Isa, a0: Arch, o: Origin, s: System, s': System)
    requires Draining(isa, a0, o, s) && s.m.hist.cycles - o.c >= 3 && s.m.clock.half.First? && !s.m.clock.doneDM
    requires s'.m == s.m.(lo := s.m.lo.(dmTask := BUBBLE))
    ensures Draining(isa, a0, o, s')
  {
    hide Placed, RegsOk, MemOk, HaltsUpTo, InstrAt, HaltInEX, Finished, Complete;
  }

  // ---- the first half

  lemma TakeEXDraining(isa: Isa, a0: Arch, o: Origin, s: System, s': System)
    requires Draining(isa, a0, o, s) && s.m.hist.cycles - o.c <= 1 && s.m.clock.half.First? && !s.m.clock.doneEX
    requires s'.m == Fire(isa, s.m, EX) && s'.threads[3].ended == s.threads[3].ended
    ensures Draining(isa, a0, o, s')
  {
    hide Rear, HaltsUpTo, InstrAt, IsHalt, Placed;
    TakeEXKeeps(isa, s.m);
    hide Fire;
    if s.m.hist.cycles - o.c == 1 { KeepRear(WorldAt(isa, a0, s.m), s.m, s'.m, o.n); }
  }

  lemma TakeEXKeeps(isa: Isa, m: Machine)
    requires m.clock.half.First? && !m.clock.doneEX
    ensures var m' := Fire(isa, m, EX);
      && RearKept(m, m') && m'.sh.idEx.None? && m'.sh.exDm == m.sh.exDm && TaskX(m') == TaskX(m)
      && m'.clock == m.clock.Mark(EX) && m'.hist == m.hist
  {
    hide Compute, Dest, Forwards, Exports;
  }

  lemma TakeDMDraining(isa: Isa, a0: Arch, o: Origin, s: System, s': System)
    requires Draining(isa, a0, o, s) && s.m.hist.cycles - o.c <= 2 && s.m.clock.half.First? && !s.m.clock.doneDM
    requires s'.m == Fire(isa, s.m, DM) && s'.threads[3].ended == s.threads[3].ended == false
    ensures Draining(isa, a0, o, s')
  {
    hide Rear, HaltsUpTo, InstrAt, HaltInEX;
    TakeDMKeeps(isa, s.m);
    hide Fire;
    var e := s.m.hist.cycles - o.c;
    if e >= 1 { RearFirstDM(WorldAt(isa, a0, s.m), s.m, if e == 1 then o.n else o.n + 1); }
  }

  lemma TakeDMKeeps(isa: Isa, m: Machine)
    requires m.clock.half.First? && !m.clock.doneDM
    ensures var m' := Fire(isa, m, DM);
      && m'.sh.idEx == m.sh.idEx && m'.sh.exDm.None? && m'.sh.dmWb == m.sh.dmWb && TaskX(m') == TaskX(m)
      && m'.clock == m.clock.Mark(DM) && m'.hist == m.hist
  {
    hide AddressOf;
  }

  lemma TakeWBDraining(isa: Isa, a0: Arch, o: Origin, s: System, s': System)
    requires Draining(isa, a0, o, s) && s.m.clock.half.First? && !s.m.clock.doneWB
    requires s'.m == Fire(isa, s.m, WB) && s'.threads[3].ended == s.threads[3].ended
    ensures Draining(isa, a0, o, s')
  {
    hide Rear, HaltsUpTo, InstrAt, HaltInEX;
    TakeWBKeeps(isa, s.m);
    hide Fire;
    var e := s.m.hist.cycles - o.c;
    if e >= 1 { RearFirstWB(WorldAt(isa, a0, s.m), s.m, if e == 1 then o.n else o.n + 1); }
  }

  lemma TakeWBKeeps(isa: Isa, m: Machine)
    requires m.clock.half.First? && !m.clock.doneWB
    ensures var m' := Fire(isa, m, WB);
      && m'.sh.idEx == m.sh.idEx && m'.sh.exDm == m.sh.exDm && m'.sh.dmWb.None? && TaskX(m') == TaskX(m)
      && m'.lo.dmTask == m.lo.dmTask
      && m'.clock == m.clock.Mark(WB) && m'.hist.cycles == m.hist.cycles && m'.hist.races == m.hist.races
  {
    hide WrittenValue, ResetTo, Exports;
  }

  // ---- the second half

  lemma WorkEXDraining(isa: Isa, a0: Arch, o: Origin, s: System, s': System)
    requires Draining(isa, a0, o, s) && s.m.hist.cycles - o.c <= 1 && s.m.clock.half.Second? && !s.m.clock.doneEX
    requires s'.m == Fire(isa, s.m, EX) && s'.threads[3].ended == s.threads[3].ended
    ensures Draining(isa, a0, o, s')
  {
    hide Rear, HaltsUpTo, InstrAt, Placed;
    if s.m.hist.cycles - o.c == 1 {
      WorkEXKeeps(isa, s.m);
      KeepRear(WorldAt(isa, a0, s.m), s.m, s'.m, o.n);
    } else {
      FireClock(isa, s.m, EX);
      FireApart(isa, s.m, 2);
    }
    hide Fire;
  }

  lemma WorkEXKeeps(isa: Isa, m: Machine)
    requires m.clock.half.Second? && !m.clock.doneEX && m.sh.exDm.None?
    requires m.lo.exTask.fetched && IsHalt(m.lo.exTask)
    ensures var m' := Fire(isa, m, EX);
      && RearKept(m, m') && m'.sh.idEx == m.sh.idEx && TaskX(m') == TaskX(m)
      && m'.clock == m.clock.Mark(EX) && m'.hist == m.hist
  {
  }

  lemma WorkDMDraining(isa: Isa, a0: Arch, o: Origin, s: System, s': System)
    requires Draining(isa, a0, o, s) && s.m.hist.cycles - o.c <= 2 && s.m.clock.half.Second? && !s.m.clock.doneDM
    requires s'.m == Fire(isa, s.m, DM) && s'.threads[3].ended == s.threads[3].ended == false
    ensures Draining(isa, a0, o, s')
  {
    hide Rear, HaltsUpTo, InstrAt, HaltInEX;
    WorkDMKeeps(isa, s.m);
    hide Fire;
    var e := s.m.hist.cycles - o.c;
    if e >= 1 { RearSecondDM(WorldAt(isa, a0, s.m), s.m, if e == 1 then o.n else o.n + 1); }
  }

  lemma WorkDMKeeps(isa: Isa, m: Machine)
    requires m.clock.half.Second? && !m.clock.doneDM
    ensures var m' := Fire(isa, m, DM);
      && m'.sh.idEx == m.sh.idEx && m'.sh.exDm == m.sh.exDm && TaskX(m') == TaskX(m)
      && m'.clock == m.clock.Mark(DM) && m'.hist == m.hist
  {
    hide AddressOf, Dest, Forwards;
  }

  lemma WorkWBKeeps(isa: Isa, m: Machine)
    requires m.clock.half.Second?
    ensures var m' := Fire(isa, m, WB);
      && m'.sh == m.sh && m'.lo == m.lo && m'.clock == m.clock.Mark(WB)
      && m'.hist == m.hist
  {
  }

  lemma WorkWBDraining(isa: Isa, a0: Arch, o: Origin, s: System, s': System)
    requires Draining(isa, a0, o, s) && s.m.clock.half.Second?
    requires s'.m == Fire(isa, s.m, WB) && s'.threads[3].ended == s.threads[3].ended
    ensures Draining(isa, a0, o, s')
  {
    hide Fire, Rear, HaltsUpTo, InstrAt, HaltInEX;
    WorkWBKeeps(isa, s.m);
    SecondWBKeepsX(s.m, s'.m);
    var e := s.m.hist.cycles - o.c;
    if e >= 1 { RearSecondWB(WorldAt(isa, a0, s.m), s.m, s'.m, if e == 1 then o.n else o.n + 1); }
  }

  lemma SecondWBKeepsX(m: Machine, m': Machine)
    requires m.clock.half.Second? && m'.sh == m.sh && m'.lo == m.lo && m'.clock == m.clock.Mark(WB)
    ensures TaskX(m') == TaskX(m)
  {
  }

  lemma RearSecondWB(w: World, m: Machine, m': Machine, k: nat)
    requires Rear(w, m, k) && m.clock.half.Second?
    requires m'.sh == m.sh && m'.lo == m.lo && m'.clock == m.clock.Mark(WB)
    ensures Rear(w, m', k)
  {
    hide Placed, RegsOk, MemOk, Finished, Complete;
  }

  // ---- passing a fence without work

  lemma SkipEXDraining(isa: Isa, a0: Arch, o: Origin, s: System, s': System)
    requires Draining(isa, a0, o, s) && s.m.hist.cycles - o.c >= 2
    requires s'.m == Skip(s.m, 2) && s'.threads[3].ended == s.threads[3].ended
    ensures Draining(isa, a0, o, s')
  {
    hide Rear, HaltsUpTo, InstrAt, HaltInEX;
    KeepRear(WorldAt(isa, a0, s.m), s.m, s'.m, o.n + 1);
  }

  lemma SkipDMDraining(isa: Isa, a0: Arch, o: Origin, s: System, s': System)
    requires Draining(isa, a0, o, s) && s.m.hist.cycles - o.c >= 3 && s.threads[3].ended && !s.m.clock.doneDM
    requires s'.m == Skip(s.m, 3) && s'.threads[3].ended
    ensures Draining(isa, a0, o, s')
  {
    hide Placed, RegsOk, MemOk, HaltsUpTo, InstrAt, HaltInEX, Finished, Complete;
  }

  // ---- all together

  lemma TakeDraining(isa: Isa, a0: Arch, o: Origin, s: System, i: Index, text: string)
    requires Draining(isa, a0, o, s) && After(isa, a0, o, s) && Shutdown.Inv(View(s, o.c))
    requires s.threads[i].place.Top?
    ensures Draining(isa, a0, o, Move(isa, s, i, text))
  {
    hide Draining, After, Shutdown.Inv, View, Move, Fire, IsHalt, TaskAt, ClockAt;
    AfterIs(isa, a0, o, s, i);
    AfterIs(isa, a0, o, s, 3);
    TopLives(s, i);
    TopIsFirst(s, i);
    TakeSpec(isa, s, i, text);
    var s' := Move(isa, s, i, text);
    if i >= 1 { WhoIsAlive(s, o, i); }
    match i
    case 0 => FrontKeepsTail(isa, s.m); KeepDraining(isa, a0, o, s, s');
    case 1 => NotInFirst(isa, a0, o, s, s') by { FireTime(isa, s.m, 1); }
    case 2 => TakeEXDraining(isa, a0, o, s, s');
    case 3 => TakeDMDraining(isa, a0, o, s, s');
    case 4 => TakeWBDraining(isa, a0, o, s, s');
  }

  lemma TopIsFirst(s: System, i: Index)
    requires ClockAt(s, i) && s.threads[i].place.Top?
    ensures s.m.clock.half.First? && !s.m.clock.Done(StageOf(i))
  {
  }

  lemma NotInFirst(isa: Isa, a0: Arch, o: Origin, s: System, s': System)
    requires s'.m.hist.cycles <= o.c
    ensures Draining(isa, a0, o, s')
  {
  }

  lemma WorkDraining(isa: Isa, a0: Arch, o: Origin, s: System, i: Index, text: string)
    requires Draining(isa, a0, o, s) && After(isa, a0, o, s) && Shutdown.Inv(View(s, o.c))
    requires s.threads[i].place.Work? && !s.threads[i].ended
    ensures Draining(isa, a0, o, Move(isa, s, i, text))
  {
    hide Draining, After, Shutdown.Inv, View, Move, Fire, IsHalt, TaskAt, ClockAt, Apart, Steps, FlagAfter, LongEnough;
    AfterIs(isa, a0, o, s, i);
    WorkFlags(isa, a0, o, s, i, text);
    WorkSpec(isa, s, i, text);
    var s' := Move(isa, s, i, text);
    if i >= 1 { WhoIsAlive(s, o, i); }
    match i
    case 0 => FrontKeepsTail(isa, s.m); KeepDraining(isa, a0, o, s, s');
    case 1 => NotInFirst(isa, a0, o, s, s') by { FireTime(isa, s.m, 1); }
    case 2 => WorkEXDraining(isa, a0, o, s, s');
    case 3 => WorkDMDraining(isa, a0, o, s, s');
    case 4 => WorkWBDraining(isa, a0, o, s, s');
  }

  lemma SkipDraining(isa: Isa, a0: Arch, o: Origin, s: System, s': System, i: Index)
    requires Draining(isa, a0, o, s) && After(isa, a0, o, s) && Shutdown.Inv(View(s, o.c))
    requires s.threads[i].ended && !s.m.clock.Done(StageOf(i))
    requires s.m.clock.half.First? ==> s.dead < Shutdown.THREAD_COUNT
    requires s'.m == Skip(s.m, i) && s'.threads[3].ended == s.threads[3].ended
    ensures Draining(isa, a0, o, s')
  {
    hide Draining, After, Shutdown.Inv, View, ClockAt;
    AfterIs(isa, a0, o, s, i);
    if i >= 1 { WhoIsAlive(s, o, i); }
    if i <= 1 { SkipKeepsTail(s.m, i); KeepDraining(isa, a0, o, s, s'); }
    else if i == 2 { SkipEXDraining(isa, a0, o, s, s'); }
    else if i == 3 { SkipDMDraining(isa, a0, o, s, s'); }
  }

  /** A thread that has ended passes its fence. */
  lemma EndedSkips(isa: Isa, s: System, i: Index, text: string)
    requires (s.threads[i].place.Mortuary? && s.dead < Shutdown.THREAD_COUNT) ||
             (s.threads[i].place.Work? && s.threads[i].ended)
    ensures var s' := Move(isa, s, i, text); s'.m == Skip(s.m, i) && s'.threads[3].ended == s.threads[3].ended
  {
    hide Skip, Do;
  }

  lemma MachineStays(isa: Isa, s: System, i: Index, text: string)
    requires (s.threads[i].place.Mortuary? && s.dead >= Shutdown.THREAD_COUNT) || s.threads[i].place.Tally?
    ensures var s' := Move(isa, s, i, text); s'.m == s.m && s'.threads[3].ended == s.threads[3].ended
  {
  }

  lemma MoveDraining(isa: Isa, a0: Arch, o: Origin, s: System, i: Index, text: string)
    requires Draining(isa, a0, o, s) && After(isa, a0, o, s) && Shutdown.Inv(View(s, o.c)) && CanMove(s, i)
    ensures Draining(isa, a0, o, Move(isa, s, i, text))
  {
    hide Draining, After, Shutdown.Inv, View, Move, Skip;
    AfterIs(isa, a0, o, s, i);
    var s' := Move(isa, s, i, text);
    match s.threads[i].place
    case PostEdge => ReportDraining(isa, a0, o, s, i, text);
    case Top => TakeDraining(isa, a0, o, s, i, text);
    case Mortuary =>
      if s.dead < Shutdown.THREAD_COUNT {
        EndedSkips(isa, s, i, text);
        SkipDraining(isa, a0, o, s, s', i);
      } else {
        MachineStays(isa, s, i, text);
        SameMachine(isa, a0, o, s, s');
      }
    case Work =>
      if s.threads[i].ended {
        EndedSkips(isa, s, i, text);
        SkipDraining(isa, a0, o, s, s', i);
      } else {
        WorkDraining(isa, a0, o, s, i, text);
      }
    case Tally =>
      MachineStays(isa, s, i, text);
      SameMachine(isa, a0, o, s, s');
    case _ =>
  }

  lemma SameMachine(isa: Isa, a0: Arch, o: Origin, s: System, s': System)
    requires Draining(isa, a0, o, s) && s'.m == s.m && s'.threads[3].ended == s.threads[3].ended
    ensures Draining(isa, a0, o, s')
  {
    KeepDraining(isa, a0, o, s, s');
  }

  // ---- the edges

  lemma RiseDraining(isa: Isa, a0: Arch, o: Origin, s: System)
    requires Draining(isa, a0, o, s) && s.m.clock.half.First? && s.m.clock.AllDone()
    ensures Draining(isa, a0, o, Rise(s))
  {
    hide Rear, HaltsUpTo, InstrAt, Placed;
    var e := s.m.hist.cycles - o.c;
    RiseKeepsX(s.m);
    if e >= 1 { RearRise(WorldAt(isa, a0, s.m), s.m, if e == 1 then o.n else o.n + 1); RiseSlots(isa, a0, o, s); }
  }

  lemma RiseKeepsX(m: Machine)
    requires m.clock.half.First? && m.clock.doneEX
    ensures TaskX(Edge(m)) == TaskX(m)
  {
  }

  lemma RiseSlots(isa: Isa, a0: Arch, o: Origin, s: System)
    requires Draining(isa, a0, o, s) && s.m.clock.half.First? && s.m.clock.AllDone()
    requires s.m.hist.cycles - o.c >= 1
    ensures LastTasks(o, Rise(s))
  {
    hide HaltsUpTo, InstrAt, HaltInEX, Placed, RegsOk, MemOk, YOk, ZOk;
  }

  lemma FallDraining(isa: Isa, a0: Arch, o: Origin, s: System)
    requires Draining(isa, a0, o, s) && s.m.clock.half.Second? && s.m.clock.AllDone()
    requires s.m.hist.cycles - o.c >= 1
    requires s.m.hist.cycles - o.c >= 3 ==> s.threads[3].ended
    ensures Draining(isa, a0, o, Fall(s))
  {
    hide Rear, HaltsUpTo, InstrAt, RaceOf, Placed;
    var w, e := WorldAt(isa, a0, s.m), s.m.hist.cycles - o.c;
    NoRace(s.m);
    if e == 1 { HaltIsFinished(w, s.m); }
    FallInDM(s.m);
    RearFall(w, s.m, if e == 1 then o.n else o.n + 1);
  }

  lemma NoRace(m: Machine)
    requires m.sh.idEx.None?
    ensures RaceOf(m.sh) == [] && m.hist.races + RaceOf(m.sh) == m.hist.races
  {
  }

  lemma FallInDM(m: Machine)
    requires m.clock.half.Second? && m.clock.AllDone()
    ensures TaskX(m) == Live(m.sh.exDm)
  {
  }

  lemma HaltIsFinished(w: World, m: Machine)
    requires TaskX(m).Some? && IsHalt(TaskX(m).value)
    ensures Finished(w, TaskX(m).value)
  {
    hide At, TaskX, ResultAt, StoreData;
  }

  lemma FallFirst(isa: Isa, a0: Arch, o: Origin, s: System)
    requires After(isa, a0, o, s) && s.m.hist.cycles == o.c && AllAt(s, Shutdown.AtFalling)
    ensures Draining(isa, a0, o, Fall(s))
  {
    hide Reachable, IsHalt, RaceOf, Clocked, Alone, InID, FlagAfter, LongEnough, Rear, HaltInEX, HaltsUpTo, InstrAt;
    ClockedEdge(s);
    ReachEdge(isa, a0, false, s.m);
    DrainStarts(isa, a0, o, Edge(s.m));
  }

  lemma EdgeDraining(isa: Isa, a0: Arch, o: Origin, s: System)
    requires Draining(isa, a0, o, s) && After(isa, a0, o, s) && Shutdown.Inv(View(s, o.c))
    ensures AllAt(s, Shutdown.AtRising) ==> Draining(isa, a0, o, Rise(s))
    ensures AllAt(s, Shutdown.AtFalling) ==> Draining(isa, a0, o, Fall(s))
  {
    hide Draining, Rise, Fall, Shutdown.Inv, View, After;
    AfterIs(isa, a0, o, s, 3);
    AfterClocked(isa, a0, o, s);
    ClockedEdge(s);
    if AllAt(s, Shutdown.AtRising) {
      RiseDraining(isa, a0, o, s);
    }
    if AllAt(s, Shutdown.AtFalling) {
      if s.m.hist.cycles == o.c { FallFirst(isa, a0, o, s); } else {
        WhoIsAlive(s, o, 3);
        assert s.threads[3].place.AtFalling?;
        DMHasEnded(s, o);
        FallDraining(isa, a0, o, s);
      }
    }
  }

  lemma AfterClocked(isa: Isa, a0: Arch, o: Origin, s: System)
    requires After(isa, a0, o, s)
    ensures Clocked(s)
  {
    hide Clocked, Alone, InID, InFirstCycle;
  }

  lemma DMHasEnded(s: System, o: Origin)
    requires Shutdown.Inv(View(s, o.c)) && o.c <= s.m.hist.cycles && s.threads[3].place.AtFalling?
    ensures s.m.hist.cycles - o.c >= 3 ==> s.threads[3].ended
  {
    ViewThread(s, o.c, 3);
    ViewParts(s, o.c);
    assert Shutdown.ThreadAt(View(s, o.c), 3);
    hide View;
  }

  lemma TogetherDraining(isa: Isa, a0: Arch, o: Origin, s: System)
    requires Draining(isa, a0, o, s)
    ensures Draining(isa, a0, o, Together(s))
  {
    hide Draining;
    TogetherIs(s);
    hide Together;
    KeepDraining(isa, a0, o, s, Together(s));
  }

  lemma NextDraining(isa: Isa, a0: Arch, o: Origin, s: System, s': System)
    requires Draining(isa, a0, o, s) && After(isa, a0, o, s) && Shutdown.Inv(View(s, o.c))
    requires Processor.Next(isa, s, s')
    ensures Draining(isa, a0, o, s')
  {
    hide Draining, After, Shutdown.Inv, View, Move, Rise, Fall, AllAt, WorksAlong, Together;
    if i: Index, text: string :| CanMove(s, i) && s' == Move(isa, s, i, text) {
      MoveDraining(isa, a0, o, s, i, text);
    } else if i: Index :| WorksAlong(s, i) && s' == Together(Move(isa, s, i, "")) {
      AlongMoves(s, i);
      MoveDraining(isa, a0, o, s, i, "");
      TogetherDraining(isa, a0, o, Move(isa, s, i, ""));
    } else {
      EdgeDraining(isa, a0, o, s);
    }
  }

  // ---------------------------------------------------------------- the end

  /** When all cycles are over, registers and memory are those of the sequential machine at the HALT,
      and that is its first one. */
  lemma Drained(isa: Isa, a0: Arch, o: Origin, s: System)
    requires Draining(isa, a0, o, s) && s.m.hist.cycles == o.c + 4 && s.m.clock == FIRST_HALF
    ensures var w := WorldAt(isa, a0, s.m);
      && s.m.sh.regs == At(w, o.n).regs && s.m.sh.mem == At(w, o.n).mem
      && InstrAt(w, o.n).kind.Halt? && HaltsUpTo(w, o.n) == 0
  {
    hide At, HaltsUpTo, HaltInEX;
    RegsAt(WorldAt(isa, a0, s.m), o.n);
    MemAt(WorldAt(isa, a0, s.m), o.n);
  }
}
