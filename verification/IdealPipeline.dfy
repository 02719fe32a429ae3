/** When the pipeline is the machine that the instruction set describes: exactly when no
    instruction is spoiled. */
module IdealPipeline {
  import opened Basics
  import opened Instructions
  import opened Reference
  import opened Pipeline
  import opened SequentialRun
  import opened PipelineInvariant
  import opened PipelineSteps
  import opened PipelineFront
  import opened PipelineIssue
  import opened PipelineSecondID
  import opened PipelineTheorems
  import opened Deadlines
  import opened StageOrder
  import opened Ideal

  /** Registers and memory of the ideal machine, after the retired and the stored instructions. */
  ghost predicate ShowsIdeal(isa: Isa, a0: Arch, m: Machine) {
    && 0 <= RetiredAt(m) && 0 <= StoredAt(m)
    && m.sh.regs == IdealRun(isa, a0, RetiredAt(m)).regs
    && m.sh.mem == IdealRun(isa, a0, StoredAt(m)).mem
  }

  /** Whatever unassigned fields contain: under all schedules in which ID waits for EX, registers
      and memory are the ideal ones as long as no more than n instructions are through DM. */
  ghost predicate IdealUpTo(isa: Isa, a0: Arch, n: nat) {
    forall g: nat -> Word, m ::
      Reachable(WithJunk(isa, g), a0, true, m) && StoredAt(m) <= n ==> ShowsIdeal(isa, a0, m)
  }

  // ---------------------------------------------------------------- ideal if unspoiled

  lemma PlainIsIdeal(isa: Isa, a0: Arch, g: nat -> Word, n: nat, k: nat)
    requires NoneSpoiled(isa, a0, n) && k <= n
    ensures Run(WithJunk(isa, g), NEVER, a0, k) == IdealRun(isa, a0, k)
  {
    hide Spoiled, IdealRun, Run, WithJunk;
    RunIgnoresJunk(isa, a0, g, k);
  }

  lemma OrderedIsIdeal(isa: Isa, a0: Arch, g: nat -> Word, n: nat, m: Machine)
    requires NoneSpoiled(isa, a0, n)
    requires Reachable(WithJunk(isa, g), a0, true, m) && StoredAt(m) <= n
    ensures ShowsIdeal(isa, a0, m)
  {
    hide NoneSpoiled, RunFrom, Pipeline.Next, Run, IdealRun, RetiredAt, StoredAt, NEVER, RacesOf, WithJunk;
    var trace :| Ends(WithJunk(isa, g), a0, true, trace, m);
    PipelineRefinesReference(WithJunk(isa, g), a0, trace, |trace| - 1);
    OrderedLosesNoRace(WithJunk(isa, g), a0, trace, RetiredAt(m));
    OrderedLosesNoRace(WithJunk(isa, g), a0, trace, StoredAt(m));
    PlainIsIdeal(isa, a0, g, n, RetiredAt(m));
    PlainIsIdeal(isa, a0, g, n, StoredAt(m));
  }

  /** Under any schedule at all, if besides no branch diverges. */
  lemma PipelineIsIdeal(isa: Isa, a0: Arch, trace: seq<Machine>, j: nat, n: nat)
    requires RunFrom(isa, a0, trace) && j < |trace| && StoredAt(trace[j]) <= n
    requires NoneSpoiled(isa, a0, n) && NoneDivergesBefore(isa, a0, n)
    ensures ShowsIdeal(isa, a0, trace[j])
  {
    hide NoneSpoiled, NoneDivergesBefore, Execution, Init, Boot, Run, IdealRun, RetiredAt, StoredAt, NEVER, RacesOf,
         WithJunk, JumpOf;
    var m := trace[j];
    PipelineRefinesReference(isa, a0, trace, j);
    SameButView(isa, RacesOf(trace), a0, RetiredAt(m), n);
    SameButView(isa, RacesOf(trace), a0, StoredAt(m), n);
    PlainIsIdeal(isa, a0, isa.junk, n, RetiredAt(m));
    PlainIsIdeal(isa, a0, isa.junk, n, StoredAt(m));
    assert WithJunk(isa, isa.junk) == isa by { SameJunk(isa); }
  }

  /** So two schedules agree whenever they have got equally far, even if their unassigned fields have
      different contents. */
  lemma OrderedSchedulesAgree(isa: Isa, a0: Arch, g: nat -> Word, g': nat -> Word, n: nat, m: Machine, m': Machine)
    requires NoneSpoiled(isa, a0, n)
    requires Reachable(WithJunk(isa, g), a0, true, m) && StoredAt(m) <= n
    requires Reachable(WithJunk(isa, g'), a0, true, m') && StoredAt(m') <= n
    ensures RetiredAt(m) == RetiredAt(m') ==> m.sh.regs == m'.sh.regs
    ensures StoredAt(m) == StoredAt(m') ==> m.sh.mem == m'.sh.mem
  {
    hide Reachable, NoneSpoiled, RetiredAt, StoredAt, IdealRun;
    OrderedIsIdeal(isa, a0, g, n, m);
    OrderedIsIdeal(isa, a0, g', n, m');
  }

  lemma SameJunk(isa: Isa)
    ensures WithJunk(isa, isa.junk) == isa
  {
  }

  // ---------------------------------------------------------------- spoiled if ideal

  lemma FirstKeepsRetired(w: World, m: Machine, s: Stage)
    requires Inv(w, m) && m.clock.half.First? && !m.clock.Done(s) && !s.WB?
    ensures RetiredAt(Fire(w.isa, m, s)) == RetiredAt(m)
  {
    hide Inv, RolesOf, FirstIF, FirstID, FirstEX, FirstDM, Slots, FetcherOf, BeforeIssue, Retired;
    Unfold(w, m, RolesOf(m));
    match s
    case IF => ShapeFirstIF(w.isa, m);
    case ID => ShapeFirstID(m);
    case EX => ShapeFirstEX(w.isa, m);
    case DM => ShapeFirstDM(w.isa, m);
  }

  lemma SecondIDKeepsRetired(w: World, m: Machine)
    requires Inv(w, m) && m.clock.half.Second? && !m.clock.doneID
    ensures RetiredAt(Fire(w.isa, m, ID)) == RetiredAt(m)
  {
    hide Inv, SecondID, Decide, RolesOf, At, FrontEnd, Order, Ids, Back, Scoreboard, Timing, Account, Slots, Captured;
    Unfold(w, m, RolesOf(m));
    FrontAtDecision(w, m);
    BubbleNeverWaits(w.isa, m);
    RolesAtDecision(m);
    if !IsNextFront(m) {
      ShapeBubble(w.isa, m);
    } else if Decide(w.isa, m.sh, m.lo).wait {
      ShapeWait(w.isa, m);
    } else {
      IssuedTag(w, m);
      ShapeIssue(w.isa, m);
    }
  }

  lemma SecondKeepsRetired(w: World, m: Machine, s: Stage)
    requires Inv(w, m) && m.clock.half.Second? && !m.clock.Done(s) && (s.IF? ==> m.lo.ifTask.Some?)
    ensures RetiredAt(Fire(w.isa, m, s)) == RetiredAt(m)
  {
    hide Inv, RolesOf, SecondIF, SecondID, SecondEX, SecondDM, SecondWB, Slots, FetcherOf, BeforeIssue, Retired;
    Unfold(w, m, RolesOf(m));
    match s
    case IF => ShapeSecondIF(m);
    case ID => SecondIDKeepsRetired(w, m);
    case EX => ShapeSecondEX(m);
    case DM => ShapeSecondDM(w.isa, m);
    case WB => ShapeSecondWB(m);
  }

  /** Only WB retires instructions. */
  lemma GoOn(isa: Isa, a0: Arch, m: Machine, s: Stage) returns (m': Machine)
    requires Reachable(isa, a0, true, m) && CanFire(true, m, s) && (s.WB? ==> m.clock.half.Second?)
    ensures m' == Fire(isa, m, s) && Reachable(isa, a0, true, m')
    ensures RetiredAt(m') == RetiredAt(m) && m'.clock == m.clock.Mark(s) && m'.hist.cycles == m.hist.cycles
    ensures s.IF? || m.lo.ifTask.Some? ==> m'.lo.ifTask.Some?
  {
    hide Reachable, Inv, Agrees, Fire, RetiredAt;
    ReachGood(isa, a0, true, m);
    ReachFire(isa, a0, true, m, s);
    FireClock(isa, m, s);
    FireCycles(WorldAt(isa, a0, m), m, s);
    if m.clock.half.First? {
      FirstKeepsRetired(WorldAt(isa, a0, m), m, s);
    } else {
      SecondKeepsRetired(WorldAt(isa, a0, m), m, s);
    }
    m' := Fire(isa, m, s);
    KeepsTask(isa, m, s);
  }

  lemma KeepsTask(isa: Isa, m: Machine, s: Stage)
    requires s.IF? && m.clock.half.Second? ==> m.lo.ifTask.Some?
    ensures s.IF? || m.lo.ifTask.Some? ==> Fire(isa, m, s).lo.ifTask.Some?
  {
    hide Decide, Compute, ReserveDest, Transfer, Capture, ResolvesRs, ResolvesRt, Counts, UpdatePC;
  }

  lemma Cross(isa: Isa, a0: Arch, m: Machine) returns (m': Machine)
    requires Reachable(isa, a0, true, m) && m.clock.AllDone()
    ensures m' == Edge(m) && Reachable(isa, a0, true, m') && RetiredAt(m') == RetiredAt(m)
  {
    hide Reachable, Inv, Agrees, Slots, TaskN, TaskX, TaskY, TaskZ;
    ReachGood(isa, a0, true, m);
    ReachEdge(isa, a0, true, m);
    Unfold(WorldAt(isa, a0, m), m, RolesOf(m));
    if m.clock.half.First? { ShapeRising(m); } else { ShapeFalling(m); }
    m' := Edge(m);
  }

  /** In the first half, when WB has written and DM has not started, as many instructions are
      stored as retired. */
  lemma AfterWrite(isa: Isa, a0: Arch, m: Machine) returns (q: Machine)
    requires Reachable(isa, a0, true, m) && m.clock == FIRST_HALF
    ensures Reachable(isa, a0, true, q) && q.clock == FIRST_HALF.Mark(WB) && q.hist.cycles == m.hist.cycles
    ensures RetiredAt(m) <= RetiredAt(q) <= RetiredAt(m) + 1 && StoredAt(q) == RetiredAt(q)
  {
    hide Reachable, Inv, Agrees, Fire, RolesOf, FirstWB, Slots, FetcherOf, BeforeIssue, RetiredAt, StoredAt;
    var w := WorldAt(isa, a0, m);
    ReachGood(isa, a0, true, m);
    Unfold(w, m, RolesOf(m));
    ReachFire(isa, a0, true, m, WB);
    FireClock(isa, m, WB);
    ShapeFirstWB(isa, m);
    q := Fire(isa, m, WB);
    assert q == Tick(FirstWB(isa, m), WB) by { FirstWBFires(isa, m); }
    FirstHasNoNewcomer(m);
    WriteCounts(m, q);
  }

  lemma WriteCounts(m: Machine, q: Machine)
    requires m.clock == FIRST_HALF && q.clock == FIRST_HALF.Mark(WB) && RolesOf(m).n.None?
    requires RolesOf(q) == RolesOf(m).(z := None) && q.hist.issued == m.hist.issued
    ensures RetiredAt(m) <= RetiredAt(q) <= RetiredAt(m) + 1 && StoredAt(q) == RetiredAt(q)
  {
    hide RolesOf;
  }

  lemma FirstWBFires(isa: Isa, m: Machine)
    requires m.clock.half.First?
    ensures Fire(isa, m, WB) == Tick(FirstWB(isa, m), WB)
  {
    hide FirstWB;
  }

  lemma FirstHasNoNewcomer(m: Machine)
    requires m.clock.half.First?
    ensures RolesOf(m).n.None?
  {
    hide TaskX, TaskY, TaskZ;
  }

  lemma RestOfCycle(isa: Isa, a0: Arch, q: Machine) returns (m: Machine)
    requires Reachable(isa, a0, true, q) && q.clock == FIRST_HALF.Mark(WB)
    ensures Reachable(isa, a0, true, m) && m.clock == FIRST_HALF && m.hist.cycles == q.hist.cycles + 1
    ensures RetiredAt(m) == RetiredAt(q)
  {
    hide Reachable, RetiredAt, Fire;
    m := GoOn(isa, a0, q, IF);
    m := GoOn(isa, a0, m, ID);
    m := GoOn(isa, a0, m, EX);
    m := GoOn(isa, a0, m, DM);
    m := Cross(isa, a0, m);
    m := GoOn(isa, a0, m, IF);
    m := GoOn(isa, a0, m, EX);
    m := GoOn(isa, a0, m, ID);
    m := GoOn(isa, a0, m, DM);
    m := GoOn(isa, a0, m, WB);
    m := Cross(isa, a0, m);
  }

  /** A state that has not retired n instructions is early. */
  lemma NotYet(isa: Isa, a0: Arch, m: Machine, n: nat)
    requires Reachable(isa, a0, true, m) && RetiredAt(m) < n
    ensures m.hist.cycles < 4 * n + 4
  {
    hide RunFrom, Pipeline.Next, RetiredAt, FiresUpTo, WorldOf;
    var trace :| Ends(isa, a0, true, trace, m);
    FewFires(WorldOf(isa, a0, trace), n);
    if m.hist.cycles >= 4 * n + 4 { RetiresByDeadline(isa, a0, trace, |trace| - 1, n); }
  }

  /** Some state has retired and stored exactly n instructions. */
  lemma {:induction false} FindRetired(isa: Isa, a0: Arch, m: Machine, n: nat) returns (q: Machine)
    requires Reachable(isa, a0, true, m) && m.clock == FIRST_HALF && RetiredAt(m) < n
    ensures Reachable(isa, a0, true, q) && RetiredAt(q) == StoredAt(q) == n
    decreases 4 * n + 4 - m.hist.cycles
  {
    hide Reachable, RetiredAt, StoredAt;
    NotYet(isa, a0, m, n);
    q := AfterWrite(isa, a0, m);
    if RetiredAt(q) != n {
      var m' := RestOfCycle(isa, a0, q);
      q := FindRetired(isa, a0, m', n);
    }
  }

  lemma NothingRetired(isa: Isa, a0: Arch)
    requires Boot(a0)
    ensures var m := Init(a0.pc, a0.regs, a0.mem);
      Reachable(isa, a0, true, m) && m.clock == FIRST_HALF && RetiredAt(m) == 0
  {
    hide Init, Reachable;
    ReachBoot(isa, a0, true);
    InitRoles(a0.pc, a0.regs, a0.mem);
  }

  /** A spoiled instruction shows when it has retired, for some content of the unassigned fields. */
  lemma SpoiledIsSeen(isa: Isa, a0: Arch, n: nat)
    requires Boot(a0) && !NoneSpoiled(isa, a0, n)
    ensures !IdealUpTo(isa, a0, n)
  {
    hide NoneSpoiled, Boot, Spoiled, RetiredAt, StoredAt, WithJunk, Reachable, Init, Step, IdealStep;
    var k := FirstSpoiled(isa, a0, n);
    var g := SpoiledShows(isa, k, IdealRun(isa, a0, k));
    PlainIsIdeal(isa, a0, g, k, k);
    assert Run(WithJunk(isa, g), NEVER, a0, k + 1) == Step(WithJunk(isa, g), k, Won, IdealRun(isa, a0, k));
    assert IdealRun(isa, a0, k + 1) == IdealStep(isa, IdealRun(isa, a0, k));
    hide Run, IdealRun, NEVER;
    NothingRetired(WithJunk(isa, g), a0);
    var m := FindRetired(WithJunk(isa, g), a0, Init(a0.pc, a0.regs, a0.mem), k + 1);
    OrderedIsPlain(WithJunk(isa, g), a0, m);
  }

  /** Main theorem: in all executions in which ID waits for EX, registers and memory are those of the
      ideal machine for the first n instructions if and only if none of these is spoiled. */
  lemma IdealIffUnspoiled(isa: Isa, a0: Arch, n: nat)
    requires Boot(a0)
    ensures IdealUpTo(isa, a0, n) <==> NoneSpoiled(isa, a0, n)
  {
    hide NoneSpoiled, Boot, RetiredAt, StoredAt, WithJunk, Reachable, ShowsIdeal;
    if NoneSpoiled(isa, a0, n) {
      forall g: nat -> Word, m | Reachable(WithJunk(isa, g), a0, true, m) && StoredAt(m) <= n
        ensures ShowsIdeal(isa, a0, m)
      {
        OrderedIsIdeal(isa, a0, g, n, m);
      }
    } else {
      SpoiledIsSeen(isa, a0, n);
    }
  }
}
