/** Every step of every stage keeps the invariant: IF and the clock edges. */
module PipelineFront {
  import opened Basics
  import opened Instructions
  import opened Reference
  import opened Pipeline
  import opened SequentialRun
  import opened PipelineInvariant
  import opened PipelineSteps

  /** A step of IF: the stages behind it do not notice. */
  predicate BackUntouched(m: Machine, m': Machine) {
    && RolesOf(m') == RolesOf(m)
    && TaskN(m') == TaskN(m) && TaskX(m') == TaskX(m) && TaskY(m') == TaskY(m) && TaskZ(m') == TaskZ(m)
    && Slots(m')
    && m'.hist == m.hist.(halts := m'.hist.halts)
    && m'.sh.regs == m.sh.regs && m'.sh.mem == m.sh.mem && m'.sh.board == m.sh.board
    && m'.lo.exTask == m.lo.exTask && m'.lo.exOut == m.lo.exOut
    && m'.clock == m.clock.Mark(IF)
    && m.allocs <= m'.allocs
  }

  lemma BackAfterIF(w: World, m: Machine, m': Machine, v: Roles)
    requires BackUntouched(m, m') && v == RolesOf(m) && Back(w, m, v)
    ensures Back(w, m', v)
  {
    hide RolesOf, TaskN, TaskX, TaskY, TaskZ, Slots, RegsOk, MemOk, Waiting, Computed, Finished, Complete;
  }

  lemma BoardAfterIF(w: World, b: Board, v: Roles, c: Clock)
    requires Scoreboard(w, b, v, c)
    ensures Scoreboard(w, b, v, c.Mark(IF))
  {
    hide ResultAt;
    forall r: Reg | r != 0 ensures Cell(w, b[r], v, c.Mark(IF), r) { assert Cell(w, b[r], v, c, r); }
  }

  lemma KeepIF(w: World, m: Machine, m': Machine)
    requires Inv(w, m) && BackUntouched(m, m')
    requires FrontEnd(w, FetcherOf(m'))
    requires forall streak, v :: Timing(w, FetcherOf(m), streak, v) ==> Timing(w, FetcherOf(m'), streak, v)
    requires m.clock.half.Second? ==> m'.sh.pcFlush == m.sh.pcFlush
    ensures Inv(w, m')
  {
    hide Inv, Order, Slots, Back, Scoreboard, FrontEnd, Timing, RolesOf, FetcherOf, TaskN, TaskX, TaskY, TaskZ;
    var v := RolesOf(m);
    Unfold(w, m, v);
    BackAfterIF(w, m, m', v);
    BoardAfterIF(w, m.sh.board, v, m.clock);
    SameAccount(w, m.hist, m'.hist, BeforeIssue(m.clock), m.sh.pcFlush > 0);
    assert Account(w, m'.hist, BeforeIssue(m'.clock), m'.sh.pcFlush > 0);
    Fold(w, m', v);
  }

  // ---------------------------------------------------------------- IF, first half

  lemma FirstIFTouches(isa: Isa, m: Machine)
    ensures var m' := FirstIF(isa, m);
      && m'.sh == m.sh.(pc := m'.sh.pc, pcJump := m'.sh.pcJump, pcFlush := m'.sh.pcFlush)
      && m' == m.(sh := m'.sh, lo := m.lo.(ifTask := m'.lo.ifTask), allocs := m'.allocs,
                  hist := m.hist.(halts := m'.hist.halts))
      && m.allocs <= m'.allocs
  {
    hide Get, Counts;
  }

  lemma ShapeFirstIF(isa: Isa, m: Machine)
    requires m.clock.half.First? && !m.clock.doneIF && Slots(m)
    ensures BackUntouched(m, Tick(FirstIF(isa, m), IF))
  {
    FirstIFTouches(isa, m);
    hide FirstIF;
  }

  lemma FetcherFirstIF(isa: Isa, m: Machine)
    ensures var f, f' := FetcherOf(m), FetcherOf(Tick(FirstIF(isa, m), IF));
      var sh := UpdatePC(m.sh, m.lo.ifTask.Some?);
      var keep := f.ifStall && f.ifTask.Some?;
      f' == f.(doneIF := true, pc := sh.pc, pcJump := sh.pcJump, pcFlush := f.pcFlush - 1,
               halts := f.halts + (if Counts(m) then 1 else 0),
               ifTask := if keep then f.ifTask else Some(Get(f.allocs, isa.fetch(sh.pc), sh.pc)),
               allocs := if keep then f.allocs else f.allocs + 1)
  {
    var sh := UpdatePC(m.sh, m.lo.ifTask.Some?);
    assert sh == m.sh.(pc := sh.pc, pcJump := sh.pcJump);
    hide UpdatePC, Get, Counts;
  }

  /** IF counts the HALTs of the right path, each once. */
  lemma CountFirstIF(w: World, m: Machine)
    requires m.clock.half.First? && !m.clock.doneIF && FrontEnd(w, FetcherOf(m))
    ensures Counts(m) <==> m.hist.front.Straight? && InstrAt(w, m.hist.issued).kind.Halt?
    ensures HaltCount(w, FetcherOf(Tick(FirstIF(w.isa, m), IF)))
  {
    FetcherFirstIF(w.isa, m);
    hide At, FirstIF, Advance, Tick, Captured, HoldsNext;
  }

  lemma FrontFirstIF(w: World, m: Machine)
    requires m.clock.half.First? && !m.clock.doneIF
    requires FrontEnd(w, FetcherOf(m)) && m.hist.topId < m.allocs
    ensures FrontEnd(w, FetcherOf(Tick(FirstIF(w.isa, m), IF)))
  {
    CountFirstIF(w, m);
    FetcherFirstIF(w.isa, m);
    hide At, FirstIF, InstrAt, Advance, Tick, HaltsUpTo, Counts, Captured;
  }

  lemma KeepFirstIF(w: World, m: Machine)
    requires Inv(w, m) && m.clock.half.First? && !m.clock.doneIF
    ensures Inv(w, Tick(FirstIF(w.isa, m), IF))
  {
    var v, m' := RolesOf(m), Tick(FirstIF(w.isa, m), IF);
    hide Inv, Order, Slots, Back, Scoreboard, FrontEnd, RolesOf, FirstIF, BackUntouched, UpdatePC;
    Unfold(w, m, v);
    ShapeFirstIF(w.isa, m);
    FetcherFirstIF(w.isa, m);
    FrontFirstIF(w, m);
    assert m.hist.topId < m.allocs;
    hide Ids, At, Account, Tick, Pair, Issuing;
    KeepIF(w, m, m');
  }

  // ---------------------------------------------------------------- IF, second half

  lemma ShapeSecondIF(m: Machine)
    requires m.clock.half.Second? && !m.clock.doneIF && Slots(m) && m.lo.ifTask.Some?
    ensures BackUntouched(m, Tick(SecondIF(m), IF))
    ensures var f, f' := FetcherOf(m), FetcherOf(Tick(SecondIF(m), IF));
      f' == f.(doneIF := true, ifId := if f.ifId.None? then f.ifTask else f.ifId)
  {
  }

  lemma FrontSecondIF(w: World, m: Machine)
    requires m.clock.half.Second? && !m.clock.doneIF && m.lo.ifTask.Some? && Slots(m)
    requires FrontEnd(w, FetcherOf(m))
    ensures FrontEnd(w, FetcherOf(Tick(SecondIF(m), IF)))
  {
    hide At, SecondIF, InstrAt, BackUntouched, FetcherOf, Tick, Slots;
    ShapeSecondIF(m);
    FetchedInSecond(m);
    PushFront(w, FetcherOf(m));
  }

  lemma FetchedInSecond(m: Machine)
    ensures var f := FetcherOf(m); f.half == m.clock.half && f.doneIF == m.clock.doneIF && f.ifTask == m.lo.ifTask
  {
  }

  lemma PushFront(w: World, f: Fetcher)
    requires f.half.Second? && !f.doneIF && f.ifTask.Some? && FrontEnd(w, f)
    ensures FrontEnd(w, f.(doneIF := true, ifId := if f.ifId.None? then f.ifTask else f.ifId))
  {
    hide At, InstrAt, HaltsUpTo, Exposed, Loses, ComparesWithItself, Dest;
  }

  lemma KeepSecondIF(w: World, m: Machine)
    requires Inv(w, m) && m.clock.half.Second? && !m.clock.doneIF && m.lo.ifTask.Some?
    ensures Inv(w, Tick(SecondIF(m), IF))
  {
    var v, m' := RolesOf(m), Tick(SecondIF(m), IF);
    hide Inv, Order, Slots, Back, Scoreboard, FrontEnd, RolesOf, SecondIF, BackUntouched;
    Unfold(w, m, v);
    ShapeSecondIF(m);
    FrontSecondIF(w, m);
    hide Ids, At, Account, Tick, Pair, Issuing;
    KeepIF(w, m, m');
  }

  // ---------------------------------------------------------------- clock edges

  lemma ShapeRising(m: Machine)
    requires m.clock.half.First? && m.clock.AllDone() && Slots(m)
    ensures var m' := Edge(m);
      && RolesOf(m') == RolesOf(m) && RolesOf(m).n.None? && RolesOf(m).z.None? && TaskN(m) == None
      && TaskN(m') == TaskN(m) && TaskX(m') == TaskX(m) && TaskY(m') == TaskY(m) && TaskZ(m') == TaskZ(m)
      && Slots(m')
      && FetcherOf(m') == FetcherOf(m).(half := Second, doneIF := false, doneID := false)
  {
  }

  lemma BoardRising(w: World, b: Board, v: Roles, c: Clock)
    requires c.half.First? && c.AllDone() && Scoreboard(w, b, v, c) && v.n.None? && v.z.None?
    ensures Scoreboard(w, b, v, SECOND_HALF)
  {
    hide ResultAt;
    forall r: Reg | r != 0 ensures Cell(w, b[r], v, SECOND_HALF, r) { assert Cell(w, b[r], v, c, r); }
  }

  lemma BackRising(w: World, m: Machine, v: Roles)
    requires m.clock.half.First? && m.clock.AllDone() && Slots(m) && v == RolesOf(m) && Back(w, m, v)
    ensures Back(w, Edge(m), v)
  {
    hide Slots, RegsOk, MemOk, RolesOf, TaskN, TaskX, TaskY, TaskZ, Waiting, Computed, Finished, Complete;
    ShapeRising(m);
  }

  lemma FrontRising(w: World, f: Fetcher)
    requires FrontEnd(w, f) && f.half.First? && f.doneIF && f.doneID
    ensures FrontEnd(w, f.(half := Second, doneIF := false, doneID := false))
  {
    hide At, InstrAt;
  }

  lemma KeepRising(w: World, m: Machine)
    requires Inv(w, m) && m.clock.half.First? && m.clock.AllDone()
    ensures Inv(w, Edge(m))
  {
    var v := RolesOf(m);
    hide Inv, Order, Ids, Slots, Back, Scoreboard, FrontEnd, RolesOf, TaskN, TaskX, TaskY, TaskZ, Pair, Issuing;
    Unfold(w, m, v);
    ShapeRising(m);
    BackRising(w, m, v);
    BoardRising(w, m.sh.board, v, m.clock);
    FrontRising(w, FetcherOf(m));
    Fold(w, Edge(m), v);
  }

  function Shift(v: Roles): Roles { Roles(None, v.n, v.x, v.y) }

  lemma ShapeFalling(m: Machine)
    requires m.clock.half.Second? && m.clock.AllDone() && Slots(m)
    ensures var m' := Edge(m);
      && RolesOf(m') == Shift(RolesOf(m)) && RolesOf(m).z.None?
      && TaskN(m') == None && TaskX(m') == TaskN(m) && TaskY(m') == TaskX(m) && TaskZ(m') == TaskY(m)
      && Slots(m')
      && m'.hist.races == m.hist.races + RaceOf(m.sh)
      && RaceOf(m.sh) == (if TaskN(m).Some? then [Outcome(m.sh.board, Dest(TaskN(m).value.instr))] else [])
  {
  }

  /** The outcomes that w gives are those of the execution so far. */
  ghost predicate Agrees(w: World, races: seq<Race>) {
    forall k: nat :: k < |races| ==> w.race(k) == races[k]
  }

  /** The race of the cycle that ends here goes as w says. */
  lemma RaceFalling(w: World, m: Machine, v: Roles)
    requires m.clock.half.Second? && m.clock.AllDone() && Slots(m) && v == RolesOf(m)
    requires Order(w, m.hist.issued, v) && |m.hist.races| + Count(v.n) == m.hist.issued
    requires Agrees(w, Edge(m).hist.races)
    ensures v.n.Some? ==> w.race(v.n.value.ord) == Outcome(m.sh.board, Dest(v.n.value.instr))
    ensures |Edge(m).hist.races| + Count(Shift(v).n) == Edge(m).hist.issued
  {
    ShapeFalling(m);
    hide Edge, Slots, TaskX, TaskY, TaskZ, TaskN, Outcome, RaceOf, At;
    if v.n.Some? { assert Edge(m).hist.races[|m.hist.races|] == Outcome(m.sh.board, Dest(v.n.value.instr)); }
  }

  lemma BoardFalling(w: World, b: Board, v: Roles, c: Clock)
    requires c.half.Second? && c.AllDone() && Scoreboard(w, b, v, c) && v.z.None?
    requires v.n.Some? ==> w.race(v.n.value.ord) == Outcome(b, Dest(v.n.value.instr))
    ensures Scoreboard(w, b, Shift(v), FIRST_HALF)
  {
    hide ResultAt;
    forall r: Reg | r != 0 ensures Cell(w, b[r], Shift(v), FIRST_HALF, r) { assert Cell(w, b[r], v, c, r); }
  }

  lemma BackFalling(w: World, m: Machine, v: Roles)
    requires m.clock.half.Second? && m.clock.AllDone() && Slots(m) && v == RolesOf(m) && Back(w, m, v)
    ensures Back(w, Edge(m), Shift(v))
  {
    hide Slots, RegsOk, MemOk, RolesOf, TaskN, TaskX, TaskY, TaskZ, Waiting, Computed, Finished, Complete;
    ShapeFalling(m);
  }

  lemma FrontFalling(w: World, m: Machine)
    requires m.clock.half.Second? && m.clock.AllDone() && FrontEnd(w, FetcherOf(m))
    ensures FrontEnd(w, FetcherOf(Edge(m)))
  {
    hide At, InstrAt;
  }

  lemma TimingFalling(w: World, m: Machine, v: Roles)
    requires m.clock.half.Second? && m.clock.AllDone() && v.z.None?
    requires Timing(w, FetcherOf(m), m.hist.streak, v)
    ensures Timing(w, FetcherOf(Edge(m)), m.hist.streak, Shift(v))
  {
    hide AdjacentAt, Predicted, FollowsAt;
  }

  lemma AccountFalling(w: World, m: Machine)
    requires m.clock.half.Second? && m.clock.AllDone()
    requires FrontEnd(w, FetcherOf(m))
    requires Account(w, m.hist, false, m.sh.pcFlush > 0)
    ensures Account(w, Edge(m).hist, true, m.sh.pcFlush > 0)
  {
    hide At, InstrAt, FetchOf;
  }

  lemma KeepFalling(w: World, m: Machine)
    requires Inv(w, m) && m.clock.half.Second? && m.clock.AllDone()
    requires Agrees(w, Edge(m).hist.races)
    ensures Inv(w, Edge(m))
  {
    var v := RolesOf(m);
    hide Inv, Slots, Back, Scoreboard, FrontEnd, Timing, Account, RolesOf, TaskN, TaskX, TaskY, TaskZ, FetcherOf, At,
         Agrees, Outcome, RaceOf;
    Unfold(w, m, v);
    RaceFalling(w, m, v);
    ShapeFalling(m);
    BackFalling(w, m, v);
    BoardFalling(w, m.sh.board, v, m.clock);
    FrontFalling(w, m);
    TimingFalling(w, m, v);
    AccountFalling(w, m);
    Fold(w, Edge(m), Shift(v));
  }
}
