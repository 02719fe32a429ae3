/** When does the order of ID and EX in the second half matter? EX makes its result available to
    ID, and ID resets the reservation of its destination; the fences do not order the two. A branch
    just behind may find the result that has just been overwritten, or a zero.

    If ID always waits for EX, no race is lost. Otherwise ID decides every transfer as the
    sequential machine does, under every schedule, if and only if no branch of the sequential run
    `Diverges`: is decided differently by one of these two values. */
module StageOrder {
  import opened Basics
  import opened Instructions
  import opened Reference
  import opened Pipeline
  import opened SequentialRun
  import opened PipelineInvariant
  import opened PipelineSteps
  import opened PipelineFront
  import opened PipelineIssue
  import opened PipelineDecide
  import opened PipelineSecondID
  import opened PipelineTheorems

  // ---------------------------------------------------------------- EX before ID

  /** What has left ID in this cycle has left nothing on offer. */
  predicate NothingOffered(sh: Shared) {
    sh.idEx.Some? && sh.idEx.value.fetched ==> !Offered(sh.board, Dest(sh.idEx.value.instr))
  }

  predicate Timely(m: Machine) {
    && (forall k :: 0 <= k < |m.hist.races| ==> m.hist.races[k].Won?)
    && (m.clock.half.Second? && m.clock.doneID ==> m.clock.doneEX && NothingOffered(m.sh))
  }

  /** An instruction that leaves ID resets its register, or marks the value that is there. */
  lemma IssueOffersNothing(w: World, m: Machine)
    requires Boot(w.a0) && Inv(w, m) && m.clock.half.Second? && !m.clock.doneID
    ensures NothingOffered(Fire(w.isa, m, ID).sh)
  {
    hide Inv, Boot, SecondID, RolesOf, Order, Ids, Back, FrontEnd, Timing, Account, Slots, Offered;
    var m' := Fire(w.isa, m, ID);
    KeepSecondID(w, m);
    FireClock(w.isa, m, ID);
    Unfold(w, m, RolesOf(m));
    Unfold(w, m', RolesOf(m'));
    EmptyBeforeIssue(m);
    LeavesReserved(w.isa, m);
    if m'.sh.idEx.Some? && m'.sh.idEx.value.fetched {
      NewcomerOffersNothing(w, m'.sh.board, RolesOf(m'), m'.clock, m'.sh.idEx.value) by { TagOfNewcomer(m'); }
    }
  }

  lemma EmptyBeforeIssue(m: Machine)
    requires m.clock.half.Second? && !m.clock.doneID && Slots(m)
    ensures m.sh.idEx.None?
  {
  }

  lemma TagOfNewcomer(m: Machine)
    requires m.clock.half.Second? && m.clock.doneID && m.sh.idEx.Some? && m.sh.idEx.value.fetched
    ensures RolesOf(m).n == TagOf(m.sh.idEx)
  {
    hide TaskX, TaskY, TaskZ;
  }

  lemma LeavesReserved(isa: Isa, m: Machine)
    requires m.sh.idEx.None?
    ensures var sh := SecondID(isa, m).sh;
      sh.idEx.Some? && Exports(sh.idEx.value.instr) && !Acquires(sh.idEx.value.instr, Dest(sh.idEx.value.instr)) ==>
        !Offered(sh.board, Dest(sh.idEx.value.instr))
  {
    hide Decide, Acquires;
    TransferSpec(isa, m.sh, Decide(isa, m.sh, m.lo).jump);
    hide Transfer;
  }

  lemma NewcomerOffersNothing(w: World, b: Board, v: Roles, c: Clock, t: Task)
    requires Scoreboard(w, b, v, c) && v.n == TagOf(Some(t))
    requires Exports(t.instr) && !Acquires(t.instr, Dest(t.instr)) ==> !Offered(b, Dest(t.instr))
    ensures !Offered(b, Dest(t.instr))
  {
    hide ResultAt, Acquires;
    var r := Dest(t.instr);
    if r != 0 { assert Cell(w, b[r], v, c, r); }
  }

  lemma OthersOfferNothing(isa: Isa, m: Machine, s: Stage)
    requires m.clock.half.Second? && (s.IF? || s.DM? || s.WB?) && (s.IF? ==> m.lo.ifTask.Some?)
    requires NothingOffered(m.sh)
    ensures NothingOffered(Fire(isa, m, s).sh)
  {
  }

  lemma TimelyNext(w: World, m: Machine, m': Machine)
    requires Boot(w.a0) && Inv(w, m) && Timely(m) && Pipeline.Next(w.isa, true, m, m')
    ensures Timely(m')
  {
    hide Inv, Boot, Fire, NothingOffered, Offered;
    if m.clock.AllDone() && m' == Edge(m) {
      TimelyEdge(m);
    } else {
      var s: Stage :| CanFire(true, m, s) && m' == Fire(w.isa, m, s);
      FireClock(w.isa, m, s);
      if m.clock.half.Second? {
        if s.ID? { IssueOffersNothing(w, m); }
        else if m.clock.doneID { OthersOfferNothing(w.isa, m, s); }
      }
    }
  }

  lemma TimelyEdge(m: Machine)
    requires Timely(m) && m.clock.AllDone()
    ensures Timely(Edge(m))
  {
    hide Offered;
  }

  lemma {:induction false} OrderedIsTimely(isa: Isa, a0: Arch, trace: seq<Machine>, j: nat)
    requires RunFrom(isa, a0, trace) && Execution(isa, true, trace) && j < |trace|
    ensures Timely(trace[j])
  {
    hide Inv, Boot, Pipeline.Next, Init, Agrees, RacesOf, Timely;
    if j == 0 {
      FreshIsTimely(a0);
    } else {
      OrderedIsTimely(isa, a0, trace, j - 1);
      InvariantHolds(isa, a0, trace, j - 1);
      TimelyNext(WorldOf(isa, a0, trace), trace[j - 1], trace[j]);
    }
  }

  lemma FreshIsTimely(a0: Arch)
    ensures Timely(Init(a0.pc, a0.regs, a0.mem))
  {
    hide FreeBoard;
  }

  lemma NeverIn(races: seq<Race>, k: nat)
    requires forall l :: 0 <= l < |races| ==> races[l].Won?
    ensures RaceIn(races)(k) == NEVER(k) == Won
  {
  }

  /** If ID waits for EX, registers and memory are those of the plain sequential machine. */
  lemma OrderedLosesNoRace(isa: Isa, a0: Arch, trace: seq<Machine>, k: nat)
    requires RunFrom(isa, a0, trace) && Execution(isa, true, trace)
    ensures Run(isa, RacesOf(trace), a0, k) == Run(isa, NEVER, a0, k)
  {
    hide RunFrom, Pipeline.Next, Run, NEVER, RaceIn;
    OrderedIsTimely(isa, a0, trace, |trace| - 1);
    forall l: nat | l < k ensures RacesOf(trace)(l) == NEVER(l) { NeverIn(trace[|trace| - 1].hist.races, l); }
    SameRaces(isa, NEVER, RacesOf(trace), a0, k);
  }

  lemma ReachTimely(isa: Isa, a0: Arch, m: Machine)
    requires Reachable(isa, a0, true, m)
    ensures Timely(m)
  {
    hide RunFrom, Pipeline.Next, Timely;
    var trace :| Ends(isa, a0, true, trace, m);
    OrderedIsTimely(isa, a0, trace, |trace| - 1);
  }

  /** The same in terms of reachable states. */
  lemma OrderedIsPlain(isa: Isa, a0: Arch, m: Machine)
    requires Reachable(isa, a0, true, m)
    ensures 0 <= RetiredAt(m) <= StoredAt(m)
    ensures m.sh.regs == Run(isa, NEVER, a0, RetiredAt(m)).regs
    ensures m.sh.mem == Run(isa, NEVER, a0, StoredAt(m)).mem
  {
    hide RunFrom, Pipeline.Next, Run, RetiredAt, StoredAt, NEVER, RacesOf;
    var trace :| Ends(isa, a0, true, trace, m);
    PipelineRefinesReference(isa, a0, trace, |trace| - 1);
    OrderedLosesNoRace(isa, a0, trace, RetiredAt(m));
    OrderedLosesNoRace(isa, a0, trace, StoredAt(m));
  }

  lemma {:induction false} SameFires(w: World, w': World, k: nat)
    requires forall l: nat :: l < k ==> Fires(w'.isa, At(w', l)) == Fires(w.isa, At(w, l))
    ensures FiresUpTo(w', k) == FiresUpTo(w, k)
  {
    hide At, Fires;
    if k > 0 { SameFires(w, w', k - 1); }
  }

  lemma OrderedProgress(isa: Isa, a0: Arch, m: Machine)
    requires Reachable(isa, a0, true, m) && m.clock == FIRST_HALF
    ensures m.hist.cycles <= 3 * RetiredAt(m) + FiresUpTo(World(isa, a0, NEVER), m.hist.issued) + 12
  {
    hide Reachable, Good, RetiredAt, FiresUpTo, Run, NEVER, RaceIn, Timely, Fires;
    var w, w' := World(isa, a0, NEVER), WorldAt(isa, a0, m);
    ReachGood(isa, a0, true, m);
    ReachTimely(isa, a0, m);
    GoodProgress(w', m);
    forall l: nat | l < m.hist.issued ensures Fires(isa, At(w', l)) == Fires(isa, At(w, l)) {
      TimelyIsPlain(isa, a0, m, l);
    }
    SameFires(w, w', m.hist.issued);
  }

  lemma TimelyIsPlain(isa: Isa, a0: Arch, m: Machine, k: nat)
    requires Timely(m)
    ensures At(WorldAt(isa, a0, m), k) == Run(isa, NEVER, a0, k)
  {
    hide Run, NEVER, RaceIn;
    forall l: nat | l < k ensures RaceIn(m.hist.races)(l) == NEVER(l) { NeverIn(m.hist.races, l); }
    SameRaces(isa, NEVER, RaceIn(m.hist.races), a0, k);
  }

  // ---------------------------------------------------------------- what a lost race changes

  /** The k-th state of the sequential machine that loses no race. */
  function Plain(isa: Isa, a0: Arch, k: nat): Arch { Run(isa, NEVER, a0, k) }

  /** The state with what a lost race has left of the register that the last instruction writes. */
  function Stale(isa: Isa, a0: Arch, k: nat, race: Race): Arch
    requires 0 < k
  {
    var a := Plain(isa, a0, k);
    var d := LastDest(a.past);
    a.(view := a.regs[d := LostValue(race, Plain(isa, a0, k - 1).regs[d])])
  }

  /** The k-th instruction completes the triple, does not compare a register with itself, and is
      decided differently by the register and by what the lost race has left of it. */
  predicate DivergesBy(isa: Isa, a0: Arch, k: nat, race: Race) {
    && 0 < k && !race.Won?
    && var a := Plain(isa, a0, k);
       var i := isa.fetch(a.pc);
       && Overwritten(i, a.past, LastDest(a.past))
       && !ComparesWithItself(i)
       && JumpOf(isa, Stale(isa, a0, k, race)) != JumpOf(isa, a)
  }

  /** By the overwritten value, or by zero. */
  predicate Diverges(isa: Isa, a0: Arch, k: nat) {
    DivergesBy(isa, a0, k, Old) || DivergesBy(isa, a0, k, Zero)
  }

  ghost predicate NoneDiverges(isa: Isa, a0: Arch) {
    forall k: nat :: !Diverges(isa, a0, k)
  }

  ghost predicate NoneDivergesBefore(isa: Isa, a0: Arch, n: nat) {
    forall k: nat :: k < n ==> !Diverges(isa, a0, k)
  }

  lemma StepButView(isa: Isa, k: nat, race: Race, race': Race, a: Arch, a': Arch)
    requires a' == a.(view := a'.view) && JumpOf(isa, a') == JumpOf(isa, a)
    ensures var b, b' := Step(isa, k, race, a), Step(isa, k, race', a'); b' == b.(view := b'.view)
  {
    assert Fires(isa, a') == Fires(isa, a);
    assert NextPc(isa, a') == NextPc(isa, a);
    hide Fires, Target, NextPc, Adjacent, Seen, Tainted;
  }

  lemma JumpButView(isa: Isa, race: nat -> Race, a0: Arch, k: nat)
    requires Boot(a0) && !Diverges(isa, a0, k)
    requires var a, a' := Plain(isa, a0, k), Run(isa, race, a0, k); a' == a.(view := a'.view)
    requires 0 < k ==> Run(isa, race, a0, k - 1).regs == Plain(isa, a0, k - 1).regs
    ensures JumpOf(isa, Run(isa, race, a0, k)) == JumpOf(isa, Plain(isa, a0, k))
  {
    hide Run, JumpOf, Boot, Overwritten, ComparesWithItself, LastDest;
    var w, w' := World(isa, a0, NEVER), World(isa, a0, race);
    ViewAt(w, k);
    ViewAt(w', k);
    assert !Loses(w, k);
    var a, a' := Plain(isa, a0, k), Run(isa, race, a0, k);
    if Loses(w', k) {
      assert a' == Stale(isa, a0, k, race(k - 1));
    } else {
      assert a' == a;
    }
  }

  /** If nothing before it diverges, the outcomes of the races do not matter for an instruction but for
      what ID sees. */
  lemma {:induction false} SameButView(isa: Isa, race: nat -> Race, a0: Arch, k: nat, n: nat)
    requires Boot(a0) && NoneDivergesBefore(isa, a0, n) && k <= n
    ensures var a, a' := Plain(isa, a0, k), Run(isa, race, a0, k); a' == a.(view := a'.view)
    ensures k < n ==> JumpOf(isa, Run(isa, race, a0, k)) == JumpOf(isa, Plain(isa, a0, k))
  {
    hide Step, JumpOf, Boot, Diverges;
    if k > 0 {
      SameButView(isa, race, a0, k - 1, n);
      StepButView(isa, k - 1, NEVER(k - 1), race(k - 1), Plain(isa, a0, k - 1), Run(isa, race, a0, k - 1));
    }
    if k < n { JumpButView(isa, race, a0, k); }
  }

  /** And any two schedules agree whenever they have got equally far. */
  lemma AllSchedulesAgree(isa: Isa, a0: Arch, trace: seq<Machine>, trace': seq<Machine>, j: nat, j': nat, n: nat)
    requires RunFrom(isa, a0, trace) && j < |trace| && RunFrom(isa, a0, trace') && j' < |trace'|
    requires StoredAt(trace[j]) <= n && StoredAt(trace'[j']) <= n && NoneDivergesBefore(isa, a0, n)
    ensures RetiredAt(trace[j]) == RetiredAt(trace'[j']) ==> trace[j].sh.regs == trace'[j'].sh.regs
    ensures StoredAt(trace[j]) == StoredAt(trace'[j']) ==> trace[j].sh.mem == trace'[j'].sh.mem
  {
    hide NoneDivergesBefore, Execution, Init, Boot, Run, RetiredAt, StoredAt, RacesOf, JumpOf;
    PipelineRefinesReference(isa, a0, trace, j);
    PipelineRefinesReference(isa, a0, trace', j');
    var k, l := RetiredAt(trace[j]), StoredAt(trace[j]);
    SameButView(isa, RacesOf(trace), a0, k, n);
    SameButView(isa, RacesOf(trace'), a0, k, n);
    SameButView(isa, RacesOf(trace), a0, l, n);
    SameButView(isa, RacesOf(trace'), a0, l, n);
  }

  // ---------------------------------------------------------------- the cycle that issues k

  /** ID is about to let an instruction go. */
  predicate Issues(isa: Isa, m: Machine) {
    m.lo.idTask.fetched && !Decide(isa, m.sh, m.lo).wait
  }

  /** In the second half, ID and EX are the last. */
  const ID_AND_EX_LEFT := Clock(Second, true, false, false, true, true)

  predicate SameCycle(m: Machine, m': Machine) {
    && m'.hist.issued == m.hist.issued && m'.hist.cycles == m.hist.cycles
    && m'.hist.front == m.hist.front && m'.hist.races == m.hist.races
  }

  lemma FireElsewhere(isa: Isa, m: Machine, s: Stage)
    requires s.IF? && m.clock.half.Second? ==> m.lo.ifTask.Some?
    requires s.ID? ==> m.clock.half.First?
    ensures SameCycle(m, Fire(isa, m, s)) && Fire(isa, m, s).clock == m.clock.Mark(s)
  {
    hide PickID, CaptureID, Compute, UpdatePC, WrittenValue, ResetTo, Counts;
    if s.ID? { ShapePick(m); CaptureSpec(PickID(m)); }
    FireClock(isa, m, s);
  }

  lemma DecideKeepsTask(isa: Isa, sh: Shared, lo: Locals)
    ensures Decide(isa, sh, lo).task.fetched == lo.idTask.fetched
  {
    hide Acquire, Resolve;
  }

  lemma FireID(isa: Isa, m: Machine)
    requires m.clock.half.Second?
    ensures var m' := Fire(isa, m, ID);
      && m'.hist.issued == m.hist.issued + (if Issues(isa, m) then 1 else 0)
      && m'.hist.cycles == m.hist.cycles && m'.hist.races == m.hist.races && m'.clock == m.clock.Mark(ID)
  {
    hide Decide, ReserveDest, Transfer;
    DecideKeepsTask(isa, m.sh, m.lo);
  }

  /** What EX does in the second half does not change what ID decides. */
  lemma FireEXKeepsDecision(isa: Isa, m: Machine)
    requires m.clock.half.Second?
    ensures Issues(isa, Fire(isa, m, EX)) == Issues(isa, m)
  {
    var m' := Fire(isa, m, EX);
    assert m'.lo == m.lo.(exTask := m'.lo.exTask);
    assert m'.sh.regs == m.sh.regs;
    assert SameAcquire(m.sh.board, m'.sh.board);
    hide Fire, SecondEX;
    SameDecisions(isa, m.sh, m'.sh, m.lo, m'.lo);
  }

  predicate SameAcquire(b: Board, b': Board) {
    forall r: Reg :: b'[r].holder == b[r].holder && b'[r].exAvailable == b[r].exAvailable
  }

  lemma AcquireSame(b: Board, b': Board, regs: RegFile, r: Reg)
    requires SameAcquire(b, b')
    ensures Acquire(b', regs, r).1 == Acquire(b, regs, r).1
    ensures SameAcquire(Acquire(b, regs, r).0, Acquire(b', regs, r).0)
  {
  }

  lemma SameDecisions(isa: Isa, sh: Shared, sh': Shared, lo: Locals, lo': Locals)
    requires SameAcquire(sh.board, sh'.board) && sh'.regs == sh.regs && lo' == lo.(exTask := lo'.exTask)
    ensures Decide(isa, sh', lo').wait == Decide(isa, sh, lo).wait
  {
    hide Decide, SameAcquire;
    if Transfers(lo.idTask.instr) {
      SameResolutions(isa, sh, sh', lo, lo');
    } else {
      SameAcquisitions(isa, sh, sh', lo, lo');
    }
  }

  lemma SameResolutions(isa: Isa, sh: Shared, sh': Shared, lo: Locals, lo': Locals)
    requires SameAcquire(sh.board, sh'.board) && sh'.regs == sh.regs && lo' == lo.(exTask := lo'.exTask)
    requires Transfers(lo.idTask.instr)
    ensures Decide(isa, sh', lo').wait == Decide(isa, sh, lo).wait
  {
    var i := lo.idTask.instr;
    assert Resolve(sh'.board, sh'.regs, i.rs, lo.rsSeen) == Resolve(sh.board, sh.regs, i.rs, lo.rsSeen);
    assert Resolve(sh'.board, sh'.regs, i.rt, lo.rtSeen) == Resolve(sh.board, sh.regs, i.rt, lo.rtSeen);
    hide Acquire, SameAcquire, Resolve, AcquiresRs, AcquiresRt;
  }

  lemma SameAcquisitions(isa: Isa, sh: Shared, sh': Shared, lo: Locals, lo': Locals)
    requires SameAcquire(sh.board, sh'.board) && sh'.regs == sh.regs && lo' == lo.(exTask := lo'.exTask)
    requires !Transfers(lo.idTask.instr)
    ensures Decide(isa, sh', lo').wait == Decide(isa, sh, lo).wait
  {
    var i := lo.idTask.instr;
    AcquireSame(sh.board, sh'.board, sh.regs, i.rt);
    AcquireSame(sh.board, sh'.board, sh.regs, i.rs);
    AcquireSame(Acquire(sh.board, sh.regs, i.rt).0, Acquire(sh'.board, sh.regs, i.rt).0, sh.regs, i.rs);
    hide Acquire, SameAcquire, Resolve;
  }

  /** From a clock edge to the place where only ID and EX are left. */
  lemma UpToIDAndEX(isa: Isa, a0: Arch, ordered: bool, m: Machine) returns (q: Machine)
    requires Reachable(isa, a0, ordered, m) && m.clock == FIRST_HALF
    ensures Reachable(isa, a0, ordered, q) && q.clock == ID_AND_EX_LEFT && SameCycle(m, q)
  {
    hide Reachable, Fire;
    q := m;
    FireElsewhere(isa, q, IF); ReachFire(isa, a0, ordered, q, IF); q := Fire(isa, q, IF);
    FireElsewhere(isa, q, ID); ReachFire(isa, a0, ordered, q, ID); q := Fire(isa, q, ID);
    FireElsewhere(isa, q, EX); ReachFire(isa, a0, ordered, q, EX); q := Fire(isa, q, EX);
    FireElsewhere(isa, q, DM); ReachFire(isa, a0, ordered, q, DM); q := Fire(isa, q, DM);
    FireElsewhere(isa, q, WB); ReachFire(isa, a0, ordered, q, WB); q := Fire(isa, q, WB);
    ReachEdge(isa, a0, ordered, q); q := Edge(q);
    FireElsewhere(isa, q, DM); ReachFire(isa, a0, ordered, q, DM); q := Fire(isa, q, DM);
    FireElsewhere(isa, q, WB); ReachFire(isa, a0, ordered, q, WB); q := Fire(isa, q, WB);
    ReachGood(isa, a0, ordered, q);
    HasFetched(WorldAt(isa, a0, q), q);
    FireElsewhere(isa, q, IF); ReachFire(isa, a0, ordered, q, IF); q := Fire(isa, q, IF);
  }

  /** From there to the next clock edge, EX first. */
  lemma EXThenID(isa: Isa, a0: Arch, ordered: bool, q: Machine) returns (m: Machine)
    requires Reachable(isa, a0, ordered, q) && q.clock == ID_AND_EX_LEFT
    ensures Reachable(isa, a0, ordered, m) && m.clock == FIRST_HALF && m.hist.cycles == q.hist.cycles + 1
    ensures m.hist.issued == q.hist.issued + (if Issues(isa, q) then 1 else 0)
  {
    hide Reachable, Fire, Issues, RaceOf;
    FireElsewhere(isa, q, EX); ReachFire(isa, a0, ordered, q, EX); FireEXKeepsDecision(isa, q); m := Fire(isa, q, EX);
    FireID(isa, m); ReachFire(isa, a0, ordered, m, ID); m := Fire(isa, m, ID);
    ReachEdge(isa, a0, ordered, m); m := Edge(m);
  }

  lemma {:induction false} FewFires(w: World, k: nat)
    ensures FiresUpTo(w, k) <= k
  {
    hide Fires;
    if k > 0 { FewFires(w, k - 1); }
  }

  /** Some cycle issues the k-th instruction. */
  lemma {:induction false} FindIssue(isa: Isa, a0: Arch, ordered: bool, m: Machine, k: nat) returns (q: Machine)
    requires Reachable(isa, a0, ordered, m) && m.clock == FIRST_HALF && m.hist.issued <= k
    ensures Reachable(isa, a0, ordered, q) && q.clock == ID_AND_EX_LEFT && q.hist.issued == k && Issues(isa, q)
    decreases 4 * k + 3 - m.hist.cycles
  {
    hide Reachable, Issues, FiresUpTo, Good;
    ReachGood(isa, a0, ordered, m);
    GoodProgress(WorldAt(isa, a0, m), m);
    FewFires(WorldAt(isa, a0, m), m.hist.issued);
    q := UpToIDAndEX(isa, a0, ordered, m);
    if !(q.hist.issued == k && Issues(isa, q)) {
      var m' := EXThenID(isa, a0, ordered, q);
      q := FindIssue(isa, a0, ordered, m', k);
    }
  }

  // ---------------------------------------------------------------- losing the race

  /** EX finishes after ID in the second half; for the outcome `Zero` it has started before. */
  function FinishEX(isa: Isa, q1: Machine, race: Race): Machine {
    if race.Zero? then Overlap(Fire(isa, q1, EX)) else Fire(isa, q1, EX)
  }

  function LateEX(isa: Isa, q: Machine, race: Race): Machine { Edge(FinishEX(isa, Fire(isa, q, ID), race)) }

  lemma ReachLateEX(isa: Isa, a0: Arch, q: Machine, race: Race)
    requires Reachable(isa, a0, false, q) && q.clock == ID_AND_EX_LEFT
    ensures Reachable(isa, a0, false, Fire(isa, q, ID)) && Fire(isa, q, ID).clock == ID_AND_EX_LEFT.Mark(ID)
    ensures Reachable(isa, a0, false, LateEX(isa, q, race)) && LateEX(isa, q, race).clock == FIRST_HALF
  {
    hide Reachable, Fire, Overlap;
    FireID(isa, q);
    ReachFire(isa, a0, false, q, ID);
    var q1 := Fire(isa, q, ID);
    FireElsewhere(isa, q1, EX);
    ReachFire(isa, a0, false, q1, EX);
    ReachOverlap(isa, a0, q1, EX);
    ShapeOverlap(Fire(isa, q1, EX));
    ReachEdge(isa, a0, false, FinishEX(isa, q1, race));
  }

  /** The three instructions of a lost race, in the terms of the sequential run. */
  lemma TripleOf(w: World, k: nat, r: Reg)
    requires Boot(w.a0) && 0 < k && Overwritten(InstrAt(w, k), At(w, k).past, r)
    ensures 2 <= k && r != 0 && !At(w, k).past.fired
    ensures Dest(InstrAt(w, k - 1)) == r && !Acquires(InstrAt(w, k - 1), r)
    ensures Predicted(w, k - 1) && AdjacentAt(w, k - 1)
    ensures Dest(InstrAt(w, k - 2)) == r && Forwards(InstrAt(w, k - 2))
  {
    hide At, Fires, AdjacentAt, Dest, Acquires, ResolvesReg;
    PastAt(w, k - 1);
    WritersGoOn(w, k - 1);
    if k == 1 { NoPastAtBoot(w); } else { PastAt(w, k - 2); }
  }

  /** The task that leaves ID resets the reservation of its destination. */
  lemma IssueResets(w: World, q: Machine, r: Reg)
    requires Inv(w, q) && q.clock == ID_AND_EX_LEFT && Issues(w.isa, q)
    requires var i := InstrAt(w, q.hist.issued); r != 0 && Dest(i) == r && !Acquires(i, r)
    ensures var q1 := Tick(SecondID(w.isa, q), ID);
      && TaskN(q1).Some? && TaskN(q1).value.ord == q.hist.issued && TaskN(q1) == q1.sh.idEx
      && TaskN(q1).value.fetched && TaskN(q1).value.instr == InstrAt(w, q.hist.issued)
      && q1.hist.issued == q.hist.issued + 1 && !q1.lo.idStall
      && !q1.sh.board[r].exForward
      && Exports(InstrAt(w, q.hist.issued))
  {
    hide Inv, Decide, RolesOf, SecondID, Order, Ids, Back, Scoreboard, Timing, Account, FrontEnd, Captured, At,
         InstrAt, Transfer, Acquires;
    var v := RolesOf(q);
    Unfold(w, q, v);
    FrontAtDecision(w, q);
    IssuedTag(w, q);
    ShapeIssue(w.isa, q);
    assert Exports(InstrAt(w, q.hist.issued));
  }

  /** The result of the instruction ahead arrives after that. */
  lemma ResultArrivesLate(w: World, q1: Machine, k: nat, r: Reg)
    requires Boot(w.a0) && Inv(w, q1) && q1.clock == ID_AND_EX_LEFT.Mark(ID) && q1.hist.issued == k
    requires TaskN(q1).Some? && TaskN(q1).value.ord == k - 1
    requires 0 < k && Overwritten(InstrAt(w, k), At(w, k).past, r)
    ensures var e, q2 := q1.sh.board[r], Fire(w.isa, q1, EX);
      && q2.sh.board[r] == e.(value := At(w, k - 1).regs[r], idAvailable := true)
      && q2.lo.exTask.instr == InstrAt(w, k - 2) && Forwards(InstrAt(w, k - 2)) && Dest(InstrAt(w, k - 2)) == r
  {
    hide Inv, Slots, Ids, Scoreboard, FrontEnd, Account, Back, At, Predicted, AdjacentAt, Issuing, Overwritten, Result;
    var v := RolesOf(q1);
    Unfold(w, q1, v);
    TripleOf(w, k, r);
    ComputedInEX(w, q1, v);
    RegAt(w, k - 2, r);
    assert TaskX(q1) == Some(q1.lo.exTask);
    hide TaskN, TaskX, TaskY, TaskZ, Dest, Forwards;
    assert q1.lo.exTask.instr == InstrAt(w, k - 2);
  }

  lemma ComputedInEX(w: World, q1: Machine, v: Roles)
    requires q1.clock.half.Second? && !q1.clock.doneEX && Back(w, q1, v) && q1.lo.exTask.fetched
    ensures Forwards(q1.lo.exTask.instr) ==> q1.lo.exOut == ResultAt(w, q1.lo.exTask.ord)
  {
    hide RegsOk, MemOk, NOk, YOk, ZOk, LastEX, Carried, ResultAt, AddressAt, Waiting, Finished;
    assert TaskX(q1) == Some(q1.lo.exTask);
  }

  /** The value on offer at the end of a lost race tells how it was lost. */
  lemma OutcomeIs(b: Board, r: Reg, race: Race, before: Word)
    requires Offered(b, r) && !race.Won? && b[r].value == LostValue(race, before)
    ensures !Outcome(b, r).Won? && LostValue(Outcome(b, r), before) == LostValue(race, before)
  {
  }

  /** At the next clock edge the value that has just been overwritten is on offer, or zero: the race
      is lost. */
  lemma RaceIsLost(isa: Isa, a0: Arch, q: Machine, k: nat, race: Race) returns (c: Race)
    requires !race.Won?
    requires Reachable(isa, a0, false, q) && q.clock == ID_AND_EX_LEFT
    requires 0 < k && q.hist.issued == k - 1 && Issues(isa, q)
    requires var w := WorldAt(isa, a0, q); Overwritten(InstrAt(w, k), At(w, k).past, LastDest(At(w, k).past))
    ensures var m := LateEX(isa, q, race);
      m.hist.issued == k && m.hist.races == q.hist.races + [c] && |q.hist.races| == k - 1
    ensures var w := WorldAt(isa, a0, q); var before := At(w, k - 1).regs[LastDest(At(w, k).past)];
      !c.Won? && LostValue(c, before) == LostValue(race, before)
  {
    hide Reachable, Inv, Agrees, SecondID, Decide, Issues, At, InstrAt, Overwritten, Acquires, Dest, Forwards,
         Predicted, AdjacentAt, TaskN, Edge, LastDest, Offered, Outcome, LostValue, FinishEX;
    var w := WorldAt(isa, a0, q);
    var r := LastDest(At(w, k).past);
    ReachGood(isa, a0, false, q);
    TripleOf(w, k, r);
    IssueResets(w, q, r);
    ReachLateEX(isa, a0, q, race);
    FireID(isa, q);
    var q1 := Fire(isa, q, ID);
    assert q1 == Tick(SecondID(isa, q), ID);
    ReachGood(isa, a0, false, q1);
    assert WorldAt(isa, a0, q1) == w;
    hide Fire, Boot;
    ResultArrivesLate(w, q1, k, r);
    RacesCounted(w, q);
    OnOffer(w, q1, k, r, race);
    c := LateEdge(isa, q1, r, race, At(w, k - 1).regs[r]);
  }

  /** What is on offer at that edge. */
  lemma OnOffer(w: World, q1: Machine, k: nat, r: Reg, race: Race)
    requires Boot(w.a0) && Inv(w, q1) && q1.clock == ID_AND_EX_LEFT.Mark(ID) && q1.hist.issued == k
    requires TaskN(q1).Some? && TaskN(q1).value.ord == k - 1 && TaskN(q1) == q1.sh.idEx
    requires 0 < k && Overwritten(InstrAt(w, k), At(w, k).past, r)
    requires var i := q1.sh.idEx.value.instr; Dest(i) == r && !Acquires(i, r) && Exports(i)
    requires r != 0 && !q1.sh.board[r].exForward && !race.Won?
    ensures var b := FinishEX(w.isa, q1, race).sh.board;
      Offered(b, r) && b[r].value == LostValue(race, At(w, k - 1).regs[r])
  {
    hide Inv, At, InstrAt, Overwritten, Acquires, Dest, Forwards, Exports, TaskN, Boot, Fire;
    ResultArrivesLate(w, q1, k, r);
    FireElsewhere(w.isa, q1, EX);
    FireClock(w.isa, q1, EX);
    var q2 := Fire(w.isa, q1, EX);
    assert q2.sh.idEx == q1.sh.idEx by { EXKeepsSlot(w.isa, q1); }
    assert BothWrote(q2);
  }

  lemma EXKeepsSlot(isa: Isa, q1: Machine)
    requires q1.clock.half.Second?
    ensures var q2 := Fire(isa, q1, EX); q2.sh.idEx == q1.sh.idEx && q2.hist == q1.hist
  {
    hide Executed;
  }

  lemma RacesCounted(w: World, q: Machine)
    requires Inv(w, q) && q.clock.half.Second? && !q.clock.doneID
    ensures |q.hist.races| == q.hist.issued
  {
    hide Order, Ids, Slots, Back, Scoreboard, FrontEnd, Timing, Account, TaskX, TaskY, TaskZ;
  }

  lemma LateEdge(isa: Isa, q1: Machine, r: Reg, race: Race, before: Word) returns (c: Race)
    requires !race.Won?
    requires q1.clock == ID_AND_EX_LEFT.Mark(ID) && q1.sh.idEx.Some? && q1.sh.idEx.value.fetched
    requires r != 0 && Dest(q1.sh.idEx.value.instr) == r
    requires var b := FinishEX(isa, q1, race).sh.board; Offered(b, r) && b[r].value == LostValue(race, before)
    ensures var m := Edge(FinishEX(isa, q1, race));
      m.hist.issued == q1.hist.issued && m.hist.races == q1.hist.races + [c]
    ensures !c.Won? && LostValue(c, before) == LostValue(race, before)
  {
    hide Fire, Dest, Overlap, Outcome, Offered, LostValue;
    FireClock(isa, q1, EX);
    EXKeepsSlot(isa, q1);
    ShapeOverlap(Fire(isa, q1, EX));
    c := Outcome(FinishEX(isa, q1, race).sh.board, r);
    OutcomeIs(FinishEX(isa, q1, race).sh.board, r, race, before);
  }

  /** The sequential machine with that race lost: the same up to the branch, and there it sees what
      the race has left. */
  lemma LostView(isa: Isa, a0: Arch, races: seq<Race>, k: nat, c: Race)
    requires !c.Won?
    requires Boot(a0) && 0 < k && |races| == k - 1 && (forall l :: 0 <= l < k - 1 ==> races[l].Won?)
    requires Exposed(isa.fetch(Plain(isa, a0, k).pc), Plain(isa, a0, k).past)
    ensures var w := World(isa, a0, RaceIn(races + [c]));
      At(w, k) == Stale(isa, a0, k, c) && Loses(w, k)
  {
    hide Step, Boot, Exposed, LastDest;
    var w := World(isa, a0, RaceIn(races + [c]));
    forall l: nat | l < k - 1 ensures w.race(l) == NEVER(l) {}
    SameRaces(isa, NEVER, w.race, a0, k - 1);
    assert w.race(k - 1) == c;
    LateStep(isa, k - 1, c, Plain(isa, a0, k - 1));
    ViewAt(w, k);
  }

  /** It goes the same way up to the branch. */
  lemma LostPlaces(isa: Isa, a0: Arch, races: seq<Race>, k: nat, c: Race, l: nat)
    requires !c.Won? && l <= k
    requires Boot(a0) && 0 < k && |races| == k - 1 && (forall l :: 0 <= l < k - 1 ==> races[l].Won?)
    requires Exposed(isa.fetch(Plain(isa, a0, k).pc), Plain(isa, a0, k).past)
    ensures At(World(isa, a0, RaceIn(races + [c])), l).pc == Plain(isa, a0, l).pc
  {
    hide Run, Boot, Exposed, LastDest;
    var w := World(isa, a0, RaceIn(races + [c]));
    if l == k {
      LostView(isa, a0, races, k, c);
    } else {
      forall i: nat | i < l ensures w.race(i) == NEVER(i) {}
      SameRaces(isa, NEVER, w.race, a0, l);
    }
  }

  lemma LateStep(isa: Isa, k: nat, c: Race, a: Arch)
    ensures var b, b' := Step(isa, k, Won, a), Step(isa, k, c, a); b' == b.(view := b'.view)
  {
    hide NextPc, NextRegs, NextMem, NextPast, Seen;
  }

  /** ID decides, and decides from the value that it has seen. */
  lemma LoserDecides(isa: Isa, a0: Arch, m: Machine)
    requires Reachable(isa, a0, false, m) && m.clock == ID_AND_EX_LEFT
    requires Loses(WorldAt(isa, a0, m), m.hist.issued) && m.hist.front.Straight?
    ensures Issues(isa, m)
    ensures Decide(isa, m.sh, m.lo).jump == JumpOf(isa, At(WorldAt(isa, a0, m), m.hist.issued))
  {
    hide Reachable, Inv, Agrees, Decide, Order, Ids, Slots, Back, Scoreboard, FrontEnd, Timing, Account, RolesOf,
         Captured, JumpOf, At, Loses, Boot;
    var w := WorldAt(isa, a0, m);
    ReachGood(isa, a0, false, m);
    Unfold(w, m, RolesOf(m));
    FrontAtDecision(w, m);
    RolesAtDecision(m);
    LostNeverWaits(w, m, RolesOf(m));
    IssueFacts(w, m, RolesOf(m));
  }

  lemma NoFlushAhead(isa: Isa, a0: Arch, m: Machine)
    requires Reachable(isa, a0, false, m) && m.clock == FIRST_HALF
    requires Loses(WorldAt(isa, a0, m), m.hist.issued)
    ensures m.hist.front.Straight?
  {
    hide Reachable, Inv, Agrees, Order, Ids, Back, Scoreboard, Account, RolesOf, Captured, HoldsNext, HaltCount,
         At, Boot, Slots, LastDest, InstrAt, ResolvesReg, Acquires, Pair, LateAt, Streak;
    var w := WorldAt(isa, a0, m);
    ReachGood(isa, a0, false, m);
    Unfold(w, m, RolesOf(m));
  }

  // ---------------------------------------------------------------- the theorem

  /** In every reachable state, under every schedule, ID decides as the plain sequential machine. */
  ghost predicate DecidesRight(isa: Isa, a0: Arch) {
    forall m :: Reachable(isa, a0, false, m) ==> RightDecision(isa, a0, m)
  }

  predicate RightDecision(isa: Isa, a0: Arch, m: Machine) {
    m.clock.half.Second? && !m.clock.doneID && Issues(isa, m) ==>
      Decide(isa, m.sh, m.lo).jump == JumpOf(isa, Plain(isa, a0, m.hist.issued))
  }

  lemma RightIfNoneDiverges(isa: Isa, a0: Arch, m: Machine)
    requires NoneDivergesBefore(isa, a0, m.hist.issued + 1) && Reachable(isa, a0, false, m)
    ensures RightDecision(isa, a0, m)
  {
    hide Pipeline.Next, Init, Boot, Decide, NoneDivergesBefore, JumpOf, Run;
    var trace :| Ends(isa, a0, false, trace, m);
    if m.clock.half.Second? && !m.clock.doneID && Issues(isa, m) {
      TransfersAreRight(isa, a0, trace, |trace| - 1);
      SameButView(isa, RacesOf(trace), a0, m.hist.issued, m.hist.issued + 1);
    }
  }

  /** A branch that diverges by one of the two values is decided by that value, and wrongly, in some
      reachable state. */
  lemma DivergenceShows(isa: Isa, a0: Arch, k: nat, race: Race) returns (m: Machine)
    requires Boot(a0) && DivergesBy(isa, a0, k, race)
    ensures Reachable(isa, a0, false, m) && m.clock == ID_AND_EX_LEFT && m.hist.issued == k && Issues(isa, m)
    ensures Decide(isa, m.sh, m.lo).jump == JumpOf(isa, Stale(isa, a0, k, race)) != JumpOf(isa, Plain(isa, a0, k))
    ensures forall l: nat :: l <= k ==> At(WorldAt(isa, a0, m), l).pc == Plain(isa, a0, l).pc
  {
    hide Reachable, Issues, LateEX, Init, Decide, JumpOf, Boot, Overwritten, Run, Exposed, Timely, Stale, Loses;
    ReachBoot(isa, a0, true);
    var q := FindIssue(isa, a0, true, Init(a0.pc, a0.regs, a0.mem), k - 1);
    ReachTimely(isa, a0, q);
    ReachUnordered(isa, a0, true, q);
    TimelyIsPlain(isa, a0, q, k);
    var c := RaceIsLost(isa, a0, q, k, race);
    ReachLateEX(isa, a0, q, race);
    assert Exposed(isa.fetch(Plain(isa, a0, k).pc), Plain(isa, a0, k).past) by { ExposedIf(isa, a0, k, race); }
    assert forall l :: 0 <= l < k - 1 ==> q.hist.races[l].Won? by { TimelyRaces(q); }
    LostView(isa, a0, q.hist.races, k, c);
    StaleSame(isa, a0, q, k, c, race);
    var q3 := LateEX(isa, q, race);
    assert WorldAt(isa, a0, q3) == World(isa, a0, RaceIn(q.hist.races + [c]));
    NoFlushAhead(isa, a0, q3);
    m := UpToIDAndEX(isa, a0, false, q3);
    assert WorldAt(isa, a0, m) == WorldAt(isa, a0, q3);
    LoserDecides(isa, a0, m);
    forall l: nat | l <= k ensures At(WorldAt(isa, a0, m), l).pc == Plain(isa, a0, l).pc {
      LostPlaces(isa, a0, q.hist.races, k, c, l);
    }
  }

  lemma TimelyRaces(q: Machine)
    requires Timely(q)
    ensures forall l :: 0 <= l < |q.hist.races| ==> q.hist.races[l].Won?
  {
  }

  lemma StaleSame(isa: Isa, a0: Arch, q: Machine, k: nat, c: Race, race: Race)
    requires Timely(q) && 0 < k
    requires var w := WorldAt(isa, a0, q); var before := At(w, k - 1).regs[LastDest(At(w, k).past)];
      LostValue(c, before) == LostValue(race, before)
    ensures Stale(isa, a0, k, c) == Stale(isa, a0, k, race)
  {
    hide Timely, LostValue, LastDest, Run, At, WorldAt;
    TimelyIsPlain(isa, a0, q, k);
    TimelyIsPlain(isa, a0, q, k - 1);
  }

  lemma ExposedIf(isa: Isa, a0: Arch, k: nat, race: Race)
    requires DivergesBy(isa, a0, k, race)
    ensures Exposed(isa.fetch(Plain(isa, a0, k).pc), Plain(isa, a0, k).past)
  {
    hide Run, Overwritten, JumpOf, LastDest;
  }

  /** Main theorem: under all schedules ID decides every transfer as the sequential machine does if
      and only if no branch diverges. */
  lemma DecidesRightIffNoneDiverges(isa: Isa, a0: Arch)
    requires Boot(a0)
    ensures DecidesRight(isa, a0) <==> NoneDiverges(isa, a0)
  {
    hide Reachable, Diverges, DivergesBy, RightDecision, Boot;
    if NoneDiverges(isa, a0) {
      forall m | Reachable(isa, a0, false, m) ensures RightDecision(isa, a0, m) { RightIfNoneDiverges(isa, a0, m); }
    } else {
      var k: nat :| Diverges(isa, a0, k);
      var race := DivergingRace(isa, a0, k);
      var m := DivergenceShows(isa, a0, k, race);
      assert !RightDecision(isa, a0, m) by { WrongDecision(isa, a0, m); }
    }
  }

  lemma DivergingRace(isa: Isa, a0: Arch, k: nat) returns (race: Race)
    requires Diverges(isa, a0, k)
    ensures DivergesBy(isa, a0, k, race)
  {
    hide DivergesBy;
    race := if DivergesBy(isa, a0, k, Old) then Old else Zero;
  }

  lemma WrongDecision(isa: Isa, a0: Arch, m: Machine)
    requires m.clock == ID_AND_EX_LEFT && Issues(isa, m)
    requires Decide(isa, m.sh, m.lo).jump != JumpOf(isa, Plain(isa, a0, m.hist.issued))
    ensures !RightDecision(isa, a0, m)
  {
    hide Decide, JumpOf, Run, Issues;
  }
}
