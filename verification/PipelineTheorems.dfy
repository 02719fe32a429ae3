/** What every execution of the five threads keeps, in the terms of the source. */
module PipelineTheorems {
  import opened Basics
  import opened Instructions
  import opened Reference
  import opened Pipeline
  import opened SequentialRun
  import opened PipelineInvariant
  import opened PipelineSteps
  import opened PipelineFront
  import opened PipelineIssue
  import opened PipelineDecide
  import opened PipelineSecondID

  // ---------------------------------------------------------------- the invariant holds

  lemma InitInv(w: World)
    requires Boot(w.a0)
    ensures Inv(w, Init(w.a0.pc, w.a0.regs, w.a0.mem))
  {
    var m := Init(w.a0.pc, w.a0.regs, w.a0.mem);
    var v := Roles(None, None, None, None);
    InitFront(w, m);
    InitBoard(w, m, v);
    InitBack(w, m);
    InitTiming(w, m);
    hide *;
    Fold(w, m, v);
  }

  lemma InitRoles(pc: Word, regs: RegFile, mem: Mem)
    ensures var m := Init(pc, regs, mem);
      && TaskN(m).None? && TaskX(m).None? && TaskY(m).None? && TaskZ(m).None?
      && RolesOf(m) == Roles(None, None, None, None) && Slots(m)
  {
    hide FreeBoard;
  }

  lemma AtBoot(w: World)
    ensures At(w, 0) == w.a0
  {
    hide Step;
  }

  lemma InitBack(w: World, m: Machine)
    requires m == Init(w.a0.pc, w.a0.regs, w.a0.mem)
    ensures RolesOf(m) == Roles(None, None, None, None)
    ensures Back(w, m, RolesOf(m)) && Slots(m)
  {
    hide Run;
    InitRoles(w.a0.pc, w.a0.regs, w.a0.mem);
    AtBoot(w);
    assert m.sh.regs == w.a0.regs && m.sh.mem == w.a0.mem && m.hist.issued == 0 && m.clock == FIRST_HALF;
    hide Init, At, TaskN, TaskX, TaskY, TaskZ, FreeBoard, Slots, RolesOf, Waiting, Computed, Finished, Complete;
  }

  lemma InitTiming(w: World, m: Machine)
    requires m == Init(w.a0.pc, w.a0.regs, w.a0.mem)
    ensures var v := Roles(None, None, None, None);
      && Order(w, m.hist.issued, v) && Ids(m.hist.topId, m.allocs, v)
      && Timing(w, FetcherOf(m), m.hist.streak, v)
      && Account(w, m.hist, BeforeIssue(m.clock), m.sh.pcFlush > 0)
  {
    hide At, Predicted, AdjacentAt, FreeBoard, FollowsAt, LateAt;
  }

  lemma InitFront(w: World, m: Machine)
    requires m == Init(w.a0.pc, w.a0.regs, w.a0.mem)
    ensures FrontEnd(w, FetcherOf(m))
  {
    assert At(w, 0) == w.a0;
    hide At, Run;
  }

  lemma InitBoard(w: World, m: Machine, v: Roles)
    requires m == Init(w.a0.pc, w.a0.regs, w.a0.mem) && v == Roles(None, None, None, None)
    ensures Scoreboard(w, m.sh.board, v, m.clock)
  {
    forall r: Reg | r != 0 ensures Cell(w, m.sh.board[r], v, m.clock, r) {
      assert m.sh.board[r] == FREE;
    }
  }

  lemma KeepSecondID(w: World, m: Machine)
    requires Boot(w.a0) && Inv(w, m) && m.clock.half.Second? && !m.clock.doneID
    ensures Inv(w, Tick(SecondID(w.isa, m), ID))
  {
    hide Inv, SecondID, Decide, RolesOf, At, FrontEnd, Boot;
    var v := RolesOf(m);
    Unfold(w, m, v);
    FrontAtDecision(w, m);
    BubbleNeverWaits(w.isa, m);
    if !IsNextFront(m) { KeepBubble(w, m); }
    else if Decide(w.isa, m.sh, m.lo).wait { KeepWait(w, m); }
    else { KeepIssue(w, m); }
  }

  lemma FireClock(isa: Isa, m: Machine, s: Stage)
    requires s.IF? && m.clock.half.Second? ==> m.lo.ifTask.Some?
    ensures Fire(isa, m, s).clock == m.clock.Mark(s)
    ensures Fire(isa, m, s).hist.races == m.hist.races
  {
    hide Decide, CaptureID, PickID, Compute, UpdatePC, ReserveDest, Transfer, Counts;
    ClockOfID(isa, m);
    hide FirstID, SecondID;
  }

  lemma ClockOfID(isa: Isa, m: Machine)
    ensures FirstID(m).clock == m.clock && SecondID(isa, m).clock == m.clock
    ensures FirstID(m).hist == m.hist && SecondID(isa, m).hist.races == m.hist.races
  {
    hide Decide, ReserveDest, Transfer;
  }

  lemma KeepFire(w: World, m: Machine, s: Stage)
    requires Boot(w.a0) && Inv(w, m) && CanFire(false, m, s)
    ensures Inv(w, Fire(w.isa, m, s))
  {
    hide Inv, Boot, FirstIF, FirstID, FirstEX, FirstDM, FirstWB, SecondIF, SecondID, SecondEX, SecondDM, SecondWB;
    if m.clock.half.First? {
      match s
      case IF => KeepFirstIF(w, m);
      case ID => KeepFirstID(w, m);
      case EX => KeepFirstEX(w, m);
      case DM => KeepFirstDM(w, m);
      case WB => KeepFirstWB(w, m);
    } else {
      match s
      case IF => KeepSecondIF(w, m);
      case ID => KeepSecondID(w, m);
      case EX => KeepSecondEX(w, m);
      case DM => KeepSecondDM(w, m);
      case WB => KeepSecondWB(w, m);
    }
  }

  lemma KeepEdge(w: World, m: Machine)
    requires Inv(w, m) && m.clock.AllDone() && Agrees(w, Edge(m).hist.races)
    ensures Inv(w, Edge(m))
  {
    hide Inv;
    if m.clock.half.First? { KeepRising(w, m); } else { KeepFalling(w, m); }
  }

  /** A run of the five threads from boot, under any schedule. */
  ghost predicate RunFrom(isa: Isa, a0: Arch, trace: seq<Machine>) {
    && Boot(a0) && Execution(isa, false, trace)
    && trace[0] == Init(a0.pc, a0.regs, a0.mem)
  }

  lemma RacesGrow(isa: Isa, m: Machine, m': Machine)
    requires Pipeline.Next(isa, false, m, m')
    ensures m.hist.races <= m'.hist.races
  {
    hide Fire, Overlap;
    if s: Stage :| CanFire(false, m, s) && m' == Fire(isa, m, s) {
      FireClock(isa, m, s);
    } else if s: Stage :| CanOverlap(false, m, s) && m' == Overlap(Fire(isa, m, s)) {
      FireClock(isa, m, s);
      ShapeOverlap(Fire(isa, m, s));
    }
  }

  lemma AgreesWithPrefix(w: World, races: seq<Race>, races': seq<Race>)
    requires races <= races' && Agrees(w, races')
    ensures Agrees(w, races)
  {
  }

  lemma {:induction false} InvUpTo(w: World, trace: seq<Machine>, j: nat)
    requires RunFrom(w.isa, w.a0, trace) && j < |trace| && Agrees(w, trace[j].hist.races)
    ensures Inv(w, trace[j])
  {
    hide Inv, Boot, Fire, Edge, Init, Agrees;
    if j == 0 {
      InitInv(w);
    } else {
      var m, m' := trace[j - 1], trace[j];
      assert Pipeline.Next(w.isa, false, m, m');
      RacesGrow(w.isa, m, m');
      AgreesWithPrefix(w, m.hist.races, m'.hist.races);
      InvUpTo(w, trace, j - 1);
      if s: Stage :| CanFire(false, m, s) && m' == Fire(w.isa, m, s) {
        KeepFire(w, m, s);
      } else if s: Stage :| CanOverlap(false, m, s) && m' == Overlap(Fire(w.isa, m, s)) {
        KeepFire(w, m, s);
        KeepOverlap(w, Fire(w.isa, m, s));
      } else {
        KeepEdge(w, m);
      }
    }
  }

  lemma {:induction false} RacesOfPrefix(isa: Isa, trace: seq<Machine>, i: nat, j: nat)
    requires Execution(isa, false, trace) && i <= j < |trace|
    ensures trace[i].hist.races <= trace[j].hist.races
  {
    hide Pipeline.Next;
    if i < j {
      RacesOfPrefix(isa, trace, i, j - 1);
      RacesGrow(isa, trace[j - 1], trace[j]);
    }
  }

  /** The sequential machine with the outcomes of the races of an execution. */
  function RaceIn(races: seq<Race>): nat -> Race { (k: nat) => if k < |races| then races[k] else Won }

  function RacesOf(trace: seq<Machine>): nat -> Race
    requires 0 < |trace|
  {
    RaceIn(trace[|trace| - 1].hist.races)
  }

  function WorldOf(isa: Isa, a0: Arch, trace: seq<Machine>): World
    requires 0 < |trace|
  {
    World(isa, a0, RacesOf(trace))
  }

  ghost predicate Good(w: World, m: Machine) { Inv(w, m) && Agrees(w, m.hist.races) }

  /** Every state of every execution satisfies the invariant, if the races of ID and EX are put
      into the sequential machine as the execution has decided them. */
  lemma InvariantHolds(isa: Isa, a0: Arch, trace: seq<Machine>, j: nat)
    requires RunFrom(isa, a0, trace) && j < |trace|
    ensures Good(WorldOf(isa, a0, trace), trace[j])
  {
    hide Inv, Init, Boot, Pipeline.Next;
    var w := WorldOf(isa, a0, trace);
    RacesOfPrefix(isa, trace, j, |trace| - 1);
    AgreesWithPrefix(w, trace[j].hist.races, trace[|trace| - 1].hist.races);
    hide Agrees;
    InvUpTo(w, trace, j);
  }

  // ---------------------------------------------------------------- refinement

  /** Instructions that have written their register: those that have left ID, without the ones
      still in EX, in DM or ahead of WB. */
  function RetiredAt(m: Machine): int { Retired(m.hist.issued, RolesOf(m)) }

  /** Instructions whose store is in memory. */
  function StoredAt(m: Machine): int { Stored(m.hist.issued, RolesOf(m), BeforeDM(m.clock)) }

  lemma GoodRefines(w: World, m: Machine)
    requires Good(w, m)
    ensures 0 <= RetiredAt(m) <= StoredAt(m) <= m.hist.issued <= RetiredAt(m) + 4
    ensures m.sh.regs == Run(w.isa, w.race, w.a0, RetiredAt(m)).regs
    ensures m.sh.mem == Run(w.isa, w.race, w.a0, StoredAt(m)).mem
  {
    hide Run, Order, Ids, Slots, Scoreboard, FrontEnd, Timing, Account, NOk, XOk, YOk, ZOk, LastEX, TaskN, TaskX,
         TaskY, TaskZ;
  }

  /** Main theorem: at every step of every execution of every program the register file is that of
      the reference machine after exactly the retired instructions, and memory is that of the
      reference machine after exactly the instructions past DM. */
  lemma PipelineRefinesReference(isa: Isa, a0: Arch, trace: seq<Machine>, j: nat)
    requires RunFrom(isa, a0, trace) && j < |trace|
    ensures 0 <= RetiredAt(trace[j]) <= StoredAt(trace[j]) <= trace[j].hist.issued <= RetiredAt(trace[j]) + 4
    ensures trace[j].sh.regs == Run(isa, RacesOf(trace), a0, RetiredAt(trace[j])).regs
    ensures trace[j].sh.mem == Run(isa, RacesOf(trace), a0, StoredAt(trace[j])).mem
  {
    hide *;
    InvariantHolds(isa, a0, trace, j);
    GoodRefines(WorldOf(isa, a0, trace), trace[j]);
    assert WorldOf(isa, a0, trace) == World(isa, a0, RacesOf(trace)) by { WorldIs(isa, a0, trace); }
  }

  lemma WorldIs(isa: Isa, a0: Arch, trace: seq<Machine>)
    requires 0 < |trace|
    ensures WorldOf(isa, a0, trace) == World(isa, a0, RacesOf(trace))
  {
  }

  /** $0 reads as zero for ever. */
  lemma RegisterZero(isa: Isa, a0: Arch, trace: seq<Machine>, j: nat)
    requires RunFrom(isa, a0, trace) && j < |trace|
    ensures trace[j].sh.regs[0] == 0 && trace[j].sh.board[0].holder == None
  {
    hide Inv, Run, Execution, Init, RacesOf;
    var w := WorldOf(isa, a0, trace);
    InvariantHolds(isa, a0, trace, j);
    PipelineRefinesReference(isa, a0, trace, j);
    ZeroAt(w, RetiredAt(trace[j]));
    Unfold(w, trace[j], RolesOf(trace[j]));
  }

  /** Two executions of one program, under any two schedules, agree whenever they have got equally
      far, if the races among the instructions retired, or stored, have the same outcome in both. */
  lemma SchedulesAgree(isa: Isa, a0: Arch, trace: seq<Machine>, trace': seq<Machine>, j: nat, j': nat)
    requires RunFrom(isa, a0, trace) && j < |trace| && RunFrom(isa, a0, trace') && j' < |trace'|
    ensures var k := RetiredAt(trace[j]);
      k == RetiredAt(trace'[j']) && (forall l: nat :: l < k ==> RacesOf(trace')(l) == RacesOf(trace)(l)) ==>
        trace[j].sh.regs == trace'[j'].sh.regs
    ensures var k := StoredAt(trace[j]);
      k == StoredAt(trace'[j']) && (forall l: nat :: l < k ==> RacesOf(trace')(l) == RacesOf(trace)(l)) ==>
        trace[j].sh.mem == trace'[j'].sh.mem
  {
    hide *;
    PipelineRefinesReference(isa, a0, trace, j);
    PipelineRefinesReference(isa, a0, trace', j');
    var k, l := RetiredAt(trace[j]), StoredAt(trace[j]);
    if forall i: nat :: i < k ==> RacesOf(trace')(i) == RacesOf(trace)(i) {
      SameRaces(isa, RacesOf(trace), RacesOf(trace'), a0, k);
    }
    if forall i: nat :: i < l ==> RacesOf(trace')(i) == RacesOf(trace)(i) {
      SameRaces(isa, RacesOf(trace), RacesOf(trace'), a0, l);
    }
  }

  // ---------------------------------------------------------------- operands

  /** While EX holds a task across its fence, its result is that of the reference machine: every
      operand was loaded or forwarded correctly. */
  lemma ExecuteIsCorrect(isa: Isa, a0: Arch, trace: seq<Machine>, j: nat)
    requires RunFrom(isa, a0, trace) && j < |trace|
    requires trace[j].lo.exTask.fetched
    requires if trace[j].clock.half.First? then trace[j].clock.doneEX else !trace[j].clock.doneEX
    ensures var t := trace[j].lo.exTask; var a := Run(isa, RacesOf(trace), a0, t.ord);
      && t.instr == isa.fetch(a.pc) && t.pc == a.pc
      && (Forwards(t.instr) ==> trace[j].lo.exOut == Result(isa, t.ord, a))
      && (t.instr.kind.Load? || t.instr.kind.Store? ==>
            trace[j].lo.exOut == isa.address(t.instr.bits, a.regs[t.instr.rs]))
  {
    hide Run, Ids, Slots, Scoreboard, FrontEnd, Timing, Account, Boot, Execution, Init, RacesOf, RegsOk, MemOk, NOk,
         YOk, ZOk, LastEX, Carried, Result, TaskN, TaskY, TaskZ, Waiting, Finished;
    InvariantHolds(isa, a0, trace, j);
    var m := trace[j];
    assert TaskX(m) == Some(m.lo.exTask);
  }

  /** What a branch or JR has captured before the fence is the value of the reference machine: that
      of the register, or, if the race was lost, the one overwritten by the last instruction, or zero. */
  lemma CaptureIsSound(isa: Isa, a0: Arch, trace: seq<Machine>, j: nat)
    requires RunFrom(isa, a0, trace) && j < |trace|
    requires trace[j].lo.idTask.fetched
    requires if trace[j].clock.half.First? then trace[j].clock.doneID else !trace[j].clock.doneID
    ensures var m := trace[j]; var i, a := m.lo.idTask.instr, Run(isa, RacesOf(trace), a0, m.hist.issued);
      && i == isa.fetch(a.pc)
      && (if ComparesWithItself(i) then m.lo.rtSeen.None? else
            && (ResolvesRs(i) && m.lo.rsSeen.Some? ==> m.lo.rsSeen.value == a.view[i.rs])
            && (ResolvesRt(i) && m.lo.rtSeen.Some? ==> m.lo.rtSeen.value == a.view[i.rt]))
  {
    hide Inv, Run, Boot, Execution, Init, RolesOf, Back, Scoreboard, Timing, Account, Order, Ids, Slots, Advance,
         RacesOf, Loses, HaltCount, ComparesWithItself;
    InvariantHolds(isa, a0, trace, j);
    Unfold(WorldOf(isa, a0, trace), trace[j], RolesOf(trace[j]));
  }

  /** What EX finds of operand r: if it is marked as forwarded, ID has not loaded it, the task just
      ahead writes r, and the scoreboard has what that task has computed; else ID has loaded it. */
  ghost predicate Arrived(isa: Isa, race: nat -> Race, a0: Arch, m: Machine, k: nat, r: Reg, loaded: Option<Word>) {
    if m.sh.board[r].exForward then
      && loaded == None && r != 0 && 0 < k
      && TaskY(m).Some? && TaskY(m).value.ord == k - 1 && Dest(TaskY(m).value.instr) == r
      && m.sh.board[r].value == Result(isa, k - 1, Run(isa, race, a0, k - 1)) == Run(isa, race, a0, k).regs[r]
    else
      loaded == Some(Run(isa, race, a0, k).regs[r])
  }

  /** What EX finds when it takes a task: an operand is marked exactly if ID has not loaded it, and
      has the right value either way. */
  lemma OperandsReachEX(isa: Isa, a0: Arch, trace: seq<Machine>, j: nat)
    requires RunFrom(isa, a0, trace) && j < |trace|
    requires trace[j].clock.half.First? && !trace[j].clock.doneEX
    requires trace[j].sh.idEx.Some? && trace[j].sh.idEx.value.fetched
    ensures var m := trace[j]; var t := m.sh.idEx.value;
      && (ExReadsRs(t.instr) ==> Arrived(isa, RacesOf(trace), a0, m, t.ord, t.instr.rs, t.rsValue))
      && (ExReadsRt(t.instr) ==> Arrived(isa, RacesOf(trace), a0, m, t.ord, t.instr.rt, t.rtValue))
  {
    hide Run, Ids, Slots, Scoreboard, FrontEnd, Timing, Account, Boot, Execution, Init, RacesOf, RegsOk, MemOk, NOk,
         YOk, ZOk, LastEX, Carried, Order, TaskN, TaskY, TaskZ, Arrived, OperandOk;
    InvariantHolds(isa, a0, trace, j);
    var m, w := trace[j], WorldOf(isa, a0, trace);
    var t := m.sh.idEx.value;
    assert TaskX(m) == m.sh.idEx;
    if ExReadsRs(t.instr) { OperandArrived(w, m, t, t.instr.rs, t.rsValue); }
    if ExReadsRt(t.instr) { OperandArrived(w, m, t, t.instr.rt, t.rtValue); }
  }

  lemma OperandArrived(w: World, m: Machine, t: Task, r: Reg, v: Option<Word>)
    requires m.clock.half.First? && !m.clock.doneEX && TaskX(m) == Some(t) && Order(w, m.hist.issued, RolesOf(m))
    requires OperandOk(w, m.sh.board[r], r, t.ord, v, RolesOf(m).y, true)
    ensures Arrived(w.isa, w.race, w.a0, m, t.ord, r, v)
  {
    hide Run, TaskX, TaskY, TaskZ, Result, Dest;
    assert TaskN(m) == None;
    if m.sh.board[r].exForward { RegAt(w, TaskY(m).value.ord, r); }
  }

  /** When ID lets an instruction go, it transfers control if and only if the reference machine
      does, and to the same target. */
  lemma TransfersAreRight(isa: Isa, a0: Arch, trace: seq<Machine>, j: nat)
    requires RunFrom(isa, a0, trace) && j < |trace|
    requires trace[j].clock.half.Second? && !trace[j].clock.doneID
    requires trace[j].lo.idTask.fetched && !Decide(isa, trace[j].sh, trace[j].lo).wait
    ensures var m := trace[j];
      Decide(isa, m.sh, m.lo).jump == JumpOf(isa, Run(isa, RacesOf(trace), a0, m.hist.issued))
  {
    hide Run, Execution, Boot, Init, RacesOf, Decide, Order, Ids, Slots, Back, Scoreboard, FrontEnd, Timing, Account,
         RolesOf, Captured, JumpOf;
    var m, w := trace[j], WorldOf(isa, a0, trace);
    var v := RolesOf(m);
    InvariantHolds(isa, a0, trace, j);
    Unfold(w, m, v);
    FrontAtDecision(w, m);
    RolesAtDecision(m);
    IssueFacts(w, m, v);
  }

  // ---------------------------------------------------------------- the scoreboard

  /** A fetched task that has left ID and not yet written back. */
  ghost predicate InFlight(m: Machine, t: Task) {
    TaskN(m) == Some(t) || TaskX(m) == Some(t) || TaskY(m) == Some(t) || TaskZ(m) == Some(t)
  }

  /** r is reserved exactly while a write of r is on its way, and then by the youngest one. */
  lemma HolderIsYoungestWriter(isa: Isa, a0: Arch, trace: seq<Machine>, j: nat, r: Reg)
    requires RunFrom(isa, a0, trace) && j < |trace| && r != 0
    ensures var m := trace[j]; var h := m.sh.board[r].holder;
      && (h.None? <==> forall t :: InFlight(m, t) ==> Dest(t.instr) != r)
      && (h.Some? ==> exists t :: InFlight(m, t) && Dest(t.instr) == r && t.id == h.value &&
                                 forall u :: InFlight(m, u) && Dest(u.instr) == r ==> u.ord <= t.ord)
  {
    hide Run, Boot, Execution, Init, RacesOf, Back, FrontEnd, Timing, Account, Slots, HeldByN, HeldByX, HeldByY, TaskN,
         TaskX, TaskY, TaskZ;
    InvariantHolds(isa, a0, trace, j);
    var m := trace[j];
    var w := WorldOf(isa, a0, trace);
    assert Cell(w, m.sh.board[r], RolesOf(m), m.clock, r);
    YoungestIsYoungest(w, m, r);
  }

  lemma YoungestIsYoungest(w: World, m: Machine, r: Reg)
    requires r != 0 && Order(w, m.hist.issued, RolesOf(m))
    ensures var h := Youngest(RolesOf(m), r);
      && (h.None? <==> forall t :: InFlight(m, t) ==> Dest(t.instr) != r)
      && (h.Some? ==> exists t :: InFlight(m, t) && Dest(t.instr) == r && t.id == h.value &&
                                 forall u :: InFlight(m, u) && Dest(u.instr) == r ==> u.ord <= t.ord)
  {
    hide RolesOf, InFlight, Dest, Order;
    if Youngest(RolesOf(m), r).Some? {
      var t := YoungestFlies(w, m, r);
    } else {
      NobodyFlies(m, r);
    }
  }

  lemma NobodyFlies(m: Machine, r: Reg)
    requires r != 0 && Youngest(RolesOf(m), r).None?
    ensures forall t :: InFlight(m, t) ==> Dest(t.instr) != r
  {
    hide TaskN, TaskX, TaskY, TaskZ, Dest;
  }

  lemma YoungestFlies(w: World, m: Machine, r: Reg) returns (t: Task)
    requires r != 0 && Order(w, m.hist.issued, RolesOf(m)) && Youngest(RolesOf(m), r).Some?
    ensures InFlight(m, t) && Dest(t.instr) == r && Youngest(RolesOf(m), r) == Some(t.id)
    ensures forall u :: InFlight(m, u) && Dest(u.instr) == r ==> u.ord <= t.ord
  {
    hide TaskN, TaskX, TaskY, TaskZ, Run, At, InstrAt, Dest;
    t := if TaskN(m).Some? && Dest(TaskN(m).value.instr) == r then TaskN(m).value
         else if TaskX(m).Some? && Dest(TaskX(m).value.instr) == r then TaskX(m).value
         else if TaskY(m).Some? && Dest(TaskY(m).value.instr) == r then TaskY(m).value
         else TaskZ(m).value;
  }

  // ---------------------------------------------------------------- conservation and order

  /** The tasks in flight are the instructions from the first unretired one to the last issued
      one, each exactly once. */
  lemma InFlightIsAnInterval(isa: Isa, a0: Arch, trace: seq<Machine>, j: nat)
    requires RunFrom(isa, a0, trace) && j < |trace|
    ensures var m := trace[j];
      && (forall t :: InFlight(m, t) ==> RetiredAt(m) <= t.ord < m.hist.issued &&
                                         t.instr == isa.fetch(Run(isa, RacesOf(trace), a0, t.ord).pc))
      && (forall k: int :: RetiredAt(m) <= k < m.hist.issued ==> OnItsWay(m, k))
      && (forall t, u :: InFlight(m, t) && InFlight(m, u) && t.ord == u.ord ==> t == u)
      && (forall t, u :: InFlight(m, t) && InFlight(m, u) && t.ord < u.ord ==> t.id < u.id)
  {
    hide Run, Boot, Execution, Init, RacesOf, Back, FrontEnd, Timing, Account, Slots, Scoreboard, TaskN, TaskX,
         TaskY, TaskZ;
    InvariantHolds(isa, a0, trace, j);
    var w := WorldOf(isa, a0, trace);
    OrderIsInterval(w, trace[j]);
    forall k: int | RetiredAt(trace[j]) <= k < trace[j].hist.issued ensures OnItsWay(trace[j], k) {
      EveryPlaceIsTaken(w, trace[j], k);
    }
  }

  ghost predicate OnItsWay(m: Machine, k: int) {
    exists t :: InFlight(m, t) && t.ord == k
  }

  lemma EveryPlaceIsTaken(w: World, m: Machine, k: int)
    requires Order(w, m.hist.issued, RolesOf(m)) && RetiredAt(m) <= k < m.hist.issued
    ensures OnItsWay(m, k)
  {
    hide TaskN, TaskX, TaskY, TaskZ, At, InstrAt;
    assert TaskN(m).Some? ==> InFlight(m, TaskN(m).value);
    assert TaskX(m).Some? ==> InFlight(m, TaskX(m).value);
    assert TaskY(m).Some? ==> InFlight(m, TaskY(m).value);
    assert TaskZ(m).Some? ==> InFlight(m, TaskZ(m).value);
  }

  lemma FlightSpan(w: World, m: Machine, t: Task)
    requires Order(w, m.hist.issued, RolesOf(m)) && InFlight(m, t)
    ensures RetiredAt(m) <= t.ord < m.hist.issued && t.instr == InstrAt(w, t.ord)
  {
    hide TaskN, TaskX, TaskY, TaskZ, At, InstrAt;
  }

  lemma FlightOrder(w: World, m: Machine, t: Task, u: Task)
    requires Order(w, m.hist.issued, RolesOf(m)) && Ids(m.hist.topId, m.allocs, RolesOf(m))
    requires InFlight(m, t) && InFlight(m, u)
    ensures t.ord == u.ord ==> t == u
    ensures t.ord < u.ord ==> t.id < u.id
  {
    hide TaskN, TaskX, TaskY, TaskZ, At, InstrAt, Retired;
  }

  lemma OrderIsInterval(w: World, m: Machine)
    requires Order(w, m.hist.issued, RolesOf(m)) && Ids(m.hist.topId, m.allocs, RolesOf(m))
    ensures forall t :: InFlight(m, t) ==> RetiredAt(m) <= t.ord < m.hist.issued && t.instr == InstrAt(w, t.ord)
    ensures forall t, u :: InFlight(m, t) && InFlight(m, u) && t.ord == u.ord ==> t == u
    ensures forall t, u :: InFlight(m, t) && InFlight(m, u) && t.ord < u.ord ==> t.id < u.id
  {
    hide *;
    forall t | InFlight(m, t) ensures RetiredAt(m) <= t.ord < m.hist.issued && t.instr == InstrAt(w, t.ord) {
      FlightSpan(w, m, t);
    }
    forall t, u | InFlight(m, t) && InFlight(m, u)
      ensures (t.ord == u.ord ==> t == u) && (t.ord < u.ord ==> t.id < u.id) {
      FlightOrder(w, m, t, u);
    }
  }

  /** ID, EX and DM always find the next stage register empty. */
  lemma PushesNeverFail(isa: Isa, a0: Arch, trace: seq<Machine>, j: nat, s: Stage)
    requires RunFrom(isa, a0, trace) && j < |trace|
    requires trace[j].clock.half.Second? && !trace[j].clock.Done(s)
    ensures s.ID? ==> trace[j].sh.idEx.None?
    ensures s.EX? ==> trace[j].sh.exDm.None?
    ensures s.DM? ==> trace[j].sh.dmWb.None?
  {
    hide Inv, Run, Boot, Execution, Init, RacesOf, Back, FrontEnd, Timing, Account, Scoreboard, RolesOf, Order, Ids;
    InvariantHolds(isa, a0, trace, j);
    Unfold(WorldOf(isa, a0, trace), trace[j], RolesOf(trace[j]));
  }

  // ---------------------------------------------------------------- flushing

  lemma FiredIsLast(w: World, k: nat)
    requires Boot(w.a0) && At(w, k).past.fired
    ensures 0 < k && Fires(w.isa, At(w, k - 1))
  {
    hide At, Fires;
    if k == 0 { NoPastAtBoot(w); } else { PastAt(w, k - 1); }
  }

  /** At a falling edge PcFlush is 2 if the instruction that has just left ID has transferred
      control, and then the PC is already right; otherwise it is not positive. */
  lemma FlushTokens(isa: Isa, a0: Arch, trace: seq<Machine>, j: nat)
    requires RunFrom(isa, a0, trace) && j < |trace| && trace[j].clock == FIRST_HALF
    ensures var m := trace[j]; var n := m.hist.issued;
      if m.sh.pcFlush > 0
      then m.sh.pcFlush == 2 && 0 < n && Fires(isa, Run(isa, RacesOf(trace), a0, n - 1))
           && m.sh.pc == Run(isa, RacesOf(trace), a0, n).pc && !m.sh.ifStall
      else m.lo.ifTask.Some? && !m.sh.ifStall ==>
             m.sh.ifId.Some? && m.sh.ifId.value.instr == isa.fetch(Run(isa, RacesOf(trace), a0, n).pc)
  {
    hide Inv, Run, Execution, Init, Boot, RacesOf, Back, Timing, Account, Scoreboard, RolesOf, Order, Ids, Slots,
         Captured, HoldsNext, HaltCount, Fires;
    InvariantHolds(isa, a0, trace, j);
    Unfold(WorldOf(isa, a0, trace), trace[j], RolesOf(trace[j]));
    var w := WorldOf(isa, a0, trace);
    if At(w, trace[j].hist.issued).past.fired { FiredIsLast(w, trace[j].hist.issued); }
  }

  /** And conversely: at the edge of the cycle in which an instruction has left ID and transferred
      control, PcFlush is 2. */
  lemma TransferFlushes(isa: Isa, a0: Arch, trace: seq<Machine>, j: nat)
    requires RunFrom(isa, a0, trace) && j < |trace| && trace[j].clock == FIRST_HALF
    requires TaskX(trace[j]).Some? && Fires(isa, Run(isa, RacesOf(trace), a0, TaskX(trace[j]).value.ord))
    ensures trace[j].sh.pcFlush == 2 && TaskX(trace[j]).value.ord == trace[j].hist.issued - 1
  {
    hide Inv, Run, Boot, Execution, Init, RacesOf, Back, Account, Scoreboard, Ids, Slots, Captured, HoldsNext, Fires,
         TaskX, Pair, TaskY, TaskZ;
    var m, w := trace[j], WorldOf(isa, a0, trace);
    assert TaskN(m).None?;
    hide TaskN;
    InvariantHolds(isa, a0, trace, j);
    Unfold(w, m, RolesOf(m));
    FiresAt(w, TaskX(m).value.ord);
  }

  /** `halt_counter` is, at every falling edge, the number of HALTs of the sequential run that have gone
      on to ID: a squashed fetch is not counted, and a fetch that is repeated is counted once. */
  lemma HaltsAreCounted(isa: Isa, a0: Arch, trace: seq<Machine>, j: nat)
    requires RunFrom(isa, a0, trace) && j < |trace| && trace[j].clock == FIRST_HALF
    ensures var m := trace[j];
      m.hist.halts == HaltsUpTo(WorldOf(isa, a0, trace), m.hist.issued + if m.sh.ifStall then 1 else 0)
  {
    hide Inv, Run, Execution, Init, Boot, RacesOf, Back, Timing, Account, Scoreboard, RolesOf, Order, Ids, Slots,
         Captured, HoldsNext, HaltsUpTo;
    InvariantHolds(isa, a0, trace, j);
    Unfold(WorldOf(isa, a0, trace), trace[j], RolesOf(trace[j]));
  }

  /** IF counts the task that it has in hand if and only if that is the next instruction of the
      sequential run, goes on to ID in this cycle, and is a HALT. */
  lemma OnlyTheNextCounts(isa: Isa, a0: Arch, trace: seq<Machine>, j: nat)
    requires RunFrom(isa, a0, trace) && j < |trace|
    requires trace[j].clock.half.First? && !trace[j].clock.doneIF
    ensures var m := trace[j];
      Counts(m) <==> m.hist.front.Straight? && isa.fetch(Run(isa, RacesOf(trace), a0, m.hist.issued).pc).kind.Halt?
  {
    hide Inv, Run, Execution, Init, Boot, RacesOf, FrontEnd, Back, Timing, Account, Scoreboard, RolesOf, Order, Ids,
         Slots, Counts;
    InvariantHolds(isa, a0, trace, j);
    Unfold(WorldOf(isa, a0, trace), trace[j], RolesOf(trace[j]));
    CountFirstIF(WorldOf(isa, a0, trace), trace[j]);
  }

  /** In the second half both consumers have seen the tokens, and what ID decides about is a
      bubble or the next instruction of the reference machine: nothing from the wrong path. */
  lemma OnlyTheRightPath(isa: Isa, a0: Arch, trace: seq<Machine>, j: nat)
    requires RunFrom(isa, a0, trace) && j < |trace|
    requires trace[j].clock.half.Second? && !trace[j].clock.doneID
    ensures var m := trace[j]; var a := Run(isa, RacesOf(trace), a0, m.hist.issued);
      && m.sh.pcFlush <= 0
      && (m.lo.idTask.fetched ==> m.lo.idTask.instr == isa.fetch(a.pc) && m.lo.idTask.pc == a.pc)
      && (!m.lo.idTask.fetched ==> m.lo.idTask == BUBBLE)
  {
    hide Inv, Run, Boot, Execution, Init, RacesOf, Back, Timing, Account, Scoreboard, RolesOf, Order, Ids, Slots,
         Captured;
    InvariantHolds(isa, a0, trace, j);
    Unfold(WorldOf(isa, a0, trace), trace[j], RolesOf(trace[j]));
  }

  // ---------------------------------------------------------------- progress

  /** No instruction stalls for more than two cycles in a row. */
  lemma StallBound(isa: Isa, a0: Arch, trace: seq<Machine>, j: nat)
    requires RunFrom(isa, a0, trace) && j < |trace|
    ensures trace[j].hist.streak <= 2
  {
    hide Inv, Run, Boot, Execution, Init, RacesOf, Back, FrontEnd, Account, Scoreboard, RolesOf, Order, Ids, Slots,
         Pair, Issuing;
    InvariantHolds(isa, a0, trace, j);
    Unfold(WorldOf(isa, a0, trace), trace[j], RolesOf(trace[j]));
  }

  /** Cycles are paid for: at a falling edge after c cycles, with n instructions issued and t of
      them transfers, c <= 3n + t + 3, and all but the last three have retired. */
  lemma GoodProgress(w: World, m: Machine)
    requires Good(w, m) && m.clock == FIRST_HALF
    ensures m.hist.cycles <= 3 * m.hist.issued + FiresUpTo(w, m.hist.issued) + 3
    ensures m.hist.issued <= RetiredAt(m) + 3
  {
    hide Inv, Run, Back, FrontEnd, Pair, Issuing, Scoreboard, Order, Ids, Slots, FiresUpTo;
    Unfold(w, m, RolesOf(m));
  }

  lemma Progress(isa: Isa, a0: Arch, trace: seq<Machine>, j: nat)
    requires RunFrom(isa, a0, trace) && j < |trace| && trace[j].clock == FIRST_HALF
    ensures var m := trace[j];
      && m.hist.cycles <= 3 * m.hist.issued + FiresUpTo(WorldOf(isa, a0, trace), m.hist.issued) + 3
      && m.hist.issued <= RetiredAt(m) + 3
  {
    hide *;
    InvariantHolds(isa, a0, trace, j);
    GoodProgress(WorldOf(isa, a0, trace), trace[j]);
  }

  /** IF has a task in every second half. */
  lemma HasFetched(w: World, m: Machine)
    requires Good(w, m) && m.clock.half.Second?
    ensures m.lo.ifTask.Some?
  {
    hide Inv, Run, Back, Timing, Account, Scoreboard, RolesOf, Order, Ids, Slots, Captured, HoldsNext;
    Unfold(w, m, RolesOf(m));
  }

  /** No reachable state is stuck: a stage can step, even if ID waits for EX, or all five have met
      at the barrier. */
  lemma NeverStuck(isa: Isa, a0: Arch, trace: seq<Machine>, j: nat)
    requires RunFrom(isa, a0, trace) && j < |trace|
    ensures trace[j].clock.AllDone() || exists s: Stage :: CanFire(true, trace[j], s)
  {
    hide Inv, RunFrom, RacesOf, Agrees;
    var m := trace[j];
    InvariantHolds(isa, a0, trace, j);
    if m.clock.half.Second? { HasFetched(WorldOf(isa, a0, trace), m); }
    if !m.clock.doneEX { assert CanFire(true, m, EX); }
    else if !m.clock.doneID { assert CanFire(true, m, ID); }
    else if !m.clock.doneDM { assert CanFire(true, m, DM); }
    else if !m.clock.doneWB { assert CanFire(true, m, WB); }
    else if !m.clock.doneIF { assert CanFire(true, m, IF); }
  }

  // ---------------------------------------------------------------- reachable states

  /** With `ordered`, ID waits for EX in the second half of every cycle. */
  ghost predicate Ends(isa: Isa, a0: Arch, ordered: bool, trace: seq<Machine>, m: Machine) {
    RunFrom(isa, a0, trace) && Execution(isa, ordered, trace) && trace[|trace| - 1] == m
  }

  ghost predicate Reachable(isa: Isa, a0: Arch, ordered: bool, m: Machine) {
    exists trace :: Ends(isa, a0, ordered, trace, m)
  }

  /** The sequential machine that a reachable state is compared with. */
  function WorldAt(isa: Isa, a0: Arch, m: Machine): World { World(isa, a0, RaceIn(m.hist.races)) }

  lemma ReachBoot(isa: Isa, a0: Arch, ordered: bool)
    requires Boot(a0)
    ensures var m := Init(a0.pc, a0.regs, a0.mem);
      && Reachable(isa, a0, ordered, m) && m.clock == FIRST_HALF
      && m.hist.issued == 0 && m.hist.cycles == 0 && m.hist.races == []
  {
    assert Ends(isa, a0, ordered, [Init(a0.pc, a0.regs, a0.mem)], Init(a0.pc, a0.regs, a0.mem));
  }

  /** A step that is allowed when ID waits for EX is allowed when it need not. */
  lemma AnyOrder(isa: Isa, ordered: bool, m: Machine, m': Machine)
    requires Pipeline.Next(isa, ordered, m, m')
    ensures Pipeline.Next(isa, false, m, m')
  {
    hide Fire, Edge;
  }

  lemma ReachNext(isa: Isa, a0: Arch, ordered: bool, m: Machine, m': Machine)
    requires Reachable(isa, a0, ordered, m) && Pipeline.Next(isa, ordered, m, m')
    ensures Reachable(isa, a0, ordered, m')
  {
    hide Init, Pipeline.Next, Boot;
    AnyOrder(isa, ordered, m, m');
    var trace :| Ends(isa, a0, ordered, trace, m);
    assert Ends(isa, a0, ordered, trace + [m'], m');
  }

  lemma ReachFire(isa: Isa, a0: Arch, ordered: bool, m: Machine, s: Stage)
    requires Reachable(isa, a0, ordered, m) && CanFire(ordered, m, s)
    ensures Reachable(isa, a0, ordered, Fire(isa, m, s))
  {
    hide Reachable, Fire;
    ReachNext(isa, a0, ordered, m, Fire(isa, m, s));
  }

  lemma ReachOverlap(isa: Isa, a0: Arch, m: Machine, s: Stage)
    requires Reachable(isa, a0, false, m) && CanOverlap(false, m, s)
    ensures Reachable(isa, a0, false, Overlap(Fire(isa, m, s)))
  {
    hide Reachable, Fire, Overlap;
    ReachNext(isa, a0, false, m, Overlap(Fire(isa, m, s)));
  }

  lemma ReachEdge(isa: Isa, a0: Arch, ordered: bool, m: Machine)
    requires Reachable(isa, a0, ordered, m) && m.clock.AllDone()
    ensures Reachable(isa, a0, ordered, Edge(m))
  {
    hide Reachable, Fire, Edge;
    ReachNext(isa, a0, ordered, m, Edge(m));
  }

  lemma ReachGood(isa: Isa, a0: Arch, ordered: bool, m: Machine)
    requires Reachable(isa, a0, ordered, m)
    ensures Boot(a0) && Good(WorldAt(isa, a0, m), m)
  {
    hide Good, Init, Pipeline.Next, Boot;
    var trace :| Ends(isa, a0, ordered, trace, m);
    InvariantHolds(isa, a0, trace, |trace| - 1);
  }

  lemma ReachUnordered(isa: Isa, a0: Arch, ordered: bool, m: Machine)
    requires Reachable(isa, a0, ordered, m)
    ensures Reachable(isa, a0, false, m)
  {
    hide Init, Pipeline.Next, Boot;
    var trace :| Ends(isa, a0, ordered, trace, m);
    assert Ends(isa, a0, false, trace, m);
  }
}
