/** Every step of every stage keeps the invariant: the stages behind ID. */
module PipelineSteps {
  import opened Basics
  import opened Instructions
  import opened Reference
  import opened Pipeline
  import opened SequentialRun
  import opened PipelineInvariant

  function Tick(m: Machine, s: Stage): Machine { m.(clock := m.clock.Mark(s)) }

  // ---------------------------------------------------------------- taking the invariant apart

  lemma Unfold(w: World, m: Machine, v: Roles)
    requires Inv(w, m) && v == RolesOf(m)
    ensures |m.hist.races| + Count(v.n) == m.hist.issued
    ensures Order(w, m.hist.issued, v) && Ids(m.hist.topId, m.allocs, v) && Slots(m)
    ensures Back(w, m, v)
    ensures Scoreboard(w, m.sh.board, v, m.clock)
    ensures FrontEnd(w, FetcherOf(m)) && Timing(w, FetcherOf(m), m.hist.streak, v)
    ensures Account(w, m.hist, BeforeIssue(m.clock), m.sh.pcFlush > 0)
  {
    hide Order, Ids, Slots, Back, Scoreboard, FrontEnd, Timing, Account, RolesOf, FetcherOf;
  }

  lemma Fold(w: World, m: Machine, v: Roles)
    requires v == RolesOf(m) && |m.hist.races| + Count(v.n) == m.hist.issued
    requires Order(w, m.hist.issued, v) && Ids(m.hist.topId, m.allocs, v) && Slots(m)
    requires Back(w, m, v)
    requires Scoreboard(w, m.sh.board, v, m.clock)
    requires FrontEnd(w, FetcherOf(m)) && Timing(w, FetcherOf(m), m.hist.streak, v)
    requires Account(w, m.hist, BeforeIssue(m.clock), m.sh.pcFlush > 0)
    ensures Inv(w, m)
  {
    hide Order, Ids, Slots, Back, Scoreboard, FrontEnd, Timing, Account, RolesOf, FetcherOf;
  }

  /** A step of a stage behind ID that retires nothing: program order and the front end stay. */
  predicate Quiet(m: Machine, m': Machine) {
    && RolesOf(m') == RolesOf(m)
    && FetcherOf(m') == FetcherOf(m)
    && Slots(m')
    && m'.hist == m.hist
    && m'.allocs == m.allocs
    && m'.sh.pcFlush == m.sh.pcFlush
    && BeforeIssue(m'.clock) == BeforeIssue(m.clock)
  }

  lemma SameAccount(w: World, h: History, h': History, before: bool, flush: bool)
    requires Account(w, h, before, flush) && h' == h.(halts := h'.halts, mod := h'.mod)
    ensures Account(w, h', before, flush)
  {
  }

  lemma KeepQuiet(w: World, m: Machine, m': Machine, v: Roles)
    requires Inv(w, m) && v == RolesOf(m) && Quiet(m, m')
    requires Back(w, m', v)
    requires Scoreboard(w, m'.sh.board, v, m'.clock)
    ensures Inv(w, m')
  {
    hide Inv, Order, Ids, Slots, Back, Scoreboard, FrontEnd, Timing, Account, RolesOf, FetcherOf, BeforeIssue;
    Unfold(w, m, v);
    SameAccount(w, m.hist, m'.hist, BeforeIssue(m.clock), m.sh.pcFlush > 0);
    Fold(w, m', v);
  }

  // ---------------------------------------------------------------- DM, first half

  lemma ShapeFirstDM(isa: Isa, m: Machine)
    requires m.clock.half.First? && !m.clock.doneDM && Slots(m)
    ensures var m' := Tick(FirstDM(isa, m), DM);
      && Quiet(m, m')
      && TaskN(m') == TaskN(m) && TaskX(m') == TaskX(m) && TaskY(m') == TaskY(m) && TaskZ(m') == TaskZ(m)
  {
  }

  lemma StoreReachesMemory(w: World, m: Machine, v: Roles)
    requires m.clock.half.First? && !m.clock.doneDM
    requires v == RolesOf(m) && Order(w, m.hist.issued, v) && Slots(m)
    requires YOk(w, TaskY(m), m.clock)
    requires MemOk(w, m.sh.mem, Stored(m.hist.issued, v, true))
    ensures MemOk(w, FirstDM(w.isa, m).sh.mem, Stored(m.hist.issued, v, false))
  {
    hide At, TaskN, TaskX, TaskZ, Tainted, StoreData;
    if v.y.Some? { MemAt(w, v.y.value.ord); }
  }

  lemma BackFirstDM(w: World, m: Machine, v: Roles)
    requires m.clock.half.First? && !m.clock.doneDM
    requires v == RolesOf(m) && Order(w, m.hist.issued, v) && Slots(m) && Back(w, m, v)
    ensures Back(w, Tick(FirstDM(w.isa, m), DM), v)
  {
    hide Order, Slots, RegsOk, MemOk, RolesOf, TaskN, TaskX, TaskY, TaskZ, Waiting, Computed, Finished, Complete;
    ShapeFirstDM(w.isa, m);
    StoreReachesMemory(w, m, v);
  }

  lemma BoardFirstDM(w: World, b: Board, v: Roles, c: Clock)
    requires Scoreboard(w, b, v, c) && c.half.First?
    ensures Scoreboard(w, b, v, c.Mark(DM))
  {
    forall r: Reg | r != 0 ensures Cell(w, b[r], v, c.Mark(DM), r) { assert Cell(w, b[r], v, c, r); }
  }

  lemma KeepFirstDM(w: World, m: Machine)
    requires Inv(w, m) && m.clock.half.First? && !m.clock.doneDM
    ensures Inv(w, Tick(FirstDM(w.isa, m), DM))
  {
    hide Inv, Order, Ids, Slots, Back, Scoreboard, FrontEnd, Timing, Account, RolesOf, Quiet;
    var v := RolesOf(m);
    Unfold(w, m, v);
    ShapeFirstDM(w.isa, m);
    BackFirstDM(w, m, v);
    BoardFirstDM(w, m.sh.board, v, m.clock);
    KeepQuiet(w, m, Tick(FirstDM(w.isa, m), DM), v);
  }

  // ---------------------------------------------------------------- WB, second half

  lemma ShapeSecondWB(m: Machine)
    requires m.clock.half.Second? && !m.clock.doneWB && Slots(m)
    ensures var m' := Tick(SecondWB(m), WB);
      && Quiet(m, m')
      && TaskN(m') == TaskN(m) && TaskX(m') == TaskX(m) && TaskY(m') == TaskY(m) && TaskZ(m') == TaskZ(m)
  {
  }

  lemma BackSecondWB(w: World, m: Machine, v: Roles)
    requires m.clock.half.Second? && !m.clock.doneWB && v == RolesOf(m) && Slots(m) && Back(w, m, v)
    ensures Back(w, Tick(SecondWB(m), WB), v)
  {
    hide Slots, RegsOk, MemOk, RolesOf, TaskN, TaskX, TaskY, TaskZ, Waiting, Computed, Finished, Complete;
    ShapeSecondWB(m);
  }

  lemma BoardSecondWB(w: World, b: Board, v: Roles, c: Clock)
    requires Scoreboard(w, b, v, c)
    ensures Scoreboard(w, b, v, c.Mark(WB))
  {
    forall r: Reg | r != 0 ensures Cell(w, b[r], v, c.Mark(WB), r) { assert Cell(w, b[r], v, c, r); }
  }

  lemma KeepSecondWB(w: World, m: Machine)
    requires Inv(w, m) && m.clock.half.Second? && !m.clock.doneWB
    ensures Inv(w, Tick(SecondWB(m), WB))
  {
    hide Inv, Order, Ids, Slots, Back, Scoreboard, FrontEnd, Timing, Account, RolesOf, Quiet;
    var v := RolesOf(m);
    Unfold(w, m, v);
    ShapeSecondWB(m);
    BackSecondWB(w, m, v);
    BoardSecondWB(w, m.sh.board, v, m.clock);
    KeepQuiet(w, m, Tick(SecondWB(m), WB), v);
  }

  // ---------------------------------------------------------------- EX, first half

  lemma ShapeFirstEX(isa: Isa, m: Machine)
    requires m.clock.half.First? && !m.clock.doneEX && Slots(m)
    ensures var m' := Tick(FirstEX(isa, m), EX);
      && Quiet(m, m')
      && TaskN(m') == TaskN(m) && TaskX(m') == TaskX(m) && TaskY(m') == TaskY(m) && TaskZ(m') == TaskZ(m)
  {
  }

  /** The board as EX reads it: the EX-availability of its last task withdrawn. */
  function Withdrawn(b: Board, last: Instr): Board {
    if Exports(last) then b[Dest(last) := b[Dest(last)].(exAvailable := false)] else b
  }

  /** Each EX operand that EX reads is the value of the sequential run. */
  lemma OperandsAreCorrect(w: World, b: Board, t: Task, src: Option<Tag>, last: Instr)
    requires Waiting(w, b, t, src, true)
    ensures ExReadsRs(t.instr) ==> ReadRs(w.isa, t, Withdrawn(b, last)) == At(w, t.ord).regs[t.instr.rs]
    ensures ExReadsRt(t.instr) ==> ReadRt(w.isa, t, Withdrawn(b, last)) == At(w, t.ord).regs[t.instr.rt]
  {
  }

  lemma ComputeIsCorrect(w: World, b: Board, t: Task, src: Option<Tag>, last: Instr)
    requires Waiting(w, b, t, src, true)
    requires t.instr == InstrAt(w, t.ord) && t.pc == At(w, t.ord).pc
    ensures Computed(w, t, Compute(w.isa, t, Withdrawn(b, last)))
  {
    hide At, OperandOk, Compute, ResultAt, AddressAt, Carried, Withdrawn, ReadRs, ReadRt, InstrAt;
    OperandsAreCorrect(w, b, t, src, last);
    if Forwards(t.instr) { ComputeResult(w, Withdrawn(b, last), t); }
    if t.instr.kind.Load? || t.instr.kind.Store? { ComputeAddress(w, Withdrawn(b, last), t); }
  }

  lemma ComputeResult(w: World, b: Board, t: Task)
    requires t.instr == InstrAt(w, t.ord) && t.pc == At(w, t.ord).pc && Forwards(t.instr) && Carried(w, t)
    requires ExReadsRs(t.instr) ==> ReadRs(w.isa, t, b) == At(w, t.ord).regs[t.instr.rs]
    requires ExReadsRt(t.instr) ==> ReadRt(w.isa, t, b) == At(w, t.ord).regs[t.instr.rt]
    ensures Compute(w.isa, t, b) == ResultAt(w, t.ord)
  {
    hide At, ReadRs, ReadRt, StoreData;
  }

  lemma ComputeAddress(w: World, b: Board, t: Task)
    requires t.instr == InstrAt(w, t.ord) && (t.instr.kind.Load? || t.instr.kind.Store?)
    requires ReadRs(w.isa, t, b) == At(w, t.ord).regs[t.instr.rs]
    ensures Compute(w.isa, t, b) == AddressAt(w, t.ord)
  {
    hide At, ReadRs, ReadRt;
  }

  lemma BackFirstEX(w: World, m: Machine, v: Roles)
    requires m.clock.half.First? && !m.clock.doneEX
    requires v == RolesOf(m) && Order(w, m.hist.issued, v) && Slots(m) && Back(w, m, v)
    ensures Back(w, Tick(FirstEX(w.isa, m), EX), v)
  {
    hide Slots, RegsOk, MemOk, Waiting, Computed, Finished, Complete, At;
    ShapeFirstEX(w.isa, m);
    if TaskX(m).Some? {
      var t := TaskX(m).value;
      ComputeIsCorrect(w, m.sh.board, t, v.y, m.lo.exTask.instr);
    }
  }

  lemma CellFirstEX(w: World, e: Reserve, v: Roles, c: Clock, r: Reg, last: Instr)
    requires c.half.First? && !c.doneEX && r != 0 && v.n.None? && Cell(w, e, v, c, r)
    requires v.y.Some? ==> last == v.y.value.instr
    ensures Cell(w, e.(exAvailable := Publishes(v.x, r) ||
                                      (e.exAvailable && !(Exports(last) && Dest(last) == r))),
                 v, c.Mark(EX), r)
  {
    hide At;
  }

  lemma BoardFirstEX(w: World, m: Machine, v: Roles)
    requires m.clock.half.First? && !m.clock.doneEX
    requires v == RolesOf(m) && Slots(m) && LastEX(m.lo.exTask, m.clock, v)
    requires Scoreboard(w, m.sh.board, v, m.clock)
    ensures Scoreboard(w, FirstEX(w.isa, m).sh.board, v, m.clock.Mark(EX))
  {
    hide Cell, At, Compute, Youngest;
    var b' := FirstEX(w.isa, m).sh.board;
    forall r: Reg | r != 0 ensures Cell(w, b'[r], v, m.clock.Mark(EX), r) {
      CellFirstEX(w, m.sh.board[r], v, m.clock, r, m.lo.exTask.instr);
    }
  }

  lemma KeepFirstEX(w: World, m: Machine)
    requires Inv(w, m) && m.clock.half.First? && !m.clock.doneEX
    ensures Inv(w, Tick(FirstEX(w.isa, m), EX))
  {
    hide Inv, Order, Ids, Slots, Scoreboard, FrontEnd, Timing, Account, RolesOf, Quiet, RegsOk, MemOk, NOk, XOk,
         YOk, ZOk, LastEX;
    var v := RolesOf(m);
    Unfold(w, m, v);
    ShapeFirstEX(w.isa, m);
    BackFirstEX(w, m, v);
    BoardFirstEX(w, m, v);
    KeepQuiet(w, m, Tick(FirstEX(w.isa, m), EX), v);
  }

  // ---------------------------------------------------------------- EX, second half

  lemma ShapeSecondEX(m: Machine)
    requires m.clock.half.Second? && !m.clock.doneEX && Slots(m)
    ensures var m' := Tick(SecondEX(m), EX);
      && Quiet(m, m')
      && TaskN(m') == TaskN(m) && TaskY(m') == TaskY(m) && TaskZ(m') == TaskZ(m)
      && Plain(m.lo.exTask)
      && TaskX(m') == (if TaskX(m).Some? then Some(Executed(TaskX(m).value, m.lo.exOut)) else None)
  {
  }

  lemma ExecutedIsFinished(w: World, t: Task, out: Word)
    requires Computed(w, t, out) && t.instr == InstrAt(w, t.ord) && t.pc == At(w, t.ord).pc
    ensures Finished(w, Executed(t, out))
  {
    hide At, StoreData, AddressAt, Result, InstrAt;
  }

  lemma OperandArrives(w: World, e: Reserve, r: Reg, k: nat, v: Option<Word>, x: Tag, out: Word)
    requires OperandOk(w, e, r, k, v, Some(x), false)
    requires x.ord + 1 == k && x.instr == InstrAt(w, x.ord)
    requires Forwards(x.instr) ==> out == ResultAt(w, x.ord)
    ensures OperandOk(w, if Forwards(x.instr) && Dest(x.instr) == r then e.(value := out, idAvailable := true) else e,
                      r, k, v, Some(x), true)
  {
    hide At, Result;
    RegAt(w, x.ord, r);
  }

  lemma EntryAfterEX(m: Machine, r: Reg)
    ensures SecondEX(m).sh.board[r] ==
            if Forwards(m.lo.exTask.instr) && Dest(m.lo.exTask.instr) == r
            then m.sh.board[r].(value := m.lo.exOut, idAvailable := true) else m.sh.board[r]
  {
  }

  /** The forward that a younger task has announced is in place when EX has finished. */
  lemma ForwardArrives(w: World, m: Machine, v: Roles)
    requires m.clock.half.Second? && !m.clock.doneEX
    requires v == RolesOf(m) && Order(w, m.hist.issued, v)
    requires NOk(w, m.sh.board, TaskN(m), v.x, false)
    requires XOk(w, m.sh.board, TaskX(m), v.y, m.clock, m.lo.exOut)
    requires Plain(m.lo.exTask)
    ensures NOk(w, SecondEX(m).sh.board, TaskN(m), v.x, true)
  {
    hide At, Carried, TaskY, TaskZ, ResultAt, AddressAt, Finished, SecondEX;
    if TaskN(m).Some? {
      var t, out := TaskN(m).value, m.lo.exOut;
      EntryAfterEX(m, t.instr.rs);
      EntryAfterEX(m, t.instr.rt);
      if v.x.Some? {
        hide OperandOk;
        if ExReadsRs(t.instr) {
          OperandArrives(w, m.sh.board[t.instr.rs], t.instr.rs, t.ord, t.rsValue, v.x.value, out);
        }
        if ExReadsRt(t.instr) {
          OperandArrives(w, m.sh.board[t.instr.rt], t.instr.rt, t.ord, t.rtValue, v.x.value, out);
        }
      }
    }
  }

  lemma BackSecondEX(w: World, m: Machine, v: Roles)
    requires m.clock.half.Second? && !m.clock.doneEX
    requires v == RolesOf(m) && Order(w, m.hist.issued, v) && Slots(m) && Back(w, m, v)
    ensures Back(w, Tick(SecondEX(m), EX), v)
  {
    hide Slots, RegsOk, MemOk, NOk, Computed, Finished, Complete, At, TaskN, TaskY, TaskZ, ZOk;
    ShapeSecondEX(m);
    ForwardArrives(w, m, v);
    if TaskX(m).Some? {
      ExecutedIsFinished(w, TaskX(m).value, m.lo.exOut);
    }
  }

  lemma CellSecondEX(w: World, e: Reserve, v: Roles, c: Clock, r: Reg, out: Word)
    requires c.half.Second? && !c.doneEX && r != 0 && Cell(w, e, v, c, r)
    requires c.doneID || v.n.None?
    requires Publishes(v.x, r) ==> out == ResultAt(w, v.x.value.ord)
    ensures Cell(w, if Publishes(v.x, r) then e.(value := out, idAvailable := true) else e, v, c.Mark(EX), r)
  {
    hide ResultAt;
  }

  lemma BoardSecondEX(w: World, m: Machine, v: Roles)
    requires m.clock.half.Second? && !m.clock.doneEX
    requires v == RolesOf(m) && Slots(m) && Order(w, m.hist.issued, v)
    requires XOk(w, m.sh.board, TaskX(m), v.y, m.clock, m.lo.exOut)
    requires Scoreboard(w, m.sh.board, v, m.clock)
    ensures Scoreboard(w, SecondEX(m).sh.board, v, m.clock.Mark(EX))
  {
    hide Cell, ResultAt, Youngest, At, TaskY, TaskZ, Waiting, Finished, Carried, AddressAt;
    var b' := SecondEX(m).sh.board;
    forall r: Reg | r != 0 ensures Cell(w, b'[r], v, m.clock.Mark(EX), r) {
      CellSecondEX(w, m.sh.board[r], v, m.clock, r, m.lo.exOut);
    }
  }

  lemma KeepSecondEX(w: World, m: Machine)
    requires Inv(w, m) && m.clock.half.Second? && !m.clock.doneEX
    ensures Inv(w, Tick(SecondEX(m), EX))
  {
    hide Inv, Order, Ids, Slots, Scoreboard, FrontEnd, Timing, Account, RolesOf, Quiet, RegsOk, MemOk, NOk, XOk,
         YOk, ZOk, LastEX;
    var v := RolesOf(m);
    Unfold(w, m, v);
    ShapeSecondEX(m);
    BackSecondEX(w, m, v);
    BoardSecondEX(w, m, v);
    KeepQuiet(w, m, Tick(SecondEX(m), EX), v);
  }

  // ---------------------------------------------------------------- ID and EX at the same time

  lemma ShapeOverlap(m: Machine)
    ensures var m' := Overlap(m);
      && m' == m.(sh := m.sh.(board := m'.sh.board))
      && (forall r: Reg :: m'.sh.board[r] == m.sh.board[r].(value := m'.sh.board[r].value))
      && (forall r: Reg :: m'.sh.board[r] != m.sh.board[r] ==>
            && BothWrote(m) && r == Dest(m.sh.idEx.value.instr)
            && (m.sh.board[r].idAvailable ==> m'.sh.board[r].value == 0))
  {
  }

  lemma SameTasks(m: Machine, m': Machine)
    requires m' == m.(sh := m.sh.(board := m'.sh.board))
    ensures RolesOf(m') == RolesOf(m) && FetcherOf(m') == FetcherOf(m) && Slots(m') == Slots(m)
    ensures TaskN(m') == TaskN(m) && TaskX(m') == TaskX(m) && TaskY(m') == TaskY(m) && TaskZ(m') == TaskZ(m)
  {
  }

  /** The register that both have written is the destination of the task that has just left ID. */
  lemma BothWroteIsNewest(m: Machine)
    requires Slots(m) && BothWrote(m)
    ensures TaskN(m) == m.sh.idEx
    ensures var i := m.sh.idEx.value.instr; (ExReadsRs(i) ==> i.rs != Dest(i)) && (ExReadsRt(i) ==> i.rt != Dest(i))
  {
  }

  lemma BackOverlap(w: World, m: Machine, v: Roles)
    requires v == RolesOf(m) && Slots(m) && Back(w, m, v) && BothWrote(m)
    ensures Back(w, Overlap(m), v)
  {
    hide Slots, RegsOk, MemOk, Finished, Complete, Computed, Carried, TaskN, TaskX, TaskY, TaskZ, RolesOf, Dest,
         Overlap, ZOk, YOk, At, Acquires, Exports, Forwards;
    ShapeOverlap(m);
    SameTasks(m, Overlap(m));
    BothWroteIsNewest(m);
  }

  lemma BoardOverlap(w: World, m: Machine, v: Roles)
    requires v == RolesOf(m) && Slots(m) && Scoreboard(w, m.sh.board, v, m.clock) && BothWrote(m)
    ensures Scoreboard(w, Overlap(m).sh.board, v, m.clock)
  {
    ShapeOverlap(m);
    BothWroteIsNewest(m);
    hide Overlap, Slots, TaskX, TaskY, TaskZ, TaskN, ResultAt, BothWrote;
    forall r: Reg | r != 0 ensures Cell(w, Overlap(m).sh.board[r], v, m.clock, r) {
      assert Cell(w, m.sh.board[r], v, m.clock, r);
    }
  }

  lemma KeepOverlap(w: World, m: Machine)
    requires Inv(w, m)
    ensures Inv(w, Overlap(m))
  {
    hide Inv, Order, Ids, Slots, Back, Scoreboard, FrontEnd, Timing, Account, RolesOf, RegsOk, MemOk, BothWrote,
         Overlap, FetcherOf;
    var v := RolesOf(m);
    Unfold(w, m, v);
    ShapeOverlap(m);
    SameTasks(m, Overlap(m));
    if BothWrote(m) {
      BackOverlap(w, m, v);
      BoardOverlap(w, m, v);
      Fold(w, Overlap(m), v);
    } else {
      assert Overlap(m) == m by { NoOverlap(m); }
    }
  }

  lemma NoOverlap(m: Machine)
    requires !BothWrote(m)
    ensures Overlap(m) == m
  {
    hide BothWrote;
  }

  // ---------------------------------------------------------------- DM, second half

  /** `dmTask` after the fence. */
  function Read(isa: Isa, t: Task, mem: Mem): Task {
    var v := if t.instr.kind.Load? then isa.load(t.instr.bits, mem, AddressOf(isa, t)) else None;
    if v.Some? then t.(rtValue := v) else t
  }

  lemma ShapeSecondDM(isa: Isa, m: Machine)
    requires m.clock.half.Second? && !m.clock.doneDM && Slots(m)
    ensures var m' := Tick(SecondDM(isa, m), DM);
      && Quiet(m, m')
      && TaskN(m') == TaskN(m) && TaskX(m') == TaskX(m) && TaskZ(m') == TaskZ(m)
      && TaskY(m') == (if TaskY(m).Some? then Some(Read(isa, TaskY(m).value, m.sh.mem)) else None)
  {
  }

  lemma LoadIsCorrect(w: World, t: Task, mem: Mem)
    requires Finished(w, t) && t.instr == InstrAt(w, t.ord)
    requires mem == At(w, t.ord + 1).mem
    ensures Complete(w, Read(w.isa, t, mem))
  {
    hide At;
    MemAt(w, t.ord);
  }

  /** Operands do not depend on the availability flags. */
  lemma SameOperands(w: World, b: Board, b': Board, n: Option<Task>, src: Option<Tag>, done: bool)
    requires NOk(w, b, n, src, done)
    requires forall r: Reg :: b'[r].exForward == b[r].exForward && b'[r].value == b[r].value
    ensures NOk(w, b', n, src, done)
  {
    hide At, Carried;
  }

  lemma BackSecondDM(w: World, m: Machine, v: Roles)
    requires m.clock.half.Second? && !m.clock.doneDM
    requires v == RolesOf(m) && Order(w, m.hist.issued, v) && Slots(m) && Back(w, m, v)
    ensures Back(w, Tick(SecondDM(w.isa, m), DM), v)
  {
    hide Slots, Waiting, Computed, Finished, Complete, At, TaskN, TaskX, TaskZ, ZOk, Read, Carried, NOk, Dest,
         Forwards, AddressOf;
    ShapeSecondDM(w.isa, m);
    if TaskY(m).Some? {
      LoadIsCorrect(w, TaskY(m).value, m.sh.mem);
    }
    ValuesSecondDM(w.isa, m);
    SameOperands(w, m.sh.board, SecondDM(w.isa, m).sh.board, TaskN(m), v.x, m.clock.doneEX);
  }

  lemma ValuesSecondDM(isa: Isa, m: Machine)
    ensures forall r: Reg :: var e, e' := m.sh.board[r], SecondDM(isa, m).sh.board[r];
      e'.exForward == e.exForward && e'.value == e.value
  {
    hide AddressOf, Forwards;
  }

  lemma CellSecondDM(w: World, e: Reserve, v: Roles, c: Clock, r: Reg)
    requires c.half.Second? && !c.doneDM && r != 0 && Cell(w, e, v, c, r)
    ensures Cell(w, if Publishes(v.y, r) then e.(idAvailable := false) else e, v, c.Mark(DM), r)
  {
    hide ResultAt;
  }

  lemma BoardSecondDM(w: World, m: Machine, v: Roles)
    requires m.clock.half.Second? && !m.clock.doneDM && v == RolesOf(m) && Slots(m)
    requires Scoreboard(w, m.sh.board, v, m.clock)
    ensures Scoreboard(w, SecondDM(w.isa, m).sh.board, v, m.clock.Mark(DM))
  {
    hide Cell, ResultAt, Youngest, At, TaskX, TaskZ;
    var b' := SecondDM(w.isa, m).sh.board;
    forall r: Reg | r != 0 ensures Cell(w, b'[r], v, m.clock.Mark(DM), r) {
      CellSecondDM(w, m.sh.board[r], v, m.clock, r);
    }
  }

  lemma KeepSecondDM(w: World, m: Machine)
    requires Inv(w, m) && m.clock.half.Second? && !m.clock.doneDM
    ensures Inv(w, Tick(SecondDM(w.isa, m), DM))
  {
    hide Inv, Order, Ids, Slots, Back, Scoreboard, FrontEnd, Timing, Account, RolesOf, Quiet;
    var v := RolesOf(m);
    Unfold(w, m, v);
    ShapeSecondDM(w.isa, m);
    BackSecondDM(w, m, v);
    BoardSecondDM(w, m, v);
    KeepQuiet(w, m, Tick(SecondDM(w.isa, m), DM), v);
  }

  // ---------------------------------------------------------------- WB, first half

  lemma ShapeFirstWB(isa: Isa, m: Machine)
    requires m.clock.half.First? && !m.clock.doneWB && Slots(m)
    ensures var m' := Tick(FirstWB(isa, m), WB);
      && RolesOf(m') == RolesOf(m).(z := None)
      && FetcherOf(m') == FetcherOf(m)
      && Slots(m')
      && m'.hist == m.hist.(mod := m'.hist.mod)
      && m'.allocs == m.allocs
      && m'.sh.pcFlush == m.sh.pcFlush
      && BeforeIssue(m'.clock) == BeforeIssue(m.clock)
      && m'.clock == m.clock.Mark(WB)
      && TaskN(m') == TaskN(m) && TaskX(m') == TaskX(m) && TaskY(m') == TaskY(m) && TaskZ(m') == None
  {
  }

  lemma WriteRetires(w: World, m: Machine, v: Roles)
    requires m.clock.half.First? && !m.clock.doneWB
    requires v == RolesOf(m) && Order(w, m.hist.issued, v) && Slots(m)
    requires ZOk(w, TaskZ(m))
    requires RegsOk(w, m.sh.regs, Retired(m.hist.issued, v))
    ensures RegsOk(w, FirstWB(w.isa, m).sh.regs, Retired(m.hist.issued, v.(z := None)))
  {
    hide At, TaskX, TaskY, TaskN, Result, WrittenValue;
    if v.z.Some? { RegsAt(w, v.z.value.ord); }
  }

  lemma EntryAfterWB(isa: Isa, m: Machine, r: Reg)
    requires Slots(m) && m.clock.half.First? && !m.clock.doneWB
    ensures FirstWB(isa, m).sh.board[r] ==
            if TaskZ(m).Some? && Exports(TaskZ(m).value.instr) && Dest(TaskZ(m).value.instr) == r
               && m.sh.board[r].holder == Some(TaskZ(m).value.id)
            then FREE.(holder := if r == 0 then m.sh.board[r].holder else None) else m.sh.board[r]
  {
  }

  lemma CellFirstWB(w: World, e: Reserve, v: Roles, c: Clock, r: Reg)
    requires c.half.First? && r != 0 && Cell(w, e, v, c, r)
    requires Newer(v.n, v.z) && Newer(v.x, v.z) && Newer(v.y, v.z)
    ensures Cell(w, if Writes(v.z, r) && e.holder == Some(v.z.value.id) then FREE else e,
                 v.(z := None), c.Mark(WB), r)
  {
    hide ResultAt;
  }

  lemma BoardFirstWB(w: World, m: Machine, v: Roles)
    requires m.clock.half.First? && !m.clock.doneWB
    requires v == RolesOf(m) && Slots(m) && Ids(m.hist.topId, m.allocs, v)
    requires Scoreboard(w, m.sh.board, v, m.clock)
    ensures Scoreboard(w, FirstWB(w.isa, m).sh.board, v.(z := None), m.clock.Mark(WB))
  {
    hide Cell, FirstWB, Slots, TaskX, TaskY, TaskN, Youngest;
    var b' := FirstWB(w.isa, m).sh.board;
    EntryAfterWB(w.isa, m, 0);
    forall r: Reg | r != 0 ensures Cell(w, b'[r], v.(z := None), m.clock.Mark(WB), r) {
      EntryAfterWB(w.isa, m, r);
      CellFirstWB(w, m.sh.board[r], v, m.clock, r);
    }
  }

  /** WB frees no register whose forward is on its way. */
  lemma WriteKeepsForwards(w: World, m: Machine, v: Roles)
    requires m.clock.half.First? && !m.clock.doneWB
    requires v == RolesOf(m) && Slots(m) && Ids(m.hist.topId, m.allocs, v)
    requires Scoreboard(w, m.sh.board, v, m.clock)
    requires XOk(w, m.sh.board, TaskX(m), v.y, m.clock, m.lo.exOut)
    ensures XOk(w, FirstWB(w.isa, m).sh.board, TaskX(m), v.y, m.clock, m.lo.exOut)
  {
    hide At, Carried, Computed, Finished, FirstWB, Slots, TaskN, HeldByX, HeldByY, HeldByN;
    if TaskX(m).Some? {
      var i := TaskX(m).value.instr;
      EntryAfterWB(w.isa, m, i.rs);
      EntryAfterWB(w.isa, m, i.rt);
      hide TaskX, TaskY;
      assert i.rs != 0 ==> Cell(w, m.sh.board[i.rs], v, m.clock, i.rs);
      assert i.rt != 0 ==> Cell(w, m.sh.board[i.rt], v, m.clock, i.rt);
    }
  }

  lemma BackFirstWB(w: World, m: Machine, v: Roles)
    requires m.clock.half.First? && !m.clock.doneWB
    requires v == RolesOf(m) && Order(w, m.hist.issued, v) && Slots(m) && Back(w, m, v)
    requires Ids(m.hist.topId, m.allocs, v) && Scoreboard(w, m.sh.board, v, m.clock)
    ensures Back(w, Tick(FirstWB(w.isa, m), WB), v.(z := None))
  {
    hide Slots, Order, Ids, Scoreboard, RegsOk, MemOk, Waiting, Computed, Finished, Complete, At, TaskX, TaskY, RolesOf;
    ShapeFirstWB(w.isa, m);
    WriteRetires(w, m, v);
    WriteKeepsForwards(w, m, v);
  }

  lemma KeepFirstWB(w: World, m: Machine)
    requires Inv(w, m) && m.clock.half.First? && !m.clock.doneWB
    ensures Inv(w, Tick(FirstWB(w.isa, m), WB))
  {
    var v, m' := RolesOf(m), Tick(FirstWB(w.isa, m), WB);
    hide Inv, Slots, Back, Scoreboard, FrontEnd, Account, RolesOf, FirstWB, FetcherOf, BeforeIssue, At;
    Unfold(w, m, v);
    ShapeFirstWB(w.isa, m);
    BackFirstWB(w, m, v);
    BoardFirstWB(w, m, v);
    SameAccount(w, m.hist, m'.hist, BeforeIssue(m.clock), m.sh.pcFlush > 0);
    Fold(w, m', v.(z := None));
  }
}
