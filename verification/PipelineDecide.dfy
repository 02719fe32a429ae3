/** Every step of every stage keeps the invariant: ID in the second half, where instructions
    wait, take forwards, reserve their destination and transfer control. */
module PipelineDecide {
  import opened Basics
  import opened Instructions
  import opened Reference
  import opened Pipeline
  import opened SequentialRun
  import opened PipelineInvariant
  import opened PipelineSteps
  import opened PipelineIssue

  // ---------------------------------------------------------------- operands

  /** The forward of r has been taken. */
  predicate Took(b: Board, b': Board, r: Reg) {
    b[r].holder.Some? && b[r].exAvailable && b'[r] == b[r].(exForward := true, exAvailable := false)
  }

  /** Operand r is settled: forwarded, or loaded from the register file. */
  predicate Got(b: Board, b': Board, regs: RegFile, r: Reg, v: Option<Word>) {
    Took(b, b', r) || (b[r].holder.None? && b'[r] == b[r] && v == Some(regs[r]))
  }

  predicate Missed(b: Board, r: Reg) { b[r].holder.Some? && !b[r].exAvailable }

  predicate BothOperands(i: Instr) { AcquiresRs(i) && AcquiresRt(i) && i.rs == i.rt }

  predicate Acquiring(i: Instr) {
    i.kind.RAlu? || i.kind.Shift? || i.kind.IAlu? || i.kind.Load? || i.kind.Store?
  }

  lemma DecideAcquires(isa: Isa, sh: Shared, lo: Locals)
    requires Acquiring(lo.idTask.instr)
    ensures var d, t, i := Decide(isa, sh, lo), lo.idTask, lo.idTask.instr;
      && d.jump.None?
      && d.task == t.(rsValue := d.task.rsValue, rtValue := d.task.rtValue)
      && (forall r: Reg :: d.board[r] == sh.board[r] || (Acquires(i, r) && Took(sh.board, d.board, r)))
      && (if d.wait
          then (AcquiresRs(i) && Missed(sh.board, i.rs)) || (AcquiresRt(i) && Missed(sh.board, i.rt)) ||
               (BothOperands(i) && sh.board[i.rs].holder.Some?)
          else && (AcquiresRs(i) ==> Got(sh.board, d.board, sh.regs, i.rs, d.task.rsValue))
               && (AcquiresRt(i) ==> Got(sh.board, d.board, sh.regs, i.rt, d.task.rtValue))
               && (BothOperands(i) ==> sh.board[i.rs].holder.None?))
      && (d.task.rsValue == t.rsValue || (AcquiresRs(i) && sh.board[i.rs].holder.None?))
      && (d.task.rtValue == t.rtValue || (AcquiresRt(i) && sh.board[i.rt].holder.None?))
  {
  }

  // ---------------------------------------------------------------- what the cells say

  /** In the second half, before ID decides. */
  predicate Deciding(c: Clock, v: Roles) {
    c.half.Second? && !c.doneID && v.n.None? && v.z.None?
  }

  lemma TakenFromX(w: World, b: Board, v: Roles, c: Clock, r: Reg)
    requires Deciding(c, v) && Scoreboard(w, b, v, c)
    ensures b[r].holder.Some? && b[r].exAvailable ==> Publishes(v.x, r)
    ensures Publishes(v.x, r) ==> b[r].exAvailable
    ensures b[r].holder.Some? == (Writes(v.x, r) || Writes(v.y, r))
    ensures b[r].holder.None? ==> !b[r].exForward && (r != 0 ==> !b[r].exAvailable && !b[r].idAvailable)
  {
    hide ResultAt;
    if r != 0 { assert Cell(w, b[r], v, c, r); }
  }

  lemma ForwardedValue(w: World, b: Board, v: Roles, c: Clock, issued: nat, r: Reg)
    requires Deciding(c, v) && Scoreboard(w, b, v, c) && Order(w, issued, v)
    requires Publishes(v.x, r) && c.doneEX
    ensures b[r].value == At(w, issued).regs[r]
  {
    hide At, ResultAt;
    assert Cell(w, b[r], v, c, r);
    RegAt(w, v.x.value.ord, r);
  }

  lemma LoadedValue(w: World, b: Board, v: Roles, c: Clock, issued: nat, regs: RegFile, r: Reg)
    requires Deciding(c, v) && Scoreboard(w, b, v, c) && Order(w, issued, v)
    requires RegsOk(w, regs, Retired(issued, v)) && Boot(w.a0)
    requires b[r].holder.None?
    ensures regs[r] == At(w, issued).regs[r]
  {
    hide At, Scoreboard, Boot;
    TakenFromX(w, b, v, c, r);
    SettledRegister(w, issued, v, r);
  }

  // ---------------------------------------------------------------- branches

  lemma ResolveIsCorrect(w: World, b: Board, v: Roles, c: Clock, issued: nat, regs: RegFile, r: Reg,
                         seen: Option<Word>)
    requires Deciding(c, v) && Scoreboard(w, b, v, c) && Order(w, issued, v)
    requires RegsOk(w, regs, Retired(issued, v)) && Boot(w.a0)
    requires Loses(w, issued) && r == LastDest(At(w, issued).past) ==> b[r].holder.Some?
    requires SeenOk(seen, At(w, issued).view[r])
    ensures SeenOk(Resolve(b, regs, r, seen), At(w, issued).view[r])
  {
    hide At, Scoreboard, Boot, RegsOk, Order, Loses, LastDest;
    if b[r].holder.None? {
      LoadedValue(w, b, v, c, issued, regs, r);
      ViewOfOthers(w, issued, r);
    }
  }

  /** After the fence both operands of BEQ $r,$r come from the register file. */
  lemma ResolvesItself(w: World, b: Board, v: Roles, c: Clock, issued: nat, regs: RegFile, r: Reg)
    requires Deciding(c, v) && Scoreboard(w, b, v, c) && Order(w, issued, v)
    requires RegsOk(w, regs, Retired(issued, v)) && Boot(w.a0)
    requires ComparesWithItself(InstrAt(w, issued)) && b[r].holder.None?
    ensures regs[r] == At(w, issued).view[r]
  {
    hide At, Scoreboard, Boot, RegsOk, Order, LastDest;
    LoadedValue(w, b, v, c, issued, regs, r);
    ViewOfOthers(w, issued, r);
  }

  /** The register of a lost race is still reserved when ID decides. */
  lemma LostIsHeld(w: World, m: Machine, v: Roles)
    requires Deciding(m.clock, v) && Scoreboard(w, m.sh.board, v, m.clock) && Order(w, m.hist.issued, v)
    requires Timing(w, FetcherOf(m), m.hist.streak, v)
    requires m.hist.front.Straight? || m.hist.front.Stalled?
    requires Loses(w, m.hist.issued)
    ensures var d := LastDest(At(w, m.hist.issued).past);
      && ResolvesReg(InstrAt(w, m.hist.issued), d)
      && forall r: Reg :: m.sh.board[r].holder.Some? <==> r == d
  {
    hide At, Scoreboard, Order, Timing, Dest, Acquires, ResolvesReg, LastDest, Loses;
    LostRace(w, FetcherOf(m), m.hist.streak, v);
    forall r: Reg ensures m.sh.board[r].holder.Some? <==> r == LastDest(At(w, m.hist.issued).past) {
      TakenFromX(w, m.sh.board, v, m.clock, r);
    }
  }

  /** ID fires exactly the transfers of the sequential run, at the same target. */
  lemma DecideTransfers(w: World, m: Machine, v: Roles)
    requires Deciding(m.clock, v) && Scoreboard(w, m.sh.board, v, m.clock) && Order(w, m.hist.issued, v)
    requires RegsOk(w, m.sh.regs, Retired(m.hist.issued, v)) && Boot(w.a0)
    requires Timing(w, FetcherOf(m), m.hist.streak, v)
    requires m.hist.front.Straight? || m.hist.front.Stalled?
    requires HoldsNext(w, FetcherOf(m)) && Captured(w, FetcherOf(m))
    ensures var d := Decide(w.isa, m.sh, m.lo);
      !d.wait ==> d.jump == JumpOf(w.isa, At(w, m.hist.issued))
  {
    hide At, Scoreboard, Boot, RegsOk, Order, Acquire, Timing, Loses, LastDest;
    var b, regs, n, i := m.sh.board, m.sh.regs, m.hist.issued, m.lo.idTask.instr;
    if Loses(w, n) { LostIsHeld(w, m, v); }
    if ComparesWithItself(i) {
      if b[i.rs].holder.None? { ResolvesItself(w, b, v, m.clock, n, regs, i.rs); }
    } else {
      hide Resolve;
      if ResolvesRs(i) { ResolveIsCorrect(w, b, v, m.clock, n, regs, i.rs, m.lo.rsSeen); }
      if ResolvesRt(i) { ResolveIsCorrect(w, b, v, m.clock, n, regs, i.rt, m.lo.rtSeen); }
    }
  }

  /** A branch that has lost the race does not wait: it has a value for the register, and no other
      register is reserved. */
  lemma LostNeverWaits(w: World, m: Machine, v: Roles)
    requires Deciding(m.clock, v) && Scoreboard(w, m.sh.board, v, m.clock) && Order(w, m.hist.issued, v)
    requires Timing(w, FetcherOf(m), m.hist.streak, v)
    requires m.hist.front.Straight? || m.hist.front.Stalled?
    requires HoldsNext(w, FetcherOf(m)) && Captured(w, FetcherOf(m))
    requires Loses(w, m.hist.issued)
    ensures !Decide(w.isa, m.sh, m.lo).wait
  {
    hide At, Scoreboard, Order, Acquire, Timing, LastDest;
    LostIsHeld(w, m, v);
  }

  // ---------------------------------------------------------------- the task that leaves ID

  lemma DecideOthers(isa: Isa, sh: Shared, lo: Locals)
    requires !Acquiring(lo.idTask.instr)
    ensures var d, t, i := Decide(isa, sh, lo), lo.idTask, lo.idTask.instr;
      && d.board == sh.board
      && d.task == (if i.kind.JumpLink? then t.(rdValue := Some(Advance(t.pc))) else t)
      && (d.wait ==> exists r: Reg :: ResolvesReg(i, r) && sh.board[r].holder.Some?)
  {
    var i := lo.idTask.instr;
    assert ResolvesRs(i) ==> ResolvesReg(i, i.rs);
    assert ResolvesRt(i) ==> ResolvesReg(i, i.rt);
    hide Advance;
  }

  lemma OperandOnIssue(w: World, b: Board, b': Board, v: Roles, c: Clock, issued: nat, regs: RegFile, r: Reg,
                       val: Option<Word>)
    requires Deciding(c, v) && Scoreboard(w, b, v, c) && Order(w, issued, v)
    requires RegsOk(w, regs, Retired(issued, v)) && Boot(w.a0)
    requires Got(b, b', regs, r, val)
    requires v.x.Some? && b[r].holder.Some? ==> val == None
    ensures OperandOk(w, b'[r], r, issued, val, v.x, c.doneEX)
  {
    hide At, Scoreboard, Boot, RegsOk, Order;
    TakenFromX(w, b, v, c, r);
    if Took(b, b', r) {
      if c.doneEX { ForwardedValue(w, b, v, c, issued, r); }
    } else {
      LoadedValue(w, b, v, c, issued, regs, r);
    }
  }

  lemma ReserveKeepsOperands(b: Board, t: Task, r: Reg)
    requires Acquires(t.instr, r) || !Exports(t.instr)
    ensures ReserveDest(b, t)[r] == b[r].(holder := ReserveDest(b, t)[r].holder)
  {
  }

  /** A store leaves ID without its data exactly when the reference machine says so. */
  lemma TaintIsExact(w: World, m: Machine, v: Roles)
    requires Boot(w.a0)
    requires Deciding(m.clock, v) && Scoreboard(w, m.sh.board, v, m.clock) && Order(w, m.hist.issued, v)
    requires Timing(w, FetcherOf(m), m.hist.streak, v)
    requires FrontEnd(w, FetcherOf(m)) && HoldsNext(w, FetcherOf(m))
    requires m.hist.front.Straight? || m.hist.front.Stalled?
    requires m.lo.idTask.instr.kind.Store?
    requires !Decide(w.isa, m.sh, m.lo).wait
    ensures Tainted(InstrAt(w, m.hist.issued), At(w, m.hist.issued).past) ==
            m.sh.board[m.lo.idTask.instr.rt].holder.Some?
  {
    hide At, Scoreboard, Order, Decide, AdjacentAt, FrontEnd;
    var i, n, b := m.lo.idTask.instr, m.hist.issued, m.sh.board;
    DecideAcquires(w.isa, m.sh, m.lo);
    TakenFromX(w, b, v, m.clock, i.rs);
    TakenFromX(w, b, v, m.clock, i.rt);
    PastOfLive(w, n, v);
    if v.x.Some? {
      StoreBehindWriter(w, n, v, i);
    } else {
      StoreBehindGap(w, m, v);
    }
  }

  /** The store follows its predecessor without a gap. */
  lemma StoreBehindWriter(w: World, issued: nat, v: Roles, i: Instr)
    requires v.x.Some? && v.n.None? && v.z.None? && Order(w, issued, v)
    requires Pair(w, v.x, v.y) && !At(w, issued).past.fired
    requires i == InstrAt(w, issued) && i.kind.Store?
    requires (Writes(v.x, i.rs) || Writes(v.y, i.rs)) ==> Publishes(v.x, i.rs)
    requires (Writes(v.x, i.rt) || Writes(v.y, i.rt)) ==> Publishes(v.x, i.rt)
    requires i.rs == i.rt ==> !Writes(v.x, i.rs)
    ensures Tainted(i, At(w, issued).past) == (Writes(v.x, i.rt) || Writes(v.y, i.rt))
  {
    hide At, AdjacentAt;
    PastOfLive(w, issued, v);
    PastAt(w, v.x.value.ord);
    FiresAt(w, v.x.value.ord);
    if Publishes(v.x, i.rt) {
      var p := At(w, issued).past;
      if WritesReg(p.prev2, i.rs) && p.adjacent {
        assert false;
      }
    }
  }

  /** A gap ahead of the store: it has waited, or the last instruction has fired. */
  lemma StoreBehindGap(w: World, m: Machine, v: Roles)
    requires Boot(w.a0)
    requires Deciding(m.clock, v) && v.x.None? && Order(w, m.hist.issued, v)
    requires Timing(w, FetcherOf(m), m.hist.streak, v)
    requires HoldsNext(w, FetcherOf(m))
    requires m.hist.front.Straight? || m.hist.front.Stalled?
    requires m.lo.idTask.instr.kind.Store?
    ensures !Tainted(InstrAt(w, m.hist.issued), At(w, m.hist.issued).past)
  {
    hide At, Order;
    var n := m.hist.issued;
    if n == 0 {
      NoPastAtBoot(w);
    } else {
      PastAt(w, n - 1);
      FiresAt(w, n - 1);
    }
  }

  /** `t` leaves ID with everything that EX, DM and WB need. */
  lemma CarriedOnIssue(w: World, m: Machine, v: Roles, t: Task)
    requires Boot(w.a0) && Deciding(m.clock, v) && Scoreboard(w, m.sh.board, v, m.clock)
    requires Order(w, m.hist.issued, v) && RegsOk(w, m.sh.regs, Retired(m.hist.issued, v))
    requires Timing(w, FetcherOf(m), m.hist.streak, v)
    requires FrontEnd(w, FetcherOf(m)) && HoldsNext(w, FetcherOf(m))
    requires m.hist.front.Straight? || m.hist.front.Stalled?
    requires !Decide(w.isa, m.sh, m.lo).wait
    requires t == Decide(w.isa, m.sh, m.lo).task.(ord := m.hist.issued)
    ensures Carried(w, t)
  {
    hide At, Scoreboard, Order, Decide, Timing, FrontEnd, RegsOk, Tainted, Result, StoreData, HoldsNext, InstrAt;
    NextIsNext(w, m);
    if m.lo.idTask.instr.kind.Store? {
      TaintIsExact(w, m, v);
      StoreDataOnIssue(w, m, v, t);
    }
    LinkOnIssue(w, m, t);
  }

  lemma NextIsNext(w: World, m: Machine)
    requires HoldsNext(w, FetcherOf(m))
    ensures m.lo.idTask.instr == InstrAt(w, m.hist.issued)
    ensures Decide(w.isa, m.sh, m.lo).task.instr == m.lo.idTask.instr
    ensures Decide(w.isa, m.sh, m.lo).task.pc == m.lo.idTask.pc
  {
    hide Decide, At;
    if Acquiring(m.lo.idTask.instr) { DecideAcquires(w.isa, m.sh, m.lo); } else { DecideOthers(w.isa, m.sh, m.lo); }
  }

  lemma LinkOnIssue(w: World, m: Machine, t: Task)
    requires HoldsNext(w, FetcherOf(m))
    requires t == Decide(w.isa, m.sh, m.lo).task.(ord := m.hist.issued)
    ensures t.instr.kind.JumpLink? ==> t.rdValue == Some(Result(w.isa, t.ord, At(w, t.ord)))
    ensures t.instr.kind.Load? ==> t.rtValue == None
  {
    hide Decide, At, Advance;
    if Acquiring(m.lo.idTask.instr) { DecideAcquires(w.isa, m.sh, m.lo); } else { DecideOthers(w.isa, m.sh, m.lo); }
  }

  lemma StoreDataOnIssue(w: World, m: Machine, v: Roles, t: Task)
    requires Boot(w.a0) && Deciding(m.clock, v) && Scoreboard(w, m.sh.board, v, m.clock)
    requires Order(w, m.hist.issued, v) && RegsOk(w, m.sh.regs, Retired(m.hist.issued, v))
    requires Timing(w, FetcherOf(m), m.hist.streak, v) && FrontEnd(w, FetcherOf(m))
    requires HoldsNext(w, FetcherOf(m)) && m.lo.idTask.instr.kind.Store?
    requires m.hist.front.Straight? || m.hist.front.Stalled?
    requires !Decide(w.isa, m.sh, m.lo).wait
    requires t == Decide(w.isa, m.sh, m.lo).task.(ord := m.hist.issued)
    requires Tainted(InstrAt(w, m.hist.issued), At(w, m.hist.issued).past) ==
             m.sh.board[m.lo.idTask.instr.rt].holder.Some?
    ensures t.rtValue.GetOr(w.isa.junk(t.ord)) == StoreData(w.isa, t.ord, At(w, t.ord))
  {
    hide At, Scoreboard, Order, Decide, RegsOk, Tainted;
    var i, n, b := m.lo.idTask.instr, m.hist.issued, m.sh.board;
    DecideAcquires(w.isa, m.sh, m.lo);
    TakenFromX(w, b, v, m.clock, i.rt);
    if b[i.rt].holder.None? {
      LoadedValue(w, b, v, m.clock, n, m.sh.regs, i.rt);
    } else {
      assert v.x.Some?;
      assert !m.lo.idStall;
    }
  }

  /** With a task just ahead, the next instruction is new to ID and has loaded nothing yet. */
  lemma NewToID(w: World, m: Machine, v: Roles)
    requires Deciding(m.clock, v) && Timing(w, FetcherOf(m), m.hist.streak, v)
    requires FrontEnd(w, FetcherOf(m)) && HoldsNext(w, FetcherOf(m))
    requires m.hist.front.Straight? || m.hist.front.Stalled?
    ensures v.x.Some? ==> m.lo.idTask.rsValue == None && m.lo.idTask.rtValue == None
  {
    hide At, Pair, LateAt, FollowsAt, Loses, Captured, HaltCount, Advance;
  }

  lemma WaitingOnIssue(w: World, m: Machine, v: Roles, t: Task)
    requires Boot(w.a0) && Deciding(m.clock, v) && Scoreboard(w, m.sh.board, v, m.clock)
    requires Order(w, m.hist.issued, v) && RegsOk(w, m.sh.regs, Retired(m.hist.issued, v))
    requires Timing(w, FetcherOf(m), m.hist.streak, v)
    requires FrontEnd(w, FetcherOf(m)) && HoldsNext(w, FetcherOf(m))
    requires m.hist.front.Straight? || m.hist.front.Stalled?
    requires !Decide(w.isa, m.sh, m.lo).wait
    requires t == Decide(w.isa, m.sh, m.lo).task.(ord := m.hist.issued)
    ensures Waiting(w, ReserveDest(Decide(w.isa, m.sh, m.lo).board, t), t, v.x, m.clock.doneEX)
  {
    hide At, Scoreboard, Order, Decide, Timing, FrontEnd, RegsOk, Boot, HoldsNext, ReserveDest, Carried, OperandOk;
    CarriedOnIssue(w, m, v, t);
    NewToID(w, m, v);
    var i, n, b := m.lo.idTask.instr, m.hist.issued, m.sh.board;
    var d := Decide(w.isa, m.sh, m.lo);
    if Acquiring(i) { DecideAcquires(w.isa, m.sh, m.lo); } else { DecideOthers(w.isa, m.sh, m.lo); }
    if ExReadsRs(i) {
      OperandOnIssue(w, b, d.board, v, m.clock, n, m.sh.regs, i.rs, t.rsValue);
      ReserveKeepsOperands(d.board, t, i.rs);
      SameOperand(w, d.board[i.rs], ReserveDest(d.board, t)[i.rs], i.rs, n, t.rsValue, v.x, m.clock.doneEX);
    }
    if ExReadsRt(i) {
      OperandOnIssue(w, b, d.board, v, m.clock, n, m.sh.regs, i.rt, t.rtValue);
      ReserveKeepsOperands(d.board, t, i.rt);
      SameOperand(w, d.board[i.rt], ReserveDest(d.board, t)[i.rt], i.rt, n, t.rtValue, v.x, m.clock.doneEX);
    }
  }

  lemma SameOperand(w: World, e: Reserve, e': Reserve, r: Reg, k: nat, v: Option<Word>, src: Option<Tag>, done: bool)
    requires OperandOk(w, e, r, k, v, src, done) && e' == e.(holder := e'.holder)
    ensures OperandOk(w, e', r, k, v, src, done)
  {
    hide At;
  }

  // ---------------------------------------------------------------- the scoreboard

  lemma CellTaken(w: World, e: Reserve, e': Reserve, v: Roles, c: Clock, r: Reg)
    requires Deciding(c, v) && r != 0 && Cell(w, e, v, c, r)
    requires e' == e || (e.holder.Some? && e.exAvailable && e' == e.(exForward := true, exAvailable := false))
    ensures Cell(w, e', v, c.Mark(ID), r)
  {
    hide ResultAt;
  }

  /** A waiting instruction may take a forward all the same. */
  lemma BoardOnWait(w: World, b: Board, b': Board, v: Roles, c: Clock)
    requires Deciding(c, v) && Scoreboard(w, b, v, c)
    requires forall r: Reg :: b'[r] == b[r] || Took(b, b', r)
    ensures Scoreboard(w, b', v, c.Mark(ID))
  {
    hide Cell;
    forall r: Reg | r != 0 ensures Cell(w, b'[r], v, c.Mark(ID), r) { CellTaken(w, b[r], b'[r], v, c, r); }
  }

  /** The reserved register. */
  lemma CellReserved(w: World, e: Reserve, e1: Reserve, v: Roles, n: Tag, c: Clock, r: Reg)
    requires Deciding(c, v) && r != 0 && Cell(w, e, v, c, r) && Dest(n.instr) == r
    requires Acquires(n.instr, r) ==>
               (e1 == e && e.holder.None?) ||
               (e.holder.Some? && e.exAvailable && e1 == e.(exForward := true, exAvailable := false))
    ensures Cell(w, (if Acquires(n.instr, r) then e1 else FREE).(holder := Some(n.id)), v.(n := Some(n)), c.Mark(ID), r)
  {
    hide ResultAt;
  }

  /** The other registers. */
  lemma CellUnreserved(w: World, e: Reserve, v: Roles, n: Tag, c: Clock, r: Reg)
    requires v.n.None? && r != 0 && Cell(w, e, v, c, r) && Dest(n.instr) != r
    ensures Cell(w, e, v.(n := Some(n)), c, r)
  {
    hide ResultAt;
  }

  lemma ReserveSpec(b: Board, t: Task, r: Reg)
    ensures ReserveDest(b, t)[r] ==
            if !Exports(t.instr) || Dest(t.instr) != r then b[r]
            else (if Acquires(t.instr, r) then b[r] else FREE).(holder := if r == 0 then b[r].holder else Some(t.id))
  {
  }

  lemma BoardOnIssue(w: World, b: Board, b1: Board, v: Roles, t: Task, c: Clock)
    requires Deciding(c, v) && Scoreboard(w, b, v, c)
    requires forall r: Reg :: b1[r] == b[r] || (Acquires(t.instr, r) && Took(b, b1, r))
    requires forall r: Reg :: Acquires(t.instr, r) ==> Took(b, b1, r) || b[r].holder.None?
    ensures Scoreboard(w, ReserveDest(b1, t), v.(n := Some(Tag(t.id, t.ord, t.instr, t.pc))), c.Mark(ID))
  {
    hide Cell, ReserveDest, Acquires;
    var n := Tag(t.id, t.ord, t.instr, t.pc);
    var b' := ReserveDest(b1, t);
    ReserveSpec(b1, t, 0);
    forall r: Reg | r != 0 ensures Cell(w, b'[r], v.(n := Some(n)), c.Mark(ID), r) {
      ReserveSpec(b1, t, r);
      if Exports(t.instr) && Dest(t.instr) == r {
        CellReserved(w, b[r], b1[r], v, n, c, r);
      } else {
        CellTaken(w, b[r], b1[r], v, c, r);
        CellUnreserved(w, b1[r], v, n, c.Mark(ID), r);
      }
    }
  }

  // ---------------------------------------------------------------- timing

  lemma WaitHasHolder(isa: Isa, m: Machine)
    requires Decide(isa, m.sh, m.lo).wait
    ensures exists r: Reg :: m.sh.board[r].holder.Some?
  {
    hide Decide;
    if Acquiring(m.lo.idTask.instr) { DecideAcquires(isa, m.sh, m.lo); } else { DecideOthers(isa, m.sh, m.lo); }
  }

  /** An instruction that waits was not predicted to pass. */
  lemma LateOnWait(w: World, m: Machine, v: Roles)
    requires Boot(w.a0)
    requires Deciding(m.clock, v) && Scoreboard(w, m.sh.board, v, m.clock) && Order(w, m.hist.issued, v)
    requires Timing(w, FetcherOf(m), m.hist.streak, v)
    requires m.lo.idTask.instr == InstrAt(w, m.hist.issued)
    requires m.hist.front.Straight? || m.hist.front.Stalled?
    requires Decide(w.isa, m.sh, m.lo).wait
    ensures LateAt(w, m.hist.issued)
  {
    hide At, Scoreboard, Order, Decide, AdjacentAt;
    var i, n, b := m.lo.idTask.instr, m.hist.issued, m.sh.board;
    if m.hist.front.Straight? && Predicted(w, n) {
      if Acquiring(i) { DecideAcquires(w.isa, m.sh, m.lo); } else { DecideOthers(w.isa, m.sh, m.lo); }
      TakenFromX(w, b, v, m.clock, i.rs);
      TakenFromX(w, b, v, m.clock, i.rt);
      if v.x.None? {
        if n == 0 { NoPastAtBoot(w); }
        LateBehindGap(w, n);
      } else {
        LateBehindWriter(w, n, v, i);
      }
    }
  }

  lemma LateBehindGap(w: World, n: nat)
    requires At(w, n).past.fired || At(w, n).past.prev1.None?
    ensures !AdjacentAt(w, n)
  {
    hide At;
  }

  /** Behind a register write, with the stages ahead full: what the reference machine remembers
      is what the scoreboard shows. */
  lemma PastIsInFlight(w: World, n: nat, v: Roles, r: Reg)
    requires v.x.Some? && v.n.None? && Order(w, n, v) && Pair(w, v.x, v.y)
    requires !At(w, n).past.fired && Dest(v.x.value.instr) != 0 && r != 0
    ensures WritesReg(At(w, n).past.prev1, r) == Writes(v.x, r)
    ensures (WritesReg(At(w, n).past.prev2, r) && At(w, n).past.adjacent) == Writes(v.y, r)
  {
    hide At, AdjacentAt;
    PastOfLive(w, n, v);
    PastAt(w, v.x.value.ord);
    FiresAt(w, v.x.value.ord);
  }

  lemma LateBehindWriter(w: World, n: nat, v: Roles, i: Instr)
    requires v.x.Some? && v.n.None? && Order(w, n, v) && Pair(w, v.x, v.y)
    requires !At(w, n).past.fired && Predicted(w, n) && i == InstrAt(w, n)
    requires (AcquiresRs(i) && (Writes(v.x, i.rs) || Writes(v.y, i.rs)) && !Publishes(v.x, i.rs)) ||
             (AcquiresRt(i) && (Writes(v.x, i.rt) || Writes(v.y, i.rt)) && !Publishes(v.x, i.rt)) ||
             (BothOperands(i) && Writes(v.x, i.rs))
    ensures !AdjacentAt(w, n)
  {
    hide At;
    PastOfLive(w, n, v);
    if i.rs != 0 { PastIsInFlight(w, n, v, i.rs); }
    if i.rt != 0 { PastIsInFlight(w, n, v, i.rt); }
  }

  lemma PassBehindWriter(w: World, n: nat, v: Roles, i: Instr)
    requires v.x.Some? && v.n.None? && Order(w, n, v) && Pair(w, v.x, v.y)
    requires !At(w, n).past.fired && Predicted(w, n) && i == InstrAt(w, n)
    requires AcquiresRs(i) ==> Publishes(v.x, i.rs) || (!Writes(v.x, i.rs) && !Writes(v.y, i.rs))
    requires AcquiresRt(i) ==> Publishes(v.x, i.rt) || (!Writes(v.x, i.rt) && !Writes(v.y, i.rt))
    requires BothOperands(i) ==> !Writes(v.x, i.rs)
    ensures AdjacentAt(w, n)
  {
    hide At;
    PastOfLive(w, n, v);
    if i.rs != 0 { PastIsInFlight(w, n, v, i.rs); }
    if i.rt != 0 { PastIsInFlight(w, n, v, i.rt); }
  }

  /** An instruction that leaves ID follows the one ahead without a gap exactly when the
      reference machine predicts it. */
  lemma PairOnIssue(w: World, m: Machine, v: Roles)
    requires Boot(w.a0)
    requires Deciding(m.clock, v) && Scoreboard(w, m.sh.board, v, m.clock) && Order(w, m.hist.issued, v)
    requires Timing(w, FetcherOf(m), m.hist.streak, v)
    requires m.lo.idTask.instr == InstrAt(w, m.hist.issued)
    requires m.hist.front.Straight? || m.hist.front.Stalled?
    requires !Decide(w.isa, m.sh, m.lo).wait
    requires Predicted(w, m.hist.issued)
    ensures v.x.Some? == AdjacentAt(w, m.hist.issued)
  {
    hide At, Scoreboard, Order, Decide, AdjacentAt;
    var i, n, b := m.lo.idTask.instr, m.hist.issued, m.sh.board;
    if m.hist.front.Straight? {
      if Acquiring(i) { DecideAcquires(w.isa, m.sh, m.lo); } else { DecideOthers(w.isa, m.sh, m.lo); }
      TakenFromX(w, b, v, m.clock, i.rs);
      TakenFromX(w, b, v, m.clock, i.rt);
      if v.x.None? {
        if n == 0 { NoPastAtBoot(w); }
        LateBehindGap(w, n);
      } else {
        PassBehindWriter(w, n, v, i);
      }
    }
  }

  lemma NoHolderWhenEmpty(w: World, b: Board, v: Roles, c: Clock)
    requires Deciding(c, v) && Scoreboard(w, b, v, c) && v.x.None? && v.y.None?
    ensures forall r: Reg :: b[r].holder.None?
  {
    hide Scoreboard;
    forall r: Reg ensures b[r].holder.None? { TakenFromX(w, b, v, c, r); }
  }

  /** At most two cycles in a row: by the third one the stages ahead are empty. */
  lemma StreakOnWait(w: World, m: Machine, v: Roles)
    requires Deciding(m.clock, v) && Scoreboard(w, m.sh.board, v, m.clock)
    requires Timing(w, FetcherOf(m), m.hist.streak, v)
    requires m.hist.front.Straight? || m.hist.front.Stalled?
    requires Decide(w.isa, m.sh, m.lo).wait
    ensures m.hist.streak + 1 <= 2 && Streak(m.hist.streak + 1, v.n, v.x)
  {
    hide Scoreboard, Decide, Pair, LateAt, FollowsAt;
    if m.hist.streak == 2 {
      NoHolderWhenEmpty(w, m.sh.board, v, m.clock);
      WaitHasHolder(w.isa, m);
    }
  }
}
