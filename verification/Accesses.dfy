/** The second half of a cycle, access by access. `Value` and `IDAvailable` of a register are the only
    fields that two stages write in one half: EX publishes both, ID resets both, and DM withdraws the
    flag. Here EX and ID take two steps each. EX writes `Value`; then it sets `IDAvailable` and pushes.
    ID does all but clear `IDAvailable`; then it does that. Between their steps any other may come.

    Here are the steps and how they commute; `AccessTheorems` has what follows. */
module Accesses {
  import opened Basics
  import opened Instructions
  import opened Reference
  import opened Pipeline
  import opened PipelineInvariant
  import opened PipelineSteps
  import opened PipelineDecide
  import opened PipelineSecondID
  import opened PipelineTheorems

  // ---------------------------------------------------------------- the halves of the two steps

  /** One access to the scoreboard: write `Value` of d, or `IDAvailable`. */
  function ValueAt(b: Board, writes: bool, d: Reg, v: Word): Board {
    if writes then b[d := b[d].(value := v)] else b
  }

  function FlagAt(b: Board, writes: bool, d: Reg, f: bool): Board {
    if writes then b[d := b[d].(idAvailable := f)] else b
  }

  /** EX: `reg_reserves[d].Value = rd_value`. */
  function WriteValue(m: Machine): Machine {
    var x := m.lo.exTask.instr;
    m.(sh := m.sh.(board := ValueAt(m.sh.board, Forwards(x), Dest(x), m.lo.exOut)))
  }

  /** EX: `reg_reserves[d].IDAvailable = true`, and the push. */
  function RaiseFlag(m: Machine): Machine {
    var t := Executed(m.lo.exTask, m.lo.exOut);
    Tick(m.(sh := m.sh.(board := FlagAt(m.sh.board, Forwards(t.instr), Dest(t.instr), true),
                        exDm := PushTask(m.sh.exDm, t)),
            lo := m.lo.(exTask := t)), EX)
  }

  /** The task that ID has just let go resets its register. */
  predicate Resets(m: Machine) {
    !m.lo.idStall && Exports(m.lo.idTask.instr) && !Acquires(m.lo.idTask.instr, Dest(m.lo.idTask.instr))
  }

  function ResetOf(m: Machine): Reg { Dest(m.lo.idTask.instr) }

  /** ID: everything but `IDAvailable = false`. */
  function ResetValue(isa: Isa, m: Machine): Machine {
    var m1 := SecondID(isa, m);
    var d := ResetOf(m1);
    m1.(sh := m1.sh.(board := FlagAt(m1.sh.board, Resets(m1), d, m.sh.board[d].idAvailable)))
  }

  /** ID: `IDAvailable = false`. */
  function ClearFlag(m: Machine): Machine {
    Tick(m.(sh := m.sh.(board := FlagAt(m.sh.board, Resets(m), ResetOf(m), false))), ID)
  }

  /** A state, and whether EX and ID are between their two steps. */
  datatype Fine = Fine(m: Machine, ex: bool, id: bool)

  datatype Access = Whole(s: Stage) | EXValue | EXFlag | IDReset | IDFlag | Barrier

  predicate Splits(m: Machine, s: Stage) { m.clock.half.Second? && (s.EX? || s.ID?) }

  predicate Enabled(f: Fine, a: Access) {
    match a
    case Whole(s) => CanFire(false, f.m, s) && !Splits(f.m, s)
    case EXValue => CanFire(false, f.m, EX) && Splits(f.m, EX) && !f.ex
    case EXFlag => f.ex
    case IDReset => CanFire(false, f.m, ID) && Splits(f.m, ID) && !f.id
    case IDFlag => f.id
    case Barrier => f.m.clock.AllDone()
  }

  function Do(isa: Isa, f: Fine, a: Access): Fine
    requires Enabled(f, a)
  {
    match a
    case Whole(s) => f.(m := Fire(isa, f.m, s))
    case EXValue => Fine(WriteValue(f.m), true, f.id)
    case EXFlag => Fine(RaiseFlag(f.m), false, f.id)
    case IDReset => Fine(ResetValue(isa, f.m), f.ex, true)
    case IDFlag => Fine(ClearFlag(f.m), f.ex, false)
    case Barrier => f.(m := Edge(f.m))
  }

  ghost predicate Next(isa: Isa, f: Fine, f': Fine) {
    exists a: Access :: Enabled(f, a) && f' == Do(isa, f, a)
  }

  function FineBoot(a0: Arch): Fine { Fine(Init(a0.pc, a0.regs, a0.mem), false, false) }

  /** A run of the five threads from boot, access by access. */
  ghost predicate FineRun(isa: Isa, a0: Arch, trace: seq<Fine>) {
    && Boot(a0) && 0 < |trace| && trace[0] == FineBoot(a0)
    && (forall j :: 0 <= j < |trace| - 1 ==> Next(isa, trace[j], trace[j + 1]))
  }

  ghost predicate FineEnds(isa: Isa, a0: Arch, trace: seq<Fine>, f: Fine) {
    FineRun(isa, a0, trace) && trace[|trace| - 1] == f
  }

  ghost predicate FineReachable(isa: Isa, a0: Arch, f: Fine) {
    exists trace: seq<Fine> :: FineEnds(isa, a0, trace, f)
  }

  // ---------------------------------------------------------------- boards that differ in the two fields

  /** Board b with the two fields of p. */
  function Patch(b: Board, p: Board): (r: Board)
    ensures forall i: Reg :: r[i] == b[i].(value := p[i].value, idAvailable := p[i].idAvailable)
  {
    seq(REGISTER_COUNT, i requires 0 <= i < REGISTER_COUNT =>
                          b[i].(value := p[i].value, idAvailable := p[i].idAvailable))
  }

  lemma SameBoard(b: Board, b': Board)
    requires forall r: Reg :: b'[r] == b[r]
    ensures b' == b
  {
    forall i | 0 <= i < REGISTER_COUNT ensures b'[i] == b[i] {
      var r: Reg := i;
      assert b'[r] == b[r];
    }
  }

  lemma AcquirePatched(b: Board, p: Board, regs: RegFile, r: Reg)
    ensures Acquire(Patch(b, p), regs, r).1 == Acquire(b, regs, r).1
    ensures Acquire(Patch(b, p), regs, r).0 == Patch(Acquire(b, regs, r).0, p)
  {
    var q, q' := Acquire(Patch(b, p), regs, r).0, Patch(Acquire(b, regs, r).0, p);
    forall i: Reg ensures q'[i] == q[i] {}
    SameBoard(q, q');
  }

  /** What ID decides does not depend on the two fields. */
  predicate SameDecision(isa: Isa, sh: Shared, sh': Shared, lo: Locals, lo': Locals, p: Board) {
    var d := Decide(isa, sh, lo);
    Decide(isa, sh', lo') == d.(board := Patch(d.board, p))
  }

  predicate SameInputs(sh: Shared, sh': Shared, lo: Locals, lo': Locals, p: Board) {
    && sh'.board == Patch(sh.board, p) && sh'.regs == sh.regs
    && lo'.idTask == lo.idTask && lo'.rsSeen == lo.rsSeen && lo'.rtSeen == lo.rtSeen
  }

  lemma DecidePatched(isa: Isa, sh: Shared, sh': Shared, lo: Locals, lo': Locals, p: Board)
    requires SameInputs(sh, sh', lo, lo', p)
    ensures SameDecision(isa, sh, sh', lo, lo', p)
  {
    hide SameInputs, SameDecision;
    if Acquiring(lo.idTask.instr) { AcquiresPatched(isa, sh, sh', lo, lo', p); }
    else { ResolvesPatched(isa, sh, sh', lo, lo', p); }
  }

  lemma AcquiresPatched(isa: Isa, sh: Shared, sh': Shared, lo: Locals, lo': Locals, p: Board)
    requires SameInputs(sh, sh', lo, lo', p) && Acquiring(lo.idTask.instr)
    ensures SameDecision(isa, sh, sh', lo, lo', p)
  {
    hide Decide, Acquire, AcquiresRs, AcquiresRt, Patch;
    var i := lo.idTask.instr;
    AcquirePatched(sh.board, p, sh.regs, i.rt);
    AcquirePatched(sh.board, p, sh.regs, i.rs);
    AcquirePatched(Acquire(sh.board, sh.regs, i.rt).0, p, sh.regs, i.rs);
    AcquiringIs(isa, sh, lo);
    AcquiringIs(isa, sh', lo');
  }

  /** The two operands, one after the other. */
  function Acquired(sh: Shared, lo: Locals): Issue {
    var t := lo.idTask;
    var (b1, rt) := if AcquiresRt(t.instr) then Acquire(sh.board, sh.regs, t.instr.rt) else (sh.board, Forwarded);
    var (b2, rs) := if AcquiresRs(t.instr) then Acquire(b1, sh.regs, t.instr.rs) else (b1, Forwarded);
    var t1 := if rt.Loaded? then t.(rtValue := Some(rt.value)) else t;
    var t2 := if rs.Loaded? then t1.(rsValue := Some(rs.value)) else t1;
    Issue(t2, b2, rt.Missing? || rs.Missing?, None)
  }

  lemma AcquiringIs(isa: Isa, sh: Shared, lo: Locals)
    requires Acquiring(lo.idTask.instr)
    ensures Decide(isa, sh, lo) == Acquired(sh, lo)
  {
    hide Acquire, AcquiresRs, AcquiresRt;
  }

  lemma ResolvesPatched(isa: Isa, sh: Shared, sh': Shared, lo: Locals, lo': Locals, p: Board)
    requires SameInputs(sh, sh', lo, lo', p) && !Acquiring(lo.idTask.instr)
    ensures SameDecision(isa, sh, sh', lo, lo', p)
  {
    hide Acquire, Resolve, AcquiresRs, AcquiresRt, Patch, Advance;
    var i := lo.idTask.instr;
    ResolvePatched(sh.board, p, sh.regs, i.rs, lo.rsSeen);
    ResolvePatched(sh.board, p, sh.regs, i.rt, lo.rtSeen);
  }

  lemma ResolvePatched(b: Board, p: Board, regs: RegFile, r: Reg, seen: Option<Word>)
    ensures Resolve(Patch(b, p), regs, r, seen) == Resolve(b, regs, r, seen)
  {
  }

  lemma ValuePatched(b: Board, p: Board, writes: bool, d: Reg, v: Word)
    ensures ValueAt(Patch(b, p), writes, d, v) == Patch(b, ValueAt(p, writes, d, v))
  {
    SameBoard(ValueAt(Patch(b, p), writes, d, v), Patch(b, ValueAt(p, writes, d, v)));
  }

  lemma FlagPatched(b: Board, p: Board, writes: bool, d: Reg, f: bool)
    ensures FlagAt(Patch(b, p), writes, d, f) == Patch(b, FlagAt(p, writes, d, f))
  {
    SameBoard(FlagAt(Patch(b, p), writes, d, f), Patch(b, FlagAt(p, writes, d, f)));
  }

  /** The accesses to the two fields do not disturb each other. */
  lemma FieldsCommute(p: Board, w: bool, d: Reg, v: Word, w': bool, d': Reg, f: bool)
    ensures FlagAt(ValueAt(p, w, d, v), w', d', f) == ValueAt(FlagAt(p, w', d', f), w, d, v)
  {
    SameBoard(FlagAt(ValueAt(p, w, d, v), w', d', f), ValueAt(FlagAt(p, w', d', f), w, d, v));
  }

  /** The last write counts; writes of different registers commute. */
  lemma ValuesCommute(p: Board, w: bool, d: Reg, v: Word, w': bool, d': Reg, v': Word)
    ensures ValueAt(ValueAt(p, w, d, v), w', d', v') ==
            if w && w' && d == d' then ValueAt(p, w', d', v') else ValueAt(ValueAt(p, w', d', v'), w, d, v)
  {
    SameBoard(ValueAt(ValueAt(p, w, d, v), w', d', v'),
              if w && w' && d == d' then ValueAt(p, w', d', v') else ValueAt(ValueAt(p, w', d', v'), w, d, v));
  }

  /** The two fields after a reset of d. */
  function Without(p: Board, reset: bool, d: Reg): Board {
    FlagAt(ValueAt(p, reset, d, 0), reset, d, false)
  }

  lemma ReservePatched(b: Board, p: Board, t: Task)
    ensures var resets := Exports(t.instr) && !Acquires(t.instr, Dest(t.instr));
      ReserveDest(Patch(b, p), t) == Patch(ReserveDest(b, t), Without(p, resets, Dest(t.instr)))
  {
    hide Dest, Exports, Acquires;
    var d := Dest(t.instr);
    var resets := Exports(t.instr) && !Acquires(t.instr, d);
    var q, q' := ReserveDest(Patch(b, p), t), Patch(ReserveDest(b, t), Without(p, resets, d));
    forall i: Reg ensures q'[i] == q[i] {}
    SameBoard(q, q');
  }

  // ---------------------------------------------------------------- ID in a changed state

  /** m' is m but for what ID does not look at, and for the two fields. */
  predicate SameForID(m: Machine, m': Machine) {
    && m'.sh == m.sh.(board := Patch(m.sh.board, m'.sh.board), mem := m'.sh.mem,
                      ifId := m'.sh.ifId, exDm := m'.sh.exDm, dmWb := m'.sh.dmWb)
    && m'.lo == m.lo.(ifTask := m'.lo.ifTask, exTask := m'.lo.exTask, exOut := m'.lo.exOut,
                      dmTask := m'.lo.dmTask, wbTask := m'.lo.wbTask)
    && m'.hist == m.hist && m'.allocs == m.allocs
  }

  /** m' with what ID has done to m, and board b. */
  function Done(m': Machine, m1: Machine, b: Board): Machine {
    m'.(sh := m'.sh.(pc := m1.sh.pc, pcJump := m1.sh.pcJump, pcFlush := m1.sh.pcFlush, ifStall := m1.sh.ifStall,
                     idEx := m1.sh.idEx, board := b),
        lo := m'.lo.(idTask := m1.lo.idTask, idStall := m1.lo.idStall),
        hist := m1.hist)
  }

  lemma PassFrame(isa: Isa, m: Machine, m': Machine, d: Issue, d': Issue)
    requires SameForID(m, m') && m.sh.idEx.None? && d' == d.(board := Patch(d.board, m'.sh.board))
    ensures var m1 := PassID(isa, m, d);
      PassID(isa, m', d') == Done(m', m1, Patch(m1.sh.board, Without(m'.sh.board, Resets(m1), ResetOf(m1))))
  {
    hide Patch, Without, ReserveDest, Dest, Exports, Acquires;
    TransferSpec(isa, m.sh, d.jump);
    TransferSpec(isa, m'.sh, d.jump);
    SameTransfer(isa, m.sh, m'.sh, d.jump);
    hide Transfer;
    ReservePatched(d.board, m'.sh.board, d.task.(ord := m.hist.issued));
  }

  lemma SameTransfer(isa: Isa, sh: Shared, sh': Shared, jump: Option<Word>)
    requires sh'.pcJump == sh.pcJump
    ensures Transfer(isa, sh', jump).pcJump == Transfer(isa, sh, jump).pcJump
  {
  }

  lemma IDFrame(isa: Isa, m: Machine, m': Machine)
    requires SameForID(m, m') && m.sh.idEx.None?
    ensures var m1 := SecondID(isa, m);
      SecondID(isa, m') == Done(m', m1, Patch(m1.sh.board, Without(m'.sh.board, Resets(m1), ResetOf(m1))))
  {
    hide Patch, Decide, PassID, Exports, Acquires, Dest;
    DecidePatched(isa, m.sh, m'.sh, m.lo, m'.lo, m'.sh.board);
    var d := Decide(isa, m.sh, m.lo);
    if !d.wait { PassFrame(isa, m, m', d, Decide(isa, m'.sh, m'.lo)); }
  }

  lemma PatchedBySelf(b: Board)
    ensures Patch(b, b) == b
  {
    SameBoard(b, Patch(b, b));
  }

  /** In particular the two fields change only where ID resets a register. */
  lemma IDFields(isa: Isa, m: Machine)
    requires m.sh.idEx.None?
    ensures var m1 := SecondID(isa, m);
      && m1 == Done(m, m1, m1.sh.board)
      && m1.sh.board == Patch(m1.sh.board, Without(m.sh.board, Resets(m1), ResetOf(m1)))
  {
    hide Patch, SecondID, Resets, Without;
    PatchedBySelf(m.sh.board);
    IDFrame(isa, m, m);
  }

  /** ID's first step. */
  lemma ResetFrame(isa: Isa, m: Machine, m': Machine)
    requires SameForID(m, m') && m.sh.idEx.None?
    ensures var m1 := SecondID(isa, m);
      ResetValue(isa, m') == Done(m', m1, Patch(m1.sh.board, ValueAt(m'.sh.board, Resets(m1), ResetOf(m1), 0)))
  {
    hide SecondID, Dest, Exports, Acquires;
    IDFrame(isa, m, m');
    var m1 := SecondID(isa, m);
    SameBoard(ResetValue(isa, m').sh.board, Patch(m1.sh.board, ValueAt(m'.sh.board, Resets(m1), ResetOf(m1), 0)));
  }

  /** ID's first step, and what it leaves of the accesses. */
  lemma ResetOn(isa: Isa, m: Machine)
    requires m.sh.idEx.None?
    ensures var m1 := SecondID(isa, m);
      && ResetValue(isa, m) == Done(m, m1, Patch(m1.sh.board, ValueAt(m.sh.board, Resets(m1), ResetOf(m1), 0)))
      && Resets(ResetValue(isa, m)) == Resets(m1) && ResetOf(ResetValue(isa, m)) == ResetOf(m1)
      && SameRegister(ResetValue(isa, m)) == SameRegister(m1)
      && m1.sh.board == Patch(m1.sh.board, Without(m.sh.board, Resets(m1), ResetOf(m1)))
  {
    hide SecondID, Dest, Exports, Acquires, Patch, ValueAt, FlagAt;
    PatchedBySelf(m.sh.board);
    ResetFrame(isa, m, m);
    IDFields(isa, m);
  }

  // ---------------------------------------------------------------- how the steps commute

  predicate AtID(m: Machine) { m.clock.half.Second? && !m.clock.doneID && m.sh.idEx.None? }

  lemma ExecutedSame(t: Task, out: Word)
    ensures Executed(t, out).instr == t.instr && Executed(t, out).fetched == t.fetched
  {
  }

  /** The two steps of EX make the whole one. */
  lemma BothOfEX(isa: Isa, m: Machine)
    requires m.clock.half.Second?
    ensures RaiseFlag(WriteValue(m)) == Fire(isa, m, EX)
  {
    hide Executed, Dest, Forwards;
    ExecutedSame(m.lo.exTask, m.lo.exOut);
    SameBoard(RaiseFlag(WriteValue(m)).sh.board, Fire(isa, m, EX).sh.board);
  }

  /** And those of ID. */
  lemma BothOfID(isa: Isa, m: Machine)
    requires AtID(m)
    ensures ClearFlag(ResetValue(isa, m)) == Fire(isa, m, ID)
  {
    hide SecondID, Exports, Acquires, Dest, ValueAt, FlagAt, Patch, ResetValue, Resets, ResetOf;
    ResetOn(isa, m);
    var m1 := SecondID(isa, m);
    IDFields(isa, m);
    FlagPatched(m1.sh.board, ValueAt(m.sh.board, Resets(m1), ResetOf(m1), 0), Resets(m1), ResetOf(m1), false);
  }

  lemma PushedIs(isa: Isa, m: Machine)
    requires m.sh.idEx.None?
    ensures var m1 := SecondID(isa, m);
      m1.sh.idEx == if m1.lo.idStall then None else Some(m1.lo.idTask)
  {
    hide Decide, ReserveDest;
    TransferSpec(isa, m.sh, Decide(isa, m.sh, m.lo).jump);
    hide Transfer;
  }

  /** What EX publishes is what ID resets. */
  lemma SameRegisterIs(isa: Isa, m: Machine)
    requires m.sh.idEx.None?
    ensures var m1 := SecondID(isa, m);
      SameRegister(m1) == (Resets(m1) && Forwards(m.lo.exTask.instr) && Dest(m.lo.exTask.instr) == ResetOf(m1))
  {
    hide SecondID, Exports, Acquires, Dest;
    PushedIs(isa, m);
    IDFields(isa, m);
  }

  /** The value of EX stays although ID has reset the flags. */
  function KeepValue(m: Machine): Machine { if SameRegister(m) then WriteValue(m) else m }

  lemma ValueForID(m: Machine)
    ensures SameForID(m, WriteValue(m))
  {
    hide Dest;
    SameBoard(WriteValue(m).sh.board, Patch(m.sh.board, WriteValue(m).sh.board));
  }

  lemma FlagForID(m: Machine)
    ensures SameForID(m, RaiseFlag(m)) && RaiseFlag(m).sh.idEx == m.sh.idEx
    ensures RaiseFlag(m).lo.exTask.instr == m.lo.exTask.instr && RaiseFlag(m).lo.exOut == m.lo.exOut
  {
    hide Dest, Executed;
    ExecutedSame(m.lo.exTask, m.lo.exOut);
    SameBoard(RaiseFlag(m).sh.board, Patch(m.sh.board, RaiseFlag(m).sh.board));
  }

  lemma FlagAndReset(isa: Isa, m: Machine)
    requires AtID(m)
    ensures RaiseFlag(ResetValue(isa, m)) == ResetValue(isa, RaiseFlag(m))
  {
    hide Dest, Forwards, SecondID, Exports, Acquires, Patch, Executed, ValueAt, FlagAt, ResetValue, Resets, ResetOf;
    var m1, x := SecondID(isa, m), m.lo.exTask.instr;
    ExecutedSame(m.lo.exTask, m.lo.exOut);
    ResetOn(isa, m);
    FlagForID(m);
    ResetFrame(isa, m, RaiseFlag(m));
    FlagPatched(m1.sh.board, ValueAt(m.sh.board, Resets(m1), ResetOf(m1), 0), Forwards(x), Dest(x), true);
    FieldsCommute(m.sh.board, Resets(m1), ResetOf(m1), 0, Forwards(x), Dest(x), true);
  }

  /** If EX writes its value after ID, it is as if EX had stepped before, but the value stays. */
  lemma ValueAfterReset(isa: Isa, m: Machine)
    requires AtID(m)
    ensures WriteValue(ResetValue(isa, m)) == KeepValue(ResetValue(isa, WriteValue(m)))
  {
    hide Dest, Forwards, SecondID, Exports, Acquires, Patch, ValueAt, FlagAt, ResetValue, Resets, ResetOf, SameRegister;
    var m1, x := SecondID(isa, m), m.lo.exTask.instr;
    ResetOn(isa, m);
    ValueForID(m);
    ResetFrame(isa, m, WriteValue(m));
    SameRegisterIs(isa, m);
    IDFields(isa, m);
    SameRegisterAfter(m, WriteValue(m), m1, ResetValue(isa, WriteValue(m)).sh.board);
    var b, d, r := m.sh.board, ResetOf(m1), Resets(m1);
    ValuesCommute(b, Forwards(x), Dest(x), m.lo.exOut, r, d, 0);
    ValuePatched(m1.sh.board, ValueAt(b, r, d, 0), Forwards(x), Dest(x), m.lo.exOut);
  }

  lemma SameRegisterAfter(m: Machine, m': Machine, m1: Machine, b: Board)
    requires m'.lo.exTask.instr == m.lo.exTask.instr && m1.lo.exTask == m.lo.exTask
    ensures SameRegister(Done(m', m1, b)) == SameRegister(m1)
  {
    hide Dest, Forwards, Exports, Acquires;
  }

  lemma FlagAndKeep(m: Machine)
    ensures RaiseFlag(KeepValue(m)) == KeepValue(RaiseFlag(m))
  {
    hide Dest, Forwards, Exports, Acquires, Executed, ValueAt, FlagAt;
    var x := m.lo.exTask.instr;
    ExecutedSame(m.lo.exTask, m.lo.exOut);
    FieldsCommute(m.sh.board, Forwards(x), Dest(x), m.lo.exOut, Forwards(x), Dest(x), true);
  }

  /** So when EX finishes, ID has met it in one of two ways. */
  lemma FlagAfterBoth(isa: Isa, m: Machine)
    requires AtID(m)
    ensures RaiseFlag(ResetValue(isa, WriteValue(m))) == ResetValue(isa, Fire(isa, m, EX))
    ensures RaiseFlag(WriteValue(ResetValue(isa, m))) == KeepValue(ResetValue(isa, Fire(isa, m, EX)))
  {
    hide RaiseFlag, ResetValue, KeepValue, Fire;
    ValueAfterReset(isa, m);
    ValueForID(m);
    FlagAndReset(isa, WriteValue(m));
    FlagAndKeep(ResetValue(isa, WriteValue(m)));
    BothOfEX(isa, m);
  }

  lemma ClearAndValue(m: Machine)
    ensures ClearFlag(WriteValue(m)) == WriteValue(ClearFlag(m))
    ensures ClearFlag(KeepValue(m)) == KeepValue(ClearFlag(m))
  {
    hide Dest, Forwards, Exports, Acquires, ValueAt, FlagAt;
    var x := m.lo.exTask.instr;
    FieldsCommute(m.sh.board, Forwards(x), Dest(x), m.lo.exOut, Resets(m), ResetOf(m), false);
  }

  /** ID clears the flag of a register in which EX has left its value. */
  lemma ClearAfterKeep(isa: Isa, m: Machine)
    requires AtID(m) && m.clock.doneEX
    ensures ClearFlag(KeepValue(ResetValue(isa, m))) == Overlap(Fire(isa, m, ID))
  {
    hide ResetValue, ClearFlag, KeepValue, SecondID;
    ClearAndValue(ResetValue(isa, m));
    BothOfID(isa, m);
    KeepIsOverlap(isa, m);
  }

  lemma KeepIsOverlap(isa: Isa, m: Machine)
    requires AtID(m) && m.clock.doneEX
    ensures KeepValue(Fire(isa, m, ID)) == Overlap(Fire(isa, m, ID))
  {
    hide Dest, Forwards, SecondID, Exports, Acquires, Resets, ResetOf;
    IDFields(isa, m);
    SameRegisterIs(isa, m);
    var m1 := SecondID(isa, m);
    if SameRegister(m1) { assert !m1.sh.board[ResetOf(m1)].idAvailable; }
  }

  /** ID finishes after EX has written its value: before ID, and the value is lost; ... */
  lemma ClearAfterValue(isa: Isa, m: Machine)
    requires AtID(m)
    ensures var m' := Fire(isa, m, ID);
      ClearFlag(ResetValue(isa, WriteValue(m))) == if SameRegister(m') then m' else WriteValue(m')
  {
    hide Dest, Forwards, SecondID, Exports, Acquires, Patch, ClearFlag, ResetValue, Resets, ResetOf, ValueAt, FlagAt,
         SameRegister;
    ValueForID(m);
    BothOfID(isa, WriteValue(m));
    IDFrame(isa, m, WriteValue(m));
    IDFields(isa, m);
    SameRegisterIs(isa, m);
    var m1, x, b := SecondID(isa, m), m.lo.exTask.instr, m.sh.board;
    SameRegisterAfter(m, m, m1, m1.sh.board);
    ValuesCommute(b, Forwards(x), Dest(x), m.lo.exOut, Resets(m1), ResetOf(m1), 0);
    FieldsCommute(ValueAt(b, Resets(m1), ResetOf(m1), 0), Forwards(x), Dest(x), m.lo.exOut,
                  Resets(m1), ResetOf(m1), false);
    ValuePatched(m1.sh.board, Without(b, Resets(m1), ResetOf(m1)), Forwards(x), Dest(x), m.lo.exOut);
    assert SameRegister(Fire(isa, m, ID)) == SameRegister(m1) by { TickSame(m1, ID); }
  }

  lemma TickSame(m: Machine, s: Stage)
    ensures SameRegister(Tick(m, s)) == SameRegister(m)
  {
  }

  /** ... or after ID. */
  lemma ClearBeforeFlag(isa: Isa, m: Machine)
    requires AtID(m)
    ensures ClearFlag(WriteValue(ResetValue(isa, m))) == WriteValue(Fire(isa, m, ID))
  {
    hide ResetValue, ClearFlag, WriteValue, SecondID;
    ClearAndValue(ResetValue(isa, m));
    BothOfID(isa, m);
  }

  /** EX finishes after its value has been lost. */
  lemma FlagAfterLoss(isa: Isa, m: Machine)
    requires m.clock.half.Second? && m.clock.doneID && SameRegister(m)
    requires m.sh.board[Dest(m.lo.exTask.instr)].value == 0
    ensures RaiseFlag(m) == Overlap(Fire(isa, m, EX))
  {
    hide Dest, Forwards, Exports, Acquires, Executed;
    ExecutedSame(m.lo.exTask, m.lo.exOut);
    SameBoard(RaiseFlag(m).sh.board, Overlap(Fire(isa, m, EX)).sh.board);
  }

  // ---------------------------------------------------------------- the other stages

  predicate Other(s: Stage) { s.IF? || s.DM? || s.WB? }

  /** What they do to the board: DM takes an `IDAvailable` away. */
  function Withdrawn(m: Machine, s: Stage, b: Board): Board {
    FlagAt(b, s.DM? && Forwards(m.lo.dmTask.instr), Dest(m.lo.dmTask.instr), false)
  }

  lemma OthersFrame(isa: Isa, m: Machine, s: Stage, b: Board)
    requires m.clock.half.Second? && Other(s) && CanFire(false, m, s)
    ensures var m' := m.(sh := m.sh.(board := b)); var n := Fire(isa, m, s);
      CanFire(false, m', s) && Fire(isa, m', s) == n.(sh := n.sh.(board := Withdrawn(m, s, b)))
  {
    hide Dest, AddressOf, Forwards;
  }

  lemma OthersAndValue(isa: Isa, m: Machine, s: Stage)
    requires m.clock.half.Second? && Other(s) && CanFire(false, m, s)
    ensures CanFire(false, WriteValue(m), s)
    ensures Fire(isa, WriteValue(m), s) == WriteValue(Fire(isa, m, s))
  {
    hide Dest, Forwards, Fire, ValueAt, FlagAt;
    var x, y := m.lo.exTask.instr, m.lo.dmTask.instr;
    OthersFrame(isa, m, s, m.sh.board);
    OthersFrame(isa, m, s, WriteValue(m).sh.board);
    OthersKeepEX(isa, m, s);
    FieldsCommute(m.sh.board, Forwards(x), Dest(x), m.lo.exOut, s.DM? && Forwards(y), Dest(y), false);
  }

  lemma OthersKeepEX(isa: Isa, m: Machine, s: Stage)
    requires m.clock.half.Second? && Other(s) && CanFire(false, m, s)
    ensures var n := Fire(isa, m, s);
      && n.lo.exTask == m.lo.exTask && n.lo.exOut == m.lo.exOut && n.clock == m.clock.Mark(s)
      && n.sh.idEx == m.sh.idEx && SameRegister(n) == SameRegister(m)
  {
    hide Dest, Forwards, AddressOf, Exports, Acquires;
  }

  lemma OthersAndKeep(isa: Isa, m: Machine, s: Stage)
    requires m.clock.half.Second? && Other(s) && CanFire(false, m, s)
    ensures CanFire(false, KeepValue(m), s)
    ensures Fire(isa, KeepValue(m), s) == KeepValue(Fire(isa, m, s))
  {
    hide Fire, WriteValue, SameRegister;
    OthersKeepEX(isa, m, s);
    OthersAndValue(isa, m, s);
  }

  lemma OthersForID(isa: Isa, m: Machine, s: Stage)
    requires m.clock.half.Second? && Other(s) && CanFire(false, m, s)
    ensures SameForID(m, Fire(isa, m, s))
  {
    hide Dest, AddressOf, Forwards;
    OthersFrame(isa, m, s, m.sh.board);
    SameBoard(Fire(isa, m, s).sh.board, Patch(m.sh.board, Fire(isa, m, s).sh.board));
  }

  /** They do not touch what ID changes, but for the board. */
  lemma OthersAndDone(isa: Isa, m: Machine, m1: Machine, s: Stage, b: Board)
    requires m.clock.half.Second? && Other(s) && CanFire(false, m, s)
    ensures CanFire(false, Done(m, m1, b), s)
    ensures Fire(isa, Done(m, m1, b), s) == Done(Fire(isa, m, s), m1, Withdrawn(m, s, b))
  {
    hide Dest, Forwards, AddressOf;
  }

  lemma OthersAndReset(isa: Isa, m: Machine, s: Stage)
    requires AtID(m) && Other(s) && CanFire(false, m, s)
    ensures CanFire(false, ResetValue(isa, m), s)
    ensures Fire(isa, ResetValue(isa, m), s) == ResetValue(isa, Fire(isa, m, s))
  {
    hide SecondID, Dest, Exports, Acquires, Forwards, Patch, Fire, ResetValue, Resets, ResetOf, ValueAt, FlagAt, Done;
    ResetOn(isa, m);
    OthersForID(isa, m, s);
    ResetFrame(isa, m, Fire(isa, m, s));
    var m1, y := SecondID(isa, m), m.lo.dmTask.instr;
    var p := ValueAt(m.sh.board, Resets(m1), ResetOf(m1), 0);
    OthersAndDone(isa, m, m1, s, Patch(m1.sh.board, p));
    OthersFrame(isa, m, s, m.sh.board);
    FlagPatched(m1.sh.board, p, s.DM? && Forwards(y), Dest(y), false);
    FieldsCommute(m.sh.board, Resets(m1), ResetOf(m1), 0, s.DM? && Forwards(y), Dest(y), false);
  }
}
