/** The shared `Context`, the five engines and their stage lambdas, as they update it in place.
    Each method is proved to do the step of `Pipeline` that it stands for. */
module PipelineEngines {
  import opened Basics
  import opened Instructions
  import opened Reference
  import opened Pipeline
  import opened SequentialRun
  import opened PipelineInvariant
  import opened PipelineSteps
  import opened PipelineDecide
  import opened PipelineSecondID
  import opened PipelineTheorems
  import opened Turns
  import opened StageOrder

  class Context {
    const isa: Isa

    // Context
    var pc: Word
    var pcJump: bool
    var pcFlush: int
    var ifStall: bool
    const registers: array<Word>
    const reserves: array<Reserve>
    var mem: Mem
    var ifId: Option<Task>
    var idEx: Option<Task>
    var exDm: Option<Task>
    var dmWb: Option<Task>

    // the local variables of the engines
    var ifTask: Option<Task>
    var idTask: Task
    var idStall: bool
    var rsSeen: Option<Word>
    var rtSeen: Option<Word>
    var exTask: Task
    var exOut: Word
    var dmTask: Task
    var wbTask: Task

    // tasks allocated so far
    var allocs: nat

    // the barriers, and what has happened so far
    var clock: Clock
    var hist: History

    ghost predicate Valid()
      reads this
    {
      registers.Length == REGISTER_COUNT && reserves.Length == REGISTER_COUNT
      && (registers as object) != reserves
    }

    ghost function Board(): (b: Pipeline.Board)
      reads this, reserves
      requires Valid()
    {
      reserves[..]
    }

    ghost function SharedView(): Shared
      reads this, registers, reserves
      requires Valid()
    {
      Shared(pc, pcJump, pcFlush, ifStall, registers[..], mem, reserves[..], ifId, idEx, exDm, dmWb)
    }

    ghost function LocalsView(): Locals
      reads this
    {
      Locals(ifTask, idTask, idStall, rsSeen, rtSeen, exTask, exOut, dmTask, wbTask)
    }

    /** The state of the machine that this object is in. */
    ghost function View(): Machine
      reads this, registers, reserves
      requires Valid()
    {
      Machine(SharedView(), LocalsView(), clock, allocs, hist)
    }

    constructor (isa: Isa, pc: Word, regs: array<Word>, mem: Mem)
      requires regs.Length == REGISTER_COUNT
      ensures Valid() && fresh(registers) && fresh(reserves) && this.isa == isa
      ensures View() == Init(pc, regs[..], mem)
    {
      this.isa, this.pc, this.mem := isa, pc, mem;
      pcJump, pcFlush, ifStall := false, 0, false;
      ifId, idEx, exDm, dmWb := None, None, None, None;
      ifTask, idTask, idStall, rsSeen, rtSeen := None, BUBBLE, false, None, None;
      exTask, exOut, dmTask, wbTask := BUBBLE, 0, BUBBLE, BUBBLE;
      allocs := 0;
      clock, hist := FIRST_HALF, History(Start, 0, -1, 0, 0, 0, 0, [], 0, None);
      registers := new Word[REGISTER_COUNT];
      reserves := new Reserve[REGISTER_COUNT](_ => FREE);
      new;
      var i := 0;
      while i < REGISTER_COUNT
        modifies registers
        invariant 0 <= i <= REGISTER_COUNT
        invariant registers[..i] == regs[..i]
      {
        registers[i] := regs[i];
        i := i + 1;
      }
      assert registers[..] == regs[..];
      assert reserves[..] == FreeBoard();
    }

    // -------------------------------------------------------------- RegReserve, pushTask, SetPC

    method Reset(r: Reg, h: Option<nat>)
      requires Valid()
      modifies reserves
      ensures Board() == ResetTo(old(Board()), r, h)
    {
      reserves[r] := FREE.(holder := if r == 0 then reserves[r].holder else h);
    }

    method Delegate(r: Reg, h: Option<nat>)
      requires Valid()
      modifies reserves
      ensures Board() == DelegateTo(old(Board()), r, h)
    {
      if r != 0 {
        reserves[r] := reserves[r].(holder := h);
      }
    }

    method SetPC(target: Word) returns (ok: bool)
      requires Valid()
      modifies this`pc, this`pcJump
      ensures ok == isa.settable(target)
      ensures pc == (if ok then target else old(pc)) && pcJump == (ok || old(pcJump))
    {
      ok := isa.settable(target);
      if ok {
        pc, pcJump := target, true;
      }
    }

    // -------------------------------------------------------------- IF

    /** After the falling edge. */
    method FinishFetch()
      requires Valid()
      modifies this`pc, this`pcJump
      ensures SharedView() == UpdatePC(old(SharedView()), ifTask.Some?)
    {
      if ifTask.Some? {
        if !(pcJump || pcFlush > 0 || ifStall) {
          pc := Advance(pc);
        } else {
          pcJump := false;
        }
      }
    }

    /** `halt_counter` counts a HALT that is neither stalled nor flushed. */
    method CountHaltTask()
      requires Valid()
      modifies this`hist
      ensures View() == CountHalt(old(View()))
    {
      if ifTask.Some? && ifTask.value.instr.kind.Halt? && !(ifStall || pcFlush > 0) {
        hist := hist.(halts := hist.halts + 1);
      }
    }

    method FinishCycle()
      requires Valid()
      modifies this`pc, this`pcJump, this`hist
      ensures var m := old(View()); View() == CountHalt(m).(sh := UpdatePC(m.sh, m.lo.ifTask.Some?))
    {
      hide UpdatePC, CountHalt;
      CountFrame(View());
      CountHaltTask();
      FinishFetch();
    }

    method AllocateTask()
      requires Valid()
      modifies this`ifTask, this`allocs
      ensures ifTask == Some(Get(old(allocs), isa.fetch(pc), pc)) && allocs == old(allocs) + 1
      ensures LocalsView() == old(LocalsView()).(ifTask := ifTask)
      ensures SharedView() == old(SharedView())
    {
      ifTask := Some(Get(allocs, isa.fetch(pc), pc));
      allocs := allocs + 1;
    }

    method FetchTask()
      requires Valid()
      modifies this`pcFlush, this`ifTask, this`allocs
      ensures View() == Fetch(isa, old(View()))
    {
      hide Get;
      ghost var m := View();
      pcFlush := pcFlush - 1;
      assert SharedView() == m.sh.(pcFlush := m.sh.pcFlush - 1);
      if !ifStall || ifTask.None? {
        AllocateTask();
      }
    }

    method FirstHalfIF()
      requires Valid()
      modifies this`pc, this`pcJump, this`pcFlush, this`ifTask, this`allocs, this`clock, this`hist
      ensures Valid() && View() == Tick(FirstIF(isa, old(View())), IF)
    {
      hide UpdatePC, Fetch, CountHalt;
      FinishCycle();
      FetchTask();
      hide FirstIF;
      clock := clock.Mark(IF);
    }

    method SecondHalfIF()
      requires Valid() && ifTask.Some?
      modifies this`ifId, this`clock
      ensures Valid() && View() == Tick(SecondIF(old(View())), IF)
    {
      if ifId.None? {
        ifId := ifTask;
      }
      clock := clock.Mark(IF);
    }

    // -------------------------------------------------------------- ID

    method CaptureOperand(r: Reg) returns (seen: Option<Word>)
      requires Valid()
      modifies reserves
      ensures (Board(), seen) == Capture(old(Board()), r)
    {
      var e := reserves[r];
      seen := if e.holder.Some? && e.idAvailable && !e.exForward then Some(e.value) else None;
      reserves[r] := e.(idAvailable := false);
    }

    /** The top of the ID engine's loop. */
    method PickTask()
      requires Valid()
      modifies this`pcFlush, this`ifId, this`idTask
      ensures View() == PickID(old(View()))
    {
      if !idStall {
        if ifId.None? {
          idTask := BUBBLE;
        } else {
          idTask := if pcFlush > 0 then BUBBLE else ifId.value;
          ifId := None;
          pcFlush := pcFlush - 1;
        }
      }
    }

    /** The part of the ID lambdas before the fence. */
    method CaptureOperands()
      requires Valid()
      modifies this`rsSeen, this`rtSeen, reserves
      ensures View() == CaptureID(old(View()))
    {
      var i := idTask.instr;
      var seen1, seen2 := None, None;
      if ResolvesRs(i) {
        seen1 := CaptureOperand(i.rs);
      }
      ghost var b1 := Board();
      assert (b1, seen1) == if ResolvesRs(i) then Capture(old(Board()), i.rs) else (old(Board()), None);
      if ResolvesRt(i) {
        seen2 := CaptureOperand(i.rt);
      }
      assert (Board(), seen2) == if ResolvesRt(i) then Capture(b1, i.rt) else (b1, None);
      rsSeen, rtSeen := seen1, seen2;
      hide Capture;
    }

    method FirstHalfID()
      requires Valid()
      modifies this`pcFlush, this`ifId, this`idTask, this`rsSeen, this`rtSeen, this`clock, reserves
      ensures Valid() && View() == Tick(FirstID(old(View())), ID)
    {
      hide PickID, CaptureID;
      PickTask();
      CaptureOperands();
      assert View() == FirstID(old(View()));
      hide FirstID;
      clock := clock.Mark(ID);
    }

    method AcquireOperand(r: Reg) returns (op: Operand)
      requires Valid()
      modifies reserves
      ensures (Board(), op) == Acquire(old(Board()), registers[..], r)
    {
      var e := reserves[r];
      if e.holder.None? {
        op := Loaded(registers[r]);
      } else if e.exAvailable {
        reserves[r] := e.(exForward := true, exAvailable := false);
        op := Forwarded;
      } else {
        op := Missing;
      }
    }

    /** The ID lambdas of the classes that acquire their operands. */
    method LoadRegs(t: Task) returns (t': Task, wait: bool)
      requires Valid() && t == idTask
      requires Acquiring(t.instr)
      modifies reserves
      ensures Issue(t', Board(), wait, None) == Decide(isa, old(SharedView()), LocalsView())
    {
      t' := t;
      var rt, rs := Forwarded, Forwarded;
      if AcquiresRt(t.instr) {
        rt := AcquireOperand(t.instr.rt);
        if rt.Loaded? { t' := t'.(rtValue := Some(rt.value)); }
      }
      if AcquiresRs(t.instr) {
        rs := AcquireOperand(t.instr.rs);
        if rs.Loaded? { t' := t'.(rsValue := Some(rs.value)); }
      }
      wait := rt.Missing? || rs.Missing?;
    }

    method ResolveOperand(r: Reg, seen: Option<Word>) returns (v: Option<Word>)
      requires Valid()
      ensures v == Resolve(Board(), registers[..], r, seen)
    {
      if reserves[r].holder.None? { v := Some(registers[r]); } else { v := seen; }
    }

    /** The ID lambdas of the classes that transfer control. */
    method ResolveTransfer(t: Task) returns (t': Task, wait: bool, jump: Option<Word>)
      requires Valid() && t == idTask
      requires Transfers(t.instr)
      ensures Issue(t', Board(), wait, jump) == Decide(isa, SharedView(), LocalsView())
    {
      var i := t.instr;
      t', wait, jump := t, false, None;
      var rs, rt := Some(0), Some(0);
      if ResolvesRs(i) { rs := ResolveOperand(i.rs, rsSeen); }
      if ResolvesRt(i) { rt := ResolveOperand(i.rt, rtSeen); }
      if rs.None? || rt.None? {
        wait := true;
      } else if i.kind.BranchTwo? || i.kind.BranchOne? {
        if isa.taken(i.bits, rs.value, rt.value) { jump := Some(isa.target(i.bits, t.pc)); }
      } else if i.kind.JumpReg? {
        jump := rs;
      } else {
        if i.kind.JumpLink? { t' := t.(rdValue := Some(Advance(t.pc))); }
        jump := Some(isa.target(i.bits, t.pc));
      }
    }

    /** Any ID lambda, up to the push. */
    method DecideTask() returns (t: Task, wait: bool, jump: Option<Word>)
      requires Valid()
      modifies reserves
      ensures Issue(t, Board(), wait, jump) == Decide(isa, old(SharedView()), LocalsView())
    {
      t, wait, jump := idTask, false, None;
      match idTask.instr.kind {
        case RAlu | Shift | IAlu | Load | Store => t, wait := LoadRegs(idTask);
        case BranchTwo | BranchOne | JumpReg | Jump | JumpLink => t, wait, jump := ResolveTransfer(idTask);
        case Lui | Nop | Halt =>
      }
    }

    method TransferControl(jump: Option<Word>)
      requires Valid()
      modifies this`pc, this`pcJump, this`pcFlush
      ensures SharedView() == Transfer(isa, old(SharedView()), jump)
    {
      if jump.Some? {
        pcFlush := 2;
        var ok := SetPC(jump.value);
      }
    }

    method ReserveDestination(t: Task)
      requires Valid()
      modifies reserves
      ensures Board() == ReserveDest(old(Board()), t)
    {
      if Exports(t.instr) {
        if Acquires(t.instr, Dest(t.instr)) {
          Delegate(Dest(t.instr), Some(t.id));
        } else {
          Reset(Dest(t.instr), Some(t.id));
        }
      }
    }

    method StallTask(t: Task, ghost d: Issue)
      requires Valid() && d == Issue(t, Board(), true, d.jump)
      modifies this`ifStall, this`idTask, this`idStall, this`hist
      ensures View() == StallID(old(View()), d)
    {
      ghost var m := View();
      idTask, idStall, ifStall := t, true, true;
      assert SharedView() == m.sh.(board := d.board, ifStall := true);
      assert LocalsView() == m.lo.(idTask := d.task, idStall := true);
      hist := hist.(streak := hist.streak + 1, waits := hist.waits + 1);
    }

    /** `pushTask` for the ID engine. */
    method PushIssued(t: Task)
      requires Valid()
      modifies this`ifStall, this`idEx, this`idTask, this`idStall
      ensures var sh := old(SharedView());
        SharedView() == sh.(idEx := PushTask(sh.idEx, t), ifStall := sh.idEx.Some?)
      ensures LocalsView() == old(LocalsView()).(idTask := t, idStall := old(idEx.Some?))
    {
      ghost var sh, lo := SharedView(), LocalsView();
      idTask, idStall, ifStall := t, idEx.Some?, idEx.Some?;
      if idEx.None? {
        idEx := Some(t);
      }
      assert LocalsView() == lo.(idTask := t, idStall := sh.idEx.Some?);
      assert SharedView() == sh.(idEx := PushTask(sh.idEx, t), ifStall := sh.idEx.Some?);
    }

    /** Push, then reserve the destination. */
    method PushReserving(t: Task)
      requires Valid()
      modifies this`ifStall, this`idEx, this`idTask, this`idStall, reserves
      ensures var sh := old(SharedView());
        SharedView() == sh.(idEx := PushTask(sh.idEx, t), ifStall := sh.idEx.Some?, board := ReserveDest(sh.board, t))
      ensures LocalsView() == old(LocalsView()).(idTask := t, idStall := old(idEx.Some?))
    {
      hide ReserveDest, PushTask;
      PushIssued(t);
      ReserveDestination(t);
    }

    method RecordIssue(t: Task, jump: Option<Word>)
      requires Valid()
      modifies this`hist
      ensures SharedView() == old(SharedView()) && LocalsView() == old(LocalsView())
      ensures var h := old(hist);
        hist == if t.fetched
                then h.(issued := h.issued + 1, topId := t.id, streak := 0,
                        fires := h.fires + if jump.Some? then 1 else 0)
                else h
    {
      if t.fetched {
        hist := hist.(issued := hist.issued + 1, topId := t.id, streak := 0,
                      fires := hist.fires + if jump.Some? then 1 else 0);
      }
    }

    method PassTask(task: Task, jump: Option<Word>, ghost d: Issue)
      requires Valid() && d == Issue(task, Board(), false, jump)
      modifies this`pc, this`pcJump, this`pcFlush, this`ifStall, this`idEx, this`idTask, this`idStall,
               this`hist, reserves
      ensures View() == PassID(isa, old(View()), d)
    {
      hide Transfer, ReserveDest, PushTask;
      ghost var m := View();
      var t := task.(ord := hist.issued);
      TransferControl(jump);
      TransferSpec(isa, m.sh, jump);
      PushReserving(t);
      RecordIssue(t, jump);
    }

    method SecondHalfID()
      requires Valid()
      modifies this`pc, this`pcJump, this`pcFlush, this`ifStall, this`idEx, this`idTask, this`idStall,
               this`clock, this`hist, reserves
      ensures Valid() && View() == Tick(SecondID(isa, old(View())), ID)
    {
      hide Decide, StallID, PassID;
      ghost var m := View();
      var t, wait, jump := DecideTask();
      ghost var d := Decide(isa, m.sh, m.lo);
      assert View() == m.(sh := m.sh.(board := d.board));
      if wait {
        StallTask(t, d);
      } else {
        PassTask(t, jump, d);
      }
      SameDecision(isa, m, d);
      hide SecondID;
      clock := clock.Mark(ID);
    }

    // -------------------------------------------------------------- EX

    /** After the falling edge. */
    method WithdrawForward()
      requires Valid()
      modifies reserves
      ensures var b := old(Board()); var d := Dest(exTask.instr);
        Board() == if Exports(exTask.instr) then b[d := b[d].(exAvailable := false)] else b
    {
      if Exports(exTask.instr) {
        var d := Dest(exTask.instr);
        reserves[d] := reserves[d].(exAvailable := false);
      }
    }

    method TakeForEX()
      requires Valid()
      modifies this`idEx, this`exTask
      ensures SharedView() == old(SharedView()).(idEx := None)
      ensures LocalsView() == old(LocalsView()).(exTask := old(idEx).GetOr(BUBBLE))
    {
      if idEx.Some? {
        exTask := idEx.value;
        idEx := None;
      } else {
        exTask := BUBBLE;
      }
    }

    method ReadOperand(r: Reg, loaded: Option<Word>) returns (v: Word)
      requires Valid()
      ensures v == if Board()[r].exForward then Board()[r].value else loaded.GetOr(isa.junk(exTask.ord))
    {
      v := loaded.GetOr(isa.junk(exTask.ord));
      if reserves[r].exForward {
        v := reserves[r].value;
      }
    }

    /** Any EX lambda, up to the fence. */
    method ComputeValue() returns (out: Word)
      requires Valid()
      ensures out == Compute(isa, exTask, Board())
    {
      hide AcquiresRs;
      var i := exTask.instr;
      match i.kind {
        case RAlu =>
          var rs := ReadOperand(i.rs, exTask.rsValue);
          var rt := ReadOperand(i.rt, exTask.rtValue);
          out := isa.alu(i.bits, rs, rt);
        case Shift =>
          var rt := ReadOperand(i.rt, exTask.rtValue);
          out := isa.alu(i.bits, 0, rt);
        case IAlu =>
          var rs := ReadOperand(i.rs, exTask.rsValue);
          out := isa.alu(i.bits, rs, 0);
        case Lui =>
          out := isa.alu(i.bits, 0, 0);
        case Load | Store =>
          var rs := ReadOperand(i.rs, exTask.rsValue);
          out := isa.address(i.bits, rs);
        case JumpLink =>
          out := exTask.rdValue.GetOr(isa.junk(exTask.ord));
        case _ =>
          out := 0;
      }
    }

    method ComputeTask()
      requires Valid()
      modifies this`exOut
      ensures exOut == Compute(isa, exTask, Board())
      ensures SharedView() == old(SharedView())
      ensures LocalsView() == old(LocalsView()).(exOut := exOut)
    {
      hide Compute;
      exOut := ComputeValue();
    }

    method AnnounceForward()
      requires Valid()
      modifies reserves
      ensures var b := old(Board()); var d := Dest(exTask.instr);
        Board() == if Forwards(exTask.instr) then b[d := b[d].(exAvailable := true)] else b
    {
      if Forwards(exTask.instr) {
        var d := Dest(exTask.instr);
        reserves[d] := reserves[d].(exAvailable := true);
      }
    }

    method FirstHalfEX()
      requires Valid()
      modifies this`idEx, this`exTask, this`exOut, this`clock, reserves
      ensures Valid() && View() == Tick(FirstEX(isa, old(View())), EX)
    {
      hide Compute, Dest, Forwards, Exports;
      WithdrawForward();
      TakeForEX();
      ComputeTask();
      AnnounceForward();
      clock := clock.Mark(EX);
    }

    /** The EX lambdas after the fence: set the field of the task, ... */
    method SetResult() returns (t: Task)
      ensures t == Executed(exTask, exOut)
    {
      t := exTask;
      match t.instr.kind {
        case RAlu | Shift => t := t.(rdValue := Some(exOut));
        case IAlu | Lui => t := t.(rtValue := Some(exOut));
        case Load | Store => t := t.(rsValue := Some(exOut));
        case _ =>
      }
    }

    /** ... and publish the value. */
    method PublishResult(t: Task)
      requires Valid()
      modifies reserves
      ensures var b := old(Board()); var d := Dest(t.instr);
        Board() == if Forwards(t.instr) then b[d := b[d].(value := exOut, idAvailable := true)] else b
    {
      if Forwards(t.instr) {
        var d := Dest(t.instr);
        reserves[d] := reserves[d].(value := exOut, idAvailable := true);
      }
    }

    method PushExecuted(t: Task)
      requires Valid()
      modifies this`exDm, this`exTask
      ensures SharedView() == old(SharedView()).(exDm := PushTask(old(exDm), t))
      ensures LocalsView() == old(LocalsView()).(exTask := t)
    {
      exTask := t;
      if exDm.None? {
        exDm := Some(t);
      }
    }

    method SecondHalfEX()
      requires Valid()
      modifies this`exDm, this`exTask, this`clock, reserves
      ensures Valid() && View() == Tick(SecondEX(old(View())), EX)
    {
      hide Executed, Dest, Forwards, PushTask;
      var t := SetResult();
      PublishResult(t);
      PushExecuted(t);
      clock := clock.Mark(EX);
    }

    // -------------------------------------------------------------- DM

    method TakeForDM()
      requires Valid()
      modifies this`exDm, this`dmTask
      ensures SharedView() == old(SharedView()).(exDm := None)
      ensures LocalsView() == old(LocalsView()).(dmTask := old(exDm).GetOr(BUBBLE))
    {
      if exDm.Some? {
        dmTask := exDm.value;
        exDm := None;
      } else {
        dmTask := BUBBLE;
      }
    }

    /** The DM lambda of a store; one that faults leaves memory alone. */
    method WriteMemory()
      requires Valid()
      modifies this`mem
      ensures var t := dmTask;
        mem == if t.instr.kind.Store?
               then isa.store(t.instr.bits, old(mem), AddressOf(isa, t),
                              t.rtValue.GetOr(isa.junk(t.ord))).GetOr(old(mem))
               else old(mem)
      ensures SharedView() == old(SharedView()).(mem := mem)
    {
      var t := dmTask;
      if t.instr.kind.Store? {
        var written := isa.store(t.instr.bits, mem, AddressOf(isa, t), t.rtValue.GetOr(isa.junk(t.ord)));
        if written.Some? {
          mem := written.value;
        }
      }
    }

    method FirstHalfDM()
      requires Valid()
      modifies this`exDm, this`dmTask, this`mem, this`clock
      ensures Valid() && View() == Tick(FirstDM(isa, old(View())), DM)
    {
      TakeForDM();
      WriteMemory();
      clock := clock.Mark(DM);
    }

    /** The DM lambdas after the fence. A load that faults leaves its rt field alone. */
    method ReadMemory() returns (t: Task)
      ensures var i := dmTask.instr;
        var v := if i.kind.Load? then isa.load(i.bits, mem, AddressOf(isa, dmTask)) else None;
        t == if v.Some? then dmTask.(rtValue := v) else dmTask
    {
      t := dmTask;
      if t.instr.kind.Load? {
        var v := isa.load(t.instr.bits, mem, AddressOf(isa, t));
        if v.Some? {
          t := t.(rtValue := v);
        }
      }
    }

    method WithdrawValue(i: Instr)
      requires Valid()
      modifies reserves
      ensures var b := old(Board());
        Board() == if Forwards(i) then b[Dest(i) := b[Dest(i)].(idAvailable := false)] else b
    {
      if Forwards(i) {
        reserves[Dest(i)] := reserves[Dest(i)].(idAvailable := false);
      }
    }

    method PushRead(t: Task)
      requires Valid()
      modifies this`dmWb, this`dmTask
      ensures SharedView() == old(SharedView()).(dmWb := PushTask(old(dmWb), t))
      ensures LocalsView() == old(LocalsView()).(dmTask := t)
    {
      dmTask := t;
      if dmWb.None? {
        dmWb := Some(t);
      }
    }

    method SecondHalfDM()
      requires Valid()
      modifies this`dmWb, this`dmTask, this`clock, reserves
      ensures Valid() && View() == Tick(SecondDM(isa, old(View())), DM)
    {
      hide Dest, Forwards, PushTask, AddressOf;
      var t := ReadMemory();
      WithdrawValue(t.instr);
      PushRead(t);
      clock := clock.Mark(DM);
    }

    // -------------------------------------------------------------- WB

    method TakeForWB()
      requires Valid()
      modifies this`dmWb, this`wbTask
      ensures SharedView() == old(SharedView()).(dmWb := None)
      ensures LocalsView() == old(LocalsView()).(wbTask := old(dmWb).GetOr(BUBBLE))
    {
      if dmWb.Some? {
        wbTask := dmWb.value;
        dmWb := None;
      } else {
        wbTask := BUBBLE;
      }
    }

    /** The first part of every WB lambda that exports a register. */
    method WriteRegister()
      requires Valid()
      modifies this`hist, registers
      ensures var t := wbTask; var d := Dest(t.instr); var r := old(registers[..]);
        var write := Exports(t.instr) && d != 0;
        && registers[..] == (if write then r[d := WrittenValue(isa, t)] else r)
        && hist == old(hist).(mod := if write then Some((d, WrittenValue(isa, t))) else None)
    {
      var t := wbTask;
      if Exports(t.instr) && Dest(t.instr) != 0 {
        registers[Dest(t.instr)] := WrittenValue(isa, t);
        hist := hist.(mod := Some((Dest(t.instr), WrittenValue(isa, t))));
      } else {
        hist := hist.(mod := None);
      }
    }

    /** The second part: free the reservation if it is still this task's. */
    method FreeRegister()
      requires Valid()
      modifies reserves
      ensures var t := wbTask; var d := Dest(t.instr); var b := old(Board());
        Board() == if Exports(t.instr) && b[d].holder == Some(t.id) then ResetTo(b, d, None) else b
    {
      if Exports(wbTask.instr) && reserves[Dest(wbTask.instr)].holder == Some(wbTask.id) {
        Reset(Dest(wbTask.instr), None);
      }
    }

    method FirstHalfWB()
      requires Valid()
      modifies this`dmWb, this`wbTask, this`clock, this`hist, registers, reserves
      ensures Valid() && View() == Tick(FirstWB(isa, old(View())), WB)
    {
      hide Dest, Exports, WrittenValue, ResetTo;
      ghost var m := View();
      TakeForWB();
      WriteRegister();
      FreeRegister();
      clock := clock.Mark(WB);
    }

    method SecondHalfWB()
      requires Valid()
      modifies this`clock
      ensures Valid() && View() == Tick(SecondWB(old(View())), WB)
    {
      clock := clock.Mark(WB);
    }

    // -------------------------------------------------------------- the five threads

    predicate CanStep(ordered: bool, s: Stage)
      reads this
    {
      && !clock.Done(s)
      && (ordered && s.ID? && clock.half.Second? ==> clock.doneEX)
      && (s.IF? && clock.half.Second? ==> ifTask.Some?)
    }

    method FirstHalf(s: Stage)
      requires Valid() && clock.half.First?
      modifies this, registers, reserves
      ensures Valid() && View() == Fire(isa, old(View()), s)
    {
      hide FirstIF, FirstID, FirstEX, FirstDM, FirstWB;
      match s {
        case IF => FirstHalfIF();
        case ID => FirstHalfID();
        case EX => FirstHalfEX();
        case DM => FirstHalfDM();
        case WB => FirstHalfWB();
      }
    }

    method SecondHalf(s: Stage)
      requires Valid() && clock.half.Second? && (s.IF? ==> ifTask.Some?)
      modifies this, registers, reserves
      ensures Valid() && View() == Fire(isa, old(View()), s)
    {
      hide SecondIF, SecondID, SecondEX, SecondDM, SecondWB;
      match s {
        case IF => SecondHalfIF();
        case ID => SecondHalfID();
        case EX => SecondHalfEX();
        case DM => SecondHalfDM();
        case WB => SecondHalfWB();
      }
    }

    /** One stage goes up to its next fence. */
    method Step(ghost a0: Arch, ghost ordered: bool, s: Stage)
      requires Valid() && Reachable(isa, a0, ordered, View()) && CanStep(ordered, s)
      modifies this, registers, reserves
      ensures Valid() && View() == Fire(isa, old(View()), s)
      ensures Reachable(isa, a0, ordered, View()) && clock == old(clock).Mark(s) && hist.cycles == old(hist.cycles)
      ensures old(ifTask).Some? ==> ifTask.Some?
    {
      hide Fire, Reachable;
      FireKeepsTime(isa, View(), s);
      ReachFire(isa, a0, ordered, View(), s);
      FireClock(isa, View(), s);
      if clock.half.First? { FirstHalf(s); } else { SecondHalf(s); }
    }

    /** ID or EX goes up to its next fence while the other one is at it: where both write one register,
        the values come in the other order than the flags. */
    method StepTogether(ghost a0: Arch, s: Stage)
      requires Valid() && Reachable(isa, a0, false, View()) && CanStep(false, s)
      requires clock.half.Second? && (s.ID? || s.EX?)
      modifies this, registers, reserves
      ensures Valid() && View() == Overlap(Fire(isa, old(View()), s))
      ensures Reachable(isa, a0, false, View())
    {
      hide Fire, Reachable, Overlap;
      ReachOverlap(isa, a0, View(), s);
      FireClock(isa, View(), s);
      SecondHalf(s);
      SwapValues();
    }

    method SwapValues()
      requires Valid()
      modifies reserves
      ensures Valid() && View() == Overlap(old(View()))
    {
      if clock.half.Second? && clock.doneID && clock.doneEX && idEx.Some? {
        var n, x := idEx.value.instr, exTask.instr;
        var r := Dest(x);
        if Exports(n) && !Acquires(n, Dest(n)) && Forwards(x) && r == Dest(n) {
          reserves[r] := reserves[r].(value := if reserves[r].idAvailable then 0 else exOut);
        }
      }
    }

    /** The outcome of the race of this cycle. */
    method LookAtRace() returns (race: seq<Race>)
      requires Valid()
      ensures race == RaceOf(SharedView())
    {
      race := [];
      if idEx.Some? && idEx.value.fetched {
        var r := Dest(idEx.value.instr);
        race := [if r == 0 || !reserves[r].idAvailable || reserves[r].exForward then Won
                 else if reserves[r].value == 0 then Zero
                 else Old];
      }
    }

    /** All five threads are at the barrier. */
    method Meet(ghost a0: Arch, ghost ordered: bool)
      requires Valid() && Reachable(isa, a0, ordered, View()) && clock.AllDone()
      modifies this`clock, this`hist
      ensures Valid() && View() == Edge(old(View())) && Reachable(isa, a0, ordered, View())
      ensures clock == if old(clock.half).First? then SECOND_HALF else FIRST_HALF
      ensures hist.cycles == old(hist.cycles) + if old(clock.half).First? then 0 else 1
      ensures clock.half.Second? ==> ifTask.Some?
    {
      hide Reachable, Good, RaceOf;
      ReachEdge(isa, a0, ordered, View());
      ReachGood(isa, a0, ordered, Edge(View()));
      if clock.half.First? { HasFetched(WorldAt(isa, a0, Edge(View())), Edge(View())); }
      if clock.half.First? {
        clock := SECOND_HALF;
      } else {
        var front := if idStall then Stalled else if pcFlush > 0 then Flushing else Straight;
        var race := LookAtRace();
        hist := hist.(front := front, cycles := hist.cycles + 1, races := hist.races + race);
        clock := FIRST_HALF;
      }
    }

    /** The stage takes its turn, unless it has to wait. */
    method TakeOneTurn(ghost a0: Arch, ordered: bool, t: Turn)
      requires Valid() && Reachable(isa, a0, ordered, View())
      modifies this, registers, reserves
      ensures Valid() && View() == TakeTurn(isa, ordered, old(View()), t)
      ensures Reachable(isa, a0, ordered, View())
    {
      hide Reachable, Fire, Overlap;
      var s := t.stage;
      if CanStep(ordered, s) {
        if t.together && !ordered && clock.half.Second? && (s.ID? || s.EX?) {
          StepTogether(a0, s);
        } else {
          Step(a0, ordered, s);
        }
      }
    }

    /** The threads in the order of any schedule: a thread that has to wait is passed over, and when
        the last one has come to the barrier all go on. */
    method Run(ghost a0: Arch, ordered: bool, schedule: seq<Turn>)
      requires Valid() && Reachable(isa, a0, ordered, View())
      modifies this, registers, reserves
      ensures Valid() && View() == TakeTurns(isa, ordered, old(View()), schedule)
      ensures Reachable(isa, a0, ordered, View())
      ensures 0 <= RetiredAt(View()) <= StoredAt(View())
      ensures registers[..] == Reference.Run(isa, RaceIn(hist.races), a0, RetiredAt(View())).regs
      ensures mem == Reference.Run(isa, RaceIn(hist.races), a0, StoredAt(View())).mem
    {
      hide Reachable, Good, TakeTurn, Edge, RetiredAt, StoredAt, Reference.Run, RaceIn;
      var i := 0;
      ghost var m := View();
      while i < |schedule|
        invariant 0 <= i <= |schedule|
        invariant Valid() && Reachable(isa, a0, ordered, View())
        invariant View() == TakeTurns(isa, ordered, m, schedule[..i])
      {
        TakeOneTurn(a0, ordered, schedule[i]);
        if clock.AllDone() { Meet(a0, ordered); }
        assert schedule[..i + 1][..i] == schedule[..i];
        i := i + 1;
      }
      assert schedule[..i] == schedule;
      ReachGood(isa, a0, ordered, View());
      GoodRefines(WorldAt(isa, a0, View()), View());
    }

    /** Fair schedules, in which every stage has a turn in every round, make progress. */
    method RunRounds(ghost a0: Arch, rounds: seq<seq<Turn>>)
      requires Valid() && Reachable(isa, a0, false, View()) && !clock.AllDone()
      requires forall r :: r in rounds ==> Round(r)
      modifies this, registers, reserves
      ensures Valid() && View() == TakeTurns(isa, false, old(View()), Flatten(rounds))
      ensures HalvesOf(View()) >= HalvesOf(old(View())) + |rounds|
    {
      hide Reachable, TakeTurns, Round, HalvesOf, RetiredAt, StoredAt, Reference.Run, RaceIn;
      RoundsMakeProgress(isa, a0, View(), rounds);
      Run(a0, false, Flatten(rounds));
    }

    /** One clock cycle, in an order in which ID waits for EX. */
    method Cycle(ghost a0: Arch)
      requires Valid() && Reachable(isa, a0, true, View()) && clock == FIRST_HALF
      modifies this, registers, reserves
      ensures Valid() && Reachable(isa, a0, true, View()) && clock == FIRST_HALF
      ensures hist.cycles == old(hist.cycles) + 1
    {
      hide Reachable, Fire, View;
      StepInOrder(a0);
      assert clock.AllDone();
      Meet(a0, true);
      StepInOrder(a0);
      Meet(a0, true);
    }

    method StepInOrder(ghost a0: Arch)
      requires Valid() && Reachable(isa, a0, true, View()) && (clock == FIRST_HALF || clock == SECOND_HALF)
      requires clock.half.Second? ==> ifTask.Some?
      modifies this, registers, reserves
      ensures Valid() && Reachable(isa, a0, true, View())
      ensures clock == Clock(old(clock.half), true, true, true, true, true)
      ensures hist.cycles == old(hist.cycles)
    {
      hide Reachable, Fire, Valid;
      Step(a0, true, IF);
      Step(a0, true, EX);
      Step(a0, true, ID);
      Step(a0, true, DM);
      Step(a0, true, WB);
    }

    /** n cycles from any reachable clock edge. */
    method RunCycles(ghost a0: Arch, n: nat)
      requires Valid() && Reachable(isa, a0, true, View()) && clock == FIRST_HALF
      modifies this, registers, reserves
      ensures Valid() && Reachable(isa, a0, true, View()) && clock == FIRST_HALF
      ensures 0 <= RetiredAt(View()) <= StoredAt(View())
      ensures registers[..] == Reference.Run(isa, NEVER, a0, RetiredAt(View())).regs
      ensures mem == Reference.Run(isa, NEVER, a0, StoredAt(View())).mem
      ensures hist.cycles == old(hist.cycles) + n
      ensures hist.cycles <= 3 * RetiredAt(View()) + FiresUpTo(World(isa, a0, NEVER), hist.issued) + 12
    {
      hide Reachable, RetiredAt, StoredAt, Reference.Run, FiresUpTo, NEVER;
      var i := 0;
      while i < n
        invariant 0 <= i <= n
        invariant Valid() && Reachable(isa, a0, true, View()) && clock == FIRST_HALF
        invariant hist.cycles == old(hist.cycles) + i
      {
        Cycle(a0);
        i := i + 1;
      }
      OrderedIsPlain(isa, a0, View());
      OrderedProgress(isa, a0, View());
    }
  }

  /** Boot and run n cycles: the registers and the memory are those of the reference machine
      after the instructions retired and stored, and at least (n - transfers - 12) / 3 retire. */
  method Simulate(isa: Isa, pc: Word, regs: array<Word>, mem: Mem, n: nat) returns (c: Context)
    requires regs.Length == REGISTER_COUNT && regs[0] == 0
    ensures fresh(c) && c.Valid() && c.isa == isa && c.hist.cycles == n
    ensures 0 <= RetiredAt(c.View()) <= StoredAt(c.View())
    ensures var a0 := BootState(pc, regs[..], mem);
      && c.registers[..] == Reference.Run(isa, NEVER, a0, RetiredAt(c.View())).regs
      && c.mem == Reference.Run(isa, NEVER, a0, StoredAt(c.View())).mem
      && n <= 3 * RetiredAt(c.View()) + FiresUpTo(World(isa, a0, NEVER), c.hist.issued) + 12
  {
    hide Init, Reachable, Reference.Run, RetiredAt, StoredAt, FiresUpTo, NEVER;
    ghost var a0 := BootState(pc, regs[..], mem);
    ReachBoot(isa, a0, true);
    c := new Context(isa, pc, regs, mem);
    c.RunCycles(a0, n);
  }

  lemma CountFrame(m: Machine)
    ensures CountHalt(m) == m.(hist := CountHalt(m).hist)
  {
  }

  /** The board that the lambda has already changed is overwritten anyway. */
  lemma SameDecision(isa: Isa, m: Machine, d: Issue)
    ensures StallID(m.(sh := m.sh.(board := d.board)), d) == StallID(m, d)
    ensures PassID(isa, m.(sh := m.sh.(board := d.board)), d) == PassID(isa, m, d)
  {
    hide ReserveDest;
  }
}
