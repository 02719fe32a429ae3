/** The five-stage pipeline as a state machine.

    Each cycle has two halves. In each half every stage makes one step: up to the rising-edge
    fence in the first half, from there to the falling-edge fence in the second. What a stage
    does after the falling edge and before its next fence belongs to the next first half. The
    steps of one half may come in any order; the barriers separate the halves. ID and EX may also
    step at the same time: that shows where both write one register of the scoreboard. */
module Pipeline {
  import opened Basics
  import opened Instructions

  /** A `TaskHandle`. `id` stands for its address: tasks that IF allocates are numbered. `ord`
      is a history field that no step reads: the position at which the task left ID. */
  datatype Task = Task(
    id: nat,
    ord: nat,
    fetched: bool,   // allocated by IF; false for a NOP that another engine inserts
    instr: Instr,
    pc: Word,
    rsValue: Option<Word>, rtValue: Option<Word>, rdValue: Option<Word>  // None: never assigned
  )

  /** `TaskHandle::Get`: no value field is initialised. */
  function Get(id: nat, i: Instr, pc: Word): Task {
    Task(id, 0, true, i, pc, None, None, None)
  }

  /** The NOP that an engine inserts when its stage register is empty. */
  const BUBBLE := Task(0, 0, false, NOP, 0, None, None, None)

  datatype Reserve = Reserve(holder: Option<nat>, value: Word,
                             exAvailable: bool, exForward: bool, idAvailable: bool)

  const FREE := Reserve(None, 0, false, false, false)

  type Board = s: seq<Reserve> | |s| == REGISTER_COUNT witness seq(REGISTER_COUNT, _ => FREE)

  function FreeBoard(): (b: Board)
    ensures forall r: Reg :: b[r] == FREE
  {
    seq(REGISTER_COUNT, _ => FREE)
  }

  /** `RegReserve::Reset`. Register 0 forbids reservation. */
  function ResetTo(b: Board, r: Reg, h: Option<nat>): Board {
    b[r := FREE.(holder := if r == 0 then b[r].holder else h)]
  }

  /** `RegReserve::Delegate`. */
  function DelegateTo(b: Board, r: Reg, h: Option<nat>): Board {
    b[r := b[r].(holder := if r == 0 then b[r].holder else h)]
  }

  /** The fields of `Context` that the stages share. Stage registers hold at most one task. */
  datatype Shared = Shared(
    pc: Word, pcJump: bool, pcFlush: int, ifStall: bool,
    regs: RegFile, mem: Mem, board: Board,
    ifId: Option<Task>, idEx: Option<Task>, exDm: Option<Task>, dmWb: Option<Task>
  )

  /** The local variables of the engines and of the lambda that each of them is running. */
  datatype Locals = Locals(
    ifTask: Option<Task>,
    idTask: Task, idStall: bool, rsSeen: Option<Word>, rtSeen: Option<Word>,
    exTask: Task, exOut: Word,
    dmTask: Task,
    wbTask: Task
  )

  /** `Context::pushTask`. */
  function PushTask(slot: Option<Task>, t: Task): Option<Task> {
    if slot.None? then Some(t) else slot
  }

  datatype Half = First | Second

  datatype Stage = IF | ID | EX | DM | WB

  /** Who has passed its fence in this half. */
  datatype Clock = Clock(half: Half, doneIF: bool, doneID: bool, doneEX: bool, doneDM: bool, doneWB: bool) {
    predicate Done(s: Stage) {
      match s case IF => doneIF case ID => doneID case EX => doneEX case DM => doneDM case WB => doneWB
    }

    predicate AllDone() { doneIF && doneID && doneEX && doneDM && doneWB }

    function Mark(s: Stage): Clock {
      match s
      case IF => this.(doneIF := true)
      case ID => this.(doneID := true)
      case EX => this.(doneEX := true)
      case DM => this.(doneDM := true)
      case WB => this.(doneWB := true)
    }
  }

  /** What the front end is about at the start of a cycle. */
  datatype Front =
    | Start     // nothing fetched yet
    | Straight  // the task in IF_ID is the next instruction
    | Stalled   // ID keeps the next instruction
    | Flushing  // the task in IF_ID is on the wrong path

  /** History: no step of the pipeline reads these. */
  datatype History = History(
    front: Front,
    issued: nat,    // instructions that have left ID
    topId: int,     // allocation number of the last one that left ID
    streak: nat,    // cycles that the instruction in ID has stalled so far
    waits: nat,     // all stall cycles
    fires: nat,     // all control transfers
    halts: nat,     // HALTs that IF has counted
    races: seq<Race>,  // of each instruction that has left ID: what was on offer for the register
                       // that it writes, at the end of that cycle
    cycles: nat,    // completed cycles
    mod: Option<(Reg, Word)>   // the write of the WB task of this cycle
  )

  datatype Machine = Machine(sh: Shared, lo: Locals, clock: Clock, allocs: nat, hist: History)

  // ---------------------------------------------------------------- instruction fetch

  /** After the falling edge IF updates the PC for the last cycle. */
  function UpdatePC(sh: Shared, started: bool): Shared {
    if !started then sh
    else if sh.pcJump || sh.pcFlush > 0 || sh.ifStall then sh.(pcJump := false)
    else sh.(pc := Advance(sh.pc))
  }

  /** IF counts a HALT that is neither stalled nor flushed. */
  predicate Counts(m: Machine) {
    m.lo.ifTask.Some? && m.lo.ifTask.value.instr.kind.Halt? && !(m.sh.ifStall || m.sh.pcFlush > 0)
  }

  function CountHalt(m: Machine): Machine {
    m.(hist := m.hist.(halts := m.hist.halts + if Counts(m) then 1 else 0))
  }

  /** Then it consumes a flush token and fetches, but a stalled IF keeps its task. */
  function Fetch(isa: Isa, m: Machine): Machine {
    var keep := m.sh.ifStall && m.lo.ifTask.Some?;
    m.(sh := m.sh.(pcFlush := m.sh.pcFlush - 1),
       lo := if keep then m.lo else m.lo.(ifTask := Some(Get(m.allocs, isa.fetch(m.sh.pc), m.sh.pc))),
       allocs := if keep then m.allocs else m.allocs + 1)
  }

  function FirstIF(isa: Isa, m: Machine): Machine {
    Fetch(isa, CountHalt(m).(sh := UpdatePC(m.sh, m.lo.ifTask.Some?)))
  }

  /** All IF lambdas: decode the register numbers and push. */
  function SecondIF(m: Machine): Machine
    requires m.lo.ifTask.Some?
  {
    m.(sh := m.sh.(ifId := PushTask(m.sh.ifId, m.lo.ifTask.value)))
  }

  // ---------------------------------------------------------------- decode and issue

  /** A branch looks at the ID-available value of r before the fence. */
  function Capture(b: Board, r: Reg): (Board, Option<Word>) {
    (b[r := b[r].(idAvailable := false)],
     if b[r].holder.Some? && b[r].idAvailable && !b[r].exForward then Some(b[r].value) else None)
  }

  /** The top of the ID engine's loop: keep the stalled task, squash, or take from IF_ID. */
  function PickID(m: Machine): Machine {
    if m.lo.idStall then m
    else if m.sh.ifId.None? then m.(lo := m.lo.(idTask := BUBBLE))
    else
      var t := if m.sh.pcFlush > 0 then BUBBLE else m.sh.ifId.value;
      m.(sh := m.sh.(pcFlush := m.sh.pcFlush - 1, ifId := None), lo := m.lo.(idTask := t))
  }

  function CaptureID(m: Machine): Machine {
    var i := m.lo.idTask.instr;
    var (b1, v1) := if ResolvesRs(i) then Capture(m.sh.board, i.rs) else (m.sh.board, None);
    var (b2, v2) := if ResolvesRt(i) then Capture(b1, i.rt) else (b1, None);
    m.(sh := m.sh.(board := b2), lo := m.lo.(rsSeen := v1, rtSeen := v2))
  }

  function FirstID(m: Machine): Machine {
    CaptureID(PickID(m))
  }

  datatype Operand = Loaded(value: Word) | Forwarded | Missing

  /** One operand of a task that is not a branch: from the register file, by an EX forward, or
      not yet. The forward is good for one operand only. */
  function Acquire(b: Board, regs: RegFile, r: Reg): (Board, Operand) {
    if b[r].holder.None? then (b, Loaded(regs[r]))
    else if b[r].exAvailable then (b[r := b[r].(exForward := true, exAvailable := false)], Forwarded)
    else (b, Missing)
  }

  /** One operand of a branch, after the fence. */
  function Resolve(b: Board, regs: RegFile, r: Reg, seen: Option<Word>): Option<Word> {
    if b[r].holder.None? then Some(regs[r]) else seen
  }

  /** What an ID lambda hands on. */
  datatype Issue = Issue(task: Task, board: Board, wait: bool, jump: Option<Word>)

  /** The part of the ID lambdas before the push. */
  function Decide(isa: Isa, sh: Shared, lo: Locals): Issue {
    var t := lo.idTask;
    var i := t.instr;
    match i.kind
    case RAlu | Shift | IAlu | Load | Store =>
      var (b1, rt) := if AcquiresRt(i) then Acquire(sh.board, sh.regs, i.rt) else (sh.board, Forwarded);
      var (b2, rs) := if AcquiresRs(i) then Acquire(b1, sh.regs, i.rs) else (b1, Forwarded);
      var t1 := if rt.Loaded? then t.(rtValue := Some(rt.value)) else t;
      var t2 := if rs.Loaded? then t1.(rsValue := Some(rs.value)) else t1;
      Issue(t2, b2, rt.Missing? || rs.Missing?, None)
    case BranchTwo =>
      var rs := Resolve(sh.board, sh.regs, i.rs, lo.rsSeen);
      var rt := Resolve(sh.board, sh.regs, i.rt, lo.rtSeen);
      if rs.None? || rt.None? then Issue(t, sh.board, true, None)
      else Issue(t, sh.board, false,
                 if isa.taken(i.bits, rs.value, rt.value) then Some(isa.target(i.bits, t.pc)) else None)
    case BranchOne =>
      var rs := Resolve(sh.board, sh.regs, i.rs, lo.rsSeen);
      if rs.None? then Issue(t, sh.board, true, None)
      else Issue(t, sh.board, false,
                 if isa.taken(i.bits, rs.value, 0) then Some(isa.target(i.bits, t.pc)) else None)
    case JumpReg =>
      var rs := Resolve(sh.board, sh.regs, i.rs, lo.rsSeen);
      Issue(t, sh.board, rs.None?, rs)
    case Jump => Issue(t, sh.board, false, Some(isa.target(i.bits, t.pc)))
    case JumpLink =>
      Issue(t.(rdValue := Some(Advance(t.pc))), sh.board, false, Some(isa.target(i.bits, t.pc)))
    case Lui | Nop | Halt => Issue(t, sh.board, false, None)
  }

  /** Reserve the destination register: an instruction that reads it only takes it over. */
  function ReserveDest(b: Board, t: Task): Board {
    if !Exports(t.instr) then b
    else if Acquires(t.instr, Dest(t.instr)) then DelegateTo(b, Dest(t.instr), Some(t.id))
    else ResetTo(b, Dest(t.instr), Some(t.id))
  }

  /** `PcFlush = 2` and `SetPC`. A rejected target leaves the PC alone. */
  function Transfer(isa: Isa, sh: Shared, jump: Option<Word>): Shared {
    if jump.None? then sh
    else if isa.settable(jump.value) then sh.(pcFlush := 2, pc := jump.value, pcJump := true)
    else sh.(pcFlush := 2)
  }

  /** ID reports a stall and keeps its task. */
  function StallID(m: Machine, d: Issue): Machine {
    m.(sh := m.sh.(board := d.board, ifStall := true),
       lo := m.lo.(idTask := d.task, idStall := true),
       hist := m.hist.(streak := m.hist.streak + 1, waits := m.hist.waits + 1))
  }

  /** ID transfers control, pushes its task and reserves the destination. */
  function PassID(isa: Isa, m: Machine, d: Issue): Machine {
    var t := d.task.(ord := m.hist.issued);
    var sh := Transfer(isa, m.sh, d.jump);
    var full := sh.idEx.Some?;
    m.(sh := sh.(idEx := PushTask(sh.idEx, t), board := ReserveDest(d.board, t), ifStall := full),
       lo := m.lo.(idTask := t, idStall := full),
       hist := if t.fetched
               then m.hist.(issued := m.hist.issued + 1, topId := t.id, streak := 0,
                            fires := m.hist.fires + if d.jump.Some? then 1 else 0)
               else m.hist)
  }

  function SecondID(isa: Isa, m: Machine): Machine {
    var d := Decide(isa, m.sh, m.lo);
    if d.wait then StallID(m, d) else PassID(isa, m, d)
  }

  // ---------------------------------------------------------------- execute

  function ReadRs(isa: Isa, t: Task, b: Board): Word {
    if b[t.instr.rs].exForward then b[t.instr.rs].value else t.rsValue.GetOr(isa.junk(t.ord))
  }

  function ReadRt(isa: Isa, t: Task, b: Board): Word {
    if b[t.instr.rt].exForward then b[t.instr.rt].value else t.rtValue.GetOr(isa.junk(t.ord))
  }

  /** What the EX lambda computes before the fence: a result, or the address of a load or store. */
  function Compute(isa: Isa, t: Task, b: Board): Word {
    var i := t.instr;
    match i.kind
    case RAlu => isa.alu(i.bits, ReadRs(isa, t, b), ReadRt(isa, t, b))
    case Shift => isa.alu(i.bits, 0, ReadRt(isa, t, b))
    case IAlu => isa.alu(i.bits, ReadRs(isa, t, b), 0)
    case Lui => isa.alu(i.bits, 0, 0)
    case Load | Store => isa.address(i.bits, ReadRs(isa, t, b))
    case JumpLink => t.rdValue.GetOr(isa.junk(t.ord))
    case _ => 0
  }

  /** After the falling edge EX withdraws the EX-availability of the task it has finished; then
      it takes the next task, reads the operands and announces its own result. */
  function FirstEX(isa: Isa, m: Machine): Machine {
    var last := m.lo.exTask.instr;
    var b1 := if Exports(last)
              then m.sh.board[Dest(last) := m.sh.board[Dest(last)].(exAvailable := false)]
              else m.sh.board;
    var t := m.sh.idEx.GetOr(BUBBLE);
    var d := Dest(t.instr);
    var b2 := if Forwards(t.instr) then b1[d := b1[d].(exAvailable := true)] else b1;
    m.(sh := m.sh.(idEx := None, board := b2),
       lo := m.lo.(exTask := t, exOut := Compute(isa, t, b1)))
  }

  /** The task fields that the EX lambda sets after the fence. */
  function Executed(t: Task, out: Word): Task {
    match t.instr.kind
    case RAlu | Shift => t.(rdValue := Some(out))
    case IAlu | Lui => t.(rtValue := Some(out))
    case Load | Store => t.(rsValue := Some(out))
    case _ => t
  }

  function SecondEX(m: Machine): Machine {
    var t := Executed(m.lo.exTask, m.lo.exOut);
    var d := Dest(t.instr);
    var b := if Forwards(t.instr)
             then m.sh.board[d := m.sh.board[d].(value := m.lo.exOut, idAvailable := true)]
             else m.sh.board;
    m.(sh := m.sh.(board := b, exDm := PushTask(m.sh.exDm, t)), lo := m.lo.(exTask := t))
  }

  // ---------------------------------------------------------------- memory

  function AddressOf(isa: Isa, t: Task): Word { t.rsValue.GetOr(isa.junk(t.ord)) }

  /** Stores write memory before the fence. */
  function FirstDM(isa: Isa, m: Machine): Machine {
    var t := m.sh.exDm.GetOr(BUBBLE);
    var mem := if t.instr.kind.Store?
               then isa.store(t.instr.bits, m.sh.mem, AddressOf(isa, t),
                              t.rtValue.GetOr(isa.junk(t.ord))).GetOr(m.sh.mem)
               else m.sh.mem;
    m.(sh := m.sh.(exDm := None, mem := mem), lo := m.lo.(dmTask := t))
  }

  /** Loads read memory after the fence; a faulting load leaves rt as it was. The others that
      export a register withdraw its ID-availability. */
  function SecondDM(isa: Isa, m: Machine): Machine {
    var t := m.lo.dmTask;
    var i := t.instr;
    var v := if i.kind.Load? then isa.load(i.bits, m.sh.mem, AddressOf(isa, t)) else None;
    var t1 := if v.Some? then t.(rtValue := v) else t;
    var b := if Forwards(i)
             then m.sh.board[Dest(i) := m.sh.board[Dest(i)].(idAvailable := false)]
             else m.sh.board;
    m.(sh := m.sh.(board := b, dmWb := PushTask(m.sh.dmWb, t1)), lo := m.lo.(dmTask := t1))
  }

  // ---------------------------------------------------------------- write back

  /** The field that WB copies to the register file. */
  function WrittenValue(isa: Isa, t: Task): Word {
    (if t.instr.kind.RAlu? || t.instr.kind.Shift? || t.instr.kind.JumpLink? then t.rdValue else t.rtValue)
      .GetOr(isa.junk(t.ord))
  }

  /** Write the register (never $0) and free its reservation if no younger task has taken it. */
  function FirstWB(isa: Isa, m: Machine): Machine {
    var t := m.sh.dmWb.GetOr(BUBBLE);
    var d := Dest(t.instr);
    var write := Exports(t.instr) && d != 0;
    var regs := if write then m.sh.regs[d := WrittenValue(isa, t)] else m.sh.regs;
    var b := if Exports(t.instr) && m.sh.board[d].holder == Some(t.id)
             then ResetTo(m.sh.board, d, None) else m.sh.board;
    m.(sh := m.sh.(dmWb := None, regs := regs, board := b), lo := m.lo.(wbTask := t),
       hist := m.hist.(mod := if write then Some((d, regs[d])) else None))
  }

  /** After the fence WB only looks up what it has written. */
  function SecondWB(m: Machine): Machine { m }

  // ---------------------------------------------------------------- the whole machine

  function Fire(isa: Isa, m: Machine, s: Stage): Machine
    requires s.IF? && m.clock.half.Second? ==> m.lo.ifTask.Some?
  {
    var m1 :=
      match (m.clock.half, s)
      case (First, IF) => FirstIF(isa, m)
      case (First, ID) => FirstID(m)
      case (First, EX) => FirstEX(isa, m)
      case (First, DM) => FirstDM(isa, m)
      case (First, WB) => FirstWB(isa, m)
      case (Second, IF) => SecondIF(m)
      case (Second, ID) => SecondID(isa, m)
      case (Second, EX) => SecondEX(m)
      case (Second, DM) => SecondDM(isa, m)
      case (Second, WB) => SecondWB(m);
    m1.(clock := m1.clock.Mark(s))
  }

  /** The task that leaves ID in this half resets the register that the one in EX publishes. */
  predicate SameRegister(m: Machine) {
    && m.sh.idEx.Some? && Exports(m.sh.idEx.value.instr)
    && !Acquires(m.sh.idEx.value.instr, Dest(m.sh.idEx.value.instr))
    && Forwards(m.lo.exTask.instr) && Dest(m.lo.exTask.instr) == Dest(m.sh.idEx.value.instr)
  }

  predicate BothWrote(m: Machine) {
    m.clock.half.Second? && m.clock.doneID && m.clock.doneEX && SameRegister(m)
  }

  /** Then their two writes of `Value` may have come in the other order than their two writes of
      `IDAvailable`: the value is the other one. */
  function Overlap(m: Machine): Machine {
    if !BothWrote(m) then m
    else
      var r := Dest(m.lo.exTask.instr);
      var e := m.sh.board[r];
      m.(sh := m.sh.(board := m.sh.board[r := e.(value := if e.idAvailable then 0 else m.lo.exOut)]))
  }

  const FIRST_HALF := Clock(First, false, false, false, false, false)

  const SECOND_HALF := Clock(Second, false, false, false, false, false)

  /** A branch that looks at r takes its value. */
  predicate Offered(b: Board, r: Reg) {
    r != 0 && b[r].idAvailable && !b[r].exForward
  }

  function Outcome(b: Board, r: Reg): Race {
    if !Offered(b, r) then Won else if b[r].value == 0 then Zero else Old
  }

  /** The outcome of the race of ID and EX in this cycle, if an instruction has left ID. */
  function RaceOf(sh: Shared): seq<Race> {
    if sh.idEx.Some? && sh.idEx.value.fetched then [Outcome(sh.board, Dest(sh.idEx.value.instr))] else []
  }

  /** All five threads meet at the barrier. */
  function Edge(m: Machine): Machine {
    if m.clock.half.First? then m.(clock := SECOND_HALF)
    else
      var front := if m.lo.idStall then Stalled else if m.sh.pcFlush > 0 then Flushing else Straight;
      m.(clock := FIRST_HALF,
         hist := m.hist.(front := front, cycles := m.hist.cycles + 1, races := m.hist.races + RaceOf(m.sh)))
  }

  /** The state that the constructors of `Context` and of the engines leave. */
  function Init(pc: Word, regs: RegFile, mem: Mem): Machine {
    Machine(
      Shared(pc, false, 0, false, regs, mem, FreeBoard(), None, None, None, None),
      Locals(None, BUBBLE, false, None, None, BUBBLE, 0, BUBBLE, BUBBLE),
      FIRST_HALF, 0,
      History(Start, 0, -1, 0, 0, 0, 0, [], 0, None))
  }

  /** Between the five steps of a half any stage that has not stepped may step. `ordered` is for
      schedules in which ID waits for EX in the second half. */
  predicate CanFire(ordered: bool, m: Machine, s: Stage) {
    && !m.clock.Done(s)
    && (ordered && s.ID? && m.clock.half.Second? ==> m.clock.doneEX)
    && (s.IF? && m.clock.half.Second? ==> m.lo.ifTask.Some?)
  }

  /** ID or EX steps while the other one is at it. */
  predicate CanOverlap(ordered: bool, m: Machine, s: Stage) {
    !ordered && CanFire(ordered, m, s) && m.clock.half.Second? && (s.ID? || s.EX?)
  }

  ghost predicate Next(isa: Isa, ordered: bool, m: Machine, m': Machine) {
    (exists s: Stage :: CanFire(ordered, m, s) && m' == Fire(isa, m, s)) ||
    (exists s: Stage :: CanOverlap(ordered, m, s) && m' == Overlap(Fire(isa, m, s))) ||
    (m.clock.AllDone() && m' == Edge(m))
  }

  /** A run of the five threads: any number of steps, in any order that the barriers allow. */
  ghost predicate Execution(isa: Isa, ordered: bool, trace: seq<Machine>) {
    && 0 < |trace|
    && (forall j :: 0 <= j < |trace| - 1 ==> Next(isa, ordered, trace[j], trace[j + 1]))
  }
}
