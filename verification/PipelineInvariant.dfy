/** The invariant of the pipeline, clause by clause. It is stated at every step of every
    execution, not only at the clock edges. Each clause reads only the part of the state that
    it is about, so a step has to be looked at only by the clauses it touches. */
module PipelineInvariant {
  import opened Basics
  import opened Instructions
  import opened Reference
  import opened Pipeline
  import opened SequentialRun

  // ---------------------------------------------------------------- who is where

  function Live(o: Option<Task>): Option<Task> {
    if o.Some? && o.value.fetched then o else None
  }

  /** The fetched task that has left ID in this cycle. */
  function TaskN(m: Machine): Option<Task> {
    Live(if m.clock.half.Second? && m.clock.doneID then m.sh.idEx else None)
  }

  /** The fetched task that is in EX in this cycle. A stage that is empty, or works on a bubble,
      has none. */
  function TaskX(m: Machine): Option<Task> {
    Live(if m.clock.half.First? && !m.clock.doneEX then m.sh.idEx
         else if m.clock.half.First? || !m.clock.doneEX then Some(m.lo.exTask)
         else m.sh.exDm)
  }

  function TaskY(m: Machine): Option<Task> {
    Live(if m.clock.half.First? && !m.clock.doneDM then m.sh.exDm
         else if m.clock.half.First? || !m.clock.doneDM then Some(m.lo.dmTask)
         else m.sh.dmWb)
  }

  function TaskZ(m: Machine): Option<Task> {
    Live(if m.clock.half.First? && !m.clock.doneWB then m.sh.dmWb else None)
  }

  /** What stays the same in a task from ID to WB. */
  datatype Tag = Tag(id: nat, ord: nat, instr: Instr, pc: Word)

  function TagOf(o: Option<Task>): Option<Tag> {
    if o.Some? then Some(Tag(o.value.id, o.value.ord, o.value.instr, o.value.pc)) else None
  }

  /** The live tasks of a cycle, youngest first: n has left ID in this cycle, x is in EX, y in
      DM, z in WB. */
  datatype Roles = Roles(n: Option<Tag>, x: Option<Tag>, y: Option<Tag>, z: Option<Tag>)

  function RolesOf(m: Machine): Roles {
    Roles(TagOf(TaskN(m)), TagOf(TaskX(m)), TagOf(TaskY(m)), TagOf(TaskZ(m)))
  }

  function Count(o: Option<Tag>): nat { if o.Some? then 1 else 0 }

  /** Instructions whose register write has reached the register file. */
  function Retired(issued: nat, v: Roles): int {
    issued - Count(v.n) - Count(v.x) - Count(v.y) - Count(v.z)
  }

  /** Instructions whose store has reached memory. */
  function Stored(issued: nat, v: Roles, beforeDM: bool): int {
    issued - Count(v.n) - Count(v.x) - (if beforeDM then Count(v.y) else 0)
  }

  predicate BeforeDM(c: Clock) { c.half.First? && !c.doneDM }

  predicate BeforeIssue(c: Clock) { c.half.First? || !c.doneID }

  // ---------------------------------------------------------------- program order

  /** A live task is the instruction of the sequential run at its place in program order. */
  ghost predicate Placed(w: World, o: Option<Tag>, ord: int) {
    o.Some? ==>
      && 0 <= ord
      && o.value.ord == ord
      && o.value.instr == InstrAt(w, ord)
      && o.value.pc == At(w, ord).pc
  }

  ghost predicate Order(w: World, issued: nat, v: Roles) {
    && Placed(w, v.n, issued - 1)
    && Placed(w, v.x, issued - 1 - Count(v.n))
    && Placed(w, v.y, issued - 1 - Count(v.n) - Count(v.x))
    && Placed(w, v.z, issued - 1 - Count(v.n) - Count(v.x) - Count(v.y))
  }

  predicate Newer(a: Option<Tag>, b: Option<Tag>) {
    a.Some? && b.Some? ==> b.value.id < a.value.id
  }

  predicate AtMost(o: Option<Tag>, id: int) { o.Some? ==> o.value.id <= id }

  /** Allocation numbers grow along program order. */
  predicate Ids(topId: int, allocs: nat, v: Roles) {
    && AtMost(v.n, topId) && AtMost(v.x, topId) && AtMost(v.y, topId) && AtMost(v.z, topId)
    && Newer(v.n, v.x) && Newer(v.n, v.y) && Newer(v.n, v.z)
    && Newer(v.x, v.y) && Newer(v.x, v.z) && Newer(v.y, v.z)
    && topId < allocs
  }

  predicate Plain(t: Task) { !t.fetched ==> t.instr == NOP }

  predicate PlainSlot(o: Option<Task>) { o.Some? ==> Plain(o.value) }

  /** A stage register is empty from the time its reader takes the task until its writer pushes
      the next one. */
  predicate Slots(m: Machine) {
    && (if m.clock.half.First?
        then (m.clock.doneEX ==> m.sh.idEx.None?) &&
             (m.clock.doneDM ==> m.sh.exDm.None?) &&
             (m.clock.doneWB ==> m.sh.dmWb.None?)
        else (!m.clock.doneID ==> m.sh.idEx.None?) &&
             (!m.clock.doneEX ==> m.sh.exDm.None?) &&
             (!m.clock.doneDM ==> m.sh.dmWb.None?))
    && PlainSlot(m.sh.idEx) && PlainSlot(m.sh.exDm) && PlainSlot(m.sh.dmWb)
    && Plain(m.lo.exTask) && Plain(m.lo.dmTask)
  }

  // ---------------------------------------------------------------- values

  ghost predicate RegsOk(w: World, regs: RegFile, k: int) { 0 <= k && regs == At(w, k).regs }

  ghost predicate MemOk(w: World, mem: Mem, k: int) { 0 <= k && mem == At(w, k).mem }

  predicate Writes(o: Option<Tag>, r: Reg) {
    r != 0 && o.Some? && Dest(o.value.instr) == r
  }

  predicate Publishes(o: Option<Tag>, r: Reg) {
    Writes(o, r) && Forwards(o.value.instr)
  }

  /** An EX operand between ID and EX: forwarded from the task just ahead, or loaded. */
  ghost predicate OperandOk(w: World, e: Reserve, r: Reg, k: nat, v: Option<Word>,
                            src: Option<Tag>, srcDone: bool) {
    if e.exForward
    then Publishes(src, r) && v == None && (srcDone ==> e.value == At(w, k).regs[r])
    else v == Some(At(w, k).regs[r])
  }

  ghost predicate Carried(w: World, t: Task) {
    && (t.instr.kind.Store? ==>
          t.rtValue.GetOr(w.isa.junk(t.ord)) == StoreData(w.isa, t.ord, At(w, t.ord)))
    && (t.instr.kind.JumpLink? ==> t.rdValue == Some(Result(w.isa, t.ord, At(w, t.ord))))
    && (t.instr.kind.Load? ==> t.rtValue == None)
  }

  /** A task that has left ID and not yet entered EX. */
  ghost predicate Waiting(w: World, b: Board, t: Task, src: Option<Tag>, srcDone: bool) {
    && (ExReadsRs(t.instr) ==> OperandOk(w, b[t.instr.rs], t.instr.rs, t.ord, t.rsValue, src, srcDone))
    && (ExReadsRt(t.instr) ==> OperandOk(w, b[t.instr.rt], t.instr.rt, t.ord, t.rtValue, src, srcDone))
    && Carried(w, t)
  }

  function AddressAt(w: World, k: nat): Word {
    w.isa.address(InstrAt(w, k).bits, At(w, k).regs[InstrAt(w, k).rs])
  }

  /** What EX holds across its fence. */
  ghost predicate Computed(w: World, t: Task, out: Word) {
    && (Forwards(t.instr) ==> out == ResultAt(w, t.ord))
    && (t.instr.kind.Load? || t.instr.kind.Store? ==> out == AddressAt(w, t.ord))
    && Carried(w, t)
  }

  ghost predicate Finished(w: World, t: Task) {
    && (Forwards(t.instr) ==> WrittenValue(w.isa, t) == ResultAt(w, t.ord))
    && (t.instr.kind.Load? || t.instr.kind.Store? ==> t.rsValue == Some(AddressAt(w, t.ord)))
    && Carried(w, t)
  }

  ghost predicate Complete(w: World, t: Task) {
    Exports(t.instr) ==> WrittenValue(w.isa, t) == ResultAt(w, t.ord)
  }

  ghost predicate NOk(w: World, b: Board, n: Option<Task>, src: Option<Tag>, srcDone: bool) {
    n.Some? ==> Waiting(w, b, n.value, src, srcDone)
  }

  /** The task in EX, before EX takes it, while EX works on it, and after. */
  ghost predicate XOk(w: World, b: Board, x: Option<Task>, src: Option<Tag>, c: Clock, out: Word) {
    x.Some? ==>
      if c.half.First? && !c.doneEX then Waiting(w, b, x.value, src, true)
      else if c.half.First? || !c.doneEX then Computed(w, x.value, out)
      else Finished(w, x.value)
  }

  ghost predicate YOk(w: World, y: Option<Task>, c: Clock) {
    y.Some? ==> if c.half.First? || !c.doneDM then Finished(w, y.value) else Complete(w, y.value)
  }

  ghost predicate ZOk(w: World, z: Option<Task>) {
    z.Some? ==> Complete(w, z.value)
  }

  /** EX still knows the task whose EX-availability it has to withdraw. */
  predicate LastEX(last: Task, c: Clock, v: Roles) {
    && (c.half.First? && !c.doneEX && v.y.Some? ==> last.instr == v.y.value.instr)
    && (c.half.Second? && c.doneEX && v.x.Some? ==> last.instr == v.x.value.instr)
  }

  // ---------------------------------------------------------------- the scoreboard

  /** The youngest live writer of r. */
  function Youngest(v: Roles, r: Reg): Option<nat> {
    if Writes(v.n, r) then Some(v.n.value.id)
    else if Writes(v.x, r) then Some(v.x.value.id)
    else if Writes(v.y, r) then Some(v.y.value.id)
    else if Writes(v.z, r) then Some(v.z.value.id)
    else None
  }

  /** The flags of a register whose holder t has just left ID, or enters EX; `prev` is ahead of it.
      ID-availability left over from `prev` is marked by EXForward, unless ID ran before EX had
      finished: then what `prev` has computed is on offer, or zero. */
  ghost predicate NewHolder(w: World, e: Reserve, t: Tag, prev: Option<Tag>, r: Reg) {
    && (e.exForward ==> Acquires(t.instr, r) && Publishes(prev, r))
    && (e.idAvailable && !e.exForward ==>
          !Acquires(t.instr, r) && Publishes(prev, r) && (e.value == ResultAt(w, prev.value.ord) || e.value == 0))
  }

  ghost predicate HeldByN(w: World, e: Reserve, v: Roles, r: Reg)
    requires v.n.Some?
  {
    && !e.exAvailable
    && NewHolder(w, e, v.n.value, v.x, r)
    && (Acquires(v.n.value.instr, r) && Publishes(v.x, r) ==> e.exForward)
  }

  ghost predicate HeldByX(w: World, e: Reserve, v: Roles, c: Clock, r: Reg)
    requires v.x.Some?
  {
    var forwards := Forwards(v.x.value.instr);
    if c.half.First? then
      && e.exAvailable == (c.doneEX && forwards)
      && NewHolder(w, e, v.x.value, v.y, r)
      && (e.idAvailable && !e.exForward ==> w.race(v.x.value.ord) == if e.value == 0 then Zero else Old)
      && (!w.race(v.x.value.ord).Won? && !c.doneID ==> e.idAvailable && !e.exForward)
    else
      && (e.exAvailable ==> forwards)
      && (!c.doneID && forwards ==> e.exAvailable)
      && (forwards && c.doneEX ==> e.value == ResultAt(w, v.x.value.ord))
      && (!forwards && e.idAvailable ==> !c.doneDM && Publishes(v.y, r))
  }

  ghost predicate HeldByY(w: World, e: Reserve, v: Roles, c: Clock)
    requires v.y.Some?
  {
    var forwards := Forwards(v.y.value.instr);
    && (e.exAvailable ==> c.half.First? && !c.doneEX && forwards)
    && (c.half.First? && forwards ==> e.value == ResultAt(w, v.y.value.ord))
    && (e.idAvailable ==> forwards && (c.half.First? || !c.doneDM))
  }

  ghost predicate Cell(w: World, e: Reserve, v: Roles, c: Clock, r: Reg) {
    && e.holder == Youngest(v, r)
    && (if Writes(v.n, r) then HeldByN(w, e, v, r)
        else if Writes(v.x, r) then HeldByX(w, e, v, c, r)
        else if Writes(v.y, r) then HeldByY(w, e, v, c)
        else if Writes(v.z, r) then !e.exAvailable && !e.idAvailable
        else !e.exAvailable && !e.exForward && !e.idAvailable)
  }

  ghost predicate Scoreboard(w: World, b: Board, v: Roles, c: Clock) {
    && (forall r: Reg :: r != 0 ==> Cell(w, b[r], v, c, r))
    && b[0].holder == None && !b[0].exForward
  }

  // ---------------------------------------------------------------- the front end

  /** The part of the state that IF and ID use to agree on the next instruction. */
  datatype Fetcher = Fetcher(
    half: Half, doneIF: bool, doneID: bool,
    pc: Word, pcJump: bool, pcFlush: int, ifStall: bool, ifId: Option<Task>,
    ifTask: Option<Task>, idTask: Task, idStall: bool, rsSeen: Option<Word>, rtSeen: Option<Word>,
    allocs: nat, front: Front, issued: nat, topId: int, halts: nat)

  predicate BeforeIssueOf(f: Fetcher) { f.half.First? || !f.doneID }

  function FetcherOf(m: Machine): Fetcher {
    Fetcher(m.clock.half, m.clock.doneIF, m.clock.doneID,
            m.sh.pc, m.sh.pcJump, m.sh.pcFlush, m.sh.ifStall, m.sh.ifId,
            m.lo.ifTask, m.lo.idTask, m.lo.idStall, m.lo.rsSeen, m.lo.rtSeen,
            m.allocs, m.hist.front, m.hist.issued, m.hist.topId, m.hist.halts)
  }

  predicate FetchOf(w: World, f: Fetcher, o: Option<Task>, pc: Word) {
    && o.Some?
    && o.value == Get(o.value.id, w.isa.fetch(pc), pc)
    && f.topId < o.value.id < f.allocs
  }

  /** ID holds the next instruction. */
  ghost predicate HoldsNext(w: World, f: Fetcher) {
    var t := f.idTask;
    && t.fetched
    && t.instr == InstrAt(w, f.issued)
    && t.pc == At(w, f.issued).pc
    && f.topId < t.id < f.allocs
    && (t.instr.kind.Load? || !f.idStall ==> t.rtValue == None)
    && (!f.idStall ==> t.rsValue == None)
  }

  predicate SeenOk(seen: Option<Word>, v: Word) { seen.Some? ==> seen.value == v }

  predicate HasSeen(i: Instr, rsSeen: Option<Word>, rtSeen: Option<Word>, r: Reg) {
    (ResolvesRs(i) && i.rs == r ==> rsSeen.Some?) && (ResolvesRt(i) && i.rt == r ==> rtSeen.Some?)
  }

  /** What a branch has captured before the fence. What a lost race has left there is seen. */
  ghost predicate Captured(w: World, f: Fetcher) {
    var i, a := f.idTask.instr, At(w, f.issued);
    && (if ComparesWithItself(i) then f.rtSeen.None? else
          && (ResolvesRs(i) ==> SeenOk(f.rsSeen, a.view[i.rs]))
          && (ResolvesRt(i) ==> SeenOk(f.rtSeen, a.view[i.rt])))
    && (Loses(w, f.issued) ==> HasSeen(i, f.rsSeen, f.rtSeen, LastDest(a.past)))
  }

  predicate IdBeforeIf(f: Fetcher) { f.ifTask.Some? && f.idTask.id < f.ifTask.value.id }

  ghost predicate FrontFirst(w: World, f: Fetcher) {
    var pc := At(w, f.issued).pc;
    && (f.doneIF ==> FetchOf(w, f, f.ifTask, f.pc))
    && f.ifStall == f.idStall == f.front.Stalled?
    && (f.front.Flushing? || (f.pcFlush <= 0 && !f.pcJump))
    && (match f.front
        case Start =>
          && f.issued == 0
          && f.pc == pc && f.ifId.None? && (!f.doneIF ==> f.ifTask.None?)
          && (f.doneID ==> f.idTask == BUBBLE)
        case Straight =>
          && (if f.doneIF then f.ifTask.Some? else FetchOf(w, f, f.ifTask, pc))
          && f.pc == (if f.doneIF then Advance(pc) else pc)
          && (if f.doneID
              then f.ifId.None? && HoldsNext(w, f) && Captured(w, f) && (f.doneIF ==> IdBeforeIf(f))
              else FetchOf(w, f, f.ifId, pc) && (f.doneIF ==> f.ifId.value.id < f.ifTask.value.id))
        case Stalled =>
          && f.pc == Advance(pc)
          && FetchOf(w, f, f.ifTask, f.pc) && f.ifId == f.ifTask
          && HoldsNext(w, f) && IdBeforeIf(f)
          && (f.doneID ==> Captured(w, f))
        case Flushing =>
          && f.pcFlush == 2 - (if f.doneIF then 1 else 0) - (if f.doneID then 1 else 0)
          && f.pc == pc
          && f.ifTask.Some? && (f.doneIF ==> !f.pcJump)
          && At(w, f.issued).past.fired
          && f.ifId.Some? == !f.doneID
          && (f.doneID ==> f.idTask == BUBBLE))
  }

  ghost predicate FrontSecond(w: World, f: Fetcher) {
    var pc := At(w, f.issued).pc;
    && f.ifTask.Some?
    && f.ifId == (if f.front.Stalled? || f.doneIF then f.ifTask else None)
    && f.ifStall == f.idStall
    && (if !f.doneID then
          && f.idStall == f.front.Stalled?
          && f.pcFlush <= 0 && !f.pcJump
          && FetchOf(w, f, f.ifTask, f.pc)
          && (if f.front.Start? || f.front.Flushing?
              then f.idTask == BUBBLE && f.pc == pc
                   && (if f.front.Start? then f.issued == 0 else At(w, f.issued).past.fired)
              else HoldsNext(w, f) && Captured(w, f) && f.pc == Advance(pc) && IdBeforeIf(f))
        else if f.idStall then
          && f.pcFlush <= 0 && !f.pcJump
          && FetchOf(w, f, f.ifTask, f.pc)
          && HoldsNext(w, f) && f.pc == Advance(pc) && IdBeforeIf(f)
        else if f.pcFlush > 0 then
          f.pcFlush == 2 && f.pc == pc && At(w, f.issued).past.fired
        else
          !f.pcJump && f.pc == pc && FetchOf(w, f, f.ifTask, f.pc))
  }

  /** IF has counted the next instruction, if that is a HALT. */
  predicate Counted(f: Fetcher) {
    if f.half.First? then (f.front.Straight? && f.doneIF) || f.front.Stalled?
    else if f.doneID then f.idStall
    else f.front.Straight? || f.front.Stalled?
  }

  ghost predicate HaltCount(w: World, f: Fetcher) {
    f.halts == HaltsUpTo(w, f.issued + if Counted(f) then 1 else 0)
  }

  ghost predicate FrontEnd(w: World, f: Fetcher) {
    (if f.half.First? then FrontFirst(w, f) else FrontSecond(w, f)) && HaltCount(w, f)
  }

  // ---------------------------------------------------------------- timing

  /** The instructions whose adjacency the reference machine predicts: an instruction that is
      not resolved in ID, behind a register write. */
  ghost predicate Predicted(w: World, k: nat) {
    && !Transfers(InstrAt(w, k))
    && At(w, k).past.prev1.Some?
    && Dest(At(w, k).past.prev1.value) != 0
  }

  ghost predicate Pair(w: World, newer: Option<Tag>, older: Option<Tag>) {
    newer.Some? && Predicted(w, newer.value.ord) ==> older.Some? == AdjacentAt(w, newer.value.ord)
  }

  predicate Streak(streak: nat, just: Option<Tag>, before: Option<Tag>) {
    just.None? && 1 <= streak && (streak == 2 ==> before.None?)
  }

  ghost predicate LateAt(w: World, k: nat) { Predicted(w, k) ==> !AdjacentAt(w, k) }

  ghost predicate FollowsAt(w: World, k: nat, just: Option<Tag>) {
    just.Some? == (k > 0 && !At(w, k).past.fired)
  }

  /** `stalled`: the next instruction has stalled; `flushed`: the last one has fired. */
  ghost predicate Issuing(w: World, k: nat, streak: nat, stalled: bool, straight: bool,
                          just: Option<Tag>, before: Option<Tag>) {
    && (if stalled then Streak(streak, just, before) && LateAt(w, k) && !Loses(w, k) else streak == 0)
    && (straight ==> FollowsAt(w, k, just))
  }

  ghost predicate Timing(w: World, f: Fetcher, streak: nat, v: Roles) {
    && Pair(w, v.n, v.x) && Pair(w, v.x, v.y)
    && streak <= 2
    && (if BeforeIssueOf(f)
        then Issuing(w, f.issued, streak, f.front.Stalled?, f.front.Straight?, v.x, v.y)
        else Issuing(w, f.issued, streak, f.idStall, !f.idStall && f.pcFlush <= 0, v.n, v.x))
  }

  /** The control transfers among the first k instructions. */
  function FiresUpTo(w: World, k: nat): nat {
    if k == 0 then 0 else FiresUpTo(w, k - 1) + if Fires(w.isa, At(w, k - 1)) then 1 else 0
  }

  /** Every cycle issues an instruction, waits, or pays for a transfer or for the boot. */
  ghost predicate Account(w: World, h: History, beforeIssue: bool, flush: bool) {
    && h.fires == FiresUpTo(w, h.issued)
    && h.waits <= 2 * h.issued + h.streak
    && (if beforeIssue then
          if h.front.Start? then h.cycles == 0 && h.issued == 0 && h.waits == 0 && h.fires == 0
          else h.cycles == 1 + h.issued + h.waits + h.fires - (if h.front.Flushing? then 1 else 0)
        else h.cycles == h.issued + h.waits + h.fires - (if flush then 1 else 0))
  }

  // ---------------------------------------------------------------- all together

  ghost predicate Back(w: World, m: Machine, v: Roles) {
    && RegsOk(w, m.sh.regs, Retired(m.hist.issued, v))
    && MemOk(w, m.sh.mem, Stored(m.hist.issued, v, BeforeDM(m.clock)))
    && NOk(w, m.sh.board, TaskN(m), v.x, m.clock.doneEX)
    && XOk(w, m.sh.board, TaskX(m), v.y, m.clock, m.lo.exOut)
    && YOk(w, TaskY(m), m.clock)
    && ZOk(w, TaskZ(m))
    && LastEX(m.lo.exTask, m.clock, v)
  }

  ghost predicate Inv(w: World, m: Machine) {
    var v := RolesOf(m);
    && |m.hist.races| + Count(v.n) == m.hist.issued
    && Order(w, m.hist.issued, v)
    && Ids(m.hist.topId, m.allocs, v)
    && Slots(m)
    && Back(w, m, v)
    && Scoreboard(w, m.sh.board, v, m.clock)
    && FrontEnd(w, FetcherOf(m))
    && Timing(w, FetcherOf(m), m.hist.streak, v)
    && Account(w, m.hist, BeforeIssue(m.clock), m.sh.pcFlush > 0)
  }
}
