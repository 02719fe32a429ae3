/** The whole processor: the five threads with their control, the machine that they work on and
    the queues that they report to, from boot until they have left.

    A thread is where `Shutdown` says; the two halves of its main loop are the steps of `Pipeline`.
    A thread that has left its main loop still goes to the barriers, but touches nothing. */
module Processor {
  import opened Basics
  import opened Instructions
  import opened Reference
  import opened Pipeline
  import opened Reports
  import Shutdown

  type Index = Shutdown.Index

  type Place = Shutdown.Place

  /** A thread, the HALT flag of the task that it has taken, and what it has found out. */
  datatype Ctl = Ctl(place: Place, halt: bool, dying: bool, ended: bool)

  const FRESH := Ctl(Shutdown.Top, false, false, false)

  type Threads = s: seq<Ctl> | |s| == Shutdown.THREAD_COUNT witness seq(Shutdown.THREAD_COUNT, _ => FRESH)

  type Messages = s: seq<seq<Message>> | |s| == Shutdown.THREAD_COUNT witness seq(Shutdown.THREAD_COUNT, _ => [])

  datatype System = System(
    threads: Threads, m: Machine,
    dead: nat,      // DeadThreadNum
    counter: nat,   // halt_counter of IF
    messages: Messages, regsQueue: seq<RegsDiff>, pcQueue: seq<Word>)

  function StageOf(i: Index): Stage {
    match i case 0 => IF case 1 => ID case 2 => EX case 3 => DM case 4 => WB
  }

  predicate IsHalt(t: Task) { t.instr.kind.Halt? }

  /** The local variable `task_obj` of thread i. */
  function TaskAt(m: Machine, i: Index): Task {
    match i
    case 0 => m.lo.ifTask.GetOr(BUBBLE)
    case 1 => m.lo.idTask
    case 2 => m.lo.exTask
    case 3 => m.lo.dmTask
    case 4 => m.lo.wbTask
  }

  /** A thread that leaves its main loop works on no task any more. */
  function DropTask(m: Machine, i: Index): Machine {
    match i
    case 0 => m
    case 1 => m.(lo := m.lo.(idTask := BUBBLE))
    case 2 => m.(lo := m.lo.(exTask := BUBBLE))
    case 3 => m.(lo := m.lo.(dmTask := BUBBLE))
    case 4 => m.(lo := m.lo.(wbTask := BUBBLE))
  }

  /** Thread i passes its fence without having done anything. */
  function Skip(m: Machine, i: Index): Machine { m.(clock := m.clock.Mark(StageOf(i))) }

  /** Thread i goes up to its fence. */
  function Do(isa: Isa, m: Machine, i: Index): Machine {
    if i == 0 && m.clock.half.Second? && m.lo.ifTask.None? then Skip(m, i) else Fire(isa, m, StageOf(i))
  }

  function Put(s: System, i: Index, t: Ctl): System { s.(threads := s.threads[i := t]) }

  function Say(s: System, i: Index, said: seq<Message>): System {
    s.(messages := s.messages[i := s.messages[i] + said])
  }

  /** IF, after the falling edge. */
  function ReportIF(s: System, text: string): System {
    var t := s.threads[0];
    var n := s.counter + if t.halt && !(s.m.sh.ifStall || s.m.sh.pcFlush > 0) then 1 else 0;
    if t.halt && n >= 4 then
      var sh := UpdatePC(s.m.sh, true);
      Say(Put(s, 0, t.(place := Shutdown.Mortuary, dying := true, ended := true)), 0, [Line(text), End])
      .(m := s.m.(sh := sh), counter := n, dead := s.dead + 1, pcQueue := s.pcQueue + [sh.pc])
    else
      Say(Put(s, 0, t.(place := Shutdown.Top)), 0, [Line(text)]).(counter := n)
  }

  /** The others. */
  function ReportOther(s: System, i: Index, text: string): System {
    var t := s.threads[i];
    if t.dying then
      Say(Put(s, i, t.(place := Shutdown.Mortuary, ended := true)), i, [Line(text), End])
      .(m := DropTask(s.m, i), regsQueue := s.regsQueue + Difference(s.m, i, true))
    else
      Say(Put(s, i, t.(place := Shutdown.Top)), i, [Line(text)])
      .(regsQueue := s.regsQueue + Difference(s.m, i, false))
  }

  /** WB puts the register that it has modified into its queue. */
  function Difference(m: Machine, i: Index, last: bool): seq<RegsDiff> {
    if i == 4 then [DiffOf(m.hist.mod).(terminated := last)] else []
  }

  function Report(s: System, i: Index, text: string): System {
    if s.threads[i].ended then Put(s, i, s.threads[i].(place := Shutdown.Mortuary))
    else if i == 0 then ReportIF(s, text)
    else ReportOther(s, i, text)
  }

  /** Fetch, or take the task of the stage register, and work up to the rising edge. */
  function Take(isa: Isa, s: System, i: Index): System {
    var m := Do(isa, s.m, i);
    Put(s, i, s.threads[i].(place := Shutdown.AtRising, halt := IsHalt(TaskAt(m, i))))
    .(m := m, pcQueue := if i == 0 then s.pcQueue + [m.sh.pc] else s.pcQueue)
  }

  /** The test of the mortuary loop. */
  function LookAround(s: System, i: Index): System {
    if s.dead < Shutdown.THREAD_COUNT
    then Put(s, i, s.threads[i].(place := Shutdown.AtRising)).(m := Skip(s.m, i))
    else Put(s, i, s.threads[i].(place := Shutdown.Exited))
  }

  /** From the rising edge to the falling edge. */
  function Work(isa: Isa, s: System, i: Index): System {
    if s.threads[i].ended
    then Put(s, i, s.threads[i].(place := Shutdown.AtFalling)).(m := Skip(s.m, i))
    else Put(s, i, s.threads[i].(place := Shutdown.Tally)).(m := Do(isa, s.m, i))
  }

  /** ID, EX, DM and WB count a HALT. */
  function Count(s: System, i: Index): System {
    var t := s.threads[i];
    if i != 0 && t.halt
    then Put(s, i, t.(place := Shutdown.AtFalling, dying := true)).(dead := s.dead + 1)
    else Put(s, i, t.(place := Shutdown.AtFalling))
  }

  function Move(isa: Isa, s: System, i: Index, text: string): System {
    match s.threads[i].place
    case PostEdge => Report(s, i, text)
    case Top => Take(isa, s, i)
    case Mortuary => LookAround(s, i)
    case Work => Work(isa, s, i)
    case Tally => Count(s, i)
    case _ => s
  }

  predicate AllAt(s: System, p: Place) { forall i: Index :: s.threads[i].place == p }

  function AllTo(s: System, p: Place): System {
    s.(threads := seq(Shutdown.THREAD_COUNT, i requires 0 <= i < Shutdown.THREAD_COUNT => s.threads[i].(place := p)))
  }

  /** A barrier lets go. */
  function Rise(s: System): System { AllTo(s, Shutdown.Work).(m := Edge(s.m)) }

  function Fall(s: System): System { AllTo(s, Shutdown.PostEdge).(m := Edge(s.m)) }

  predicate CanMove(s: System, i: Index) { !Shutdown.Waits(s.threads[i].place) }

  /** ID or EX works while the other one is at it. */
  predicate WorksAlong(s: System, i: Index) {
    (i == 1 || i == 2) && s.threads[i].place.Work? && !s.threads[i].ended
  }

  function Together(s: System): System { s.(m := Overlap(s.m)) }

  ghost predicate Next(isa: Isa, s: System, s': System) {
    || (exists i: Index, text: string :: CanMove(s, i) && s' == Move(isa, s, i, text))
    || (exists i: Index :: WorksAlong(s, i) && s' == Together(Move(isa, s, i, "")))
    || (AllAt(s, Shutdown.AtRising) && s' == Rise(s))
    || (AllAt(s, Shutdown.AtFalling) && s' == Fall(s))
  }

  /** Nobody can move: the run is over, or stuck. */
  ghost predicate Final(isa: Isa, s: System) { forall s' :: !Next(isa, s, s') }

  function Started(a0: Arch): System {
    System(seq(Shutdown.THREAD_COUNT, _ => FRESH), Init(a0.pc, a0.regs, a0.mem), 0, 0,
           seq(Shutdown.THREAD_COUNT, _ => []), [], [])
  }

  /** A run of the whole processor from boot, under any schedule. */
  ghost predicate Execution(isa: Isa, a0: Arch, trace: seq<System>) {
    && Boot(a0) && 0 < |trace| && trace[0] == Started(a0)
    && (forall j :: 0 <= j < |trace| - 1 ==> Next(isa, trace[j], trace[j + 1]))
  }
}
