/** How late an instruction can be: what has left ID is through WB three cycles later, and the
    n-th instruction is through WB after cycle 3n + t + 4, t being the transfers before it. */
module Deadlines {
  import opened Basics
  import opened Instructions
  import opened Reference
  import opened Pipeline
  import opened SequentialRun
  import opened PipelineInvariant
  import opened PipelineSteps
  import opened PipelineFront
  import opened PipelineIssue
  import opened PipelineSecondID
  import opened PipelineTheorems

  // ---------------------------------------------------------------- what a step does to the stages

  predicate Advances(m: Machine, m': Machine) {
    var v, v' := RolesOf(m), RolesOf(m');
    && m'.hist.cycles == m.hist.cycles && m.hist.issued <= m'.hist.issued
    && v'.x == v.x && v'.y == v.y && (v'.z == v.z || v'.z.None?)
    && (v'.n == v.n || (v'.n.Some? && v'.n.value.ord == m.hist.issued < m'.hist.issued))
  }

  lemma FirstAdvances(w: World, m: Machine, s: Stage)
    requires Inv(w, m) && m.clock.half.First? && !m.clock.Done(s)
    ensures Advances(m, Fire(w.isa, m, s))
  {
    hide Inv, RolesOf, FirstIF, FirstID, FirstEX, FirstDM, FirstWB, Slots, FetcherOf, BeforeIssue;
    Unfold(w, m, RolesOf(m));
    match s
    case IF => ShapeFirstIF(w.isa, m);
    case ID => ShapeFirstID(m);
    case EX => ShapeFirstEX(w.isa, m);
    case DM => ShapeFirstDM(w.isa, m);
    case WB => ShapeFirstWB(w.isa, m);
  }

  lemma IssueAdvances(w: World, m: Machine)
    requires Inv(w, m) && m.clock.half.Second? && !m.clock.doneID
    ensures Advances(m, Fire(w.isa, m, ID))
  {
    hide Inv, SecondID, Decide, RolesOf, At, FrontEnd, Order, Ids, Back, Scoreboard, Timing, Account, Slots, Captured;
    Unfold(w, m, RolesOf(m));
    FrontAtDecision(w, m);
    BubbleNeverWaits(w.isa, m);
    if !IsNextFront(m) {
      ShapeBubble(w.isa, m);
    } else if Decide(w.isa, m.sh, m.lo).wait {
      ShapeWait(w.isa, m);
    } else {
      IssuedTag(w, m);
      ShapeIssue(w.isa, m);
    }
  }

  lemma SecondAdvances(w: World, m: Machine, s: Stage)
    requires Inv(w, m) && m.clock.half.Second? && !m.clock.Done(s) && (s.IF? ==> m.lo.ifTask.Some?)
    ensures Advances(m, Fire(w.isa, m, s))
  {
    hide Inv, RolesOf, SecondIF, SecondID, SecondEX, SecondDM, SecondWB, Slots, FetcherOf, BeforeIssue;
    Unfold(w, m, RolesOf(m));
    match s
    case IF => ShapeSecondIF(m);
    case ID => IssueAdvances(w, m);
    case EX => ShapeSecondEX(m);
    case DM => ShapeSecondDM(w.isa, m);
    case WB => ShapeSecondWB(m);
  }

  // ---------------------------------------------------------------- nobody falls behind

  predicate From(o: Option<Tag>, k: nat) { o.Some? ==> o.value.ord >= k }

  /** d cycles after the edge at which k instructions had left ID. */
  predicate Passed(v: Roles, k: nat, d: nat) {
    && From(v.n, k)
    && (d >= 1 ==> From(v.x, k))
    && (d >= 2 ==> From(v.y, k))
    && (d >= 3 ==> From(v.z, k))
  }

  predicate Behind(m: Machine, k: nat, c: nat) {
    k <= m.hist.issued && c <= m.hist.cycles && Passed(RolesOf(m), k, m.hist.cycles - c)
  }

  lemma AdvanceKeeps(m: Machine, m': Machine, k: nat, c: nat)
    requires Behind(m, k, c) && Advances(m, m')
    ensures Behind(m', k, c)
  {
    hide RolesOf;
  }

  lemma EdgeKeeps(w: World, m: Machine, k: nat, c: nat)
    requires Inv(w, m) && Behind(m, k, c) && m.clock.AllDone()
    ensures Behind(Edge(m), k, c)
  {
    hide Inv, Slots, TaskN, TaskX, TaskY, TaskZ;
    Unfold(w, m, RolesOf(m));
    if m.clock.half.First? { ShapeRising(m); } else { ShapeFalling(m); }
    hide RolesOf;
  }

  lemma NextKeeps(w: World, m: Machine, m': Machine, k: nat, c: nat)
    requires Inv(w, m) && Pipeline.Next(w.isa, false, m, m') && Behind(m, k, c)
    ensures Behind(m', k, c)
  {
    hide Inv, Behind, Fire, Edge, Overlap;
    if s: Stage :| CanFire(false, m, s) && m' == Fire(w.isa, m, s) {
      FireKeeps(w, m, s, k, c);
    } else if s: Stage :| CanOverlap(false, m, s) && m' == Overlap(Fire(w.isa, m, s)) {
      FireKeeps(w, m, s, k, c);
      OverlapKeeps(Fire(w.isa, m, s), k, c);
    } else {
      EdgeKeeps(w, m, k, c);
    }
  }

  lemma FireKeeps(w: World, m: Machine, s: Stage, k: nat, c: nat)
    requires Inv(w, m) && CanFire(false, m, s) && Behind(m, k, c)
    ensures Behind(Fire(w.isa, m, s), k, c)
  {
    hide Inv, Behind, Fire, Advances;
    if m.clock.half.First? { FirstAdvances(w, m, s); } else { SecondAdvances(w, m, s); }
    AdvanceKeeps(m, Fire(w.isa, m, s), k, c);
  }

  lemma OverlapKeeps(m: Machine, k: nat, c: nat)
    requires Behind(m, k, c)
    ensures Behind(Overlap(m), k, c)
  {
    hide Overlap;
    ShapeOverlap(m);
    SameTasks(m, Overlap(m));
    hide RolesOf;
  }

  lemma {:induction false} NobodyFallsBehind(isa: Isa, a0: Arch, trace: seq<Machine>, i: nat, j: nat)
    requires RunFrom(isa, a0, trace) && i <= j < |trace| && trace[i].clock == FIRST_HALF
    ensures Behind(trace[j], trace[i].hist.issued, trace[i].hist.cycles)
  {
    hide Inv, Agrees, Boot, RacesOf, Pipeline.Next, Init, RolesOf, Behind;
    if i == j {
      NobodyYet(trace[i]);
    } else {
      NobodyFallsBehind(isa, a0, trace, i, j - 1);
      InvariantHolds(isa, a0, trace, j - 1);
      NextKeeps(WorldOf(isa, a0, trace), trace[j - 1], trace[j], trace[i].hist.issued, trace[i].hist.cycles);
    }
  }

  lemma NobodyYet(m: Machine)
    requires m.clock == FIRST_HALF
    ensures Behind(m, m.hist.issued, m.hist.cycles)
  {
    hide TaskX, TaskY, TaskZ;
  }

  lemma PassedIsRetired(w: World, m: Machine, k: nat)
    requires Order(w, m.hist.issued, RolesOf(m)) && k <= m.hist.issued && Passed(RolesOf(m), k, 3)
    ensures k <= RetiredAt(m)
  {
    hide At, InstrAt, RolesOf;
  }

  lemma BehindPassed(m: Machine, k: nat, c: nat)
    requires Behind(m, k, c) && c + 3 <= m.hist.cycles
    ensures k <= m.hist.issued && Passed(RolesOf(m), k, 3)
  {
    hide RolesOf;
  }

  /** Three cycles after an instruction has left ID it has retired. */
  lemma ThreeMoreCycles(isa: Isa, a0: Arch, trace: seq<Machine>, i: nat, j: nat)
    requires RunFrom(isa, a0, trace) && i <= j < |trace| && trace[i].clock == FIRST_HALF
    requires trace[i].hist.cycles + 3 <= trace[j].hist.cycles
    ensures trace[i].hist.issued <= RetiredAt(trace[j])
  {
    hide Inv, Agrees, RunFrom, WorldOf, Order, Ids, Slots, Back, Scoreboard, FrontEnd, Timing, Account, RolesOf,
         RetiredAt, Behind;
    NobodyFallsBehind(isa, a0, trace, i, j);
    InvariantHolds(isa, a0, trace, j);
    var w := WorldOf(isa, a0, trace);
    BehindPassed(trace[j], trace[i].hist.issued, trace[i].hist.cycles);
    Unfold(w, trace[j], RolesOf(trace[j]));
    PassedIsRetired(w, trace[j], trace[i].hist.issued);
  }

  // ---------------------------------------------------------------- deadlines

  /** Every cycle has had its edge. */
  lemma {:induction false} EdgeOfCycle(isa: Isa, a0: Arch, trace: seq<Machine>, j: nat, c: nat) returns (i: nat)
    requires RunFrom(isa, a0, trace) && j < |trace| && c <= trace[j].hist.cycles
    ensures i <= j && trace[i].clock == FIRST_HALF && trace[i].hist.cycles == c
  {
    hide Inv, Agrees, Boot, RacesOf, Fire, Init, Overlap;
    if j == 0 {
      i := 0;
      FreshClock(a0);
    } else if c <= trace[j - 1].hist.cycles {
      i := EdgeOfCycle(isa, a0, trace, j - 1, c);
    } else {
      i := j;
      var m, m' := trace[j - 1], trace[j];
      assert Pipeline.Next(isa, false, m, m');
      InvariantHolds(isa, a0, trace, j - 1);
      if s: Stage :| CanFire(false, m, s) && m' == Fire(isa, m, s) {
        FireCycles(WorldOf(isa, a0, trace), m, s);
      } else if s: Stage :| CanOverlap(false, m, s) && m' == Overlap(Fire(isa, m, s)) {
        FireCycles(WorldOf(isa, a0, trace), m, s);
        ShapeOverlap(Fire(isa, m, s));
      }
    }
  }

  lemma FreshClock(a0: Arch)
    ensures var m := Init(a0.pc, a0.regs, a0.mem); m.clock == FIRST_HALF && m.hist.cycles == 0
  {
  }

  lemma FireCycles(w: World, m: Machine, s: Stage)
    requires Inv(w, m) && CanFire(false, m, s)
    ensures Fire(w.isa, m, s).hist.cycles == m.hist.cycles
  {
    hide Inv, Fire, RolesOf;
    if m.clock.half.First? { FirstAdvances(w, m, s); } else { SecondAdvances(w, m, s); }
  }

  lemma {:induction false} FiresGrow(w: World, k: nat, n: nat)
    requires k <= n
    ensures FiresUpTo(w, k) <= FiresUpTo(w, n)
  {
    hide Fires, At, Run;
    if k < n { FiresGrow(w, k, n - 1); }
  }

  /** After cycle 3n + t + 4 the first n instructions have retired, where t counts the control
      transfers among them. */
  lemma RetiresByDeadline(isa: Isa, a0: Arch, trace: seq<Machine>, j: nat, n: nat)
    requires RunFrom(isa, a0, trace) && j < |trace|
    requires trace[j].hist.cycles >= 3 * n + FiresUpTo(WorldOf(isa, a0, trace), n) + 4
    ensures n <= RetiredAt(trace[j])
  {
    hide Good, RunFrom, WorldOf, FiresUpTo, RetiredAt;
    var w := WorldOf(isa, a0, trace);
    var i := EdgeOfCycle(isa, a0, trace, j, trace[j].hist.cycles - 3);
    InvariantHolds(isa, a0, trace, i);
    GoodProgress(w, trace[i]);
    if trace[i].hist.issued < n { FiresGrow(w, trace[i].hist.issued, n); }
    ThreeMoreCycles(isa, a0, trace, i, j);
  }
}
