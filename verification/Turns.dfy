/** Schedules as lists of turns: what a list does to the machine, and that fair lists make progress. */
module Turns {
  import opened Basics
  import opened Instructions
  import opened Reference
  import opened Pipeline
  import opened PipelineSteps
  import opened PipelineTheorems

  /** Whose turn it is. ID and EX may take theirs together with the other one. */
  datatype Turn = Turn(stage: Stage, together: bool)

  /** The stage goes up to its next fence, if it is not waiting there already. */
  function TakeTurn(isa: Isa, ordered: bool, m: Machine, t: Turn): Machine {
    if !CanFire(ordered, m, t.stage) then m
    else if t.together && CanOverlap(ordered, m, t.stage) then Overlap(Fire(isa, m, t.stage))
    else Fire(isa, m, t.stage)
  }

  /** The last one to come to the barrier lets all go on. */
  function PassBarrier(m: Machine): Machine { if m.clock.AllDone() then Edge(m) else m }

  function TakeTurns(isa: Isa, ordered: bool, m: Machine, turns: seq<Turn>): Machine {
    if turns == [] then m
    else PassBarrier(TakeTurn(isa, ordered, TakeTurns(isa, ordered, m, turns[..|turns| - 1]), turns[|turns| - 1]))
  }

  lemma ReachTurn(isa: Isa, a0: Arch, ordered: bool, m: Machine, t: Turn)
    requires Reachable(isa, a0, ordered, m)
    ensures Reachable(isa, a0, ordered, PassBarrier(TakeTurn(isa, ordered, m, t)))
  {
    hide Reachable, Fire, Overlap, Edge;
    if CanFire(ordered, m, t.stage) {
      ReachFire(isa, a0, ordered, m, t.stage);
      if t.together && CanOverlap(ordered, m, t.stage) { ReachOverlap(isa, a0, m, t.stage); }
    }
    var m1 := TakeTurn(isa, ordered, m, t);
    if m1.clock.AllDone() { ReachEdge(isa, a0, ordered, m1); }
  }

  lemma {:induction false} ReachTurns(isa: Isa, a0: Arch, ordered: bool, m: Machine, turns: seq<Turn>)
    requires Reachable(isa, a0, ordered, m)
    ensures Reachable(isa, a0, ordered, TakeTurns(isa, ordered, m, turns))
  {
    hide Reachable, TakeTurn, PassBarrier;
    if turns != [] {
      ReachTurns(isa, a0, ordered, m, turns[..|turns| - 1]);
      ReachTurn(isa, a0, ordered, TakeTurns(isa, ordered, m, turns[..|turns| - 1]), turns[|turns| - 1]);
    }
  }

  lemma {:induction false} TurnsInTwoParts(isa: Isa, ordered: bool, m: Machine, a: seq<Turn>, b: seq<Turn>)
    ensures TakeTurns(isa, ordered, m, a + b) == TakeTurns(isa, ordered, TakeTurns(isa, ordered, m, a), b)
    decreases |b|
  {
    hide TakeTurn, PassBarrier;
    if b == [] {
      assert a + b == a;
    } else {
      var k := |b| - 1;
      assert (a + b)[..|a + b| - 1] == a + b[..k];
      TurnsInTwoParts(isa, ordered, m, a, b[..k]);
    }
  }

  // ---------------------------------------------------------------- progress

  /** The half cycles that have been completed. */
  function HalvesOf(m: Machine): nat { 2 * m.hist.cycles + if m.clock.half.Second? then 1 else 0 }

  ghost predicate Mentions(turns: seq<Turn>, s: Stage) { exists i :: 0 <= i < |turns| && turns[i].stage == s }

  lemma FireKeepsTime(isa: Isa, m: Machine, s: Stage)
    requires s.IF? && m.clock.half.Second? ==> m.lo.ifTask.Some?
    ensures Fire(isa, m, s).hist.cycles == m.hist.cycles
    ensures m.lo.ifTask.Some? ==> Fire(isa, m, s).lo.ifTask.Some?
  {
    hide Decide, Compute, ReserveDest, Transfer, Capture, ResolvesRs, ResolvesRt, Counts, UpdatePC;
  }

  /** Its stage has passed its fence after a turn; no one goes back. */
  predicate GoesOn(m: Machine, m': Machine, s: Stage) {
    m'.hist.cycles == m.hist.cycles && (m'.clock == m.clock.Mark(s) || (m'.clock == m.clock && m.clock.Done(s)))
  }

  lemma TurnGoesOn(isa: Isa, a0: Arch, m: Machine, t: Turn)
    requires Reachable(isa, a0, false, m)
    ensures GoesOn(m, TakeTurn(isa, false, m, t), t.stage)
  {
    hide Reachable, Good, Fire, Overlap;
    if !m.clock.Done(t.stage) {
      ReachGood(isa, a0, false, m);
      if m.clock.half.Second? { HasFetched(WorldAt(isa, a0, m), m); }
      FireClock(isa, m, t.stage);
      FireKeepsTime(isa, m, t.stage);
      ShapeOverlap(Fire(isa, m, t.stage));
    }
  }

  /** A turn completes the half, or its stage has passed its fence. */
  lemma OneTurn(isa: Isa, a0: Arch, m: Machine, t: Turn)
    requires Reachable(isa, a0, false, m) && !m.clock.AllDone()
    ensures var m' := PassBarrier(TakeTurn(isa, false, m, t));
      && !m'.clock.AllDone()
      && (HalvesOf(m') == HalvesOf(m) + 1 ||
          (HalvesOf(m') == HalvesOf(m) && m'.clock.Done(t.stage) && forall s :: m.clock.Done(s) ==> m'.clock.Done(s)))
  {
    hide Reachable, TakeTurn, PassBarrier, Clock.Mark, Clock.Done, Clock.AllDone;
    TurnGoesOn(isa, a0, m, t);
    PassIs(TakeTurn(isa, false, m, t));
    MarkKeeps(m.clock, t.stage);
    NobodyDone();
  }

  lemma MarkKeeps(c: Clock, s: Stage)
    ensures c.Mark(s).Done(s) && c.Mark(s).half == c.half && forall t :: c.Done(t) ==> c.Mark(s).Done(t)
  {
  }

  lemma NobodyDone()
    ensures !FIRST_HALF.AllDone() && !SECOND_HALF.AllDone()
  {
  }

  lemma PassIs(m: Machine)
    ensures var m' := PassBarrier(m);
      if !m.clock.AllDone() then m' == m
      else if m.clock.half.First? then m'.clock == SECOND_HALF && m'.hist.cycles == m.hist.cycles
      else m'.clock == FIRST_HALF && m'.hist.cycles == m.hist.cycles + 1
  {
    hide RaceOf;
  }

  lemma {:induction false} SomeTurns(isa: Isa, a0: Arch, m: Machine, turns: seq<Turn>)
    requires Reachable(isa, a0, false, m) && !m.clock.AllDone()
    ensures var m' := TakeTurns(isa, false, m, turns);
      && !m'.clock.AllDone()
      && (HalvesOf(m') > HalvesOf(m) ||
          (HalvesOf(m') == HalvesOf(m) && (forall s :: Mentions(turns, s) ==> m'.clock.Done(s))))
  {
    hide Reachable, TakeTurn, PassBarrier, HalvesOf;
    if turns != [] {
      var k := |turns| - 1;
      SomeTurns(isa, a0, m, turns[..k]);
      ReachTurns(isa, a0, false, m, turns[..k]);
      var m1 := TakeTurns(isa, false, m, turns[..k]);
      OneTurn(isa, a0, m1, turns[k]);
      var m' := TakeTurns(isa, false, m, turns);
      if HalvesOf(m') == HalvesOf(m) {
        forall s | Mentions(turns, s) ensures m'.clock.Done(s) {
          var i :| 0 <= i < |turns| && turns[i].stage == s;
          if i < k { assert turns[..k][i].stage == s; assert Mentions(turns[..k], s); }
        }
      }
    }
  }

  /** A round gives every stage at least one turn. */
  ghost predicate Round(turns: seq<Turn>) { forall s: Stage :: Mentions(turns, s) }

  function Flatten(rounds: seq<seq<Turn>>): seq<Turn> {
    if rounds == [] then [] else Flatten(rounds[..|rounds| - 1]) + rounds[|rounds| - 1]
  }

  lemma RoundCompletes(isa: Isa, a0: Arch, m: Machine, turns: seq<Turn>)
    requires Reachable(isa, a0, false, m) && !m.clock.AllDone() && Round(turns)
    ensures var m' := TakeTurns(isa, false, m, turns); !m'.clock.AllDone() && HalvesOf(m') > HalvesOf(m)
  {
    hide Reachable, TakeTurns, HalvesOf, Mentions;
    SomeTurns(isa, a0, m, turns);
    var m' := TakeTurns(isa, false, m, turns);
    assert Mentions(turns, IF) && Mentions(turns, ID) && Mentions(turns, EX) && Mentions(turns, DM) &&
           Mentions(turns, WB);
  }

  /** Every round completes a half cycle, whatever the order and the overlaps in it: 2c rounds take the machine
      at least c cycles further. */
  lemma {:induction false} RoundsMakeProgress(isa: Isa, a0: Arch, m: Machine, rounds: seq<seq<Turn>>)
    requires Reachable(isa, a0, false, m) && !m.clock.AllDone() && forall r :: r in rounds ==> Round(r)
    ensures var m' := TakeTurns(isa, false, m, Flatten(rounds));
      !m'.clock.AllDone() && HalvesOf(m') >= HalvesOf(m) + |rounds|
  {
    hide Reachable, TakeTurns, HalvesOf, Round;
    if rounds == [] {
      assert TakeTurns(isa, false, m, []) == m by { NoTurns(isa, m); }
    } else {
      var k := |rounds| - 1;
      RoundsMakeProgress(isa, a0, m, rounds[..k]);
      ReachTurns(isa, a0, false, m, Flatten(rounds[..k]));
      TurnsInTwoParts(isa, false, m, Flatten(rounds[..k]), rounds[k]);
      RoundCompletes(isa, a0, TakeTurns(isa, false, m, Flatten(rounds[..k])), rounds[k]);
    }
  }

  lemma NoTurns(isa: Isa, m: Machine)
    ensures TakeTurns(isa, false, m, []) == m
  {
  }

  /** In terms of cycles, from an edge. */
  lemma RoundsCompleteCycles(isa: Isa, a0: Arch, m: Machine, rounds: seq<seq<Turn>>, c: nat)
    requires Reachable(isa, a0, false, m) && m.clock == FIRST_HALF
    requires |rounds| == 2 * c && forall r :: r in rounds ==> Round(r)
    ensures TakeTurns(isa, false, m, Flatten(rounds)).hist.cycles >= m.hist.cycles + c
  {
    hide Reachable, TakeTurns, Round;
    RoundsMakeProgress(isa, a0, m, rounds);
  }
}
