/** What is conserved between IF and ID: fetches, cycles and flush tokens. */
module Accounts {
  import opened Basics
  import opened Instructions
  import opened Reference
  import opened Pipeline
  import opened SequentialRun
  import opened PipelineInvariant
  import opened PipelineSteps
  import opened PipelineFront
  import opened PipelineIssue
  import opened PipelineDecide
  import opened PipelineSecondID
  import opened PipelineTheorems

  function One(b: bool): nat { if b then 1 else 0 }

  /** IF fetches once a cycle, but keeps its task in the cycle after a stall of ID. */
  predicate Fetches(m: Machine) {
    m.allocs + m.hist.waits == m.hist.cycles +
      if m.clock.half.First? then One(m.hist.front.Stalled? || m.clock.doneIF)
      else 1 + One(m.clock.doneID && m.lo.idStall)
  }

  /** The tokens that IF and ID have consumed in this cycle, if ID has had a task to take. */
  function Consumed(c: Clock): nat {
    if c.half.First? then One(c.doneIF) + One(c.doneID) else 2
  }

  /** `PcFlush`, and what has been taken from it since boot. Only a transfer, or a cycle in which ID takes
      no task, makes it grow. */
  function Tokens(m: Machine): int { m.sh.pcFlush + 2 * m.hist.cycles + Consumed(m.clock) }

  /** The cycles in which ID has taken no task: the first one, and those that follow a stall. */
  function Skips(m: Machine): int {
    var before := if m.clock.half.First? then !m.clock.doneID && m.hist.front.Stalled?
                  else m.clock.doneID && m.lo.idStall;
    if m.clock.half.First? && !m.clock.doneID && m.hist.front.Start? then 0
    else 1 + m.hist.waits - One(before)
  }

  predicate Straightforward(m: Machine) { m.hist.fires == 0 ==> Tokens(m) == Skips(m) }

  // ---------------------------------------------------------------- every step keeps the accounts

  /** What the accounts look at. */
  predicate SameCounts(m: Machine, m': Machine) {
    && m'.allocs == m.allocs && m'.hist == m.hist.(halts := m'.hist.halts, mod := m'.hist.mod)
    && m'.sh.pcFlush == m.sh.pcFlush && m'.lo.idStall == m.lo.idStall
  }

  lemma OthersCount(isa: Isa, m: Machine, s: Stage)
    requires s.EX? || s.DM? || s.WB? || (s.IF? && m.clock.half.Second? && m.lo.ifTask.Some?)
    ensures var m' := Fire(isa, m, s);
      && SameCounts(m, m') && m'.clock == m.clock.Mark(s)
      && Fetches(m') == Fetches(m) && Tokens(m') == Tokens(m) && Straightforward(m') == Straightforward(m)
  {
    hide Compute, ResetTo, WrittenValue, AddressOf;
  }

  lemma FirstIFCounts(w: World, m: Machine)
    requires FrontEnd(w, FetcherOf(m)) && m.clock.half.First? && !m.clock.doneIF
    ensures var m' := Fire(w.isa, m, IF);
      && (Fetches(m) ==> Fetches(m')) && Tokens(m') == Tokens(m) && (Straightforward(m) ==> Straightforward(m'))
  {
    hide At, Captured, HoldsNext, HaltCount, FetchOf, Counts, Get;
  }

  /** What ID takes from the tokens in its first half. */
  lemma FirstIDTokens(m: Machine)
    ensures var m' := FirstID(m); var f := FetcherOf(m);
      m' == m.(sh := m'.sh, lo := m'.lo) && m'.lo.idStall == m.lo.idStall &&
      m'.sh.pcFlush == PickFetcher(f).pcFlush
  {
    hide PickFetcher, CaptureID, PickID;
    ShapePick(m);
    CaptureSpec(PickID(m));
    FetcherPick(m);
  }

  lemma FirstIDCounts(w: World, m: Machine)
    requires FrontEnd(w, FetcherOf(m)) && m.clock.half.First? && !m.clock.doneID
    requires Account(w, m.hist, true, m.sh.pcFlush > 0)
    ensures var m' := Fire(w.isa, m, ID);
      && (Fetches(m) ==> Fetches(m')) && Tokens(m) <= Tokens(m') && (Straightforward(m) ==> Straightforward(m'))
  {
    hide FirstID, At, Captured, HoldsNext, HaltCount, FiresUpTo;
    FirstIDTokens(m);
  }

  lemma BubbleCounts(isa: Isa, m: Machine)
    requires m.clock.half.Second? && !m.clock.doneID && Slots(m) && m.lo.idTask == BUBBLE
    ensures var m' := Fire(isa, m, ID);
      && (Fetches(m) ==> Fetches(m')) && Tokens(m) <= Tokens(m') && (Straightforward(m) ==> Straightforward(m'))
  {
    hide SecondID, Slots, RolesOf, TaskN, TaskX, TaskY, TaskZ;
    ShapeBubble(isa, m);
  }

  lemma WaitCounts(isa: Isa, m: Machine)
    requires m.clock.half.Second? && !m.clock.doneID && Slots(m) && Decide(isa, m.sh, m.lo).wait
    ensures var m' := Fire(isa, m, ID);
      && (Fetches(m) ==> Fetches(m')) && Tokens(m) <= Tokens(m') && (Straightforward(m) ==> Straightforward(m'))
  {
    hide SecondID, Slots, RolesOf, TaskN, TaskX, TaskY, TaskZ, Decide;
    ShapeWait(isa, m);
  }

  lemma IssueIsCounted(isa: Isa, m: Machine)
    requires m.clock.half.Second? && !m.clock.doneID && Slots(m) && m.sh.pcFlush <= 0
    requires !Decide(isa, m.sh, m.lo).wait && Issued(isa, m).fetched
    ensures var m' := Fire(isa, m, ID);
      && (Fetches(m) ==> Fetches(m')) && Tokens(m) <= Tokens(m') && (Straightforward(m) ==> Straightforward(m'))
  {
    hide SecondID, Slots, RolesOf, TaskN, TaskX, TaskY, TaskZ, Decide, ReserveDest, Issued;
    ShapeIssue(isa, m);
    TransferSpec(isa, m.sh, Decide(isa, m.sh, m.lo).jump);
    hide Transfer;
  }

  lemma SecondIDCounts(w: World, m: Machine)
    requires Inv(w, m) && m.clock.half.Second? && !m.clock.doneID
    ensures var m' := Fire(w.isa, m, ID);
      && (Fetches(m) ==> Fetches(m')) && Tokens(m) <= Tokens(m') && (Straightforward(m) ==> Straightforward(m'))
  {
    hide Inv, Decide, RolesOf, FrontEnd, Captured, HoldsNext, Fire, Fetches, Tokens, Straightforward, Issued, Slots,
         FetcherOf;
    Unfold(w, m, RolesOf(m));
    FrontAtDecision(w, m);
    if !IsNextFront(m) { BubbleCounts(w.isa, m); }
    else if Decide(w.isa, m.sh, m.lo).wait { WaitCounts(w.isa, m); }
    else {
      IssuedTag(w, m);
      IssueIsCounted(w.isa, m);
    }
  }

  lemma FireCounts(w: World, m: Machine, s: Stage)
    requires Inv(w, m) && CanFire(false, m, s)
    ensures var m' := Fire(w.isa, m, s);
      && (Fetches(m) ==> Fetches(m')) && Tokens(m) <= Tokens(m') && (Straightforward(m) ==> Straightforward(m'))
  {
    hide Inv, Fire, Fetches, Tokens, Straightforward, FrontEnd, RolesOf;
    Unfold(w, m, RolesOf(m));
    if s.ID? {
      if m.clock.half.First? { FirstIDCounts(w, m); } else { SecondIDCounts(w, m); }
    } else if s.IF? && m.clock.half.First? {
      FirstIFCounts(w, m);
    } else {
      OthersCount(w.isa, m, s);
    }
  }

  lemma EdgeCounts(w: World, m: Machine)
    requires Inv(w, m) && m.clock.AllDone()
    ensures Tokens(Edge(m)) == Tokens(m) && (Fetches(m) ==> Fetches(Edge(m)))
    ensures Straightforward(m) ==> Straightforward(Edge(m))
  {
    hide RaceOf, Order, Ids, Slots, Back, Scoreboard, Timing, At, Captured, HoldsNext, HaltCount, FetchOf, RolesOf;
  }

  lemma NextCounts(w: World, m: Machine, m': Machine)
    requires Inv(w, m) && Pipeline.Next(w.isa, false, m, m')
    ensures (Fetches(m) ==> Fetches(m')) && Tokens(m) <= Tokens(m') && (Straightforward(m) ==> Straightforward(m'))
  {
    hide Inv, Fire, Edge, Overlap;
    if s: Stage :| CanFire(false, m, s) && m' == Fire(w.isa, m, s) {
      FireCounts(w, m, s);
    } else if s: Stage :| CanOverlap(false, m, s) && m' == Overlap(Fire(w.isa, m, s)) {
      FireCounts(w, m, s);
      ShapeOverlap(Fire(w.isa, m, s));
    } else {
      EdgeCounts(w, m);
    }
  }

  lemma {:induction false} CountsHold(isa: Isa, a0: Arch, trace: seq<Machine>, j: nat)
    requires RunFrom(isa, a0, trace) && j < |trace|
    ensures Fetches(trace[j]) && Straightforward(trace[j])
  {
    hide Inv, Agrees, RacesOf, Boot, Pipeline.Next, Fetches, Straightforward, Init;
    if j == 0 {
      NothingCounted(a0);
    } else {
      CountsHold(isa, a0, trace, j - 1);
      InvariantHolds(isa, a0, trace, j - 1);
      NextCounts(WorldOf(isa, a0, trace), trace[j - 1], trace[j]);
    }
  }

  lemma NothingCounted(a0: Arch)
    ensures var m := Init(a0.pc, a0.regs, a0.mem); Fetches(m) && Straightforward(m) && Tokens(m) == 0
  {
    hide FreeBoard;
  }

  // ---------------------------------------------------------------- fetches and cycles

  /** Right-path tasks ahead of ID at a falling edge. */
  function AheadOfID(m: Machine): nat { One(NextFetched(m)) + One(m.lo.idStall) }

  predicate NextFetched(m: Machine) { m.sh.ifId.Some? && m.sh.pcFlush <= 0 }

  /** Every task that IF has allocated has been issued, is ahead of ID on the right path, or is the one
      task on the wrong path that belongs to a transfer: one is squashed for each, and nothing else. */
  lemma FetchesAreCounted(isa: Isa, a0: Arch, trace: seq<Machine>, j: nat)
    requires RunFrom(isa, a0, trace) && j < |trace| && trace[j].clock == FIRST_HALF
    ensures var m := trace[j]; var n := m.hist.issued;
      m.allocs == n + FiresUpTo(WorldOf(isa, a0, trace), n) + AheadOfID(m)
  {
    hide Inv, Agrees, RacesOf, Boot, Execution, Init, RolesOf, Order, Ids, Slots, Back, Scoreboard, Timing, At,
         Captured, HoldsNext, HaltCount, FiresUpTo, WorldOf, FetchOf;
    CountsHold(isa, a0, trace, j);
    InvariantHolds(isa, a0, trace, j);
    Unfold(WorldOf(isa, a0, trace), trace[j], RolesOf(trace[j]));
    FetchedIsThere(WorldOf(isa, a0, trace), trace[j]);
  }

  lemma FetchedIsThere(w: World, m: Machine)
    requires FrontEnd(w, FetcherOf(m)) && m.clock == FIRST_HALF
    ensures NextFetched(m) == (m.hist.front.Straight? || m.hist.front.Stalled?)
    ensures m.lo.idStall == m.hist.front.Stalled?
  {
    hide At, Captured, HoldsNext, HaltCount;
  }

  /** Every cycle has issued an instruction, was a stall, or belongs to a transfer; one more has fetched
      the next instruction. */
  lemma CyclesAreCounted(isa: Isa, a0: Arch, trace: seq<Machine>, j: nat)
    requires RunFrom(isa, a0, trace) && j < |trace| && trace[j].clock == FIRST_HALF
    ensures var m := trace[j]; var n := m.hist.issued;
      m.hist.cycles == n + m.hist.waits + FiresUpTo(WorldOf(isa, a0, trace), n) + One(NextFetched(m))
  {
    hide Inv, Agrees, RacesOf, Boot, Execution, Init, RolesOf, Order, Ids, Slots, Back, Scoreboard, Timing, At,
         Captured, HoldsNext, HaltCount, FiresUpTo, WorldOf, FetchOf, FrontEnd;
    InvariantHolds(isa, a0, trace, j);
    Unfold(WorldOf(isa, a0, trace), trace[j], RolesOf(trace[j]));
    FetchedIsThere(WorldOf(isa, a0, trace), trace[j]);
  }

  // ---------------------------------------------------------------- the flush counter

  lemma {:induction false} TokensGrow(isa: Isa, a0: Arch, trace: seq<Machine>, i: nat, j: nat)
    requires RunFrom(isa, a0, trace) && i <= j < |trace|
    ensures Tokens(trace[i]) <= Tokens(trace[j])
  {
    hide Inv, Agrees, RacesOf, Boot, Pipeline.Next, Tokens, Init;
    if i < j {
      TokensGrow(isa, a0, trace, i, j - 1);
      InvariantHolds(isa, a0, trace, j - 1);
      NextCounts(WorldOf(isa, a0, trace), trace[j - 1], trace[j]);
    }
  }

  lemma FlushIsSmall(w: World, m: Machine)
    requires FrontEnd(w, FetcherOf(m))
    ensures m.sh.pcFlush <= 2
  {
    hide At, Captured, HoldsNext, HaltCount, FetchOf;
  }

  /** `PcFlush` fits in 32 bits for as long as less than 2^30 cycles have passed since it was last
      not negative, as it is at boot and after every transfer. */
  lemma FlushCounterFits(isa: Isa, a0: Arch, trace: seq<Machine>, i: nat, j: nat)
    requires RunFrom(isa, a0, trace) && i <= j < |trace|
    requires 0 <= trace[i].sh.pcFlush && trace[j].hist.cycles - trace[i].hist.cycles < 0x4000_0000
    ensures -0x8000_0000 <= trace[j].sh.pcFlush <= 2
  {
    hide Inv, Agrees, RacesOf, Boot, Execution, Init, RolesOf, FrontEnd;
    TokensGrow(isa, a0, trace, i, j);
    InvariantHolds(isa, a0, trace, j);
    Unfold(WorldOf(isa, a0, trace), trace[j], RolesOf(trace[j]));
    FlushIsSmall(WorldOf(isa, a0, trace), trace[j]);
  }

  /** Without a transfer it falls by two in every cycle, but for the first one and the stalls. */
  lemma FlushCounterFalls(isa: Isa, a0: Arch, trace: seq<Machine>, j: nat)
    requires RunFrom(isa, a0, trace) && j < |trace| && trace[j].clock == FIRST_HALF
    requires trace[j].hist.fires == 0 && 0 < trace[j].hist.cycles
    ensures var m := trace[j];
      m.sh.pcFlush == 1 + m.hist.waits - One(m.lo.idStall) - 2 * m.hist.cycles
  {
    hide Inv, Agrees, RacesOf, Boot, Execution, Init, RolesOf, Order, Ids, Slots, Back, Scoreboard, Timing, At,
         Captured, HoldsNext, HaltCount, FiresUpTo, FetchOf, FrontEnd, WorldOf;
    CountsHold(isa, a0, trace, j);
    InvariantHolds(isa, a0, trace, j);
    Unfold(WorldOf(isa, a0, trace), trace[j], RolesOf(trace[j]));
    FetchedIsThere(WorldOf(isa, a0, trace), trace[j]);
  }
}
