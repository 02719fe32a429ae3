/** How the five threads stop: HALT tasks, the counter `DeadThreadNum`, the mortuary loops and the
    two barriers, from the falling edge of the cycle in which IF counts its first HALT. From there on
    nothing is stalled or flushed, so the guard of the count is not in this picture; `AfterHalt`
    proves that the processor, which has the guard, does step by step what is described here. */
module Shutdown {
  import opened Basics

  const THREAD_COUNT: nat := 5

  datatype Place =
    | PostEdge   // after the falling edge: report, and leave the main loop or go on
    | Top        // top of the main loop
    | Mortuary   // about to compare DeadThreadNum with THREAD_COUNT
    | AtRising   // waiting at the rising edge
    | Work       // between the edges
    | Tally      // before the falling edge, where ID, EX, DM and WB count a HALT
    | AtFalling  // waiting at the falling edge
    | Exited

  /** A thread, the HALT flag of the task it works on, and what it has put into its message queue. */
  datatype Thread = Thread(place: Place, halt: bool, dying: bool, ended: bool, messages: nat)

  type Threads = s: seq<Thread> | |s| == THREAD_COUNT
    witness seq(THREAD_COUNT, _ => Thread(PostEdge, false, false, false, 0))

  /** The four stage registers; slot i is written by thread i and read by thread i + 1. A task
      is represented by its HALT flag. */
  type Slots = s: seq<Option<bool>> | |s| == 4 witness [None, None, None, None]

  /** Threads 0 to 4 are IF, ID, EX, DM and WB. `edges` and `second` are history. */
  datatype State = State(
    threads: Threads, slots: Slots,
    dead: nat,      // DeadThreadNum
    counter: nat,   // halt_counter of IF
    fetched: nat,   // words that IF has fetched, from the first HALT on
    pcs: nat,       // entries of PcQueue
    diffs: nat,     // entries of RegsQueue
    edges: nat, second: bool)

  type Index = i: nat | i < THREAD_COUNT

  predicate Waits(p: Place) { p.AtRising? || p.AtFalling? || p.Exited? }

  function Put(s: State, i: Index, t: Thread): State { s.(threads := s.threads[i := t]) }

  /** After the falling edge. */
  function Report(s: State, i: Index): State {
    var t := s.threads[i];
    if t.ended then Put(s, i, t.(place := Mortuary))
    else if i == 0 then
      var n := s.counter + if t.halt then 1 else 0;
      if t.halt && n >= 4
      then Put(s.(counter := n, dead := s.dead + 1, pcs := s.pcs + 1), i,
               t.(place := Mortuary, dying := true, ended := true, messages := t.messages + 1))
      else Put(s.(counter := n), i, t.(place := Top, messages := t.messages + 1))
    else
      Put(s.(diffs := s.diffs + if i == 4 then 1 else 0), i,
          t.(place := if t.dying then Mortuary else Top, ended := t.dying, messages := t.messages + 1))
  }

  /** Fetch, or take the task of the stage register; an empty register gives a NOP. */
  function Take(halts: nat -> bool, s: State, i: Index): State {
    var t := s.threads[i];
    if i == 0
    then Put(s.(fetched := s.fetched + 1, pcs := s.pcs + 1), i, t.(place := AtRising, halt := halts(s.fetched)))
    else Put(s.(slots := s.slots[i - 1 := None]), i, t.(place := AtRising, halt := s.slots[i - 1] == Some(true)))
  }

  function LookAround(s: State, i: Index): State {
    Put(s, i, s.threads[i].(place := if s.dead < THREAD_COUNT then AtRising else Exited))
  }

  /** Push the task, if the register is free. */
  function Push(s: State, i: Index): State {
    var t := s.threads[i];
    if t.ended then Put(s, i, t.(place := AtFalling))
    else
      Put(if i < 4 && s.slots[i].None? then s.(slots := s.slots[i := Some(t.halt)]) else s,
          i, t.(place := Tally))
  }

  function Count(s: State, i: Index): State {
    var t := s.threads[i];
    if i != 0 && t.halt
    then Put(s.(dead := s.dead + 1), i, t.(place := AtFalling, dying := true))
    else Put(s, i, t.(place := AtFalling))
  }

  function Move(halts: nat -> bool, s: State, i: Index): State {
    match s.threads[i].place
    case PostEdge => Report(s, i)
    case Top => Take(halts, s, i)
    case Mortuary => LookAround(s, i)
    case Work => Push(s, i)
    case Tally => Count(s, i)
    case _ => s
  }

  /** A barrier lets go when five threads wait at it. */
  predicate AllAt(s: State, p: Place) { forall i: Index :: s.threads[i].place == p }

  function AllTo(s: State, p: Place): State {
    s.(threads := seq(THREAD_COUNT, i requires 0 <= i < THREAD_COUNT => s.threads[i].(place := p)))
  }

  function Rise(s: State): State { AllTo(s, Work).(second := true) }

  function Fall(s: State): State { AllTo(s, PostEdge).(second := false, edges := s.edges + 1) }

  ghost predicate Next(halts: nat -> bool, s: State, s': State) {
    || (exists i: Index :: !Waits(s.threads[i].place) && s' == Move(halts, s, i))
    || (AllAt(s, AtRising) && s' == Rise(s))
    || (AllAt(s, AtFalling) && s' == Fall(s))
  }

  /** Nobody can move: the run is over, or stuck. */
  ghost predicate Final(halts: nat -> bool, s: State) { forall s' :: !Next(halts, s, s') }

  predicate AllExited(s: State) { AllAt(s, Exited) }

  /** The edge at which IF has its first HALT in hand and has pushed it; what is ahead is not. */
  predicate Start(s: State) {
    && AllAt(s, PostEdge)
    && (forall i: Index :: var t := s.threads[i];
          (i == 0 ==> t.halt) && !t.dying && !t.ended && t.messages == 0)
    && s.slots[0] == Some(true)
    && (forall i :: 1 <= i < 4 ==> s.slots[i] != Some(true))
    && s.dead == s.counter == s.pcs == s.diffs == s.edges == 0 && s.fetched == 1 && !s.second
  }

  ghost predicate Execution(halts: nat -> bool, trace: seq<State>) {
    && 0 < |trace| && Start(trace[0])
    && (forall j :: 0 <= j < |trace| - 1 ==> Next(halts, trace[j], trace[j + 1]))
  }

  /** The word after the first HALT and the two after that are HALT too. */
  predicate FourHalts(halts: nat -> bool) { halts(1) && halts(2) && halts(3) }

  // ---------------------------------------------------------------- the invariant

  /** Has thread i, at place p, reported after the last falling edge? */
  predicate Reported(s: State, p: Place) { s.second || !p.PostEdge? }

  predicate Taken(s: State, p: Place) { s.second || p.AtRising? }

  /** The first HALT is with thread i between edges i - 1 and i; there the thread counts itself. */
  predicate Later(s: State, i: Index, t: Thread)
    requires 1 <= i
  {
    && (!t.ended && Taken(s, t.place) ==> t.halt == (s.edges == i - 1))
    && t.dying == (s.edges >= i || (s.edges == i - 1 && s.second && t.place.AtFalling?))
    && t.ended == (s.edges > i || (s.edges == i && Reported(s, t.place)))
    && t.messages == (if s.edges > i then i + 1 else s.edges + if Reported(s, t.place) then 1 else 0)
  }

  /** IF counts one HALT after each edge, and itself after the fourth. */
  predicate First(s: State, t: Thread) {
    var n := if s.edges == 4 then 4 else s.edges + if Reported(s, t.place) then 1 else 0;
    && t.halt
    && t.dying == t.ended == (n == 4)
    && t.messages == n && s.counter == n
    && (n < 4 ==> s.fetched == s.pcs + 1 == 1 + s.edges + if Taken(s, t.place) then 1 else 0)
    && (n == 4 ==> s.fetched == 4 && s.pcs == 4)
  }

  predicate PlaceOk(s: State, t: Thread) {
    if s.second then (t.place.Work? || (t.place.Tally? && !t.ended) || t.place.AtFalling?) && s.edges < 4
    else if s.edges == 4 then t.place.PostEdge? || t.place.Mortuary? || t.place.Exited?
    else t.place.PostEdge? || t.place.AtRising? || (t.place.Top? && !t.ended) || (t.place.Mortuary? && t.ended)
  }

  /** The stage register in front of thread i: `free` is its content, p the place of thread i,
      before that of thread i - 1. */
  predicate SlotOk(edges: nat, second: bool, i: Index, free: Option<bool>, p: Place, before: Place) {
    && (edges == i - 1 && !second && !p.AtRising? ==> free == Some(true))
    && (edges == i - 2 && second && !before.Work? ==> free == Some(true))
    && (edges < i - 1 && !(edges == i - 2 && second && !before.Work?) ==> free != Some(true))
    && (edges <= i - 1 && second && before.Work? ==> free.None?)
    && (edges <= i - 1 && !second && p.AtRising? ==> free.None?)
  }

  predicate SlotAt(s: State, i: Index)
    requires 1 <= i
  {
    SlotOk(s.edges, s.second, i, s.slots[i - 1], s.threads[i].place, s.threads[i - 1].place)
  }

  function One(b: bool): nat { if b then 1 else 0 }

  function Dying(s: State): nat {
    One(s.threads[0].dying) + One(s.threads[1].dying) + One(s.threads[2].dying) +
    One(s.threads[3].dying) + One(s.threads[4].dying)
  }

  predicate ThreadAt(s: State, i: Index) {
    var t := s.threads[i];
    PlaceOk(s, t) && if i == 0 then First(s, t) else Later(s, i, t)
  }

  ghost predicate Inv(s: State) {
    && s.edges <= 4
    && (forall i: Index :: ThreadAt(s, i))
    && (forall i: Index :: 1 <= i ==> SlotAt(s, i))
    && s.dead == Dying(s)
    && s.diffs == s.threads[4].messages
  }

  lemma StartInv(s: State)
    requires Start(s)
    ensures Inv(s)
  {
  }

  /** What a move of thread i leaves alone. */
  predicate OnlyMoves(s: State, s': State, i: Index) {
    && s'.edges == s.edges && s'.second == s.second
    && (forall j: Index :: j != i ==> s'.threads[j] == s.threads[j])
    && (forall j :: 0 <= j < 4 && j != i && j != i - 1 ==> s'.slots[j] == s.slots[j])
    && (i != 0 ==> s'.counter == s.counter && s'.fetched == s.fetched && s'.pcs == s.pcs)
    && s'.dead + One(s.threads[i].dying) == s.dead + One(s'.threads[i].dying)
    && s'.diffs + s.threads[4].messages == s.diffs + s'.threads[4].messages
  }

  lemma KeepMove(s: State, s': State, i: Index)
    requires Inv(s) && OnlyMoves(s, s', i)
    requires ThreadAt(s', i)
    requires 1 <= i ==> SlotAt(s', i)
    requires i <= 3 ==> SlotAt(s', i + 1)
    ensures Inv(s')
  {
    forall j: Index ensures ThreadAt(s', j) {
      assert ThreadAt(s, j);
    }
    forall j: Index | 1 <= j ensures SlotAt(s', j) {
      if j != i && j != i + 1 { assert SlotAt(s, j); }
    }
    hide SlotAt, ThreadAt;
    DyingMoves(s, s', i);
  }

  lemma DyingMoves(s: State, s': State, i: Index)
    requires forall j: Index :: j != i ==> s'.threads[j] == s.threads[j]
    ensures Dying(s') + One(s.threads[i].dying) == Dying(s) + One(s'.threads[i].dying)
  {
    assert i == 0 || i == 1 || i == 2 || i == 3 || i == 4;
  }

  /** The neighbourhood of thread i. */
  lemma Around(s: State, i: Index)
    requires Inv(s)
    ensures ThreadAt(s, i) && s.edges <= 4
    ensures 1 <= i ==> SlotAt(s, i) && ThreadAt(s, i - 1)
    ensures i <= 3 ==> SlotAt(s, i + 1) && ThreadAt(s, i + 1)
  {
    hide ThreadAt, SlotAt;
  }

  lemma KeepReport(s: State, i: Index)
    requires Inv(s) && s.threads[i].place == PostEdge
    ensures Inv(Report(s, i))
  {
    hide Inv;
    Around(s, i);
    KeepMove(s, Report(s, i), i);
  }

  lemma KeepTake(halts: nat -> bool, s: State, i: Index)
    requires Inv(s) && s.threads[i].place == Top && FourHalts(halts)
    ensures Inv(Take(halts, s, i))
  {
    hide Inv;
    Around(s, i);
    KeepMove(s, Take(halts, s, i), i);
  }

  lemma KeepLookAround(s: State, i: Index)
    requires Inv(s) && s.threads[i].place == Mortuary
    ensures Inv(LookAround(s, i))
  {
    Around(s, i);
    DeadBeforeFour(s);
    hide Inv;
    KeepMove(s, LookAround(s, i), i);
  }

  /** Until the last edge somebody is missing; after it nobody is. */
  lemma DeadBeforeFour(s: State)
    requires Inv(s) && !s.second
    ensures s.dead < THREAD_COUNT <==> s.edges < 4
  {
    assert ThreadAt(s, 0) && ThreadAt(s, 1) && ThreadAt(s, 2) && ThreadAt(s, 3) && ThreadAt(s, 4);
  }

  lemma KeepPush(s: State, i: Index)
    requires Inv(s) && s.threads[i].place == Work
    ensures Inv(Push(s, i))
  {
    hide Inv;
    Around(s, i);
    KeepMove(s, Push(s, i), i);
  }

  lemma KeepCount(s: State, i: Index)
    requires Inv(s) && s.threads[i].place == Tally
    ensures Inv(Count(s, i))
  {
    hide Inv;
    Around(s, i);
    KeepMove(s, Count(s, i), i);
  }

  lemma KeepRise(s: State)
    requires Inv(s) && AllAt(s, AtRising)
    ensures Inv(Rise(s))
  {
    var s' := Rise(s);
    assert s.threads[0].place == AtRising && ThreadAt(s, 0);
    forall j: Index ensures ThreadAt(s', j) {
      assert s.threads[j].place == AtRising && ThreadAt(s, j);
    }
    forall j: Index | 1 <= j ensures SlotAt(s', j) {
      assert SlotAt(s, j) && s.threads[j].place == AtRising && s.threads[j - 1].place == AtRising;
    }
  }

  lemma KeepFall(s: State)
    requires Inv(s) && AllAt(s, AtFalling)
    ensures Inv(Fall(s))
  {
    var s' := Fall(s);
    assert s.threads[0].place == AtFalling && ThreadAt(s, 0);
    forall j: Index ensures ThreadAt(s', j) {
      assert s.threads[j].place == AtFalling && ThreadAt(s, j);
    }
    forall j: Index | 1 <= j ensures SlotAt(s', j) {
      assert SlotAt(s, j) && s.threads[j].place == AtFalling && s.threads[j - 1].place == AtFalling;
    }
  }

  lemma KeepStep(halts: nat -> bool, s: State, i: Index)
    requires Inv(s) && FourHalts(halts) && !Waits(s.threads[i].place)
    ensures Inv(Move(halts, s, i))
  {
    hide Inv, Report, Take, LookAround, Push, Count;
    match s.threads[i].place
    case PostEdge => KeepReport(s, i);
    case Top => KeepTake(halts, s, i);
    case Mortuary => KeepLookAround(s, i);
    case Work => KeepPush(s, i);
    case Tally => KeepCount(s, i);
    case _ =>
  }

  lemma KeepNext(halts: nat -> bool, s: State, s': State)
    requires Inv(s) && FourHalts(halts) && Next(halts, s, s')
    ensures Inv(s')
  {
    hide Inv, Move, FourHalts, Rise, Fall;
    if AllAt(s, AtRising) && s' == Rise(s) {
      KeepRise(s);
    } else if AllAt(s, AtFalling) && s' == Fall(s) {
      KeepFall(s);
    } else {
      var i: Index :| !Waits(s.threads[i].place) && s' == Move(halts, s, i);
      KeepStep(halts, s, i);
    }
  }

  lemma {:induction false} InvariantHolds(halts: nat -> bool, trace: seq<State>, j: nat)
    requires FourHalts(halts) && Execution(halts, trace) && j < |trace|
    ensures Inv(trace[j])
  {
    hide Inv, FourHalts, Next, Start;
    if j == 0 {
      StartInv(trace[0]);
    } else {
      InvariantHolds(halts, trace, j - 1);
      KeepNext(halts, trace[j - 1], trace[j]);
    }
  }

  // ---------------------------------------------------------------- safety

  /** `DeadThreadNum` is the number of threads that have counted themselves, each once. */
  lemma EachCountsOnce(halts: nat -> bool, trace: seq<State>, j: nat)
    requires FourHalts(halts) && Execution(halts, trace) && j < |trace|
    ensures trace[j].dead == Dying(trace[j]) <= THREAD_COUNT
  {
    hide FourHalts, Next, Start, Execution;
    InvariantHolds(halts, trace, j);
  }

  /** A thread that has left has not left anybody at a barrier: all have passed the last edge. */
  lemma NobodyWaitsForTheExited(halts: nat -> bool, trace: seq<State>, j: nat, i: Index, k: Index)
    requires FourHalts(halts) && Execution(halts, trace) && j < |trace|
    requires trace[j].threads[i].place.Exited?
    ensures trace[j].edges == 4
    ensures var p := trace[j].threads[k].place; p.PostEdge? || p.Mortuary? || p.Exited?
  {
    InvariantHolds(halts, trace, j);
    assert ThreadAt(trace[j], i) && ThreadAt(trace[j], k);
  }

  lemma WhenFive(s: State)
    requires Inv(s)
    ensures s.dead == THREAD_COUNT <==> s.edges == 4 || (s.edges == 3 && s.second && s.threads[4].place.AtFalling?)
  {
    assert ThreadAt(s, 0) && ThreadAt(s, 1) && ThreadAt(s, 2) && ThreadAt(s, 3) && ThreadAt(s, 4);
  }

  /** The count reaches five by WB, before a falling edge, and so no thread that has passed a
      falling edge can have missed it. */
  lemma LastIsWB(halts: nat -> bool, trace: seq<State>, j: nat)
    requires FourHalts(halts) && Execution(halts, trace) && j + 1 < |trace|
    requires trace[j].dead < THREAD_COUNT && trace[j + 1].dead == THREAD_COUNT
    ensures trace[j].threads[4].place.Tally? && trace[j].edges == 3 && trace[j].second
    ensures trace[j + 1] == Count(trace[j], 4)
  {
    hide FourHalts;
    var s, s' := trace[j], trace[j + 1];
    InvariantHolds(halts, trace, j);
    InvariantHolds(halts, trace, j + 1);
    WhenFive(s);
    WhenFive(s');
    assert ThreadAt(s, 4);
    assert Next(halts, s, s');
    FiveByTally(halts, s, s');
  }

  lemma FiveByTally(halts: nat -> bool, s: State, s': State)
    requires Next(halts, s, s') && ThreadAt(s, 4) && s.edges <= 4
    requires s.edges != 4 && !(s.edges == 3 && s.second && s.threads[4].place.AtFalling?)
    requires s'.edges == 4 || (s'.edges == 3 && s'.second && s'.threads[4].place.AtFalling?)
    ensures s.threads[4].place.Tally? && s.edges == 3 && s.second && s' == Count(s, 4)
  {
    if AllAt(s, AtFalling) && s' == Fall(s) {
    } else if AllAt(s, AtRising) && s' == Rise(s) {
    } else {
      var i: Index :| !Waits(s.threads[i].place) && s' == Move(halts, s, i);
      MoveKeeps(halts, s, i);
    }
  }

  // ---------------------------------------------------------------- termination

  function PlaceRank(p: Place): nat {
    match p
    case PostEdge => 7
    case Top => 6
    case Mortuary => 6
    case AtRising => 5
    case Work => 4
    case Tally => 3
    case AtFalling => 2
    case Exited => 0
  }

  function Rank(s: State): int {
    40 * (4 - s.edges)
    + PlaceRank(s.threads[0].place) + PlaceRank(s.threads[1].place) + PlaceRank(s.threads[2].place)
    + PlaceRank(s.threads[3].place) + PlaceRank(s.threads[4].place)
  }

  lemma StepsDecrease(halts: nat -> bool, s: State, s': State)
    requires Next(halts, s, s')
    ensures Rank(s') < Rank(s)
  {
    if AllAt(s, AtFalling) && s' == Fall(s) {
      PlacesAre(s, AtFalling);
    } else if AllAt(s, AtRising) && s' == Rise(s) {
      PlacesAre(s, AtRising);
    } else {
      var i: Index :| !Waits(s.threads[i].place) && s' == Move(halts, s, i);
      MoveDecreases(halts, s, i);
    }
  }

  lemma PlacesAre(s: State, p: Place)
    requires AllAt(s, p)
    ensures s.threads[0].place == p && s.threads[1].place == p && s.threads[2].place == p
    ensures s.threads[3].place == p && s.threads[4].place == p
  {
  }

  lemma MoveKeeps(halts: nat -> bool, s: State, i: Index)
    ensures var s' := Move(halts, s, i);
      s'.edges == s.edges && s'.second == s.second && forall j: Index :: j != i ==> s'.threads[j] == s.threads[j]
  {
  }

  lemma PlaceDecreases(halts: nat -> bool, s: State, i: Index)
    requires !Waits(s.threads[i].place)
    ensures PlaceRank(Move(halts, s, i).threads[i].place) < PlaceRank(s.threads[i].place)
  {
    match s.threads[i].place
    case PostEdge => hide Take, LookAround, Push, Count;
    case Top => hide Report, LookAround, Push, Count;
    case Mortuary => hide Report, Take, Push, Count;
    case Work => hide Report, Take, LookAround, Count;
    case Tally => hide Report, Take, LookAround, Push;
    case _ =>
  }

  lemma MoveDecreases(halts: nat -> bool, s: State, i: Index)
    requires !Waits(s.threads[i].place)
    ensures Rank(Move(halts, s, i)) < Rank(s)
  {
    hide Move, PlaceRank;
    MoveKeeps(halts, s, i);
    PlaceDecreases(halts, s, i);
    assert i == 0 || i == 1 || i == 2 || i == 3 || i == 4;
  }

  lemma {:induction false} RankBounds(halts: nat -> bool, trace: seq<State>, j: nat)
    requires Execution(halts, trace) && j < |trace|
    ensures Rank(trace[j]) + j <= 195
  {
    hide Next, Rank;
    if j == 0 {
      StartRank(trace[0]);
    } else {
      RankBounds(halts, trace, j - 1);
      StepsDecrease(halts, trace[j - 1], trace[j]);
    }
  }

  lemma StartRank(s: State)
    requires Start(s)
    ensures Rank(s) == 195
  {
    PlacesAre(s, PostEdge);
  }

  /** As long as somebody has not left, somebody can move. */
  lemma NotStuck(halts: nat -> bool, s: State)
    requires Inv(s) && !AllExited(s)
    ensures !Final(halts, s)
  {
    if i: Index :| !Waits(s.threads[i].place) {
      assert Next(halts, s, Move(halts, s, i));
    } else {
      forall i: Index ensures ThreadAt(s, i) && Waits(s.threads[i].place) {}
      hide Move;
      if s.second {
        assert AllAt(s, AtFalling);
        assert Next(halts, s, Fall(s));
      } else if s.edges < 4 {
        assert AllAt(s, AtRising);
        assert Next(halts, s, Rise(s));
      }
    }
  }

  /** Under every interleaving the five threads have left after at most 195 steps; IF, ID, EX, DM
      and WB have then reported 4, 2, 3, 4 and 5 cycles and ended their queues, and WB has put
      one more diff into its queue than the 4 cycles of IF. */
  lemma ShutdownIsClean(halts: nat -> bool, trace: seq<State>)
    requires FourHalts(halts) && Execution(halts, trace)
    ensures |trace| <= 196
    ensures var s := trace[|trace| - 1];
      Final(halts, s) ==>
        && AllExited(s) && s.dead == THREAD_COUNT
        && (forall i: Index :: s.threads[i].ended && s.threads[i].messages == if i == 0 then 4 else i + 1)
        && s.pcs == 4 && s.diffs == 5
  {
    hide Next, FourHalts, Start;
    var j := |trace| - 1;
    var s := trace[j];
    RankBounds(halts, trace, j);
    RankIsNat(halts, trace, j);
    InvariantHolds(halts, trace, j);
    if Final(halts, s) {
      if !AllExited(s) { NotStuck(halts, s); }
      AfterTheEnd(s);
    }
  }

  lemma RankIsNat(halts: nat -> bool, trace: seq<State>, j: nat)
    requires FourHalts(halts) && Execution(halts, trace) && j < |trace|
    ensures 0 <= Rank(trace[j])
  {
    hide FourHalts, Next, Start, Execution;
    InvariantHolds(halts, trace, j);
  }

  lemma AfterTheEnd(s: State)
    requires Inv(s) && AllExited(s)
    ensures s.dead == THREAD_COUNT && s.pcs == 4 && s.diffs == 5
    ensures forall i: Index :: s.threads[i].ended && s.threads[i].messages == if i == 0 then 4 else i + 1
  {
    assert ThreadAt(s, 0) && ThreadAt(s, 4);
    WhenFive(s);
    forall i: Index ensures s.threads[i].ended && s.threads[i].messages == if i == 0 then 4 else i + 1 {
      assert ThreadAt(s, i);
    }
  }
}
