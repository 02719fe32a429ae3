/** Four HALT words in a row are not only enough for a clean shutdown, they are necessary. With
    fewer, IF counts its fourth HALT after the others have, in the first half of a cycle: a
    schedule then has the others wait at a barrier that IF does not come to any more. Or IF never
    counts four, and the threads go round for ever. */
module ShutdownRace {
  import opened Basics
  import opened Shutdown

  /** The words from the first HALT on. */
  predicate HaltAt(halts: nat -> bool, k: nat) { k == 0 || halts(k) }

  /** HALT words among the first k. */
  function HaltsUpTo(halts: nat -> bool, k: nat): nat {
    if k == 0 then 0 else HaltsUpTo(halts, k - 1) + One(HaltAt(halts, k - 1))
  }

  /** IF counts itself after edge e. */
  predicate FourthAt(halts: nat -> bool, e: nat) {
    HaltAt(halts, e) && HaltsUpTo(halts, e) >= 3
  }

  lemma {:induction false} FewHalts(halts: nat -> bool, k: nat)
    ensures HaltsUpTo(halts, k) <= k
  {
    if k > 0 { FewHalts(halts, k - 1); }
  }

  lemma FourthIsLate(halts: nat -> bool, e: nat)
    requires !FourHalts(halts) && FourthAt(halts, e)
    ensures e >= 4
  {
    FewHalts(halts, e);
    if e == 3 { ThreeOfThree(halts); }
  }

  lemma ThreeOfThree(halts: nat -> bool)
    requires HaltsUpTo(halts, 3) >= 3
    ensures halts(1) && halts(2)
  {
    FewHalts(halts, 2);
    FewHalts(halts, 1);
  }

  // ---------------------------------------------------------------- reachable states

  ghost predicate Ends(halts: nat -> bool, s0: State, trace: seq<State>, s: State) {
    Execution(halts, trace) && trace[0] == s0 && trace[|trace| - 1] == s
  }

  /** Some execution of more than n states goes from s0 to s. */
  ghost predicate Reached(halts: nat -> bool, s0: State, s: State, n: nat) {
    exists trace :: Ends(halts, s0, trace, s) && n < |trace|
  }

  lemma ReachNext(halts: nat -> bool, s0: State, s: State, s': State, n: nat)
    requires Reached(halts, s0, s, n) && Next(halts, s, s')
    ensures Reached(halts, s0, s', n + 1) && Reached(halts, s0, s', n)
  {
    hide Next, Start;
    var trace :| Ends(halts, s0, trace, s) && n < |trace|;
    assert Ends(halts, s0, trace + [s'], s');
  }

  lemma ReachMove(halts: nat -> bool, s0: State, s: State, i: Index, n: nat)
    requires Reached(halts, s0, s, n) && !Waits(s.threads[i].place)
    ensures Reached(halts, s0, Move(halts, s, i), n)
  {
    hide Reached, Move;
    assert Next(halts, s, Move(halts, s, i));
    ReachNext(halts, s0, s, Move(halts, s, i), n);
  }

  // ---------------------------------------------------------------- one round

  /** IF before it reports, after edge e. */
  predicate Counting(halts: nat -> bool, s: State, e: nat) {
    var t := s.threads[0];
    && t.place.PostEdge? && !t.dying && !t.ended && t.halt == HaltAt(halts, e)
    && s.counter == HaltsUpTo(halts, e) && s.fetched == e + 1
  }

  /** The thread i of the others, when the first p of them have gone on to the rising edge. */
  predicate ThreadUp(e: nat, p: nat, i: Index, t: Thread) {
    && t.dying == (e >= i)
    && (if i <= p
        then t.place.AtRising? && (e < i ==> t.halt == (e == i - 1)) && t.ended == (e >= i)
        else t.place.PostEdge? && t.ended == (e > i))
  }

  predicate SlotUp(e: nat, p: nat, j: nat, free: Option<bool>) {
    if j < p then e <= j ==> free.None?
    else (e == j ==> free == Some(true)) && (e < j ==> free != Some(true))
  }

  predicate GoingUp(s: State, e: nat, p: nat) {
    && !s.second
    && (forall i: Index :: 1 <= i ==> ThreadUp(e, p, i, s.threads[i]))
    && (forall j :: 0 <= j < 4 ==> SlotUp(e, p, j, s.slots[j]))
    && s.dead == (if e < 4 then e else 4)
  }

  predicate AtEdge(halts: nat -> bool, s: State, e: nat) { Counting(halts, s, e) && GoingUp(s, e, 0) }

  lemma StartIsEdge(halts: nat -> bool, s: State)
    requires Start(s)
    ensures AtEdge(halts, s, 0)
  {
    assert HaltsUpTo(halts, 0) == 0;
    forall i: Index | 1 <= i ensures ThreadUp(0, 0, i, s.threads[i]) {}
  }

  lemma OneUp(halts: nat -> bool, s: State, e: nat, i: Index)
    requires 1 <= i && ThreadUp(e, i - 1, i, s.threads[i]) && SlotUp(e, i - 1, i - 1, s.slots[i - 1])
    requires s.dead < THREAD_COUNT
    ensures var s1 := Move(halts, s, i); var s2 := Move(halts, s1, i);
      && !Waits(s.threads[i].place) && !Waits(s1.threads[i].place)
      && ThreadUp(e, i, i, s2.threads[i]) && SlotUp(e, i, i - 1, s2.slots[i - 1])
      && s2 == s.(threads := s.threads[i := s2.threads[i]], slots := s.slots[i - 1 := s2.slots[i - 1]],
                  diffs := s2.diffs)
  {
  }

  /** All four others go on to the rising edge. */
  lemma {:induction false} OthersUp(halts: nat -> bool, s0: State, s: State, e: nat, p: nat, n: nat) returns (s': State)
    requires Reached(halts, s0, s, n) && Counting(halts, s, e) && GoingUp(s, e, p) && p <= 4
    ensures Reached(halts, s0, s', n) && Counting(halts, s', e) && GoingUp(s', e, 4)
    decreases 4 - p
  {
    hide Move, Reached, HaltAt, HaltsUpTo;
    if p == 4 {
      s' := s;
    } else {
      var i: Index := p + 1;
      OneUp(halts, s, e, i);
      var s1 := Move(halts, s, i);
      var s2 := Move(halts, s1, i);
      ReachMove(halts, s0, s, i, n);
      ReachMove(halts, s0, s1, i, n);
      UpFrame(s, s2, e, i);
      s' := OthersUp(halts, s0, s2, e, p + 1, n);
    }
  }

  lemma UpFrame(s: State, s2: State, e: nat, i: Index)
    requires 1 <= i && GoingUp(s, e, i - 1)
    requires ThreadUp(e, i, i, s2.threads[i]) && SlotUp(e, i, i - 1, s2.slots[i - 1])
    requires s2 == s.(threads := s.threads[i := s2.threads[i]], slots := s.slots[i - 1 := s2.slots[i - 1]],
                      diffs := s2.diffs)
    ensures GoingUp(s2, e, i)
  {
    forall k: Index | 1 <= k ensures ThreadUp(e, i, k, s2.threads[k]) {
      assert ThreadUp(e, i - 1, k, s.threads[k]);
    }
    forall j | 0 <= j < 4 ensures SlotUp(e, i, j, s2.slots[j]) {
      assert SlotUp(e, i - 1, j, s.slots[j]);
    }
  }

  // ---------------------------------------------------------------- stuck

  /** IF counts its fourth HALT and leaves: nobody can move any more, and four have not left. */
  lemma LeavesThemStuck(halts: nat -> bool, s0: State, s: State, e: nat, n: nat) returns (s': State)
    requires Reached(halts, s0, s, n) && Counting(halts, s, e) && GoingUp(s, e, 4)
    requires e >= 4 && FourthAt(halts, e)
    ensures Reached(halts, s0, s', n) && Final(halts, s') && !AllExited(s')
  {
    var s1 := Move(halts, s, 0);
    s' := Move(halts, s1, 0);
    ReachMove(halts, s0, s, 0, n);
    ReachMove(halts, s0, s1, 0, n);
    assert s'.threads[0].place.Exited?;
    forall i: Index | 1 <= i ensures s'.threads[i].place.AtRising? {
      assert ThreadUp(e, 4, i, s.threads[i]);
    }
    hide Move, Reached;
    StuckIsFinal(halts, s');
  }

  lemma StuckIsFinal(halts: nat -> bool, s: State)
    requires s.threads[0].place.Exited?
    requires forall i: Index :: 1 <= i ==> s.threads[i].place.AtRising?
    ensures Final(halts, s) && !AllExited(s)
  {
    hide Move;
    assert s.threads[0].place != AtRising && s.threads[1].place == AtRising;
    assert !AllAt(s, AtRising) && !AllAt(s, AtFalling);
    forall i: Index ensures Waits(s.threads[i].place) {}
  }

  // ---------------------------------------------------------------- or going on

  /** IF after it has reported and fetched. */
  predicate Fetched(halts: nat -> bool, s: State, e: nat) {
    var t := s.threads[0];
    && !t.dying && !t.ended && t.halt == HaltAt(halts, e + 1)
    && s.counter == HaltsUpTo(halts, e + 1) && s.fetched == e + 2
  }

  /** Thread i, when the first p of all five have gone on to the falling edge. */
  predicate ThreadDown(e: nat, p: nat, i: Index, t: Thread) {
    && (if i < p then t.place.AtFalling? else t.place.Work?)
    && (1 <= i ==>
          && (e < i ==> t.halt == (e == i - 1)) && t.ended == (e >= i)
          && t.dying == (e >= i || (e == i - 1 && i < p)))
  }

  predicate SlotDown(e: nat, p: nat, j: nat, free: Option<bool>) {
    if j < p then (e == j - 1 ==> free == Some(true)) && (e < j - 1 ==> free != Some(true))
    else e <= j ==> free.None?
  }

  predicate GoingDown(s: State, e: nat, p: nat) {
    && s.second
    && (forall i: Index :: ThreadDown(e, p, i, s.threads[i]))
    && (forall j :: 0 <= j < 4 ==> SlotDown(e, p, j, s.slots[j]))
    && s.dead == (if e < 4 then e else 4) + One(e < 4 && p > e + 1)
  }

  lemma IFUp(halts: nat -> bool, s0: State, s: State, e: nat, n: nat) returns (s': State)
    requires Reached(halts, s0, s, n) && Counting(halts, s, e) && GoingUp(s, e, 4) && !FourthAt(halts, e)
    ensures Reached(halts, s0, s', n) && Fetched(halts, s', e) && s'.threads[0].place.AtRising? && GoingUp(s', e, 4)
  {
    var s1 := Move(halts, s, 0);
    s' := Move(halts, s1, 0);
    ReachMove(halts, s0, s, 0, n);
    ReachMove(halts, s0, s1, 0, n);
    forall i: Index | 1 <= i ensures ThreadUp(e, 4, i, s'.threads[i]) {
      assert ThreadUp(e, 4, i, s.threads[i]);
    }
    hide Reached;
  }

  lemma RiseAll(halts: nat -> bool, s0: State, s: State, e: nat, n: nat) returns (s': State)
    requires Reached(halts, s0, s, n) && Fetched(halts, s, e) && s.threads[0].place.AtRising? && GoingUp(s, e, 4)
    ensures Reached(halts, s0, s', n) && Fetched(halts, s', e) && GoingDown(s', e, 0)
  {
    hide Reached, HaltAt, HaltsUpTo;
    s' := Rise(s);
    forall i: Index ensures s.threads[i].place == AtRising && ThreadDown(e, 0, i, s'.threads[i]) {
      if i > 0 { assert ThreadUp(e, 4, i, s.threads[i]); }
    }
    forall j | 0 <= j < 4 ensures SlotDown(e, 0, j, s'.slots[j]) {
      assert SlotUp(e, 4, j, s.slots[j]);
    }
    ReachNext(halts, s0, s, s', n);
  }

  /** Thread i works and counts. */
  function WorkOff(halts: nat -> bool, s: State, i: Index): State {
    var s1 := Move(halts, s, i);
    if s.threads[i].ended then s1 else Move(halts, s1, i)
  }

  lemma ReachWorkOff(halts: nat -> bool, s0: State, s: State, i: Index, n: nat)
    requires Reached(halts, s0, s, n) && s.threads[i].place.Work?
    ensures Reached(halts, s0, WorkOff(halts, s, i), n)
  {
    hide Reached;
    ReachMove(halts, s0, s, i, n);
    if !s.threads[i].ended { ReachMove(halts, s0, Move(halts, s, i), i, n); }
  }

  lemma OneDown(halts: nat -> bool, s: State, e: nat, i: Index)
    requires ThreadDown(e, i, i, s.threads[i]) && (i < 4 ==> SlotDown(e, i, i, s.slots[i]))
    requires i == 0 ==> !s.threads[0].ended
    ensures var s' := WorkOff(halts, s, i);
      && ThreadDown(e, i + 1, i, s'.threads[i])
      && s'.threads == s.threads[i := s'.threads[i]]
      && (i < 4 ==> SlotDown(e, i + 1, i, s'.slots[i]) && s'.slots == s.slots[i := s'.slots[i]])
      && (i == 4 ==> s'.slots == s.slots)
      && s'.dead == s.dead + One(1 <= i && e == i - 1)
      && s' == s.(threads := s'.threads, slots := s'.slots, dead := s'.dead)
      && (i == 0 ==> var t, t' := s.threads[0], s'.threads[0];
            t'.dying == t.dying && t'.ended == t.ended && t'.halt == t.halt)
  {
    hide Report, Take, LookAround;
  }

  lemma DownFrame(s: State, s': State, e: nat, i: Index)
    requires GoingDown(s, e, i)
    requires ThreadDown(e, i + 1, i, s'.threads[i]) && s'.threads == s.threads[i := s'.threads[i]]
    requires i < 4 ==> SlotDown(e, i + 1, i, s'.slots[i]) && s'.slots == s.slots[i := s'.slots[i]]
    requires i == 4 ==> s'.slots == s.slots
    requires s'.dead == s.dead + One(1 <= i && e == i - 1) && s'.second == s.second
    ensures GoingDown(s', e, i + 1)
  {
    forall k: Index ensures ThreadDown(e, i + 1, k, s'.threads[k]) {
      assert ThreadDown(e, i, k, s.threads[k]);
    }
    forall j | 0 <= j < 4 ensures SlotDown(e, i + 1, j, s'.slots[j]) {
      assert SlotDown(e, i, j, s.slots[j]);
    }
  }

  lemma {:induction false} AllDown(halts: nat -> bool, s0: State, s: State, e: nat, p: nat, n: nat) returns (s': State)
    requires Reached(halts, s0, s, n) && Fetched(halts, s, e) && GoingDown(s, e, p) && p <= 5
    ensures Reached(halts, s0, s', n) && Fetched(halts, s', e) && GoingDown(s', e, 5)
    decreases 5 - p
  {
    hide Reached, HaltAt, HaltsUpTo, WorkOff;
    if p == 5 {
      s' := s;
    } else {
      assert ThreadDown(e, p, p, s.threads[p]);
      OneDown(halts, s, e, p);
      ReachWorkOff(halts, s0, s, p, n);
      DownFrame(s, WorkOff(halts, s, p), e, p);
      s' := AllDown(halts, s0, WorkOff(halts, s, p), e, p + 1, n);
    }
  }

  lemma FallAll(halts: nat -> bool, s0: State, s: State, e: nat, n: nat) returns (s': State)
    requires Reached(halts, s0, s, n) && Fetched(halts, s, e) && GoingDown(s, e, 5)
    ensures Reached(halts, s0, s', n + 1) && AtEdge(halts, s', e + 1)
  {
    hide Reached, HaltAt, HaltsUpTo;
    s' := Fall(s);
    forall i: Index ensures s.threads[i].place == AtFalling {
      assert ThreadDown(e, 5, i, s.threads[i]);
    }
    forall i: Index | 1 <= i ensures ThreadUp(e + 1, 0, i, s'.threads[i]) {
      assert ThreadDown(e, 5, i, s.threads[i]);
    }
    forall j | 0 <= j < 4 ensures SlotUp(e + 1, 0, j, s'.slots[j]) {
      assert SlotDown(e, 5, j, s.slots[j]);
    }
    ReachNext(halts, s0, s, s', n);
  }

  // ---------------------------------------------------------------- the theorem

  /** From the edge s0, every execution is short and, where it stops, everybody has left. */
  ghost predicate CleanFrom(halts: nat -> bool, s0: State) {
    forall trace :: Execution(halts, trace) && trace[0] == s0 ==>
      |trace| <= 196 && (Final(halts, trace[|trace| - 1]) ==> AllExited(trace[|trace| - 1]))
  }

  lemma StuckIsNotClean(halts: nat -> bool, s0: State, s: State, n: nat)
    requires Reached(halts, s0, s, n) && Final(halts, s) && !AllExited(s)
    ensures !CleanFrom(halts, s0)
  {
    hide Execution, Final, AllExited;
    var trace :| Ends(halts, s0, trace, s) && n < |trace|;
  }

  lemma LongIsNotClean(halts: nat -> bool, s0: State, s: State, n: nat)
    requires Reached(halts, s0, s, n) && n >= 196
    ensures !CleanFrom(halts, s0)
  {
    hide Execution, Final, AllExited;
    var trace :| Ends(halts, s0, trace, s) && n < |trace|;
  }

  lemma {:induction false} RoundAfterRound(halts: nat -> bool, s0: State, s: State, e: nat)
    requires !FourHalts(halts) && Reached(halts, s0, s, e) && AtEdge(halts, s, e) && e <= 196
    ensures !CleanFrom(halts, s0)
    decreases 196 - e
  {
    hide Reached, CleanFrom, FourHalts, FourthAt, Counting, GoingUp, GoingDown, Fetched, Final, AllExited;
    if e == 196 {
      LongIsNotClean(halts, s0, s, e);
    } else {
      var s1 := OthersUp(halts, s0, s, e, 0, e);
      if FourthAt(halts, e) {
        FourthIsLate(halts, e);
        var s2 := LeavesThemStuck(halts, s0, s1, e, e);
        StuckIsNotClean(halts, s0, s2, e);
      } else {
        var s2 := IFUp(halts, s0, s1, e, e);
        var s3 := RiseAll(halts, s0, s2, e, e);
        var s4 := AllDown(halts, s0, s3, e, 0, e);
        var s5 := FallAll(halts, s0, s4, e, e);
        RoundAfterRound(halts, s0, s5, e + 1);
      }
    }
  }

  lemma ReachStart(halts: nat -> bool, s0: State)
    requires Start(s0)
    ensures Reached(halts, s0, s0, 0)
  {
    hide Start, Next;
    assert Ends(halts, s0, [s0], s0);
  }

  /** Main theorem: every interleaving shuts down cleanly if and only if the first HALT is
      followed by three more. */
  lemma CleanIffFourHalts(halts: nat -> bool, s0: State)
    requires Start(s0)
    ensures CleanFrom(halts, s0) <==> FourHalts(halts)
  {
    hide Next, Final, AllExited, Start, Reached, AtEdge, FourHalts;
    if FourHalts(halts) {
      forall trace | Execution(halts, trace) && trace[0] == s0
        ensures |trace| <= 196 && (Final(halts, trace[|trace| - 1]) ==> AllExited(trace[|trace| - 1]))
      {
        ShutdownIsClean(halts, trace);
      }
    } else {
      ReachStart(halts, s0);
      StartIsEdge(halts, s0);
      RoundAfterRound(halts, s0, s0, 0);
    }
  }
}
