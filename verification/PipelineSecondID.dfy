/** Every step of every stage keeps the invariant: ID in the second half, put together for its
    three outcomes: a bubble passes, the next instruction waits, or it leaves ID. */
module PipelineSecondID {
  import opened Basics
  import opened Instructions
  import opened Reference
  import opened Pipeline
  import opened SequentialRun
  import opened PipelineInvariant
  import opened PipelineSteps
  import opened PipelineIssue
  import opened PipelineDecide

  /** The state in which ID decides. */
  ghost predicate AtDecision(w: World, m: Machine, v: Roles) {
    && m.clock.half.Second? && !m.clock.doneID
    && v == RolesOf(m)
  }

  lemma RolesAtDecision(m: Machine)
    requires m.clock.half.Second? && !m.clock.doneID
    ensures Deciding(m.clock, RolesOf(m)) && TaskN(m) == None && TaskZ(m) == None
  {
  }

  predicate IsNextFront(m: Machine) { m.hist.front.Straight? || m.hist.front.Stalled? }

  lemma FrontAtDecision(w: World, m: Machine)
    requires m.clock.half.Second? && !m.clock.doneID && FrontEnd(w, FetcherOf(m))
    ensures m.sh.pcFlush <= 0 && !m.sh.pcJump && m.lo.idStall == m.sh.ifStall == m.hist.front.Stalled?
    ensures IsNextFront(m) ==>
              && HoldsNext(w, FetcherOf(m)) && Captured(w, FetcherOf(m))
              && m.sh.pc == Advance(At(w, m.hist.issued).pc)
    ensures !IsNextFront(m) ==>
              && m.lo.idTask == BUBBLE
              && (m.hist.issued > 0 ==> At(w, m.hist.issued).past.fired)
              && (m.hist.front.Start? ==> m.hist.issued == 0)
  {
    hide At, Advance, HoldsNext, Captured, FetchOf, HaltCount;
  }

  // ---------------------------------------------------------------- waiting

  lemma ShapeWait(isa: Isa, m: Machine)
    requires m.clock.half.Second? && !m.clock.doneID && Slots(m)
    requires Decide(isa, m.sh, m.lo).wait
    ensures var d, m' := Decide(isa, m.sh, m.lo), Tick(SecondID(isa, m), ID);
      && RolesOf(m') == RolesOf(m)
      && TaskN(m') == TaskN(m) && TaskX(m') == TaskX(m) && TaskY(m') == TaskY(m) && TaskZ(m') == TaskZ(m)
      && Slots(m')
      && m' == m.(clock := m.clock.Mark(ID), sh := m.sh.(board := d.board, ifStall := true),
                  lo := m.lo.(idTask := d.task, idStall := true),
                  hist := m.hist.(streak := m.hist.streak + 1, waits := m.hist.waits + 1))
  {
    hide Decide;
  }

  lemma BackWait(w: World, m: Machine, v: Roles)
    requires AtDecision(w, m, v) && Slots(m) && Back(w, m, v) && Decide(w.isa, m.sh, m.lo).wait
    ensures Back(w, Tick(SecondID(w.isa, m), ID), v)
  {
    RolesAtDecision(m);
    ShapeWait(w.isa, m);
    hide SecondID, Tick, Decide, RolesOf, TaskN, TaskX, TaskY, TaskZ, Slots, RegsOk, MemOk, Waiting, Computed,
         Finished, Complete;
  }

  lemma FrontWait(w: World, m: Machine)
    requires m.clock.half.Second? && !m.clock.doneID && Slots(m)
    requires Decide(w.isa, m.sh, m.lo).wait && IsNextFront(m) && FrontEnd(w, FetcherOf(m))
    requires Decide(w.isa, m.sh, m.lo).task.id == m.lo.idTask.id
    requires HoldsNext(w, FetcherOf(Tick(SecondID(w.isa, m), ID)))
    ensures FrontEnd(w, FetcherOf(Tick(SecondID(w.isa, m), ID)))
  {
    ShapeWait(w.isa, m);
    var f, f' := FetcherOf(m), FetcherOf(Tick(SecondID(w.isa, m), ID));
    assert f' == f.(doneID := true, ifStall := true, idTask := f'.idTask, idStall := true);
    hide SecondID, Tick, Decide, Slots, FetcherOf, RolesOf, TaskN, TaskX, TaskY, TaskZ;
    FrontStays(w, f, f');
  }

  lemma FrontStays(w: World, f: Fetcher, f': Fetcher)
    requires f.half.Second? && !f.doneID && FrontEnd(w, f) && (f.front.Straight? || f.front.Stalled?)
    requires f' == f.(doneID := true, ifStall := true, idTask := f'.idTask, idStall := true)
    requires f'.idTask.id == f.idTask.id && HoldsNext(w, f')
    ensures FrontEnd(w, f')
  {
    hide At, Advance, HoldsNext, Captured, InstrAt, HaltsUpTo;
  }

  lemma NextWait(w: World, m: Machine)
    requires m.clock.half.Second? && !m.clock.doneID && Slots(m)
    requires Decide(w.isa, m.sh, m.lo).wait && HoldsNext(w, FetcherOf(m))
    ensures HoldsNext(w, FetcherOf(Tick(SecondID(w.isa, m), ID)))
    ensures Decide(w.isa, m.sh, m.lo).task.id == m.lo.idTask.id
  {
    ShapeWait(w.isa, m);
    hide SecondID, Tick, Decide, At, InstrAt, RolesOf, TaskN, TaskX, TaskY, TaskZ, Slots;
    if Acquiring(m.lo.idTask.instr) { DecideAcquires(w.isa, m.sh, m.lo); } else { DecideOthers(w.isa, m.sh, m.lo); }
  }

  lemma TimingWait(w: World, m: Machine, v: Roles)
    requires AtDecision(w, m, v) && Slots(m) && Decide(w.isa, m.sh, m.lo).wait && IsNextFront(m)
    requires Timing(w, FetcherOf(m), m.hist.streak, v)
    requires LateAt(w, m.hist.issued) && !Loses(w, m.hist.issued)
    requires m.hist.streak + 1 <= 2 && Streak(m.hist.streak + 1, v.n, v.x)
    ensures Timing(w, FetcherOf(Tick(SecondID(w.isa, m), ID)), m.hist.streak + 1, v)
  {
    ShapeWait(w.isa, m);
    hide SecondID, Tick, Decide, Pair, LateAt, Loses, FollowsAt, Streak, RolesOf, TaskN, TaskX, TaskY, TaskZ, Slots;
  }

  lemma KeepWait(w: World, m: Machine)
    requires Boot(w.a0) && Inv(w, m) && AtDecision(w, m, RolesOf(m)) && Decide(w.isa, m.sh, m.lo).wait
    ensures Inv(w, Tick(SecondID(w.isa, m), ID))
  {
    var v, m' := RolesOf(m), Tick(SecondID(w.isa, m), ID);
    hide Inv, Order, Ids, Slots, Back, Scoreboard, FrontEnd, Timing, Captured, Decide, TaskN, TaskX, TaskY,
         TaskZ, Loses, LateAt, Streak, FetcherOf, RolesOf, SecondID, At;
    Unfold(w, m, v);
    RolesAtDecision(m);
    FrontAtDecision(w, m);
    BubbleNeverWaits(w.isa, m);
    ShapeWait(w.isa, m);
    HeldInstr(w, m);
    BackWait(w, m, v);
    NextWait(w, m);
    FrontWait(w, m);
    LateOnWait(w, m, v);
    if Loses(w, m.hist.issued) { LostNeverWaits(w, m, v); }
    StreakOnWait(w, m, v);
    TimingWait(w, m, v);
    WaitBoard(w.isa, m);
    BoardOnWait(w, m.sh.board, m'.sh.board, v, m.clock);
    hide HoldsNext, AtDecision, Boot, Deciding, Tick, InstrAt, Advance;
    Fold(w, m', v);
  }

  lemma BubbleNeverWaits(isa: Isa, m: Machine)
    ensures m.lo.idTask == BUBBLE ==>
            Decide(isa, m.sh, m.lo) == Issue(BUBBLE, m.sh.board, false, None)
  {
  }

  lemma HeldInstr(w: World, m: Machine)
    requires HoldsNext(w, FetcherOf(m))
    ensures m.lo.idTask.instr == InstrAt(w, m.hist.issued) && m.lo.idTask.fetched
    ensures m.hist.topId < m.lo.idTask.id < m.allocs
  {
    hide At, InstrAt;
  }

  lemma WaitBoard(isa: Isa, m: Machine)
    ensures var b' := Decide(isa, m.sh, m.lo).board;
      forall r: Reg :: b'[r] == m.sh.board[r] || Took(m.sh.board, b', r)
  {
    hide Decide;
    if Acquiring(m.lo.idTask.instr) { DecideAcquires(isa, m.sh, m.lo); } else { DecideOthers(isa, m.sh, m.lo); }
  }

  // ---------------------------------------------------------------- a bubble

  lemma ShapeBubble(isa: Isa, m: Machine)
    requires m.clock.half.Second? && !m.clock.doneID && Slots(m) && m.lo.idTask == BUBBLE
    ensures var t, m' := BUBBLE.(ord := m.hist.issued), Tick(SecondID(isa, m), ID);
      && RolesOf(m') == RolesOf(m)
      && TaskN(m') == TaskN(m) && TaskX(m') == TaskX(m) && TaskY(m') == TaskY(m) && TaskZ(m') == TaskZ(m)
      && Slots(m')
      && m' == m.(clock := m.clock.Mark(ID), sh := m.sh.(idEx := Some(t), ifStall := false),
                  lo := m.lo.(idTask := t, idStall := false))
  {
    BubbleNeverWaits(isa, m);
    hide Decide;
  }

  lemma BackBubble(w: World, m: Machine, v: Roles)
    requires AtDecision(w, m, v) && Slots(m) && Back(w, m, v) && m.lo.idTask == BUBBLE
    ensures Back(w, Tick(SecondID(w.isa, m), ID), v)
  {
    RolesAtDecision(m);
    ShapeBubble(w.isa, m);
    hide SecondID, Tick, RolesOf, TaskN, TaskX, TaskY, TaskZ, Slots, RegsOk, MemOk, Waiting, Computed, Finished,
         Complete;
  }

  lemma FrontBubble(w: World, m: Machine)
    requires m.clock.half.Second? && !m.clock.doneID && Slots(m)
    requires FrontEnd(w, FetcherOf(m)) && !IsNextFront(m) && m.lo.idTask == BUBBLE
    ensures FrontEnd(w, FetcherOf(Tick(SecondID(w.isa, m), ID)))
  {
    ShapeBubble(w.isa, m);
    hide SecondID, Tick, At, Advance, InstrAt, HaltsUpTo, RolesOf, TaskN, TaskX, TaskY, TaskZ, Slots;
  }

  lemma TimingBubble(w: World, m: Machine, v: Roles)
    requires AtDecision(w, m, v) && Slots(m) && !IsNextFront(m) && m.lo.idTask == BUBBLE && v.n.None?
    requires m.hist.issued > 0 ==> At(w, m.hist.issued).past.fired
    requires Timing(w, FetcherOf(m), m.hist.streak, v)
    ensures Timing(w, FetcherOf(Tick(SecondID(w.isa, m), ID)), m.hist.streak, v)
  {
    ShapeBubble(w.isa, m);
    hide SecondID, Tick, Pair, LateAt, Loses, Streak, RolesOf, TaskN, TaskX, TaskY, TaskZ, Slots, At;
  }

  lemma KeepBubble(w: World, m: Machine)
    requires Inv(w, m) && AtDecision(w, m, RolesOf(m)) && !IsNextFront(m)
    ensures Inv(w, Tick(SecondID(w.isa, m), ID))
  {
    var v, m' := RolesOf(m), Tick(SecondID(w.isa, m), ID);
    hide Inv, Order, Ids, Slots, Back, Scoreboard, FrontEnd, Timing, Captured, HoldsNext, Decide, TaskN, TaskX,
         TaskY, TaskZ, FetcherOf, RolesOf, SecondID, At;
    Unfold(w, m, v);
    RolesAtDecision(m);
    FrontAtDecision(w, m);
    ShapeBubble(w.isa, m);
    BackBubble(w, m, v);
    FrontBubble(w, m);
    TimingBubble(w, m, v);
    BoardOnWait(w, m.sh.board, m.sh.board, v, m.clock);
    hide AtDecision, Deciding, Tick, Advance;
    Fold(w, m', v);
  }

  // ---------------------------------------------------------------- leaving ID

  /** The task as it leaves ID. */
  function Issued(isa: Isa, m: Machine): Task {
    Decide(isa, m.sh, m.lo).task.(ord := m.hist.issued)
  }

  lemma ShapeIssue(isa: Isa, m: Machine)
    requires m.clock.half.Second? && !m.clock.doneID && Slots(m)
    requires !Decide(isa, m.sh, m.lo).wait && Issued(isa, m).fetched
    ensures var d, t, m' := Decide(isa, m.sh, m.lo), Issued(isa, m), Tick(SecondID(isa, m), ID);
      && RolesOf(m') == RolesOf(m).(n := Some(Tag(t.id, t.ord, t.instr, t.pc)))
      && TaskN(m') == Some(t) && TaskX(m') == TaskX(m) && TaskY(m') == TaskY(m) && TaskZ(m') == TaskZ(m)
      && Slots(m')
      && m' == m.(clock := m.clock.Mark(ID),
                  sh := Transfer(isa, m.sh, d.jump)
                        .(idEx := Some(t), board := ReserveDest(d.board, t), ifStall := false),
                  lo := m.lo.(idTask := t, idStall := false),
                  hist := m.hist.(issued := m.hist.issued + 1, topId := t.id, streak := 0,
                                  fires := m.hist.fires + if d.jump.Some? then 1 else 0))
  {
    hide Decide, ReserveDest;
    TransferSpec(isa, m.sh, Decide(isa, m.sh, m.lo).jump);
    hide Transfer;
  }

  lemma TransferSpec(isa: Isa, sh: Shared, jump: Option<Word>)
    ensures var sh' := Transfer(isa, sh, jump);
      && sh' == sh.(pc := sh'.pc, pcFlush := sh'.pcFlush, pcJump := sh'.pcJump)
      && sh'.pc == (if jump.Some? && isa.settable(jump.value) then jump.value else sh.pc)
      && sh'.pcFlush == (if jump.Some? then 2 else sh.pcFlush)
      && (sh'.pcJump ==> sh.pcJump || jump.Some?)
  {
  }

  lemma IssuedTag(w: World, m: Machine)
    requires HoldsNext(w, FetcherOf(m))
    ensures var t := Issued(w.isa, m);
      && t.ord == m.hist.issued && t.instr == InstrAt(w, m.hist.issued) && t.pc == At(w, m.hist.issued).pc
      && t.id == m.lo.idTask.id && t.fetched
  {
    hide Decide, At, InstrAt;
    if Acquiring(m.lo.idTask.instr) { DecideAcquires(w.isa, m.sh, m.lo); } else { DecideOthers(w.isa, m.sh, m.lo); }
  }

  lemma OrderIssue(w: World, issued: nat, v: Roles, n: Tag)
    requires Order(w, issued, v) && v.n.None?
    requires n.ord == issued && n.instr == InstrAt(w, issued) && n.pc == At(w, issued).pc
    ensures Order(w, issued + 1, v.(n := Some(n)))
  {
    hide At, InstrAt;
  }

  lemma BackIssue(w: World, m: Machine, v: Roles)
    requires AtDecision(w, m, v) && Slots(m) && Back(w, m, v)
    requires !Decide(w.isa, m.sh, m.lo).wait
    requires var t := Issued(w.isa, m);
      && t.fetched
      && Waiting(w, ReserveDest(Decide(w.isa, m.sh, m.lo).board, t), t, v.x, m.clock.doneEX)
    ensures var t := Issued(w.isa, m);
      Back(w, Tick(SecondID(w.isa, m), ID), v.(n := Some(Tag(t.id, t.ord, t.instr, t.pc))))
  {
    RolesAtDecision(m);
    ShapeIssue(w.isa, m);
    TransferSpec(w.isa, m.sh, Decide(w.isa, m.sh, m.lo).jump);
    var m', t := Tick(SecondID(w.isa, m), ID), Issued(w.isa, m);
    hide SecondID, Tick, Decide, Issued, ReserveDest, Transfer, RolesOf, TaskN, TaskX, TaskY, TaskZ, Slots, At,
         Waiting, Back, AtDecision;
    BackGrows(w, m, m', v, Tag(t.id, t.ord, t.instr, t.pc));
  }

  lemma BackGrows(w: World, m: Machine, m': Machine, v: Roles, n: Tag)
    requires m.clock.half.Second? && !m.clock.doneID && m'.clock == m.clock.Mark(ID)
    requires Back(w, m, v) && v.n.None?
    requires m'.sh.regs == m.sh.regs && m'.sh.mem == m.sh.mem && m'.hist.issued == m.hist.issued + 1
    requires m'.lo.exTask == m.lo.exTask && m'.lo.exOut == m.lo.exOut
    requires TaskX(m') == TaskX(m) && TaskY(m') == TaskY(m) && TaskZ(m') == TaskZ(m)
    requires TaskN(m').Some? && Waiting(w, m'.sh.board, TaskN(m').value, v.x, m'.clock.doneEX)
    ensures Back(w, m', v.(n := Some(n)))
  {
    hide TaskN, TaskX, TaskY, TaskZ, RegsOk, MemOk, Waiting, Computed, Finished, Complete;
  }

  lemma StreakBound(w: World, f: Fetcher, streak: nat, v: Roles)
    requires Timing(w, f, streak, v)
    ensures streak <= 2
  {
    hide Pair, Issuing;
  }

  /** The front end after an instruction has left ID. */
  predicate LeftID(isa: Isa, f: Fetcher, f': Fetcher, jump: Option<Word>) {
    var pc := if jump.Some? && isa.settable(jump.value) then jump.value else f.pc;
    && f' == f.(doneID := true, pc := pc, pcJump := f'.pcJump, pcFlush := if jump.Some? then 2 else f.pcFlush,
                ifStall := false, idTask := f'.idTask, idStall := false, issued := f.issued + 1, topId := f.idTask.id)
    && (f'.pcJump ==> f.pcJump || jump.Some?)
  }

  lemma FetcherIssue(w: World, m: Machine)
    requires m.clock.half.Second? && !m.clock.doneID && Slots(m) && HoldsNext(w, FetcherOf(m))
    requires !Decide(w.isa, m.sh, m.lo).wait
    ensures LeftID(w.isa, FetcherOf(m), FetcherOf(Tick(SecondID(w.isa, m), ID)), Decide(w.isa, m.sh, m.lo).jump)
  {
    IssuedTag(w, m);
    ShapeIssue(w.isa, m);
    TransferSpec(w.isa, m.sh, Decide(w.isa, m.sh, m.lo).jump);
    hide SecondID, Tick, Decide, Issued, ReserveDest, Transfer, RolesOf, TaskN, TaskX, TaskY, TaskZ, Slots, At, InstrAt;
  }

  lemma FrontGoesOn(w: World, f: Fetcher, f': Fetcher)
    requires f.half.Second? && !f.doneID && FrontEnd(w, f) && (f.front.Straight? || f.front.Stalled?)
    requires LeftID(w.isa, f, f', JumpOf(w.isa, At(w, f.issued)))
    ensures FrontEnd(w, f')
  {
    PcAt(w, f.issued);
    FiresAt(w, f.issued);
    hide At, Advance, InstrAt, Captured, HaltsUpTo, Fires, Target;
  }

  lemma FrontIssue(w: World, m: Machine)
    requires m.clock.half.Second? && !m.clock.doneID && Slots(m)
    requires FrontEnd(w, FetcherOf(m)) && IsNextFront(m) && !Decide(w.isa, m.sh, m.lo).wait
    requires Decide(w.isa, m.sh, m.lo).jump == JumpOf(w.isa, At(w, m.hist.issued))
    ensures FrontEnd(w, FetcherOf(Tick(SecondID(w.isa, m), ID)))
  {
    hide SecondID, Tick, Decide, FrontEnd, LeftID, Slots, JumpOf, HoldsNext, Captured, At;
    FrontAtDecision(w, m);
    FetcherIssue(w, m);
    FrontGoesOn(w, FetcherOf(m), FetcherOf(Tick(SecondID(w.isa, m), ID)));
  }

  lemma TimingGrows(w: World, f: Fetcher, f': Fetcher, streak: nat, v: Roles, n: Tag)
    requires Timing(w, f, streak, v) && f.half.Second? && !f.doneID
    requires f'.half.Second? && f'.doneID && !f'.idStall && f'.issued == f.issued + 1
    requires f'.pcFlush <= 0 ==> !Fires(w.isa, At(w, f.issued))
    requires n.ord == f.issued
    requires Predicted(w, f.issued) ==> v.x.Some? == AdjacentAt(w, f.issued)
    ensures Timing(w, f', 0, v.(n := Some(n)))
  {
    FiresAt(w, f.issued);
    hide At, Predicted, AdjacentAt, Fires, LateAt, Loses, Streak;
  }

  lemma TimingIssue(w: World, m: Machine, v: Roles, n: Tag)
    requires AtDecision(w, m, v) && Slots(m) && IsNextFront(m) && !Decide(w.isa, m.sh, m.lo).wait
    requires Issued(w.isa, m).fetched && m.sh.pcFlush <= 0 && v.n.None?
    requires n.ord == m.hist.issued
    requires Predicted(w, m.hist.issued) ==> v.x.Some? == AdjacentAt(w, m.hist.issued)
    requires Decide(w.isa, m.sh, m.lo).jump.Some? == Fires(w.isa, At(w, m.hist.issued))
    requires Timing(w, FetcherOf(m), m.hist.streak, v)
    ensures Timing(w, FetcherOf(Tick(SecondID(w.isa, m), ID)), 0, v.(n := Some(n)))
  {
    hide SecondID, Decide, ReserveDest, RolesOf, TaskN, TaskX, TaskY, TaskZ, Slots, At, Predicted, AdjacentAt,
         Fires, Timing;
    ShapeIssue(w.isa, m);
    TransferSpec(w.isa, m.sh, Decide(w.isa, m.sh, m.lo).jump);
    hide Issued, Transfer;
    TimingGrows(w, FetcherOf(m), FetcherOf(Tick(SecondID(w.isa, m), ID)), m.hist.streak, v, n);
  }

  lemma BoardIssue(w: World, m: Machine, v: Roles)
    requires AtDecision(w, m, v) && Deciding(m.clock, v) && Scoreboard(w, m.sh.board, v, m.clock)
    requires !Decide(w.isa, m.sh, m.lo).wait
    ensures var d, t := Decide(w.isa, m.sh, m.lo), Issued(w.isa, m);
      Scoreboard(w, ReserveDest(d.board, t), v.(n := Some(Tag(t.id, t.ord, t.instr, t.pc))), m.clock.Mark(ID))
  {
    hide Decide, Scoreboard, RolesOf, ReserveDest;
    if Acquiring(m.lo.idTask.instr) { DecideAcquires(w.isa, m.sh, m.lo); } else { DecideOthers(w.isa, m.sh, m.lo); }
    BoardOnIssue(w, m.sh.board, Decide(w.isa, m.sh, m.lo).board, v, Issued(w.isa, m), m.clock);
  }

  lemma AccountIssue(w: World, h: History, h': History, flush: bool)
    requires Account(w, h, true, false) && (h.front.Straight? || h.front.Stalled?) && h.streak <= 2
    requires h' == h.(issued := h.issued + 1, topId := h'.topId, streak := 0,
                      fires := h.fires + if flush then 1 else 0)
    requires flush == Fires(w.isa, At(w, h.issued))
    ensures Account(w, h', false, flush)
  {
    hide Fires, At;
  }

  lemma IdsIssue(topId: int, allocs: nat, v: Roles, n: Tag)
    requires Ids(topId, allocs, v) && v.n.None? && topId < n.id < allocs
    ensures Ids(n.id, allocs, v.(n := Some(n)))
  {
  }

  lemma IssueCounts(w: World, m: Machine, v: Roles, n: Tag)
    requires AtDecision(w, m, v) && Slots(m) && IsNextFront(m) && !Decide(w.isa, m.sh, m.lo).wait
    requires HoldsNext(w, FetcherOf(m)) && m.sh.pcFlush <= 0 && v.n.None?
    requires Order(w, m.hist.issued, v) && Ids(m.hist.topId, m.allocs, v) && m.hist.streak <= 2
    requires Account(w, m.hist, BeforeIssue(m.clock), m.sh.pcFlush > 0)
    requires Decide(w.isa, m.sh, m.lo).jump.Some? == Fires(w.isa, At(w, m.hist.issued))
    requires var t := Issued(w.isa, m); n == Tag(t.id, t.ord, t.instr, t.pc)
    ensures var m' := Tick(SecondID(w.isa, m), ID);
      && Order(w, m'.hist.issued, v.(n := Some(n)))
      && Ids(m'.hist.topId, m'.allocs, v.(n := Some(n)))
      && Account(w, m'.hist, BeforeIssue(m'.clock), m'.sh.pcFlush > 0)
  {
    var m' := Tick(SecondID(w.isa, m), ID);
    hide Order, Ids, Slots, Decide, At, TaskN, TaskX, TaskY, TaskZ, RolesOf, SecondID, Account, FetcherOf, InstrAt;
    HeldInstr(w, m);
    IssuedTag(w, m);
    ShapeIssue(w.isa, m);
    var d := Decide(w.isa, m.sh, m.lo);
    TransferSpec(w.isa, m.sh, d.jump);
    hide Transfer, Issued, Tick, ReserveDest, Fires;
    OrderIssue(w, m.hist.issued, v, n);
    IdsIssue(m.hist.topId, m.allocs, v, n);
    AccountIssue(w, m.hist, m'.hist, d.jump.Some?);
  }

  lemma IssueFacts(w: World, m: Machine, v: Roles)
    requires Boot(w.a0) && AtDecision(w, m, v) && Deciding(m.clock, v) && Back(w, m, v)
    requires Scoreboard(w, m.sh.board, v, m.clock) && Order(w, m.hist.issued, v)
    requires Timing(w, FetcherOf(m), m.hist.streak, v) && FrontEnd(w, FetcherOf(m))
    requires HoldsNext(w, FetcherOf(m)) && Captured(w, FetcherOf(m))
    requires IsNextFront(m) && !Decide(w.isa, m.sh, m.lo).wait
    ensures var d, t, a := Decide(w.isa, m.sh, m.lo), Issued(w.isa, m), At(w, m.hist.issued);
      && Waiting(w, ReserveDest(d.board, t), t, v.x, m.clock.doneEX)
      && d.jump == JumpOf(w.isa, a)
      && (Predicted(w, m.hist.issued) ==> v.x.Some? == AdjacentAt(w, m.hist.issued))
  {
    hide Scoreboard, Order, FrontEnd, Timing, Captured, Decide, RolesOf, At, RegsOk, MemOk, NOk, XOk, YOk, ZOk, LastEX,
         Waiting, ReserveDest, JumpOf, Predicted, AdjacentAt;
    WaitingOnIssue(w, m, v, Issued(w.isa, m));
    DecideTransfers(w, m, v);
    HeldInstr(w, m);
    if Predicted(w, m.hist.issued) { PairOnIssue(w, m, v); }
  }

  lemma KeepIssue(w: World, m: Machine)
    requires Boot(w.a0) && Inv(w, m) && AtDecision(w, m, RolesOf(m))
    requires IsNextFront(m) && !Decide(w.isa, m.sh, m.lo).wait
    ensures Inv(w, Tick(SecondID(w.isa, m), ID))
  {
    var v, m', t := RolesOf(m), Tick(SecondID(w.isa, m), ID), Issued(w.isa, m);
    var n := Tag(t.id, t.ord, t.instr, t.pc);
    hide Inv, Order, Ids, Slots, Back, Scoreboard, FrontEnd, Timing, Captured, Decide, TaskN, TaskX, TaskY,
         TaskZ, FetcherOf, RolesOf, SecondID, At;
    Unfold(w, m, v);
    RolesAtDecision(m);
    FrontAtDecision(w, m);
    HeldInstr(w, m);
    IssuedTag(w, m);
    ShapeIssue(w.isa, m);
    TransferSpec(w.isa, m.sh, Decide(w.isa, m.sh, m.lo).jump);
    IssueFacts(w, m, v);
    BackIssue(w, m, v);
    FrontIssue(w, m);
    TimingIssue(w, m, v, n);
    BoardIssue(w, m, v);
    StreakBound(w, FetcherOf(m), m.hist.streak, v);
    IssueCounts(w, m, v, n);
    hide *;
    Fold(w, m', v.(n := Some(n)));
  }
}
