/** Every step of every stage keeps the invariant: ID. */
module PipelineIssue {
  import opened Basics
  import opened Instructions
  import opened Reference
  import opened Pipeline
  import opened SequentialRun
  import opened PipelineInvariant
  import opened PipelineSteps

  /** A register that no live task writes already has the value the next instruction sees. */
  lemma SettledRegister(w: World, issued: nat, v: Roles, r: Reg)
    requires Order(w, issued, v) && v.n.None? && v.z.None?
    requires !Writes(v.x, r) && !Writes(v.y, r)
    requires 0 <= Retired(issued, v)
    ensures At(w, Retired(issued, v)).regs[r] == At(w, issued).regs[r]
  {
    hide At, ResultAt;
    if v.x.Some? { RegAt(w, v.x.value.ord, r); }
    if v.y.Some? { RegAt(w, v.y.value.ord, r); }
  }

  /** The two instructions before the next one, when the stages ahead of it are full. */
  lemma PastOfLive(w: World, issued: nat, v: Roles)
    requires Order(w, issued, v) && v.n.None?
    ensures v.x.Some? ==> var p := At(w, issued).past;
              && p.prev1 == Some(v.x.value.instr)
              && p.adjacent == AdjacentAt(w, v.x.value.ord)
              && p.prev2 == At(w, v.x.value.ord).past.prev1
    ensures v.x.Some? && v.y.Some? ==> At(w, issued).past.prev2 == Some(v.y.value.instr)
  {
    hide At, AdjacentAt, Fires;
    if v.x.Some? {
      PastAt(w, v.x.value.ord);
      if v.y.Some? { PastAt(w, v.y.value.ord); }
    }
  }

  // ---------------------------------------------------------------- ID, first half

  /** The triple of `Overwritten`, as it stands in EX and DM. */
  lemma TripleInFlight(w: World, v: Roles, issued: nat, r: Reg)
    requires Order(w, issued, v) && v.n.None? && Pair(w, v.x, v.y)
    requires Writes(v.x, r) && Publishes(v.y, r) && !Acquires(v.x.value.instr, r)
    requires !At(w, issued).past.fired && ResolvesReg(InstrAt(w, issued), r)
    ensures 2 <= issued && LastDest(At(w, issued).past) == r
    ensures Overwritten(InstrAt(w, issued), At(w, issued).past, r)
    ensures At(w, issued - 1).regs[r] == ResultAt(w, v.y.value.ord)
  {
    hide At, AdjacentAt, ResultAt, Dest, Acquires, ResolvesReg;
    PastOfLive(w, issued, v);
    PastAt(w, v.x.value.ord);
    WritersGoOn(w, v.x.value.ord);
    RegAt(w, v.y.value.ord, r);
  }

  /** And conversely: a branch that loses the race has the triple ahead of it, and has not waited. */
  lemma LostRace(w: World, f: Fetcher, streak: nat, v: Roles)
    requires BeforeIssueOf(f) && Timing(w, f, streak, v) && Order(w, f.issued, v) && v.n.None?
    requires f.front.Straight? || f.front.Stalled?
    requires Loses(w, f.issued)
    ensures f.front.Straight? && v.x.Some? && v.y.Some? && !w.race(v.x.value.ord).Won?
    ensures var d := LastDest(At(w, f.issued).past);
      && d != 0 && ResolvesReg(InstrAt(w, f.issued), d)
      && Writes(v.x, d) && Publishes(v.y, d) && !Acquires(v.x.value.instr, d)
  {
    hide At, AdjacentAt, Dest, Acquires, ResolvesReg, LateAt, Streak;
    PastOfLive(w, f.issued, v);
    if v.x.Some? {
      PastAt(w, v.x.value.ord);
      WritersGoOn(w, v.x.value.ord);
    }
  }

  lemma WritersGoOn(w: World, k: nat)
    ensures Transfers(InstrAt(w, k)) && Dest(InstrAt(w, k)) != 0 ==> At(w, k + 1).past.fired
  {
    hide At, Fires;
    FiresAt(w, k);
  }

  /** An ID-available value that is not marked as forwarded is what ID should see: the result of
      the youngest writer, or, if the race was lost, that of the one before it, or zero. */
  lemma CaptureIsCorrect(w: World, b: Board, v: Roles, c: Clock, issued: nat, r: Reg)
    requires Boot(w.a0) && c.half.First? && v.n.None?
    requires Scoreboard(w, b, v, c) && Order(w, issued, v) && Pair(w, v.x, v.y)
    requires v.x.Some? ==> !At(w, issued).past.fired
    requires v.x.None? ==> !Loses(w, issued)
    requires ResolvesReg(InstrAt(w, issued), r) && !ComparesWithItself(InstrAt(w, issued))
    requires b[r].holder.Some? && b[r].idAvailable && !b[r].exForward
    ensures b[r].value == At(w, issued).view[r]
  {
    hide At, Boot, Order, Pair, ResultAt, Acquires, ResolvesReg, Overwritten, ComparesWithItself, LastDest;
    assert r != 0;
    assert Cell(w, b[r], v, c, r);
    if Writes(v.x, r) {
      TripleInFlight(w, v, issued, r);
      YoungestIsLast(w, issued, v);
      assert Loses(w, issued);
      ViewAt(w, issued);
    } else {
      LastWriterIsY(w, v, issued, r);
      YoungestIsLast(w, issued, v);
      ViewOfOthers(w, issued, r);
    }
  }

  lemma YoungestIsLast(w: World, issued: nat, v: Roles)
    requires Order(w, issued, v) && v.n.None?
    ensures v.x.Some? ==> 0 < issued && v.x.value.ord == issued - 1
    ensures v.x.Some? ==> LastDest(At(w, issued).past) == Dest(v.x.value.instr)
  {
    hide At, Dest;
    PastOfLive(w, issued, v);
  }

  lemma LastWriterIsY(w: World, v: Roles, issued: nat, r: Reg)
    requires Order(w, issued, v) && v.n.None? && !Writes(v.x, r) && Writes(v.y, r)
    ensures At(w, issued).regs[r] == ResultAt(w, v.y.value.ord)
  {
    hide At, ResultAt, Dest;
    RegAt(w, v.y.value.ord, r);
    if v.x.Some? { RegAt(w, v.x.value.ord, r); }
  }

  /** What `CaptureID` does to the board and to the engine's variables. */
  lemma CaptureSpec(m: Machine)
    ensures var b, i, m' := m.sh.board, m.lo.idTask.instr, CaptureID(m);
      && (forall r: Reg :: m'.sh.board[r] == b[r].(idAvailable := b[r].idAvailable && !ResolvesReg(i, r)))
      && m'.sh == m.sh.(board := m'.sh.board)
      && m' == m.(sh := m'.sh, lo := m.lo.(rsSeen := m'.lo.rsSeen, rtSeen := m'.lo.rtSeen))
      && (m'.lo.rsSeen.Some? ==> ResolvesReg(i, i.rs) && b[i.rs].holder.Some? && b[i.rs].idAvailable &&
                                 !b[i.rs].exForward && m'.lo.rsSeen.value == b[i.rs].value)
      && (m'.lo.rtSeen.Some? ==> ResolvesReg(i, i.rt) && b[i.rt].holder.Some? && b[i.rt].idAvailable &&
                                 !b[i.rt].exForward && m'.lo.rtSeen.value == b[i.rt].value)
  {
  }

  /** The second look at a register finds nothing; the first takes what is on offer. */
  lemma CaptureTakes(m: Machine, r: Reg)
    ensures var i, m' := m.lo.idTask.instr, CaptureID(m);
      && (ComparesWithItself(i) ==> m'.lo.rtSeen.None?)
      && (Offered(m.sh.board, r) && m.sh.board[r].holder.Some? && !ComparesWithItself(i) ==>
            HasSeen(i, m'.lo.rsSeen, m'.lo.rtSeen, r))
  {
  }

  /** A step of ID in the first half, behind the stages. */
  predicate Untouched(m: Machine, m': Machine) {
    && RolesOf(m') == RolesOf(m) && RolesOf(m).n.None?
    && TaskN(m') == None && TaskX(m') == TaskX(m) && TaskY(m') == TaskY(m) && TaskZ(m') == TaskZ(m)
    && Slots(m')
    && m'.hist == m.hist
    && m'.sh.regs == m.sh.regs && m'.sh.mem == m.sh.mem
    && m'.lo.exTask == m.lo.exTask && m'.lo.exOut == m.lo.exOut
    && m'.clock == m.clock.Mark(ID)
    && m'.allocs == m.allocs
  }

  lemma ShapePick(m: Machine)
    ensures var p := PickID(m);
      && p == m.(sh := p.sh, lo := m.lo.(idTask := p.lo.idTask))
      && p.sh == m.sh.(pcFlush := p.sh.pcFlush, ifId := p.sh.ifId)
  {
  }

  lemma ShapeFirstID(m: Machine)
    requires m.clock.half.First? && !m.clock.doneID && Slots(m)
    ensures Untouched(m, Tick(FirstID(m), ID))
  {
    ShapePick(m);
    CaptureSpec(PickID(m));
    hide CaptureID, PickID;
  }

  lemma FetcherFirstID(m: Machine)
    ensures var f, f' := FetcherOf(m), FetcherOf(Tick(FirstID(m), ID));
      var p := FetcherOf(PickID(m));
      f' == p.(doneID := true, rsSeen := f'.rsSeen, rtSeen := f'.rtSeen)
  {
    CaptureSpec(PickID(m));
    hide CaptureID, PickID;
  }

  /** What `PickID` does to the front end. */
  function PickFetcher(f: Fetcher): Fetcher {
    if f.idStall then f
    else if f.ifId.None? then f.(idTask := BUBBLE)
    else f.(pcFlush := f.pcFlush - 1, ifId := None,
            idTask := if f.pcFlush > 0 then BUBBLE else f.ifId.value)
  }

  predicate Picked(f: Fetcher, f': Fetcher) {
    f' == PickFetcher(f).(doneID := true, rsSeen := f'.rsSeen, rtSeen := f'.rtSeen)
  }

  lemma FetcherPick(m: Machine)
    ensures FetcherOf(PickID(m)) == PickFetcher(FetcherOf(m))
    ensures PickID(m).sh.board == m.sh.board && PickID(m).hist == m.hist
  {
    var p := PickID(m);
    if m.lo.idStall {
      assert p == m;
    } else if m.sh.ifId.None? {
      assert p == m.(lo := m.lo.(idTask := BUBBLE));
    } else {
      var t := if m.sh.pcFlush > 0 then BUBBLE else m.sh.ifId.value;
      assert p == m.(sh := m.sh.(pcFlush := m.sh.pcFlush - 1, ifId := None), lo := m.lo.(idTask := t));
    }
    hide PickID;
  }

  /** The task that ID works on: the next instruction or a bubble. */
  lemma PickedNext(w: World, m: Machine)
    requires m.clock.half.First? && !m.clock.doneID && FrontEnd(w, FetcherOf(m))
    ensures var t := PickID(m).lo.idTask;
      if m.hist.front.Straight? || m.hist.front.Stalled?
      then t.instr == InstrAt(w, m.hist.issued) else t == BUBBLE
  {
    hide At, PickID, Advance, Captured;
    FetcherPick(m);
  }

  lemma SeenFirstID(w: World, m: Machine, v: Roles)
    requires Boot(w.a0) && m.clock.half.First? && !m.clock.doneID
    requires v.n.None? && Order(w, m.hist.issued, v) && Scoreboard(w, m.sh.board, v, m.clock)
    requires Timing(w, FetcherOf(m), m.hist.streak, v)
    requires m.hist.front.Straight? || m.hist.front.Stalled?
    requires PickID(m).lo.idTask.instr == InstrAt(w, m.hist.issued)
    ensures var i, a, m' := InstrAt(w, m.hist.issued), At(w, m.hist.issued), FirstID(m);
      !ComparesWithItself(i) ==>
        && (ResolvesRs(i) ==> SeenOk(m'.lo.rsSeen, a.view[i.rs]))
        && (ResolvesRt(i) ==> SeenOk(m'.lo.rtSeen, a.view[i.rt]))
  {
    hide At, PickID, Scoreboard, Order, Boot, Pair, ComparesWithItself, Loses;
    var p := PickID(m);
    CaptureSpec(p);
    FetcherPick(m);
    if Loses(w, m.hist.issued) { LostRace(w, FetcherOf(m), m.hist.streak, v); }
    var m', i := FirstID(m), p.lo.idTask.instr;
    hide CaptureID;
    if !ComparesWithItself(i) {
      if m'.lo.rsSeen.Some? { CaptureIsCorrect(w, m.sh.board, v, m.clock, m.hist.issued, i.rs); }
      if m'.lo.rtSeen.Some? { CaptureIsCorrect(w, m.sh.board, v, m.clock, m.hist.issued, i.rt); }
    }
  }

  /** A lost race is lost: there is a value on offer, and ID takes it. */
  lemma LostFirstID(w: World, m: Machine, v: Roles)
    requires m.clock.half.First? && !m.clock.doneID
    requires v.n.None? && Order(w, m.hist.issued, v) && Scoreboard(w, m.sh.board, v, m.clock)
    requires Timing(w, FetcherOf(m), m.hist.streak, v)
    requires m.hist.front.Straight? || m.hist.front.Stalled?
    requires PickID(m).lo.idTask.instr == InstrAt(w, m.hist.issued)
    requires Loses(w, m.hist.issued)
    ensures var m' := FirstID(m);
      HasSeen(InstrAt(w, m.hist.issued), m'.lo.rsSeen, m'.lo.rtSeen, LastDest(At(w, m.hist.issued).past))
  {
    hide At, PickID, Order, Pair, Dest, Timing, ResolvesReg, HasSeen, NewHolder, LastDest, Overwritten;
    var p, d := PickID(m), LastDest(At(w, m.hist.issued).past);
    LostRace(w, FetcherOf(m), m.hist.streak, v);
    FetcherPick(m);
    assert Cell(w, m.sh.board[d], v, m.clock, d);
    assert Offered(m.sh.board, d) && m.sh.board[d].holder.Some?;
    CaptureTakes(p, d);
  }

  lemma CapturedFirstID(w: World, m: Machine, v: Roles)
    requires Boot(w.a0) && m.clock.half.First? && !m.clock.doneID
    requires v.n.None? && Order(w, m.hist.issued, v) && Scoreboard(w, m.sh.board, v, m.clock)
    requires Timing(w, FetcherOf(m), m.hist.streak, v)
    requires FrontEnd(w, FetcherOf(m))
    requires m.hist.front.Straight? || m.hist.front.Stalled?
    ensures Captured(w, FetcherOf(Tick(FirstID(m), ID)))
  {
    hide At, PickID, FrontEnd, Scoreboard, Order, Boot, Timing, Loses, HasSeen, ComparesWithItself;
    PickedNext(w, m);
    var p := PickID(m);
    CaptureSpec(p);
    CaptureTakes(p, 0);
    FetcherPick(m);
    SeenFirstID(w, m, v);
    if Loses(w, m.hist.issued) { LostFirstID(w, m, v); }
    hide CaptureID, InstrAt;
  }

  lemma PickedFirstID(m: Machine)
    ensures Picked(FetcherOf(m), FetcherOf(Tick(FirstID(m), ID)))
  {
    FetcherFirstID(m);
    FetcherPick(m);
    hide FetcherOf, FirstID, PickID, Tick, PickFetcher;
  }

  lemma PickFront(w: World, f: Fetcher, f': Fetcher)
    requires f.half.First? && !f.doneID && FrontFirst(w, f) && Picked(f, f')
    requires f.front.Straight? || f.front.Stalled? ==> Captured(w, f')
    ensures FrontFirst(w, f')
  {
    hide At, Advance, Captured, HaltsUpTo;
    match f.front
    case Start => assert PickFetcher(f) == f.(idTask := BUBBLE);
    case Straight => assert PickFetcher(f) == f.(pcFlush := f.pcFlush - 1, ifId := None, idTask := f.ifId.value);
    case Stalled => assert PickFetcher(f) == f;
    case Flushing => assert PickFetcher(f) == f.(pcFlush := f.pcFlush - 1, ifId := None, idTask := BUBBLE);
    hide PickFetcher;
  }

  lemma FrontFirstID(w: World, m: Machine, v: Roles)
    requires Boot(w.a0) && m.clock.half.First? && !m.clock.doneID
    requires v.n.None? && Order(w, m.hist.issued, v) && Scoreboard(w, m.sh.board, v, m.clock)
    requires Timing(w, FetcherOf(m), m.hist.streak, v)
    requires FrontEnd(w, FetcherOf(m))
    ensures FrontEnd(w, FetcherOf(Tick(FirstID(m), ID)))
  {
    hide At, FirstID, PickID, Boot, Order, Scoreboard, Timing, Captured, FrontFirst, Picked, HaltCount;
    PickedFirstID(m);
    if m.hist.front.Straight? || m.hist.front.Stalled? {
      CapturedFirstID(w, m, v);
    }
    var f, f' := FetcherOf(m), FetcherOf(Tick(FirstID(m), ID));
    assert f.half.First? && !f.doneID && f.front == m.hist.front;
    hide FetcherOf, Tick;
    PickFront(w, f, f');
    PickedCount(w, f, f');
  }

  lemma PickedCount(w: World, f: Fetcher, f': Fetcher)
    requires Picked(f, f') && f.half.First?
    ensures f'.half == f.half
    ensures HaltCount(w, f) ==> HaltCount(w, f')
  {
    hide HaltsUpTo;
  }

  lemma BoardFirstID(w: World, b: Board, b': Board, v: Roles, c: Clock)
    requires c.half.First? && !c.doneID && v.n.None? && Scoreboard(w, b, v, c)
    requires forall r: Reg :: b'[r] == b[r] || b'[r] == b[r].(idAvailable := false)
    ensures Scoreboard(w, b', v, c.Mark(ID))
  {
    hide ResultAt;
    forall r: Reg | r != 0 ensures Cell(w, b'[r], v, c.Mark(ID), r) {
      assert Cell(w, b[r], v, c, r);
    }
  }

  lemma SameX(w: World, b: Board, b': Board, x: Option<Task>, src: Option<Tag>, c: Clock, out: Word)
    requires XOk(w, b, x, src, c, out)
    requires forall r: Reg :: b'[r].exForward == b[r].exForward && b'[r].value == b[r].value
    ensures XOk(w, b', x, src, c.Mark(ID), out)
  {
    hide At, Carried, Computed, Finished;
  }

  lemma BackFirstID(w: World, m: Machine, v: Roles)
    requires m.clock.half.First? && !m.clock.doneID && v == RolesOf(m) && Slots(m) && Back(w, m, v)
    ensures Back(w, Tick(FirstID(m), ID), v)
  {
    var m' := Tick(FirstID(m), ID);
    hide Slots, RegsOk, MemOk, RolesOf, TaskN, TaskX, TaskY, TaskZ, XOk, Finished, Complete, CaptureID, PickID, Waiting;
    ShapeFirstID(m);
    CaptureSpec(PickID(m));
    FetcherPick(m);
    SameX(w, m.sh.board, m'.sh.board, TaskX(m), v.y, m.clock, m.lo.exOut);
  }

  lemma TimingFirstID(w: World, m: Machine, v: Roles)
    requires m.clock.half.First? && Timing(w, FetcherOf(m), m.hist.streak, v)
    ensures Timing(w, FetcherOf(Tick(FirstID(m), ID)), m.hist.streak, v)
  {
    hide Pair, Issuing, FirstID, PickID;
    FetcherFirstID(m);
    FetcherPick(m);
  }

  lemma KeepFirstID(w: World, m: Machine)
    requires Boot(w.a0) && Inv(w, m) && m.clock.half.First? && !m.clock.doneID
    ensures Inv(w, Tick(FirstID(m), ID))
  {
    var v, m' := RolesOf(m), Tick(FirstID(m), ID);
    hide Inv, Order, Ids, Slots, Back, Scoreboard, FrontEnd, RolesOf, PickID, CaptureID, Pair, Issuing, Boot;
    Unfold(w, m, v);
    ShapeFirstID(m);
    CaptureSpec(PickID(m));
    FetcherPick(m);
    BackFirstID(w, m, v);
    BoardFirstID(w, m.sh.board, m'.sh.board, v, m.clock);
    FrontFirstID(w, m, v);
    FetcherFirstID(m);
    TimingFirstID(w, m, v);
    hide FirstID, Tick, FetcherOf, Timing, Ids, PickFetcher;
    Fold(w, m', v);
  }
}
