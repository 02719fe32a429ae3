/** The machine of `Accesses` against that of `Pipeline`: with EX and ID between no two accesses they reach
    exactly the same states. So whole half-cycle steps, with `Overlap`, are all that has to be looked at. */
module AccessTheorems {
  import opened Basics
  import opened Instructions
  import opened Reference
  import opened Pipeline
  import opened SequentialRun
  import opened PipelineInvariant
  import opened PipelineSteps
  import opened PipelineSecondID
  import opened PipelineTheorems
  import opened StageOrder
  import opened Accesses

  // ---------------------------------------------------------------- what lies between two steps of `Pipeline`

  /** How far EX and ID have got since m, a state of `Pipeline`. */
  datatype Form =
    | Idle
    | Wrote      // EX has written its value
    | Lost       // and ID has reset it since, and passed its fence
    | HasReset   // ID has reset its register
    | Kept       // and EX has written its value since, and passed its fence
    | ResetLast  // EX has written its value, then ID has reset its register
    | ValueLast  // ID has reset its register, then EX has written its value

  predicate Fits(m: Machine, p: Form) {
    match p
    case Idle => true
    case Wrote => m.clock.half.Second? && !m.clock.doneEX
    case Lost => m.clock.half.Second? && m.clock.doneID && !m.clock.doneEX && SameRegister(m)
    case HasReset => AtID(m)
    case Kept => AtID(m) && m.clock.doneEX
    case ResetLast | ValueLast => AtID(m) && !m.clock.doneEX
  }

  function Part(isa: Isa, m: Machine, p: Form): Fine {
    match p
    case Idle => Fine(m, false, false)
    case Wrote => Fine(WriteValue(m), true, false)
    case Lost => Fine(m, true, false)
    case HasReset => Fine(ResetValue(isa, m), false, true)
    case Kept => Fine(KeepValue(ResetValue(isa, m)), false, true)
    case ResetLast => Fine(ResetValue(isa, WriteValue(m)), true, true)
    case ValueLast => Fine(WriteValue(ResetValue(isa, m)), true, true)
  }

  lemma PartIs(isa: Isa, m: Machine, p: Form)
    requires Fits(m, p)
    ensures var f := Part(isa, m, p);
      && f.m.clock == m.clock && f.m.lo.ifTask == m.lo.ifTask && f.m.sh.regs == m.sh.regs && f.m.sh.mem == m.sh.mem
      && (!f.id ==> f.m == m || f.m == WriteValue(m))
  {
    hide SecondID, Dest, Forwards, Exports, Acquires, Patch, ValueAt, FlagAt, Resets, ResetOf, ResetValue;
    if AtID(m) {
      IDFields(isa, m);
      ResetOn(isa, m);
      ValueForID(m);
      ResetFrame(isa, m, WriteValue(m));
    }
  }

  lemma ReachAtID(isa: Isa, a0: Arch, m: Machine)
    requires Reachable(isa, a0, false, m) && m.clock.half.Second? && !m.clock.doneID
    ensures AtID(m)
  {
    hide Reachable, Order, Ids, Back, Scoreboard, FrontEnd, Timing, Account, RolesOf;
    ReachGood(isa, a0, false, m);
  }

  /** As long as EX has not finished, what ID has reset is zero. */
  predicate ZeroYet(m: Machine) {
    m.clock.half.Second? && m.clock.doneID && !m.clock.doneEX && SameRegister(m) ==>
      m.sh.board[Dest(m.lo.exTask.instr)].value == 0
  }

  lemma ZeroFire(isa: Isa, a0: Arch, m: Machine, s: Stage)
    requires Reachable(isa, a0, false, m) && ZeroYet(m) && CanFire(false, m, s)
    ensures ZeroYet(Fire(isa, m, s))
  {
    hide Reachable, Fire, SecondID, Dest, Forwards, Exports, Acquires;
    FireClock(isa, m, s);
    if m.clock.half.Second? {
      if s.ID? {
        ReachAtID(isa, a0, m);
        ZeroID(isa, m);
      } else if Other(s) {
        OthersKeepEX(isa, m, s);
        OthersFrame(isa, m, s, m.sh.board);
      }
    }
  }

  lemma ZeroID(isa: Isa, m: Machine)
    requires AtID(m)
    ensures ZeroYet(Fire(isa, m, ID))
  {
    hide SecondID, Dest, Forwards, Exports, Acquires;
    IDFields(isa, m);
    SameRegisterIs(isa, m);
  }

  lemma {:induction false} ZeroHolds(isa: Isa, a0: Arch, trace: seq<Machine>, j: nat)
    requires RunFrom(isa, a0, trace) && j < |trace|
    ensures Reachable(isa, a0, false, trace[j]) && ZeroYet(trace[j])
  {
    hide Boot, Fire, Overlap, Edge, Init, Reachable, SameRegister;
    if j == 0 {
      ReachBoot(isa, a0, false);
    } else {
      ZeroHolds(isa, a0, trace, j - 1);
      var m, m' := trace[j - 1], trace[j];
      assert Pipeline.Next(isa, false, m, m');
      ReachNext(isa, a0, false, m, m');
      if s: Stage :| CanFire(false, m, s) && m' == Fire(isa, m, s) {
        ZeroFire(isa, a0, m, s);
      } else if s: Stage :| CanOverlap(false, m, s) && m' == Overlap(Fire(isa, m, s)) {
        ZeroFire(isa, a0, m, s);
        ZeroOverlap(Fire(isa, m, s));
      } else {
        ZeroEdge(m);
      }
    }
  }

  lemma ZeroOverlap(m: Machine)
    requires ZeroYet(m)
    ensures ZeroYet(Overlap(m))
  {
    if !BothWrote(m) { assert Overlap(m) == m; }
  }

  lemma ZeroEdge(m: Machine)
    ensures ZeroYet(Edge(m))
  {
  }

  lemma ReachZero(isa: Isa, a0: Arch, m: Machine)
    requires Reachable(isa, a0, false, m)
    ensures ZeroYet(m)
  {
    hide RunFrom, Pipeline.Next, ZeroYet;
    var trace :| Ends(isa, a0, false, trace, m);
    ZeroHolds(isa, a0, trace, |trace| - 1);
  }

  // ---------------------------------------------------------------- the accesses are steps of `Pipeline`

  lemma WholeStep(isa: Isa, a0: Arch, m: Machine, p: Form, s: Stage)
    requires Reachable(isa, a0, false, m) && Fits(m, p) && Enabled(Part(isa, m, p), Whole(s))
    ensures CanFire(false, m, s) && Fits(Fire(isa, m, s), p)
    ensures Do(isa, Part(isa, m, p), Whole(s)) == Part(isa, Fire(isa, m, s), p)
  {
    hide Reachable, Fire, WriteValue, ResetValue, KeepValue, SameRegister, Part;
    PartIs(isa, m, p);
    if !p.Idle? {
      OthersKeepEX(isa, m, s);
      if AtID(m) { ResetAndWhole(isa, m, p, s); } else { ValueAndWhole(isa, m, p, s); }
    } else {
      IdleAndWhole(isa, m, s);
    }
  }

  lemma IdleAndWhole(isa: Isa, m: Machine, s: Stage)
    requires CanFire(false, m, s) && !Splits(m, s)
    ensures Do(isa, Part(isa, m, Idle), Whole(s)) == Part(isa, Fire(isa, m, s), Idle)
  {
    hide Fire;
  }

  lemma ValueAndWhole(isa: Isa, m: Machine, p: Form, s: Stage)
    requires Fits(m, p) && (p.Wrote? || p.Lost?) && Other(s) && CanFire(false, m, s)
    ensures CanFire(false, Part(isa, m, p).m, s)
    ensures Do(isa, Part(isa, m, p), Whole(s)) == Part(isa, Fire(isa, m, s), p)
  {
    hide Fire, WriteValue, SameRegister;
    OthersAndValue(isa, m, s);
  }

  lemma ResetAndWhole(isa: Isa, m: Machine, p: Form, s: Stage)
    requires AtID(m) && Fits(m, p) && !p.Idle? && Other(s) && CanFire(false, m, s)
    ensures CanFire(false, Part(isa, m, p).m, s) && !Splits(Part(isa, m, p).m, s)
    ensures Do(isa, Part(isa, m, p), Whole(s)) == Part(isa, Fire(isa, m, s), p)
  {
    hide Fire, WriteValue, ResetValue, KeepValue;
    PartIs(isa, m, p);
    OthersAndValue(isa, m, s);
    OthersAndReset(isa, m, s);
    PartIs(isa, m, HasReset);
    OthersAndKeep(isa, ResetValue(isa, m), s);
    OthersAndValue(isa, ResetValue(isa, m), s);
    ValueForID(m);
    ValueAtID(m);
    OthersAndReset(isa, WriteValue(m), s);
  }

  lemma ValueAtID(m: Machine)
    ensures WriteValue(m).clock == m.clock && AtID(WriteValue(m)) == AtID(m)
    ensures WriteValue(m).lo == m.lo && WriteValue(m).hist == m.hist
  {
  }

  /** What the last access of EX makes of each form. */
  lemma FlagStep(isa: Isa, m: Machine, p: Form)
    requires Fits(m, p) && Part(isa, m, p).ex && ZeroYet(m)
    ensures !m.clock.doneEX && m.clock.half.Second?
    ensures Do(isa, Part(isa, m, p), EXFlag) ==
            if p.Lost? then Part(isa, Overlap(Fire(isa, m, EX)), Idle)
            else Part(isa, Fire(isa, m, EX), if p.ResetLast? then HasReset else if p.ValueLast? then Kept else Idle)
  {
    hide Fire, WriteValue, ResetValue, KeepValue, RaiseFlag, SameRegister, Overlap;
    match p
    case Wrote => BothOfEX(isa, m);
    case Lost => FlagAfterLoss(isa, m);
    case _ => FlagAfterBoth(isa, m);
  }

  /** And that of ID. */
  lemma ClearStep(isa: Isa, m: Machine, p: Form)
    requires Fits(m, p) && Part(isa, m, p).id
    ensures AtID(m)
    ensures Do(isa, Part(isa, m, p), IDFlag) ==
            if p.HasReset? then Part(isa, Fire(isa, m, ID), Idle)
            else if p.Kept? then Part(isa, Overlap(Fire(isa, m, ID)), Idle)
            else Part(isa, Fire(isa, m, ID), if p.ResetLast? && SameRegister(Fire(isa, m, ID)) then Lost else Wrote)
  {
    hide Fire, WriteValue, ResetValue, KeepValue, ClearFlag, SameRegister, Overlap;
    match p
    case HasReset => BothOfID(isa, m);
    case Kept => ClearAfterKeep(isa, m);
    case ResetLast => ClearAfterValue(isa, m);
    case _ => ClearBeforeFlag(isa, m);
  }

  lemma EXLeavesID(isa: Isa, m: Machine)
    requires m.clock.half.Second?
    ensures var m' := Fire(isa, m, EX); m'.clock == m.clock.Mark(EX) && m'.sh.idEx == m.sh.idEx
  {
    hide Executed, Dest, Forwards;
  }

  /** Every access leads from one form to another, of the same state or of the next one. */
  lemma StepDown(isa: Isa, a0: Arch, m: Machine, p: Form, a: Access) returns (m': Machine, p': Form)
    requires Reachable(isa, a0, false, m) && Fits(m, p) && Enabled(Part(isa, m, p), a)
    ensures Reachable(isa, a0, false, m') && Fits(m', p') && Do(isa, Part(isa, m, p), a) == Part(isa, m', p')
  {
    hide Reachable, Fire, Overlap, Edge, WriteValue, ResetValue, KeepValue, RaiseFlag, ClearFlag, SameRegister;
    m', p' := m, p;
    PartIs(isa, m, p);
    match a
    case Whole(s) =>
      WholeStep(isa, a0, m, p, s);
      ReachFire(isa, a0, false, m, s);
      m' := Fire(isa, m, s);
    case EXValue =>
      p' := if p.Idle? then Wrote else ValueLast;
    case EXFlag =>
      ReachZero(isa, a0, m);
      FlagStep(isa, m, p);
      EXLeavesID(isa, m);
      ReachFire(isa, a0, false, m, EX);
      ReachOverlap(isa, a0, m, EX);
      m' := if p.Lost? then Overlap(Fire(isa, m, EX)) else Fire(isa, m, EX);
      p' := if p.ResetLast? then HasReset else if p.ValueLast? then Kept else Idle;
    case IDReset =>
      ReachAtID(isa, a0, m);
      p' := if p.Idle? then HasReset else ResetLast;
    case IDFlag =>
      ClearStep(isa, m, p);
      FireClock(isa, m, ID);
      ReachFire(isa, a0, false, m, ID);
      ReachOverlap(isa, a0, m, ID);
      m' := if p.Kept? then Overlap(Fire(isa, m, ID)) else Fire(isa, m, ID);
      p' := if p.HasReset? || p.Kept? then Idle
            else if p.ResetLast? && SameRegister(Fire(isa, m, ID)) then Lost else Wrote;
    case Barrier =>
      ReachEdge(isa, a0, false, m);
      m' := Edge(m);
  }

  /** Every state of the accesses is a state of `Pipeline` with ID and EX at work. */
  lemma {:induction false} RunDown(isa: Isa, a0: Arch, trace: seq<Fine>, j: nat) returns (m: Machine, p: Form)
    requires FineRun(isa, a0, trace) && j < |trace|
    ensures Reachable(isa, a0, false, m) && Fits(m, p) && trace[j] == Part(isa, m, p)
  {
    hide Reachable, Init, Part, Do, Fits, Enabled;
    if j == 0 {
      ReachBoot(isa, a0, false);
      m, p := Init(a0.pc, a0.regs, a0.mem), Idle;
      BootPart(isa, a0);
    } else {
      m, p := RunDown(isa, a0, trace, j - 1);
      assert Accesses.Next(isa, trace[j - 1], trace[j]);
      var a: Access :| Enabled(trace[j - 1], a) && trace[j] == Do(isa, trace[j - 1], a);
      m, p := StepDown(isa, a0, m, p, a);
    }
  }

  lemma BootPart(isa: Isa, a0: Arch)
    ensures Part(isa, Init(a0.pc, a0.regs, a0.mem), Idle) == FineBoot(a0) && Fits(Init(a0.pc, a0.regs, a0.mem), Idle)
  {
    hide Init;
  }

  lemma FineDown(isa: Isa, a0: Arch, f: Fine) returns (m: Machine, p: Form)
    requires FineReachable(isa, a0, f)
    ensures Reachable(isa, a0, false, m) && Fits(m, p) && f == Part(isa, m, p)
  {
    hide FineRun, Reachable, Fits, Part;
    var trace: seq<Fine> :| FineEnds(isa, a0, trace, f);
    assert 0 < |trace| by { FineNotEmpty(isa, a0, trace); }
    m, p := RunDown(isa, a0, trace, |trace| - 1);
  }

  lemma FineNotEmpty(isa: Isa, a0: Arch, trace: seq<Fine>)
    requires FineRun(isa, a0, trace)
    ensures 0 < |trace|
  {
  }

  // ---------------------------------------------------------------- and the steps of `Pipeline` are accesses

  lemma FineNext(isa: Isa, a0: Arch, f: Fine, a: Access)
    requires FineReachable(isa, a0, f) && Enabled(f, a)
    ensures FineReachable(isa, a0, Do(isa, f, a))
  {
    hide Do, Enabled, Boot, FineBoot, Accesses.Next;
    assert Accesses.Next(isa, f, Do(isa, f, a)) by { NextIs(isa, f, a); }
    var trace: seq<Fine> :| FineEnds(isa, a0, trace, f);
    assert FineEnds(isa, a0, trace + [Do(isa, f, a)], Do(isa, f, a));
  }

  lemma NextIs(isa: Isa, f: Fine, a: Access)
    requires Enabled(f, a)
    ensures Accesses.Next(isa, f, Do(isa, f, a))
  {
    hide Do;
  }

  /** All forms of m are within reach. */
  ghost predicate AllForms(isa: Isa, a0: Arch, m: Machine) {
    forall p :: Fits(m, p) ==> FineReachable(isa, a0, Part(isa, m, p))
  }

  /** The first accesses can be made at once; what is left are the forms in which one of the two has
      met the other. */
  lemma Spread(isa: Isa, a0: Arch, m: Machine)
    requires FineReachable(isa, a0, Part(isa, m, Idle))
    requires Fits(m, Lost) ==> FineReachable(isa, a0, Part(isa, m, Lost))
    requires Fits(m, Kept) ==> FineReachable(isa, a0, Part(isa, m, Kept))
    ensures AllForms(isa, a0, m)
  {
    hide FineReachable, WriteValue, ResetValue, KeepValue, SameRegister;
    if m.clock.half.Second? {
      if !m.clock.doneEX { FineNext(isa, a0, Part(isa, m, Idle), EXValue); }
      if AtID(m) {
        FineNext(isa, a0, Part(isa, m, Idle), IDReset);
        PartIs(isa, m, HasReset);
        if !m.clock.doneEX {
          ValueAtID(m);
          FineNext(isa, a0, Part(isa, m, Wrote), IDReset);
          FineNext(isa, a0, Part(isa, m, HasReset), EXValue);
        }
      }
    }
  }

  lemma UseForm(isa: Isa, a0: Arch, m: Machine, p: Form, a: Access)
    requires AllForms(isa, a0, m) && Fits(m, p) && Enabled(Part(isa, m, p), a)
    ensures FineReachable(isa, a0, Do(isa, Part(isa, m, p), a))
  {
    hide FineReachable, Fits, Part, Enabled, Do;
    FineNext(isa, a0, Part(isa, m, p), a);
  }

  lemma WholeUp(isa: Isa, a0: Arch, m: Machine, s: Stage)
    requires Reachable(isa, a0, false, m) && AllForms(isa, a0, m) && CanFire(false, m, s) && !Splits(m, s)
    ensures AllForms(isa, a0, Fire(isa, m, s))
  {
    hide Reachable, AllForms, Fire, WriteValue, ResetValue, KeepValue, SameRegister, FineReachable, Do;
    var m' := Fire(isa, m, s);
    FireClock(isa, m, s);
    UseForm(isa, a0, m, Idle, Whole(s));
    IdleAndWhole(isa, m, s);
    if m.clock.half.Second? {
      OthersKeepEX(isa, m, s);
      if Fits(m', Lost) { LatterForm(isa, a0, m, Lost, s); }
      if Fits(m', Kept) { LatterForm(isa, a0, m, Kept, s); }
    }
    Spread(isa, a0, m');
  }

  lemma LatterForm(isa: Isa, a0: Arch, m: Machine, p: Form, s: Stage)
    requires Reachable(isa, a0, false, m) && AllForms(isa, a0, m) && Fits(m, p) && (p.Lost? || p.Kept?)
    requires CanFire(false, m, s) && Other(s)
    ensures FineReachable(isa, a0, Part(isa, Fire(isa, m, s), p))
  {
    hide Reachable, AllForms, Fire, WriteValue, ResetValue, KeepValue, SameRegister, FineReachable, Do, Part;
    PartIs(isa, m, p);
    assert Enabled(Part(isa, m, p), Whole(s)) by { StillOpen(isa, m, p, s); }
    UseForm(isa, a0, m, p, Whole(s));
    WholeStep(isa, a0, m, p, s);
  }

  lemma StillOpen(isa: Isa, m: Machine, p: Form, s: Stage)
    requires Fits(m, p) && (p.Lost? || p.Kept?) && CanFire(false, m, s) && Other(s)
    ensures Enabled(Part(isa, m, p), Whole(s))
  {
    hide WriteValue, ResetValue, KeepValue, SameRegister, Part;
    PartIs(isa, m, p);
  }

  lemma EXUp(isa: Isa, a0: Arch, m: Machine)
    requires Reachable(isa, a0, false, m) && AllForms(isa, a0, m) && m.clock.half.Second? && !m.clock.doneEX
    ensures AllForms(isa, a0, Fire(isa, m, EX))
  {
    hide Reachable, AllForms, Fire, WriteValue, ResetValue, KeepValue, RaiseFlag, SameRegister, FineReachable, Overlap;
    var m' := Fire(isa, m, EX);
    EXLeavesID(isa, m);
    ReachZero(isa, a0, m);
    UseForm(isa, a0, m, Wrote, EXFlag);
    FlagStep(isa, m, Wrote);
    if Fits(m', Kept) {
      UseForm(isa, a0, m, ValueLast, EXFlag);
      FlagStep(isa, m, ValueLast);
    }
    Spread(isa, a0, m');
  }

  lemma IDUp(isa: Isa, a0: Arch, m: Machine)
    requires Reachable(isa, a0, false, m) && AllForms(isa, a0, m) && m.clock.half.Second? && !m.clock.doneID
    ensures AllForms(isa, a0, Fire(isa, m, ID))
  {
    hide Reachable, AllForms, Fire, WriteValue, ResetValue, KeepValue, ClearFlag, SameRegister, FineReachable, Overlap;
    var m' := Fire(isa, m, ID);
    FireClock(isa, m, ID);
    ReachAtID(isa, a0, m);
    UseForm(isa, a0, m, HasReset, IDFlag);
    ClearStep(isa, m, HasReset);
    if Fits(m', Lost) {
      UseForm(isa, a0, m, ResetLast, IDFlag);
      ClearStep(isa, m, ResetLast);
    }
    Spread(isa, a0, m');
  }

  lemma OverlapUp(isa: Isa, a0: Arch, m: Machine, s: Stage)
    requires Reachable(isa, a0, false, m) && AllForms(isa, a0, m) && CanOverlap(false, m, s)
    ensures AllForms(isa, a0, Overlap(Fire(isa, m, s)))
  {
    hide Reachable, AllForms, Fire, WriteValue, ResetValue, KeepValue, ClearFlag, RaiseFlag, FineReachable,
         SameRegister, Overlap;
    var m1 := Fire(isa, m, s);
    FireClock(isa, m, s);
    if !BothWrote(m1) {
      NoOverlap(m1);
      if s.EX? { EXUp(isa, a0, m); } else { IDUp(isa, a0, m); }
    } else {
      ShapeOverlap(m1);
      if s.EX? {
        EXKeepsSame(isa, m);
        ReachZero(isa, a0, m);
        UseForm(isa, a0, m, Lost, EXFlag);
        FlagStep(isa, m, Lost);
      } else {
        ReachAtID(isa, a0, m);
        UseForm(isa, a0, m, Kept, IDFlag);
        ClearStep(isa, m, Kept);
      }
      Spread(isa, a0, Overlap(m1));
    }
  }

  lemma EXKeepsSame(isa: Isa, m: Machine)
    requires m.clock.half.Second?
    ensures SameRegister(Fire(isa, m, EX)) == SameRegister(m)
  {
    hide Dest, Forwards, Exports, Acquires;
    ExecutedSame(m.lo.exTask, m.lo.exOut);
    hide Executed;
  }

  lemma EdgeUp(isa: Isa, a0: Arch, m: Machine)
    requires AllForms(isa, a0, m) && m.clock.AllDone()
    ensures AllForms(isa, a0, Edge(m))
  {
    hide AllForms, WriteValue, ResetValue, KeepValue, FineReachable, SameRegister, RaceOf;
    UseForm(isa, a0, m, Idle, Barrier);
    Spread(isa, a0, Edge(m));
  }

  lemma {:induction false} RunUp(isa: Isa, a0: Arch, trace: seq<Machine>, j: nat)
    requires RunFrom(isa, a0, trace) && j < |trace|
    ensures Reachable(isa, a0, false, trace[j]) && AllForms(isa, a0, trace[j])
  {
    hide Boot, Fire, Overlap, Edge, Init, Reachable, AllForms;
    if j == 0 {
      ReachBoot(isa, a0, false);
      BootUp(isa, a0);
    } else {
      RunUp(isa, a0, trace, j - 1);
      var m, m' := trace[j - 1], trace[j];
      assert Pipeline.Next(isa, false, m, m');
      ReachNext(isa, a0, false, m, m');
      if s: Stage :| CanFire(false, m, s) && m' == Fire(isa, m, s) {
        if !Splits(m, s) { WholeUp(isa, a0, m, s); }
        else if s.EX? { EXUp(isa, a0, m); }
        else { IDUp(isa, a0, m); }
      } else if s: Stage :| CanOverlap(false, m, s) && m' == Overlap(Fire(isa, m, s)) {
        OverlapUp(isa, a0, m, s);
      } else {
        EdgeUp(isa, a0, m);
      }
    }
  }

  lemma BootUp(isa: Isa, a0: Arch)
    requires Boot(a0)
    ensures AllForms(isa, a0, Init(a0.pc, a0.regs, a0.mem))
  {
    hide FreeBoard, WriteValue, ResetValue, KeepValue, SameRegister, AllForms;
    BootPart(isa, a0);
    assert FineEnds(isa, a0, [FineBoot(a0)], FineBoot(a0));
    Spread(isa, a0, Init(a0.pc, a0.regs, a0.mem));
  }

  // ---------------------------------------------------------------- the theorems

  /** Main theorem: with EX and ID out of the way, the two machines reach exactly the same states. */
  lemma SameStates(isa: Isa, a0: Arch, m: Machine)
    ensures FineReachable(isa, a0, Fine(m, false, false)) <==> Reachable(isa, a0, false, m)
  {
    hide FineReachable, RunFrom, Pipeline.Next, AllForms, Fits, WriteValue, ResetValue, KeepValue;
    if FineReachable(isa, a0, Fine(m, false, false)) {
      var m', p := FineDown(isa, a0, Fine(m, false, false));
    }
    if Reachable(isa, a0, false, m) {
      var trace :| Ends(isa, a0, false, trace, m);
      RunUp(isa, a0, trace, |trace| - 1);
      IdleOf(isa, a0, m);
    }
  }

  lemma IdleOf(isa: Isa, a0: Arch, m: Machine)
    requires AllForms(isa, a0, m)
    ensures FineReachable(isa, a0, Fine(m, false, false))
  {
    hide FineReachable;
    assert Fits(m, Idle) && Part(isa, m, Idle) == Fine(m, false, false);
  }

  /** Between any two accesses registers and memory are those of the sequential machine. */
  lemma AccessesRefineReference(isa: Isa, a0: Arch, f: Fine) returns (m: Machine)
    requires FineReachable(isa, a0, f)
    ensures Reachable(isa, a0, false, m) && m.clock == f.m.clock
    ensures 0 <= RetiredAt(m) <= StoredAt(m) <= m.hist.issued <= RetiredAt(m) + 4
    ensures f.m.sh.regs == Run(isa, RaceIn(m.hist.races), a0, RetiredAt(m)).regs
    ensures f.m.sh.mem == Run(isa, RaceIn(m.hist.races), a0, StoredAt(m)).mem
  {
    hide FineReachable, Reachable, Fits, Part, Good, RetiredAt, StoredAt, Run, RaceIn;
    var p;
    m, p := FineDown(isa, a0, f);
    PartIs(isa, m, p);
    ReachGood(isa, a0, false, m);
    GoodRefines(WorldAt(isa, a0, m), m);
  }

  /** ID decides as the plain sequential machine, whatever EX has written so far. */
  ghost predicate AccessesDecideRight(isa: Isa, a0: Arch) {
    forall f :: FineReachable(isa, a0, f) && !f.id ==> RightDecision(isa, a0, f.m)
  }

  /** So the condition is exact for the accesses too. */
  lemma AccessesDecideRightIffNoneDiverges(isa: Isa, a0: Arch)
    requires Boot(a0)
    ensures AccessesDecideRight(isa, a0) <==> NoneDiverges(isa, a0)
  {
    hide FineReachable, Reachable, RightDecision, NoneDiverges, Boot, Fits, WriteValue, ResetValue, KeepValue;
    DecidesRightIffNoneDiverges(isa, a0);
    if DecidesRight(isa, a0) {
      forall f | FineReachable(isa, a0, f) && !f.id ensures RightDecision(isa, a0, f.m) {
        var m, p := FineDown(isa, a0, f);
        PartIs(isa, m, p);
        assert RightDecision(isa, a0, m);
        if f.m == WriteValue(m) { SameRight(isa, a0, m); }
      }
    }
    if AccessesDecideRight(isa, a0) {
      forall m | Reachable(isa, a0, false, m) ensures RightDecision(isa, a0, m) {
        SameStates(isa, a0, m);
        assert RightDecision(isa, a0, Fine(m, false, false).m);
      }
    }
  }

  lemma SameRight(isa: Isa, a0: Arch, m: Machine)
    requires RightDecision(isa, a0, m)
    ensures RightDecision(isa, a0, WriteValue(m))
  {
    hide Decide, JumpOf, Run, Patch, WriteValue;
    ValueForID(m);
    ValueAtID(m);
    DecidePatched(isa, m.sh, WriteValue(m).sh, m.lo, WriteValue(m).lo, WriteValue(m).sh.board);
  }

  // ---------------------------------------------------------------- the first half

  /** WB is about to free r: a Reset of all its fields. */
  predicate Frees(m: Machine, r: Reg) {
    && m.clock.half.First? && !m.clock.doneWB && r != 0
    && m.sh.dmWb.Some? && m.sh.dmWb.value.fetched && Dest(m.sh.dmWb.value.instr) == r
    && m.sh.board[r].holder == Some(m.sh.dmWb.value.id)
  }

  predicate Reads(i: Instr, r: Reg) {
    (ExReadsRs(i) && i.rs == r) || (ExReadsRt(i) && i.rt == r)
  }

  /** In the first half WB is the only stage whose accesses could meet those of another one. They do not:
      r has no flag that a branch would see or that EX withdraws, the task that EX takes does not
      announce r, and reads r, if at all, from what ID has loaded. */
  lemma FreedIsUntouched(isa: Isa, a0: Arch, m: Machine, r: Reg)
    requires Reachable(isa, a0, false, m) && Frees(m, r)
    ensures !m.sh.board[r].idAvailable && !m.sh.board[r].exAvailable
    ensures !m.clock.doneEX && TaskX(m).Some? ==>
              Dest(TaskX(m).value.instr) != r && (Reads(TaskX(m).value.instr, r) ==> !m.sh.board[r].exForward)
  {
    hide Reachable, Good, Dest, TaskN, TaskX, TaskY, FrontEnd, Timing, Account, RegsOk, MemOk, NOk, YOk, ZOk, LastEX,
         At, Carried, ResultAt, Computed, Finished;
    var w := WorldAt(isa, a0, m);
    GoodInv(isa, a0, m);
    var v := RolesOf(m);
    assert Cell(w, m.sh.board[r], v, m.clock, r);
    assert TaskZ(m) == m.sh.dmWb;
    OlderHasFreed(w, m, v, r);
  }

  lemma GoodInv(isa: Isa, a0: Arch, m: Machine)
    requires Reachable(isa, a0, false, m)
    ensures Inv(WorldAt(isa, a0, m), m)
  {
    hide Reachable, Inv;
    ReachGood(isa, a0, false, m);
  }

  /** The holder is the youngest writer, so no younger task writes r. */
  lemma OlderHasFreed(w: World, m: Machine, v: Roles, r: Reg)
    requires v == RolesOf(m) && Ids(m.hist.topId, m.allocs, v) && r != 0
    requires v.z.Some? && Youngest(v, r) == Some(v.z.value.id)
    ensures !Writes(v.n, r) && !Writes(v.x, r) && !Writes(v.y, r)
  {
    hide RolesOf, Dest;
  }
}
