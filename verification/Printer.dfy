/** The printer loop of `Context`: it replays the register differences that WB reports on a copy
    of the registers, and pops one message per cycle from every stage that has not ended. */
module Printer {
  import opened Basics
  import opened Instructions
  import opened Reference
  import opened Reports
  import opened Processor
  import opened Halting
  import opened PcStream
  import Shutdown

  predicate AllDead(dead: seq<bool>) { forall k :: 0 <= k < |dead| ==> dead[k] }

  class PrinterLoop {
    var regsQueue: seq<RegsDiff>
    var pcQueue: seq<Word>
    var messages: seq<seq<Message>>
    const clone: array<Word>
    var shown: seq<seq<Word>>   // the registers of every snapshot
    var shownPcs: seq<Word>     // and its PC
    var cycle: nat

    ghost predicate Valid() { clone.Length == REGISTER_COUNT }

    /** Pop one message of each stage that has not ended. */
    method PopMessages(dead: seq<bool>) returns (dead': seq<bool>)
      requires |messages| == |dead| == 5
      requires forall k :: 0 <= k < 5 && !dead[k] ==> messages[k] != []
      modifies this`messages
      ensures |messages| == |dead'| == 5
      ensures forall k :: 0 <= k < 5 ==>
                if dead[k] then dead'[k] && messages[k] == old(messages)[k]
                else dead'[k] == old(messages)[k][0].End? && messages[k] == old(messages)[k][1..]
    {
      dead' := dead;
      var k := 0;
      while k < 5
        invariant 0 <= k <= 5 && |messages| == |dead'| == 5
        invariant forall i :: k <= i < 5 ==> dead'[i] == dead[i] && messages[i] == old(messages)[i]
        invariant forall i :: 0 <= i < k ==>
                    if dead[i] then dead'[i] && messages[i] == old(messages)[i]
                    else dead'[i] == old(messages)[i][0].End? && messages[i] == old(messages)[i][1..]
      {
        if !dead'[k] {
          var message := messages[k][0];
          messages := messages[k := messages[k][1..]];
          dead' := dead'[k := message.End?];
        }
        k := k + 1;
      }
    }

    /** Update the copy of the registers. */
    method PopDiff() returns (d: RegsDiff)
      requires Valid() && regsQueue != []
      modifies this`regsQueue, clone
      ensures d == old(regsQueue)[0] && regsQueue == old(regsQueue)[1..]
      ensures clone[..] == Apply(old(clone[..]), d)
    {
      d := regsQueue[0];
      regsQueue := regsQueue[1..];
      if d.reg > 0 {
        clone[d.reg] := d.value;
      }
    }

    /** The state after j cycles of a supply. */
    ghost predicate Printed(j: nat, n: nat, regs: RegFile, diffs: seq<RegsDiff>, pcs: seq<Word>,
                            all: seq<seq<Message>>)
      reads this, clone
      requires Supplied(n, diffs, pcs, all) && j <= n
    {
      && Valid()
      && regsQueue == diffs[j..] && pcQueue == pcs[j..]
      && |messages| == 5
      && (forall k :: 0 <= k < 5 ==> messages[k] == Rest(all[k], j))
      && clone[..] == Replay(regs, diffs[..j])
    }

    /** One cycle, up to the test for the end. */
    method PrintCycle(dead: seq<bool>, ghost j: nat, ghost n: nat, ghost regs: RegFile,
                      ghost diffs: seq<RegsDiff>, ghost pcs: seq<Word>, ghost all: seq<seq<Message>>)
      returns (dead': seq<bool>, last: bool)
      requires Supplied(n, diffs, pcs, all) && j < n && Printed(j, n, regs, diffs, pcs, all)
      requires |dead| == 5 && forall k :: 0 <= k < 5 ==> dead[k] == (|all[k]| <= j)
      modifies this`regsQueue, this`pcQueue, this`messages, this`shownPcs, clone
      ensures shownPcs == old(shownPcs) + [pcs[j]]
      ensures Printed(j + 1, n, regs, diffs, pcs, all)
      ensures |dead'| == 5 && forall k :: 0 <= k < 5 ==> dead'[k] == (|all[k]| <= j + 1)
      ensures last == (j + 1 == n)
    {
      ghost var before := diffs[..j];
      ReplayOne(regs, before, diffs[j]);
      assert before + [diffs[j]] == diffs[..j + 1];
      var d := PopDiff();
      shownPcs := shownPcs + [pcQueue[0]];
      pcQueue := pcQueue[1..];
      dead' := PopMessages(dead);
      assert !dead'[4];
      last := d.abort || d.terminated || AllDead(dead');
    }

    /** Print until the marked difference. No pop finds an empty queue; the end marker of WB is
        all that is left over; the j-th snapshot shows the registers after j differences and the
        j-th PC. */
    method Run(ghost n: nat)
      requires Valid() && Supplied(n, regsQueue, pcQueue, messages)
      modifies this, clone
      ensures regsQueue == [] && pcQueue == []
      ensures |messages| == 5 && messages[..4] == [[], [], [], []] && messages[4] == [End]
      ensures clone[..] == Replay(old(clone[..]), old(regsQueue))
      ensures |shown| == n && forall j :: 0 <= j < n ==> shown[j] == Replay(old(clone[..]), old(regsQueue)[..j])
      ensures cycle == n - 1 && shownPcs == old(pcQueue)
    {
      hide Supplied, Replay, Rest;
      ghost var regs, diffs, pcs, all := clone[..], regsQueue, pcQueue, messages;
      Lengths(n, diffs, pcs, all);
      NothingPopped(regs, diffs, all);
      var dead := [false, false, false, false, false];
      var last := false;
      ghost var j := 0;
      cycle, shown, shownPcs := 0, [clone[..]], [];
      while !last
        invariant Supplied(n, diffs, pcs, all) && j <= n && last == (j == n)
        invariant Printed(j, n, regs, diffs, pcs, all)
        invariant |dead| == 5 && forall k :: 0 <= k < 5 ==> dead[k] == (|all[k]| <= j)
        invariant shownPcs == pcs[..j]
        invariant |shown| == (if last then n else j + 1) && cycle == |shown| - 1
        invariant forall i :: 0 <= i < |shown| ==> shown[i] == Replay(regs, diffs[..i])
        decreases n - j
      {
        dead, last := PrintCycle(dead, j, n, regs, diffs, pcs, all);
        j := j + 1;
        if !last {
          cycle := cycle + 1;
          shown := shown + [clone[..]];
        }
      }
      assert diffs[..n] == diffs && pcs[..n] == pcs;
      LeftOver(n, diffs, pcs, all);
    }
  }

  lemma Lengths(n: nat, diffs: seq<RegsDiff>, pcs: seq<Word>, all: seq<seq<Message>>)
    requires Supplied(n, diffs, pcs, all)
    ensures 3 <= n && |diffs| == n && |pcs| == n && |all| == 5 && forall k :: 0 <= k < 5 ==> |all[k]| > 0
  {
  }

  lemma NothingPopped(regs: RegFile, diffs: seq<RegsDiff>, all: seq<seq<Message>>)
    ensures Replay(regs, diffs[..0]) == regs && forall k :: 0 <= k < |all| ==> Rest(all[k], 0) == all[k]
  {
  }

  /** What is left of a queue after j pops, or after all of them. */
  function Rest(q: seq<Message>, j: nat): seq<Message> {
    if j <= |q| then q[j..] else []
  }

  lemma LeftOver(n: nat, diffs: seq<RegsDiff>, pcs: seq<Word>, all: seq<seq<Message>>)
    requires Supplied(n, diffs, pcs, all)
    ensures forall k :: 0 <= k < 4 ==> Rest(all[k], n) == []
    ensures Rest(all[4], n) == [End]
  {
    assert |all[4]| == n + 1 && all[4][n].End?;
  }

  // ---------------------------------------------------------------- after a shutdown

  /** The printer on the queues of a processor that has halted: every pop finds an entry, all that is
      left over is the end marker of WB, the copy of the registers ends as the register file, and
      the snapshot of cycle j shows the register file at the edge of cycle j, and the PC with which IF
      fetches in that cycle. */
  method PrintHalted(p: PrinterLoop, ghost isa: Isa, ghost a0: Arch, ghost trace: seq<System>, ghost i: nat)
    requires p.Valid() && HasHalted(isa, a0, trace, i) && p.clone[..] == a0.regs
    requires var s := Last(trace); p.regsQueue == s.regsQueue && p.pcQueue == s.pcQueue && p.messages == s.messages
    modifies p, p.clone
    ensures p.regsQueue == [] && p.pcQueue == []
    ensures |p.messages| == 5 && p.messages[..4] == [[], [], [], []] && p.messages[4] == [End]
    ensures p.clone[..] == Last(trace).m.sh.regs
    ensures |p.shown| == trace[i].m.hist.cycles + 4 && p.shown[0] == a0.regs
    ensures forall k :: 0 <= k < |trace| && AllAt(trace[k], Shutdown.PostEdge) ==>
              var j := trace[k].m.hist.cycles; j < |p.shown| ==> p.shown[j] == trace[k].m.sh.regs
    ensures forall k :: 0 <= k < |trace| && AllAt(trace[k], Shutdown.AtRising) && !trace[k].threads[0].ended ==>
              var j := trace[k].m.hist.cycles; j < |p.shownPcs| && p.shownPcs[j] == trace[k].m.sh.pc
  {
    hide HasHalted, AllAt, Supplied, Replay;
    CutIsRun(isa, a0, trace, i);
    HaltedQueues(isa, a0, trace, i);
    HaltedReplay(isa, a0, trace, i);
    NothingReplayed(a0.regs, p.regsQueue);
    p.Run(trace[i].m.hist.cycles + 4);
    forall k | 0 <= k < |trace| && AllAt(trace[k], Shutdown.PostEdge) && trace[k].m.hist.cycles < |p.shown|
      ensures p.shown[trace[k].m.hist.cycles] == trace[k].m.sh.regs
    {
      SnapshotsAreExact(isa, a0, trace, i, k);
    }
    forall k | 0 <= k < |trace| && AllAt(trace[k], Shutdown.AtRising) && !trace[k].threads[0].ended
      ensures var j := trace[k].m.hist.cycles; j < |p.shownPcs| && p.shownPcs[j] == trace[k].m.sh.pc
    {
      PcsAreExact(isa, a0, trace, k, |trace| - 1);
    }
  }

  lemma NothingReplayed(regs: RegFile, q: seq<RegsDiff>)
    ensures Replay(regs, q[..0]) == regs
  {
  }
}
