/** What the five threads report in every cycle, as it lies in the queues of `Context`. */
module Reports {
  import opened Basics
  import opened Instructions

  /** Register 0 stands for no difference. */
  datatype RegsDiff = RegsDiff(reg: Reg, value: Word, abort: bool, terminated: bool)

  function Apply(regs: RegFile, d: RegsDiff): RegFile {
    if d.reg > 0 then regs[d.reg := d.value] else regs
  }

  function Replay(regs: RegFile, diffs: seq<RegsDiff>): RegFile {
    if diffs == [] then regs else Apply(Replay(regs, diffs[..|diffs| - 1]), diffs[|diffs| - 1])
  }

  lemma ReplayOne(regs: RegFile, diffs: seq<RegsDiff>, d: RegsDiff)
    ensures Replay(regs, diffs + [d]) == Apply(Replay(regs, diffs), d)
  {
    assert (diffs + [d])[..|diffs|] == diffs;
  }

  /** What WB puts into its queue for a cycle in which its task has done the given write. */
  function DiffOf(write: Option<(Reg, Word)>): RegsDiff {
    match write
    case Some((r, v)) => RegsDiff(r, v, false, false)
    case None => RegsDiff(0, 0, false, false)
  }

  datatype Message = Line(text: string) | End

  /** The number of entries in the message queue of stage k, its end marker included, when the
      printer has to print n cycles. */
  function Entries(k: nat, n: nat): int {
    if k == 0 then n else n - 3 + k
  }

  /** The queues that a shutdown leaves: one difference and one PC for each of the n cycles, the
      last difference marked, and the messages of each stage with the marker at the end. */
  predicate Supplied(n: nat, diffs: seq<RegsDiff>, pcs: seq<Word>, messages: seq<seq<Message>>) {
    && 3 <= n && |diffs| == n && |pcs| == n && |messages| == 5
    && (forall j :: 0 <= j < n ==> !diffs[j].abort && diffs[j].terminated == (j == n - 1))
    && (forall k :: 0 <= k < 5 ==> |messages[k]| == Entries(k, n))
    && (forall k, j :: 0 <= k < 5 && 0 <= j < |messages[k]| ==> (messages[k][j].End? <==> j == |messages[k]| - 1))
  }
}
