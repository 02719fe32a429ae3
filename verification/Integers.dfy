/** The bit operations of `Words` and `DataMemory` in terms of integers: fields are quotients and
    remainders, masks and shifts are arithmetic, logical operations go bit by bit. */
module Integers {
  import opened Basics
  import opened Words
  import opened Shifts

  // ---------------------------------------------------------------- masks and fields

  function LowBits(w: Word, mask: Word): Word { w & mask }

  lemma Pow2Values()
    ensures Pow2(5) == 32 && Pow2(6) == 64 && Pow2(8) == 256 && Pow2(11) == 0x800
    ensures Pow2(16) == 0x1_0000 && Pow2(21) == 0x20_0000 && Pow2(24) == 0x100_0000
    ensures Pow2(26) == 0x400_0000 && Pow2(28) == 0x1000_0000 && Pow2(32) == TWO_32
  {
    assert Pow2(8) == 256;
    assert Pow2(16) == 0x1_0000;
    assert Pow2(24) == 0x100_0000;
    assert Pow2(32) == TWO_32;
  }

  lemma Amounts()
    ensures Unsigned(2) == 2 && Unsigned(5) == 5 && Unsigned(6) == 6 && Unsigned(8) == 8 && Unsigned(11) == 11
    ensures Unsigned(16) == 16 && Unsigned(21) == 21 && Unsigned(24) == 24 && Unsigned(26) == 26 && Unsigned(28) == 28
  {
  }

  /** The part above the mask, shifted out and in again, and the part below it. */
  lemma SplitWord(w: Word, k: Word)
    requires k == 5 || k == 6 || k == 8 || k == 16 || k == 26 || k == 28
    ensures WidePlus(ShiftLeft(ShiftRight(w, k), k), LowBits(w, (1 << k) - 1)) == w as bv64
  {
  }

  lemma RemainderIs(n: int, d: int, r: int)
    requires 0 <= n < TWO_32 && d > 0 && r == n - (n / d) * d
    ensures r == n % d && 0 <= (n / d) * d <= n
  {
    assert n == (n / d) * d + n % d;
    DivisionShrinks(n, d);
    TimesIsPositive(n / d, d);
  }

  lemma TimesIsPositive(x: int, y: int)
    requires 0 <= x && 0 <= y
    ensures 0 <= x * y
  {
  }

  lemma LowBitsAreRemainder(w: Word, k: Word)
    requires k == 5 || k == 6 || k == 8 || k == 16 || k == 26 || k == 28
    ensures Unsigned(k) >= 0 && Unsigned(LowBits(w, (1 << k) - 1)) == Unsigned(w) % Pow2(Unsigned(k))
  {
    hide Unsigned, Unsigned64, WidePlus, ShiftLeft, ShiftRight, LowBits, Pow2;
    SplitWord(w, k);
    UnsignedRange(w);
    ShiftRightDivides(w, k);
    ShiftLeftMultiplies(ShiftRight(w, k), k);
    NoCarry(w);
    WideSum(ShiftLeft(ShiftRight(w, k), k), LowBits(w, (1 << k) - 1));
    var n, d := Unsigned(w), Pow2(Unsigned(k));
    RemainderIs(n, d, n - (n / d) * d);
  }

  /** The fields as quotients and remainders of the word. */
  function RsNum(w: Word): Reg { Unsigned(w) / 0x20_0000 % 32 }

  function RtNum(w: Word): Reg { Unsigned(w) / 0x1_0000 % 32 }

  function RdNum(w: Word): Reg { Unsigned(w) / 0x800 % 32 }

  function AmountNum(w: Word): nat { Unsigned(w) / 64 % 32 }

  function ImmNum(w: Word): nat { Unsigned(w) % 0x1_0000 }

  /** The immediate as a number from -2^15 to 2^15 - 1. */
  function SignedImm(w: Word): int { if ImmNum(w) < 0x8000 then ImmNum(w) else ImmNum(w) - 0x1_0000 }

  function OpNum(w: Word): nat { Unsigned(w) / 0x400_0000 % 64 }

  function FuncNum(w: Word): nat { Unsigned(w) % 64 }

  function AddrNum(w: Word): nat { Unsigned(w) % 0x400_0000 }

  lemma OpBits(w: Word)
    ensures Op(w) == LowBits(ShiftRight(w, 26), (1 << 6) - 1)
  {
  }

  lemma FuncBits(w: Word)
    ensures Func(w) == LowBits(w, (1 << 6) - 1)
  {
  }

  lemma RsBits(w: Word)
    ensures Rs(w) == LowBits(ShiftRight(w, 21), (1 << 5) - 1)
  {
  }

  lemma RtBits(w: Word)
    ensures Rt(w) == LowBits(ShiftRight(w, 16), (1 << 5) - 1)
  {
  }

  lemma RdBits(w: Word)
    ensures Rd(w) == LowBits(ShiftRight(w, 11), (1 << 5) - 1)
  {
  }

  lemma ShAmtBits(w: Word)
    ensures ShAmt(w) == LowBits(ShiftRight(w, 6), (1 << 5) - 1)
  {
  }

  lemma ImmBits(w: Word)
    ensures WidenHalf(Imm(w)) == LowBits(w, (1 << 16) - 1)
  {
  }

  lemma AddrBits(w: Word)
    ensures Addr(w) == LowBits(w, (1 << 26) - 1)
  {
  }

  /** The field of a word above its lowest k bits. */
  lemma FieldIs(w: Word, k: Word, size: Word)
    requires k == 6 || k == 11 || k == 16 || k == 21 || k == 26
    requires size == 5 || size == 6
    ensures Unsigned(k) >= 0 && Unsigned(size) >= 0
    ensures Unsigned(LowBits(ShiftRight(w, k), (1 << size) - 1)) ==
            Unsigned(w) / Pow2(Unsigned(k)) % Pow2(Unsigned(size))
  {
    hide Unsigned, ShiftRight, LowBits, Pow2;
    ShiftRightDivides(w, k);
    LowBitsAreRemainder(ShiftRight(w, k), size);
  }

  lemma FieldsAreNumbers(w: Word)
    ensures Unsigned(Rs(w)) == RsNum(w) && Unsigned(Rt(w)) == RtNum(w) && Unsigned(Rd(w)) == RdNum(w)
    ensures Unsigned(ShAmt(w)) == AmountNum(w) && Unsigned(Op(w)) == OpNum(w)
  {
    hide Unsigned, Rs, Rt, Rd, ShAmt, Op, ShiftRight, LowBits, Pow2, Func, Imm, Addr;
    RsBits(w);
    RtBits(w);
    RdBits(w);
    ShAmtBits(w);
    OpBits(w);
    Pow2Values();
    Amounts();
    FieldIs(w, 21, 5);
    FieldIs(w, 16, 5);
    FieldIs(w, 11, 5);
    FieldIs(w, 6, 5);
    FieldIs(w, 26, 6);
  }

  function HalfNumber(h: HalfWord): int { h as int }

  lemma HalfNumberIs(h: HalfWord)
    ensures HalfNumber(h) == h as int
  {
  }

  lemma SignedHalf(h: HalfWord)
    ensures Signed16(h) == if HalfNumber(h) < TWO_15 then HalfNumber(h) else HalfNumber(h) - TWO_16
  {
  }

  lemma WidenHalfNum(h: HalfWord)
    ensures Unsigned(WidenHalf(h)) == HalfNumber(h)
  {
    hide Unsigned, WidenHalf, HalfNumber;
    WidenHalfKeeps(h);
    HalfNumberIs(h);
  }

  lemma ImmediateIs(w: Word)
    ensures HalfNumber(Imm(w)) == ImmNum(w)
  {
    hide Unsigned, LowBits, Pow2, Imm, WidenHalf, HalfNumber;
    ImmBits(w);
    Pow2Values();
    Amounts();
    LowBitsAreRemainder(w, 16);
    WidenHalfNum(Imm(w));
  }

  lemma LowFieldsAreNumbers(w: Word)
    ensures Unsigned(Func(w)) == FuncNum(w) && Unsigned(Addr(w)) == AddrNum(w)
    ensures HalfNumber(Imm(w)) == ImmNum(w) && Signed16(Imm(w)) == SignedImm(w)
  {
    hide Unsigned, LowBits, Pow2, Func, Imm, Addr, HalfNumber, ImmNum, Signed16;
    FuncBits(w);
    AddrBits(w);
    Pow2Values();
    Amounts();
    LowBitsAreRemainder(w, 6);
    LowBitsAreRemainder(w, 26);
    ImmediateIs(w);
    SignedHalf(Imm(w));
  }

  // ---------------------------------------------------------------- addresses

  /** J and JAL: the region of the next address, and the address field times four. */
  lemma JumpTargetIs(pc: Word, w: Word)
    ensures Unsigned(JumpTarget(pc, Addr(w))) ==
            (Unsigned(pc) + 4) % TWO_32 / 0x1000_0000 * 0x1000_0000 + 4 * AddrNum(w)
  {
    hide Unsigned, Unsigned64, JumpTarget, Addr, Plus, WidePlus, ShiftLeft, ShiftRight, Pow2, AddrNum;
    var next := Plus(pc, 4);
    Literals();
    PlusWraps(pc, 4);
    RegionIs(next);
    AddressFieldIs(w);
    TargetParts(pc, w);
    NoCarry(JumpTarget(pc, Addr(w)));
    WideSum(ShiftLeft(ShiftRight(next, 28), 28), ShiftLeft(Addr(w), 2));
  }

  lemma RegionIs(next: Word)
    ensures Unsigned(ShiftLeft(ShiftRight(next, 28), 28)) == Unsigned(next) / 0x1000_0000 * 0x1000_0000
  {
    hide Unsigned, ShiftLeft, ShiftRight, Pow2;
    UnsignedRange(next);
    Pow2Values();
    Amounts();
    ShiftRightDivides(next, 28);
    ShiftLeftMultiplies(ShiftRight(next, 28), 28);
  }

  lemma AddressFieldIs(w: Word)
    ensures Unsigned(ShiftLeft(Addr(w), 2)) == 4 * AddrNum(w)
  {
    hide Unsigned, Addr, ShiftLeft, Pow2, AddrNum;
    Pow2Small();
    Literals();
    assert Unsigned(2) == 2 by { Amounts(); }
    LowFieldsAreNumbers(w);
    ShiftLeftMultiplies(Addr(w), 2);
    FitsFourTimes(w);
  }

  lemma FitsFourTimes(w: Word)
    ensures (AddrNum(w) * 4) % TWO_32 == 4 * AddrNum(w)
  {
    hide Unsigned;
    UnsignedRange(w);
  }

  lemma Pow2Small()
    ensures Pow2(2) == 4
  {
  }

  lemma TargetParts(pc: Word, w: Word)
    ensures WidePlus(ShiftLeft(ShiftRight(Plus(pc, 4), 28), 28), ShiftLeft(Addr(w), 2)) ==
            JumpTarget(pc, Addr(w)) as bv64
  {
  }

  lemma AlignedIs(pc: Word)
    ensures pc & 3 == 0 <==> Unsigned(pc) % 4 == 0
  {
    LowTwo(pc);
    hide Unsigned, ShiftLeft, ShiftRight, Pow2, LowBits, WidePlus, Unsigned64;
    Literals();
    Pow2Small();
    Amounts();
    UnsignedRange(pc);
    ShiftRightDivides(pc, 2);
    ShiftLeftMultiplies(ShiftRight(pc, 2), 2);
    NoCarry(pc);
    WideSum(ShiftLeft(ShiftRight(pc, 2), 2), LowBits(pc, 3));
    IsZero(LowBits(pc, 3));
  }

  lemma LowTwo(pc: Word)
    ensures WidePlus(ShiftLeft(ShiftRight(pc, 2), 2), LowBits(pc, 3)) == pc as bv64
    ensures pc & 3 == LowBits(pc, 3)
  {
  }

  // ---------------------------------------------------------------- logical operations, bit by bit

  datatype Gate = AndGate | OrGate | XorGate

  function On(g: Gate, a: Word, b: Word): Word {
    match g case AndGate => And(a, b) case OrGate => Or(a, b) case XorGate => Xor(a, b)
  }

  /** One bit, as 0 or 1. */
  function GateOf(g: Gate, p: bool, q: bool): int {
    if (match g case AndGate => p && q case OrGate => p || q case XorGate => p != q) then 1 else 0
  }

  /** The lowest k bits of two numbers, bit by bit. */
  function Bitwise(g: Gate, x: int, y: int, k: nat): int
    decreases k
  {
    if k == 0 then 0 else GateOf(g, x % 2 == 1, y % 2 == 1) + 2 * Bitwise(g, x / 2, y / 2, k - 1)
  }

  lemma HalveAnd(a: Word, b: Word)
    ensures Halve(And(a, b)) == And(Halve(a), Halve(b))
  {
  }

  lemma HalveOr(a: Word, b: Word)
    ensures Halve(Or(a, b)) == Or(Halve(a), Halve(b))
  {
  }

  lemma HalveXor(a: Word, b: Word)
    ensures Halve(Xor(a, b)) == Xor(Halve(a), Halve(b))
  {
  }

  lemma HalveOn(g: Gate, a: Word, b: Word)
    ensures Halve(On(g, a, b)) == On(g, Halve(a), Halve(b))
  {
    hide Halve, And, Or, Xor;
    HalveAnd(a, b);
    HalveOr(a, b);
    HalveXor(a, b);
  }

  lemma LowBitOn(g: Gate, a: Word, b: Word)
    ensures LowBit(On(g, a, b)) ==
            match g
            case AndGate => (if LowBit(a) == 1 && LowBit(b) == 1 then 1 else 0)
            case OrGate => (if LowBit(a) == 1 || LowBit(b) == 1 then 1 else 0)
            case XorGate => if (LowBit(a) == 1) != (LowBit(b) == 1) then 1 else 0
  {
  }

  lemma LowBitIsRemainder(w: Word)
    ensures LowBit(w) == 0 || LowBit(w) == 1
    ensures Unsigned(w) % 2 == if LowBit(w) == 1 then 1 else 0
  {
    LowBitIsBit(w);
    hide Unsigned, Halve, LowBit, Plus, WidePlus, Unsigned64;
    HalfIsSmall(w);
    HalvesRebuild(w);
    NoCarry(w);
    Literals();
    PlusWraps(Halve(w), LowBit(w));
    WideSum(Halve(w), Plus(Halve(w), LowBit(w)));
  }

  lemma LowBitIsBit(w: Word)
    ensures LowBit(w) == 0 || LowBit(w) == 1
  {
  }

  lemma LowOn(g: Gate, a: Word, b: Word)
    ensures Unsigned(On(g, a, b)) % 2 == GateOf(g, Unsigned(a) % 2 == 1, Unsigned(b) % 2 == 1)
  {
    hide Unsigned, On, LowBit;
    LowBitOn(g, a, b);
    LowBitIsRemainder(a);
    LowBitIsRemainder(b);
    LowBitIsRemainder(On(g, a, b));
  }

  lemma ZeroOn(g: Gate, a: Word, b: Word)
    requires a == 0 && b == 0
    ensures On(g, a, b) == 0
  {
  }

  /** AND, OR and XOR of words are those of their bits. */
  lemma {:induction false} GatesAreBitwise(g: Gate, a: Word, b: Word, k: nat)
    requires Unsigned(a) < Pow2(k) && Unsigned(b) < Pow2(k)
    ensures Unsigned(On(g, a, b)) == Bitwise(g, Unsigned(a), Unsigned(b), k)
    decreases k
  {
    hide Unsigned, On, Halve;
    Literals();
    UnsignedRange(a);
    UnsignedRange(b);
    if k == 0 {
      IsZero(a);
      IsZero(b);
      ZeroOn(g, a, b);
    } else {
      HalveDivides(a);
      HalveDivides(b);
      HalveDivides(On(g, a, b));
      HalveOn(g, a, b);
      LowOn(g, a, b);
      GatesAreBitwise(g, Halve(a), Halve(b), k - 1);
    }
  }

  /** Bit k of a number. */
  function Bit(n: int, k: nat): bool { n / Pow2(k) % 2 == 1 }

  lemma NextBit(n: int, k: nat)
    requires k > 0 && n >= 0
    ensures Bit(n, k) == Bit(n / 2, k - 1)
  {
    HalfFirst(n, Pow2(k - 1));
  }

  lemma HalfFirst(n: int, d: int)
    requires n >= 0 && d > 0
    ensures n / (2 * d) == (n / 2) / d
  {
    var q := n / 2 / d;
    assert n / 2 == q * d + (n / 2) % d;
    assert n == 2 * (n / 2) + n % 2;
    assert n == q * (2 * d) + (2 * ((n / 2) % d) + n % 2) by { assert q * (2 * d) == 2 * (q * d); }
    QuotientIs(n, 2 * d, q, 2 * ((n / 2) % d) + n % 2);
  }

  /** So every bit of the result is the conjunction, disjunction or difference of the bits there. */
  lemma {:induction false} EveryBit(g: Gate, a: Word, b: Word, k: nat)
    ensures GateOf(g, Bit(Unsigned(a), k), Bit(Unsigned(b), k)) == if Bit(Unsigned(On(g, a, b)), k) then 1 else 0
    decreases k
  {
    hide Unsigned, On, Halve;
    UnsignedRange(a);
    UnsignedRange(b);
    UnsignedRange(On(g, a, b));
    if k == 0 {
      LowOn(g, a, b);
    } else {
      HalveDivides(a);
      HalveDivides(b);
      HalveDivides(On(g, a, b));
      HalveOn(g, a, b);
      EveryBit(g, Halve(a), Halve(b), k - 1);
      NextBit(Unsigned(a), k);
      NextBit(Unsigned(b), k);
      NextBit(Unsigned(On(g, a, b)), k);
    }
  }
}
