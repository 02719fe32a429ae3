/** The 32-bit helpers of `Utils.h` and the field getters of `Task.h`, on bit vectors, and what
    they mean for the integers that the words stand for. */
module Words {
  import opened Basics

  const TWO_15: int := 0x8000
  const TWO_16: int := 0x1_0000
  const TWO_31: int := 0x8000_0000
  const TWO_32: int := 0x1_0000_0000

  // ---------------------------------------------------------------- fields

  /** `createBitMask`. */
  function BitMask(width: bv8): Word
    requires width < 32
  {
    (1 << width) - 1
  }

  /** `extractInstrBits`. */
  function Bits(w: Word, msb: bv8, lsb: bv8): Word
    requires msb < 32 && (lsb <= msb ==> msb - lsb < 31)
  {
    if msb < lsb then 0 else (w >> lsb) & BitMask(msb - lsb + 1)
  }

  function Op(w: Word): Word { Bits(w, 31, 26) }
  function Rs(w: Word): Word { Bits(w, 25, 21) }
  function Rt(w: Word): Word { Bits(w, 20, 16) }
  function Rd(w: Word): Word { Bits(w, 15, 11) }
  function ShAmt(w: Word): Word { Bits(w, 10, 6) }
  function Func(w: Word): Word { Bits(w, 5, 0) }
  function Imm(w: Word): HalfWord { Bits(w, 15, 0) as HalfWord }
  function Addr(w: Word): Word { Bits(w, 25, 0) }

  /** The fields of each format rebuild the word, and are as wide as the format says. */
  lemma FieldsRebuild(w: Word)
    ensures (Op(w) << 26) | (Rs(w) << 21) | (Rt(w) << 16) | (Rd(w) << 11) | (ShAmt(w) << 6) | Func(w) == w
    ensures (Op(w) << 26) | Addr(w) == w
    ensures Op(w) < 64 && Rs(w) < 32 && Rt(w) < 32 && Rd(w) < 32
    ensures ShAmt(w) < 32 && Func(w) < 64 && Addr(w) < 0x400_0000
  {
  }

  lemma LowHalfRebuilds(w: Word)
    ensures (Op(w) << 26) | (Rs(w) << 21) | (Rt(w) << 16) | Bits(w, 15, 0) == w
  {
  }

  lemma LowHalf(w: Word)
    ensures Imm(w) as Word == Bits(w, 15, 0)
  {
  }

  lemma ImmediateRebuilds(w: Word)
    ensures (Op(w) << 26) | (Rs(w) << 21) | (Rt(w) << 16) | (Imm(w) as Word) == w
  {
    hide *;
    LowHalfRebuilds(w);
    LowHalf(w);
  }

  /** `isEqualX`: equal but for the bits from msb down to lsb. */
  predicate EqualBut(msb: bv8, lsb: bv8, a: Word, b: Word)
    requires lsb <= msb < 32 && msb - lsb < 31
  {
    var dontCare := BitMask(msb - lsb + 1) << lsb;
    a & !dontCare == b & !dontCare
  }

  /** The NOP test of IF: any value of rs, every other field zero. */
  predicate IsNop(w: Word) { EqualBut(25, 21, w, 0) }

  lemma NopIffOtherFieldsZero(w: Word)
    ensures IsNop(w) <==> Op(w) == 0 && Rt(w) == 0 && Rd(w) == 0 && ShAmt(w) == 0 && Func(w) == 0
    ensures IsNop(w) <==> w == Rs(w) << 21
  {
  }

  // ---------------------------------------------------------------- byte order

  function Reverse32(w: Word): Word {
    (Bits(w, 7, 0) << 24) | (Bits(w, 15, 8) << 16) | (Bits(w, 23, 16) << 8) | Bits(w, 31, 24)
  }

  function Reverse16(h: HalfWord): HalfWord {
    var w := h as Word;
    ((Bits(w, 7, 0) << 8) | Bits(w, 15, 8)) as HalfWord
  }

  lemma ReverseTwice(w: Word, h: HalfWord)
    ensures Reverse32(Reverse32(w)) == w
    ensures Reverse16(Reverse16(h)) == h
  {
  }

  // ---------------------------------------------------------------- arithmetic modulo 2^32

  function Plus(a: Word, b: Word): Word { a + b }

  function Not(w: Word): Word { !w }

  function And(a: Word, b: Word): Word { a & b }

  function Or(a: Word, b: Word): Word { a | b }

  function Xor(a: Word, b: Word): Word { a ^ b }

  /** A half word in the upper half, for LUI. */
  function UpperHalf(h: HalfWord): Word { (h as Word) << 16 }

  /** A half word in the lower half, zeros in front. */
  function WidenHalf(h: HalfWord): Word { h as Word }

  /** `twoComplement`. */
  function Negate(w: Word): Word { Plus(Not(w), 1) }

  /** Subtraction of unsigned words, which is modulo 2^32: see `MinusWraps`. */
  function Minus(a: Word, b: Word): Word { Plus(a, Negate(b)) }

  function Double(w: Word): Word { w << 1 }

  function Unsigned(w: Word): int { w as int }

  /** The sum with its carry. */
  function WidePlus(a: Word, b: Word): bv64 { (a as bv64) + (b as bv64) }

  function Unsigned64(w: bv64): int { w as int }

  lemma UnsignedRange(w: Word)
    ensures 0 <= Unsigned(w) < TWO_32
  {
  }

  lemma WideSum(a: Word, b: Word)
    ensures Unsigned64(WidePlus(a, b)) == Unsigned(a) + Unsigned(b)
  {
  }

  lemma NoCarry(w: Word)
    ensures Unsigned64(w as bv64) == Unsigned(w)
  {
  }

  lemma Carry(w: Word)
    ensures Unsigned64((w as bv64) + 0x1_0000_0000) == Unsigned(w) + TWO_32
  {
  }

  lemma CarryOrNot(a: Word, b: Word)
    ensures WidePlus(a, b) == Plus(a, b) as bv64 || WidePlus(a, b) == (Plus(a, b) as bv64) + 0x1_0000_0000
  {
    assert (a as bv64) + (b as bv64) == ((a + b) as bv64) ||
           (a as bv64) + (b as bv64) == ((a + b) as bv64) + 0x1_0000_0000;
  }

  lemma PlusWraps(a: Word, b: Word)
    ensures Unsigned(Plus(a, b)) == (Unsigned(a) + Unsigned(b)) % TWO_32
  {
    hide Unsigned, Unsigned64, WidePlus, Plus;
    UnsignedRange(a);
    UnsignedRange(b);
    UnsignedRange(Plus(a, b));
    WideSum(a, b);
    NoCarry(Plus(a, b));
    Carry(Plus(a, b));
    CarryOrNot(a, b);
  }

  lemma Complement(w: Word)
    ensures WidePlus(w, Not(w)) == 0xFFFF_FFFF
  {
  }

  lemma NotIsMinus(w: Word)
    ensures Unsigned(Not(w)) == TWO_32 - 1 - Unsigned(w)
  {
    assert Unsigned64(0xFFFF_FFFF) == TWO_32 - 1;
    hide Unsigned, Unsigned64, WidePlus, Not;
    Complement(w);
    WideSum(w, Not(w));
  }

  lemma Literals()
    ensures Unsigned(0) == 0 && Unsigned(1) == 1 && Unsigned(4) == 4
  {
  }

  lemma MinusWraps(a: Word, b: Word)
    ensures Unsigned(Minus(a, b)) == (Unsigned(a) - Unsigned(b)) % TWO_32
  {
    hide Unsigned, Plus, Not;
    Literals();
    UnsignedRange(b);
    NotIsMinus(b);
    PlusWraps(Not(b), 1);
    PlusWraps(a, Negate(b));
  }

  lemma DoubleIsPlus(w: Word)
    ensures Double(w) == Plus(w, w)
  {
  }

  function TimesFour(w: Word): Word { w << 2 }

  lemma ShiftIsDoubles(w: Word)
    ensures TimesFour(w) == Double(Double(w))
  {
  }

  lemma TimesFourIs(w: Word)
    ensures Unsigned(TimesFour(w)) == (4 * Unsigned(w)) % TWO_32
  {
    hide Unsigned, Plus, Double, TimesFour;
    ShiftIsDoubles(w);
    DoubleIsPlus(w);
    DoubleIsPlus(Double(w));
    PlusWraps(w, w);
    PlusWraps(Double(w), Double(w));
    UnsignedRange(w);
  }

  // ---------------------------------------------------------------- signed integers

  /** The integer that a word stands for in two's complement. */
  function Signed(w: Word): int { if Unsigned(w) < TWO_31 then Unsigned(w) else Unsigned(w) - TWO_32 }

  function Signed16(h: HalfWord): int { if h as int < TWO_15 then h as int else h as int - TWO_16 }

  function Signed8(b: Byte): int { if b as int < 0x80 then b as int else b as int - 0x100 }

  predicate FitsSigned(n: int) { -TWO_31 <= n < TWO_31 }

  /** `isSigned`. */
  predicate IsNegative(w: Word) { 0x8000_0000 & w != 0 }

  lemma SignBit(w: Word)
    ensures IsNegative(w) <==> Unsigned(w) >= TWO_31
  {
  }

  /** The word of the least integer. */
  const LEAST: Word := 0x8000_0000

  lemma LeastIsLeast(w: Word)
    ensures Unsigned(w) == TWO_31 <==> w == LEAST
  {
  }

  lemma NegateIsMinus(w: Word)
    ensures Signed(Negate(w)) == if w == LEAST then Signed(w) else -Signed(w)
  {
    hide Unsigned, Plus, Not;
    NotIsMinus(w);
    PlusWraps(Not(w), 1);
    LeastIsLeast(w);
    Literals();
    UnsignedRange(w);
  }

  /** `isSumOverflow`. */
  predicate SumOverflow(a: Word, b: Word, sum: Word) {
    (IsNegative(a) && IsNegative(b) && !IsNegative(sum)) ||
    (!IsNegative(a) && !IsNegative(b) && IsNegative(sum))
  }

  /** ADD: the flag is set exactly when the true sum does not fit, and else the sum is exact. */
  lemma AddFlagIsExact(a: Word, b: Word)
    ensures SumOverflow(a, b, Plus(a, b)) <==> !FitsSigned(Signed(a) + Signed(b))
    ensures !SumOverflow(a, b, Plus(a, b)) ==> Signed(Plus(a, b)) == Signed(a) + Signed(b)
  {
    hide Unsigned, IsNegative, Plus;
    SignBit(a);
    SignBit(b);
    SignBit(Plus(a, b));
    UnsignedRange(a);
    UnsignedRange(b);
    PlusWraps(a, b);
  }

  /** The flag that SUB computes. */
  predicate SubOverflow(a: Word, b: Word) { SumOverflow(a, Negate(b), Minus(a, b)) }

  /** SUB: the flag is that of the true difference unless the subtrahend is the one number that
      has no negative; then it is exactly the opposite. */
  lemma SubFlagIsExactBut(a: Word, b: Word)
    ensures SubOverflow(a, b) <==> ((b == LEAST) != !FitsSigned(Signed(a) - Signed(b)))
  {
    hide Unsigned, SumOverflow, Negate, Plus;
    NegateIsMinus(b);
    AddFlagIsExact(a, Negate(b));
    UnsignedRange(a);
    UnsignedRange(b);
    LeastIsLeast(b);
  }

  // ---------------------------------------------------------------- sign extension

  /** The amount of a shift is a field of five bits. */
  function ShiftLeft(w: Word, amount: Word): Word { if amount < 32 then w << amount else 0 }

  function ShiftRight(w: Word, amount: Word): Word { if amount < 32 then w >> amount else 0 }

  /** `>>` on a signed number. */
  function ShiftRightArithmetic(w: Word, amount: Word): Word {
    if IsNegative(w) then Not(ShiftRight(Not(w), amount)) else ShiftRight(w, amount)
  }

  function SignExtend16(h: HalfWord): Word {
    var ex := (h as Word) << 16;
    if IsNegative(ex) then !(!ex >> 16) else ex >> 16
  }

  function SignExtend8(b: Byte): Word {
    var ex := (b as Word) << 24;
    if IsNegative(ex) then !(!ex >> 24) else ex >> 24
  }

  function NotHalf(h: HalfWord): HalfWord { !h }

  lemma HalfSign(h: HalfWord)
    ensures 0 <= h as int < TWO_16
    ensures IsNegative((h as Word) << 16) <==> h as int >= TWO_15
  {
  }

  lemma WidenHalfKeeps(h: HalfWord)
    ensures Unsigned(WidenHalf(h)) == h as int
  {
  }

  /** Ones in front of a negative half word, else zeros. */
  lemma SignExtend16Bits(h: HalfWord)
    ensures SignExtend16(h) == if IsNegative((h as Word) << 16) then Not(WidenHalf(NotHalf(h))) else WidenHalf(h)
  {
  }

  lemma HalfComplement(h: HalfWord)
    ensures WidePlus(WidenHalf(h), WidenHalf(NotHalf(h))) == 0xFFFF
  {
  }

  lemma SignExtend16Keeps(h: HalfWord)
    ensures Signed(SignExtend16(h)) == Signed16(h)
  {
    assert Unsigned64(0xFFFF) == TWO_16 - 1;
    HalfSign(h);
    SignExtend16Bits(h);
    hide Unsigned, Unsigned64, SignExtend16, WidenHalf, NotHalf, WidePlus, IsNegative, Not;
    WidenHalfKeeps(h);
    HalfComplement(h);
    WideSum(WidenHalf(h), WidenHalf(NotHalf(h)));
    NotIsMinus(WidenHalf(NotHalf(h)));
  }

  function WidenByte(b: Byte): Word { b as Word }

  function NotByte(b: Byte): Byte { !b }

  lemma ByteSign(b: Byte)
    ensures 0 <= b as int < 0x100
    ensures IsNegative((b as Word) << 24) <==> b as int >= 0x80
  {
  }

  lemma WidenByteKeeps(b: Byte)
    ensures Unsigned(WidenByte(b)) == b as int
  {
  }

  lemma SignExtend8Bits(b: Byte)
    ensures SignExtend8(b) == if IsNegative((b as Word) << 24) then Not(WidenByte(NotByte(b))) else WidenByte(b)
  {
  }

  lemma ByteComplement(b: Byte)
    ensures WidePlus(WidenByte(b), WidenByte(NotByte(b))) == 0xFF
  {
  }

  lemma SignExtend8Keeps(b: Byte)
    ensures Signed(SignExtend8(b)) == Signed8(b)
  {
    assert Unsigned64(0xFF) == 0xFF;
    ByteSign(b);
    SignExtend8Bits(b);
    hide Unsigned, Unsigned64, SignExtend8, WidenByte, NotByte, WidePlus, IsNegative, Not;
    WidenByteKeeps(b);
    ByteComplement(b);
    WideSum(WidenByte(b), WidenByte(NotByte(b)));
    NotIsMinus(WidenByte(NotByte(b)));
  }

  /** ADDI: as for ADD, with the signed immediate. */
  lemma AddImmediateFlagIsExact(a: Word, imm: HalfWord)
    ensures var b := SignExtend16(imm);
      SumOverflow(a, b, Plus(a, b)) <==> !FitsSigned(Signed(a) + Signed16(imm))
  {
    hide *;
    SignExtend16Keeps(imm);
    AddFlagIsExact(a, SignExtend16(imm));
  }

  // ---------------------------------------------------------------- targets

  /** What BEQ, BNE and BGTZ add to their address. */
  function BranchOffset(imm: HalfWord): Word { Plus(4, TimesFour(SignExtend16(imm))) }

  function BranchTarget(pc: Word, imm: HalfWord): Word { Plus(pc, BranchOffset(imm)) }

  lemma BranchOffsetIs(imm: HalfWord)
    ensures Unsigned(BranchOffset(imm)) == (4 + 4 * Signed16(imm)) % TWO_32
  {
    hide SignExtend16, Unsigned, Signed16, Plus, TimesFour;
    SignExtend16Keeps(imm);
    TimesFourIs(SignExtend16(imm));
    Literals();
    PlusWraps(4, TimesFour(SignExtend16(imm)));
  }

  lemma BranchTargetIsRelative(pc: Word, imm: HalfWord)
    ensures Unsigned(BranchTarget(pc, imm)) == (Unsigned(pc) + 4 + 4 * Signed16(imm)) % TWO_32
  {
    hide BranchOffset, Unsigned, Signed16, Plus;
    BranchOffsetIs(imm);
    PlusWraps(pc, BranchOffset(imm));
  }

  /** J and JAL: the top four bits of the next address. */
  function JumpTarget(pc: Word, addr: Word): Word { (Bits(pc + 4, 31, 28) << 28) | (addr << 2) }

  lemma JumpStaysInRegion(pc: Word, w: Word)
    ensures var t := JumpTarget(pc, Addr(w));
      t & 0xF000_0000 == (pc + 4) & 0xF000_0000 && Bits(t, 27, 2) == Addr(w) && t & 3 == 0
  {
  }
}
