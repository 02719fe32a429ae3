/** Loads and stores in terms of integers: numbers of one, two or four bytes in big-endian order. */
module Bytes {
  import opened Basics
  import opened Words
  import opened Shifts
  import opened DataMemory
  import opened Integers

  function ToWord(n: int): Word
    requires 0 <= n < TWO_32
  {
    n as Word
  }

  /** The word of an integer modulo 2^32. */
  function Wrap(n: int): Word { ToWord(n % TWO_32) }

  lemma ToWordOfUnsigned(w: Word)
    requires 0 <= Unsigned(w) < TWO_32
    ensures ToWord(Unsigned(w)) == w
  {
  }

  lemma WrapIs(w: Word, n: int)
    requires Unsigned(w) == n % TWO_32
    ensures Wrap(n) == w
  {
    hide Unsigned, ToWord;
    UnsignedRange(w);
    ToWordOfUnsigned(w);
  }

  function ToByte(n: int): Byte
    requires 0 <= n < 256
  {
    n as Byte
  }

  function ByteNum(b: Byte): int { b as int }

  lemma ToByteOf(b: Byte)
    ensures 0 <= ByteNum(b) < 256 && ToByte(ByteNum(b)) == b
  {
  }

  lemma WidenByteNum(b: Byte)
    ensures Unsigned(WidenByte(b)) == ByteNum(b)
  {
    hide Unsigned, WidenByte;
    WidenByteKeeps(b);
  }

  lemma SignedByte(b: Byte)
    ensures Signed8(b) == if ByteNum(b) < 0x80 then ByteNum(b) else ByteNum(b) - 0x100
  {
  }

  // ---------------------------------------------------------------- reading

  /** The number in size bytes from address a on, the most significant byte first. */
  function NumberAt(m: Mem, a: nat, size: nat): int
    requires a + size <= MEMORY_LENGTH
  {
    if size == 0 then 0 else 256 * NumberAt(m, a, size - 1) + ByteNum(m[a + size - 1])
  }

  /** A number of so many bytes, read in two's complement if it is signed. */
  function Extended(n: int, size: nat, signed: bool): int {
    if signed && n >= Pow2(8 * size) / 2 then n - Pow2(8 * size) else n
  }

  function OneMore(w: Word, b: Byte): Word { (w << 8) | (b as Word) }

  lemma OneMoreParts(w: Word, b: Byte)
    ensures WidePlus(ShiftLeft(w, 8), WidenByte(b)) == OneMore(w, b) as bv64
  {
  }

  lemma OneMoreIs(w: Word, b: Byte)
    requires Unsigned(w) < 0x100_0000
    ensures Unsigned(OneMore(w, b)) == 256 * Unsigned(w) + ByteNum(b)
  {
    hide Unsigned, Unsigned64, WidePlus, ShiftLeft, WidenByte, OneMore, Pow2, ByteNum, ToByte;
    ToByteOf(b);
    UnsignedRange(w);
    Pow2Values();
    Amounts();
    OneMoreParts(w, b);
    WidenByteNum(b);
    ShiftLeftMultiplies(w, 8);
    NoCarry(OneMore(w, b));
    WideSum(ShiftLeft(w, 8), WidenByte(b));
  }

  lemma JoinSteps(a: Byte, b: Byte, c: Byte, d: Byte)
    ensures Join(a, b, c, d) == OneMore(OneMore(OneMore(WidenByte(a), b), c), d)
  {
  }

  function LowHalfOf(b: Byte): HalfWord { b as HalfWord }

  function HighHalfOf(b: Byte): HalfWord { (b as HalfWord) << 8 }

  function OrHalf(x: HalfWord, y: HalfWord): HalfWord { x | y }

  lemma WidenOr(x: HalfWord, y: HalfWord)
    ensures WidenHalf(OrHalf(x, y)) == Or(WidenHalf(x), WidenHalf(y))
  {
  }

  lemma WidenLow(b: Byte)
    ensures WidenHalf(LowHalfOf(b)) == WidenByte(b)
  {
  }

  lemma WidenHigh(b: Byte)
    ensures WidenHalf(HighHalfOf(b)) == ShiftLeft(WidenByte(b), 8)
  {
  }

  lemma OneMoreIsOr(w: Word, b: Byte)
    ensures OneMore(w, b) == Or(ShiftLeft(w, 8), WidenByte(b))
  {
  }

  lemma JoinHalfIsOr(a: Byte, b: Byte)
    ensures JoinHalf(a, b) == OrHalf(HighHalfOf(a), LowHalfOf(b))
  {
  }

  lemma JoinHalfSteps(a: Byte, b: Byte)
    ensures WidenHalf(JoinHalf(a, b)) == OneMore(WidenByte(a), b)
  {
    hide *;
    JoinHalfIsOr(a, b);
    WidenOr(HighHalfOf(a), LowHalfOf(b));
    WidenLow(b);
    WidenHigh(a);
    OneMoreIsOr(WidenByte(a), b);
  }

  lemma JoinIs(a: Byte, b: Byte, c: Byte, d: Byte)
    ensures Unsigned(Join(a, b, c, d)) ==
            0x100_0000 * ByteNum(a) + 0x1_0000 * ByteNum(b) + 256 * ByteNum(c) + ByteNum(d)
  {
    hide Unsigned, Join, OneMore, WidenByte, ToByte, ByteNum;
    ToByteOf(a);
    ToByteOf(b);
    ToByteOf(c);
    WidenByteNum(a);
    JoinSteps(a, b, c, d);
    OneMoreIs(WidenByte(a), b);
    OneMoreIs(OneMore(WidenByte(a), b), c);
    OneMoreIs(OneMore(OneMore(WidenByte(a), b), c), d);
  }

  lemma NumbersOf(m: Mem, a: nat)
    ensures a + 1 <= MEMORY_LENGTH ==> NumberAt(m, a, 1) == ByteNum(m[a])
    ensures a + 2 <= MEMORY_LENGTH ==> NumberAt(m, a, 2) == 256 * ByteNum(m[a]) + ByteNum(m[a + 1])
    ensures a + 4 <= MEMORY_LENGTH ==>
              NumberAt(m, a, 4) ==
              0x100_0000 * ByteNum(m[a]) + 0x1_0000 * ByteNum(m[a + 1]) + 256 * ByteNum(m[a + 2]) + ByteNum(m[a + 3])
  {
    hide ByteNum;
    if a + 1 <= MEMORY_LENGTH { assert NumberAt(m, a, 1) == 256 * NumberAt(m, a, 0) + ByteNum(m[a]); }
    if a + 2 <= MEMORY_LENGTH { assert NumberAt(m, a, 2) == 256 * NumberAt(m, a, 1) + ByteNum(m[a + 1]); }
    if a + 4 <= MEMORY_LENGTH {
      assert NumberAt(m, a, 3) == 256 * NumberAt(m, a, 2) + ByteNum(m[a + 2]);
      assert NumberAt(m, a, 4) == 256 * NumberAt(m, a, 3) + ByteNum(m[a + 3]);
    }
  }

  lemma SameResidue(n: int)
    ensures n % TWO_32 == (n + TWO_32) % TWO_32
  {
  }

  lemma SignedIs(w: Word, n: int)
    requires Signed(w) == n
    ensures w == Wrap(n)
  {
    hide Unsigned, Wrap;
    UnsignedRange(w);
    SameResidue(n);
    WrapIs(w, n);
  }

  lemma UnsignedIs(w: Word, n: int)
    requires Unsigned(w) == n
    ensures w == Wrap(n)
  {
    hide Unsigned, Wrap;
    UnsignedRange(w);
    WrapIs(w, n);
  }

  lemma InRange(n: int)
    requires 0 <= n < TWO_32
    ensures n % TWO_32 == n && (n - TWO_32) % TWO_32 == n
  {
  }

  lemma WordIsNumber(m: Mem, o: nat, signed: bool)
    requires o + 4 <= MEMORY_LENGTH
    ensures Get(m, o, AsWord, signed) == Wrap(Extended(NumberAt(m, o, 4), 4, signed))
  {
    hide Get, Join, Wrap, Pow2, Unsigned, NumberAt, Extended, ByteNum;
    var w, n := Join(m[o], m[o + 1], m[o + 2], m[o + 3]), NumberAt(m, o, 4);
    GetReads(m, o, AsWord, signed);
    NumbersOf(m, o);
    JoinIs(m[o], m[o + 1], m[o + 2], m[o + 3]);
    UnsignedRange(w);
    InRange(n);
    FourBytes(n, signed);
    WrapIs(w, Extended(n, 4, signed));
  }

  lemma FourBytes(n: int, signed: bool)
    ensures Extended(n, 4, signed) == n || Extended(n, 4, signed) == n - TWO_32
  {
    hide Pow2;
    Pow2Values();
  }

  lemma TwoBytes(n: int, signed: bool)
    ensures Extended(n, 2, signed) == if signed && n >= TWO_15 then n - TWO_16 else n
  {
    hide Pow2;
    Pow2Values();
  }

  lemma JoinHalfIs(a: Byte, b: Byte)
    ensures HalfNumber(JoinHalf(a, b)) == 256 * ByteNum(a) + ByteNum(b)
  {
    hide Unsigned, JoinHalf, OneMore, WidenByte, WidenHalf, ToByte, ByteNum, HalfNumber;
    ToByteOf(a);
    WidenByteNum(a);
    JoinHalfSteps(a, b);
    OneMoreIs(WidenByte(a), b);
    WidenHalfNum(JoinHalf(a, b));
  }

  lemma UnsignedHalf(h: HalfWord)
    ensures Unsigned(h as Word) == HalfNumber(h)
  {
    hide Unsigned, WidenHalf, HalfNumber;
    WidenHalfNum(h);
    WidenHalfIs(h);
  }

  lemma HalfExtends(h: HalfWord, signed: bool)
    ensures (if signed then SignExtend16(h) else h as Word) == Wrap(Extended(HalfNumber(h), 2, signed))
  {
    hide Wrap, Unsigned, SignExtend16, Extended, Signed, Signed16, HalfNumber;
    SignedHalf(h);
    UnsignedHalf(h);
    TwoBytes(HalfNumber(h), signed);
    if signed {
      SignExtend16Keeps(h);
      SignedIs(SignExtend16(h), Signed16(h));
    } else {
      UnsignedIs(h as Word, HalfNumber(h));
    }
  }

  lemma OneByte(b: Byte, signed: bool)
    ensures Extended(ByteNum(b), 1, signed) == if signed then Signed8(b) else ByteNum(b)
  {
    hide Pow2, ByteNum, Signed8;
    SignedByte(b);
    Pow2Values();
  }

  lemma HalfIsNumber(m: Mem, o: nat, signed: bool)
    requires o + 2 <= MEMORY_LENGTH
    ensures Get(m, o, AsHalf, signed) == Wrap(Extended(NumberAt(m, o, 2), 2, signed))
  {
    hide Get, JoinHalf, Wrap, NumberAt, SignExtend16, Extended, HalfNumber, ByteNum;
    GetReads(m, o, AsHalf, signed);
    NumbersOf(m, o);
    JoinHalfIs(m[o], m[o + 1]);
    HalfExtends(JoinHalf(m[o], m[o + 1]), signed);
  }

  lemma WidenHalfIs(h: HalfWord)
    ensures WidenHalf(h) == h as Word
  {
  }

  lemma WidenByteIs(b: Byte)
    ensures WidenByte(b) == b as Word
  {
  }

  lemma ByteIsNumber(m: Mem, o: nat, signed: bool)
    requires o + 1 <= MEMORY_LENGTH
    ensures Get(m, o, AsByte, signed) == Wrap(Extended(NumberAt(m, o, 1), 1, signed))
  {
    hide Get, Wrap, Unsigned, NumberAt, SignExtend8, WidenByte, Extended, Signed, Signed8, ByteNum;
    GetReads(m, o, AsByte, signed);
    NumbersOf(m, o);
    OneByte(m[o], signed);
    if signed {
      SignExtend8Keeps(m[o]);
      SignedIs(SignExtend8(m[o]), Signed8(m[o]));
    } else {
      WidenByteNum(m[o]);
      WidenByteIs(m[o]);
      UnsignedIs(WidenByte(m[o]), ByteNum(m[o]));
    }
  }

  /** LW, LH, LHU, LB and LBU read the number in their bytes. */
  lemma GetIsNumber(m: Mem, o: nat, w: Width, signed: bool)
    requires o + Size(w) <= MEMORY_LENGTH
    ensures Get(m, o, w, signed) == Wrap(Extended(NumberAt(m, o, Size(w)), Size(w), signed))
  {
    hide Get, Wrap, Extended, NumberAt;
    match w
    case AsWord => WordIsNumber(m, o, signed);
    case AsHalf => HalfIsNumber(m, o, signed);
    case AsByte => ByteIsNumber(m, o, signed);
  }

  // ---------------------------------------------------------------- writing

  /** Memory with the lowest size bytes of n from address a on, the most significant first. */
  function Written(m: Mem, a: nat, size: nat, n: int): (r: Mem)
    ensures forall i: nat :: i < MEMORY_LENGTH ==>
              r[i] == if a <= i < a + size then Digit(n, a + size - 1 - i) else m[i]
  {
    seq(MEMORY_LENGTH, i requires 0 <= i < MEMORY_LENGTH =>
                         if a <= i < a + size then Digit(n, a + size - 1 - i) else m[i])
  }

  /** The digit of 256^k. */
  function Digit(n: int, k: nat): Byte { ToByte(n / Pow2(8 * k) % 256) }

  lemma TopByte(v: Word)
    ensures WidenByte(ByteOf(v, 0)) == LowBits(ShiftRight(v, 24), (1 << 8) - 1)
  {
  }

  lemma SecondByte(v: Word)
    ensures WidenByte(ByteOf(v, 1)) == LowBits(ShiftRight(v, 16), (1 << 8) - 1)
  {
  }

  lemma ThirdByte(v: Word)
    ensures WidenByte(ByteOf(v, 2)) == LowBits(ShiftRight(v, 8), (1 << 8) - 1)
  {
  }

  lemma LastByte(v: Word)
    ensures WidenByte(ByteOf(v, 3)) == LowBits(ShiftRight(v, 0), (1 << 8) - 1)
  {
  }

  lemma ByteIsDigit(v: Word, k: nat)
    requires k < 4
    ensures ByteOf(v, k) == Digit(Unsigned(v), 3 - k)
  {
    hide Unsigned, ByteOf, WidenByte, LowBits, ShiftRight, Pow2, ToByte, ByteNum;
    var s: Word := if k == 0 then 24 else if k == 1 then 16 else if k == 2 then 8 else 0;
    if k == 0 { TopByte(v); } else if k == 1 { SecondByte(v); } else if k == 2 { ThirdByte(v); } else { LastByte(v); }
    Pow2Values();
    Amounts();
    Literals();
    assert Pow2(0) == 1 by { PowZero(); }
    ShiftRightDivides(v, s);
    LowBitsAreRemainder(ShiftRight(v, s), 8);
    WidenByteNum(ByteOf(v, k));
    ToByteOf(ByteOf(v, k));
  }

  lemma PowZero()
    ensures Pow2(0) == 1
  {
  }

  /** SW, SH and SB write the lowest bytes of their register. */
  lemma PutIsWritten(m: Mem, o: nat, w: Width, v: Word)
    requires o + Size(w) <= MEMORY_LENGTH
    ensures Put(m, o, w, v) == Written(m, o, Size(w), Unsigned(v))
  {
    hide Put, Digit, Unsigned, ByteOf;
    PutWrites(m, o, w, v);
    forall i: nat | i < MEMORY_LENGTH ensures Put(m, o, w, v)[i] == Written(m, o, Size(w), Unsigned(v))[i] {
      if o <= i < o + Size(w) { ByteIsDigit(v, 4 - Size(w) + i - o); }
    }
  }

  // ---------------------------------------------------------------- faults

  /** The two causes of a fault, and the one access of each size that goes astray. */
  lemma FaultCauses(offset: Word, size: nat, misaligned: bool, overflow: bool)
    requires size == 1 || size == 2 || size == 4
    ensures var n := Unsigned(offset);
      Check(offset, size) == Denied(Fault(misaligned, overflow)) <==>
        && misaligned == (n % size != 0)
        && overflow == (1024 < (n + size) % 0x1_0000_0000)
        && (misaligned || overflow)
  {
    UnsignedRange(offset);
    hide Unsigned;
  }
}
