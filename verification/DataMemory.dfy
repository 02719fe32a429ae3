/** The data memory of `Context` and the five loads and three stores that use it: words and half
    words of a little-endian host, with the bytes reversed. */
module DataMemory {
  import opened Basics
  import opened Words

  // ---------------------------------------------------------------- the checks

  /** The `Error` that the accessors throw. */
  datatype Fault = Fault(misaligned: bool, overflow: bool)

  datatype Access =
    | Within
    | Denied(fault: Fault)
    | Astray // accepted, but the bytes are not in the array

  /** The checks of `GetMemoryWord`, `GetMemoryHalfWord` and `GetMemoryByte`. The sum of
      `CHECK_MEMORY_BOUND` is a 32-bit sum. */
  function Check(offset: Word, size: nat): Access
    requires size == 1 || size == 2 || size == 4
  {
    var n := Unsigned(offset);
    var misaligned, overflow := n % size != 0, (n + size) % TWO_32 > MEMORY_LENGTH;
    if misaligned || overflow then Denied(Fault(misaligned, overflow))
    else if n + size <= MEMORY_LENGTH then Within
    else Astray
  }

  /** The checks let exactly the aligned accesses inside the array through, and one more: the
      last one of the address space, where the sum wraps to zero. */
  lemma CheckIsExactBut(offset: Word, size: nat)
    requires size == 1 || size == 2 || size == 4
    ensures Check(offset, size) == Within <==>
              Unsigned(offset) % size == 0 && Unsigned(offset) + size <= MEMORY_LENGTH
    ensures Check(offset, size) == Astray <==> Unsigned(offset) == TWO_32 - size
  {
    UnsignedRange(offset);
    hide Unsigned;
  }

  // ---------------------------------------------------------------- the host's view

  function HostWord(m: Mem, o: nat): Word
    requires o + 4 <= MEMORY_LENGTH
  {
    (m[o] as Word) | ((m[o + 1] as Word) << 8) | ((m[o + 2] as Word) << 16) | ((m[o + 3] as Word) << 24)
  }

  function PutHostWord(m: Mem, o: nat, w: Word): Mem
    requires o + 4 <= MEMORY_LENGTH
  {
    m[o := (w & 0xFF) as Byte]
     [o + 1 := ((w >> 8) & 0xFF) as Byte]
     [o + 2 := ((w >> 16) & 0xFF) as Byte]
     [o + 3 := (w >> 24) as Byte]
  }

  function HostHalf(m: Mem, o: nat): HalfWord
    requires o + 2 <= MEMORY_LENGTH
  {
    (m[o] as HalfWord) | ((m[o + 1] as HalfWord) << 8)
  }

  function PutHostHalf(m: Mem, o: nat, h: HalfWord): Mem
    requires o + 2 <= MEMORY_LENGTH
  {
    m[o := (h & 0xFF) as Byte][o + 1 := (h >> 8) as Byte]
  }

  // ---------------------------------------------------------------- loads and stores

  datatype Width = AsWord | AsHalf | AsByte

  function Size(w: Width): nat {
    match w case AsWord => 4 case AsHalf => 2 case AsByte => 1
  }

  /** LH and LB extend the sign, LHU and LBU extend by zeros. */
  function ExtendHalf(h: HalfWord, signed: bool): Word { if signed then SignExtend16(h) else h as Word }

  function ExtendByte(b: Byte, signed: bool): Word { if signed then SignExtend8(b) else b as Word }

  /** LW, LH or LHU, LB or LBU, of bytes inside the array. */
  function Get(m: Mem, o: nat, w: Width, signed: bool): Word
    requires o + Size(w) <= MEMORY_LENGTH
  {
    match w
    case AsWord => Reverse32(HostWord(m, o))
    case AsHalf => ExtendHalf(Reverse16(HostHalf(m, o)), signed)
    case AsByte => ExtendByte(m[o], signed)
  }

  /** SW, SH, SB. */
  function Put(m: Mem, o: nat, w: Width, v: Word): Mem
    requires o + Size(w) <= MEMORY_LENGTH
  {
    match w
    case AsWord => PutHostWord(m, o, Reverse32(v))
    case AsHalf => PutHostHalf(m, o, Reverse16((v & 0xFFFF) as HalfWord))
    case AsByte => m[o := (v & 0xFF) as Byte]
  }

  // ---------------------------------------------------------------- big-endian bytes

  /** The k-th byte of a word, the most significant first. */
  function ByteOf(v: Word, k: nat): Byte
    requires k < 4
  {
    if k == 0 then (v >> 24) as Byte
    else if k == 1 then ((v >> 16) & 0xFF) as Byte
    else if k == 2 then ((v >> 8) & 0xFF) as Byte
    else (v & 0xFF) as Byte
  }

  /** The word of four bytes, the most significant first. */
  function Join(a: Byte, b: Byte, c: Byte, d: Byte): Word {
    ((a as Word) << 24) | ((b as Word) << 16) | ((c as Word) << 8) | (d as Word)
  }

  function JoinHalf(a: Byte, b: Byte): HalfWord { ((a as HalfWord) << 8) | (b as HalfWord) }

  lemma JoinOfBytes(v: Word)
    ensures Join(ByteOf(v, 0), ByteOf(v, 1), ByteOf(v, 2), ByteOf(v, 3)) == v
  {
  }

  lemma JoinHalfOfBytes(v: Word)
    ensures JoinHalf(ByteOf(v, 2), ByteOf(v, 3)) as Word == v & 0xFFFF
  {
  }

  // Each of these is about one word and nothing else.

  lemma ReversedHostWord(a: Byte, b: Byte, c: Byte, d: Byte)
    ensures Reverse32((a as Word) | ((b as Word) << 8) | ((c as Word) << 16) | ((d as Word) << 24)) == Join(a, b, c, d)
  {
  }

  lemma ReversedHostHalf(a: Byte, b: Byte)
    ensures Reverse16((a as HalfWord) | ((b as HalfWord) << 8)) == JoinHalf(a, b)
  {
  }

  lemma ReversedByte0(v: Word)
    ensures (Reverse32(v) & 0xFF) as Byte == ByteOf(v, 0)
  {
  }

  lemma ReversedByte1(v: Word)
    ensures ((Reverse32(v) >> 8) & 0xFF) as Byte == ByteOf(v, 1)
  {
  }

  lemma ReversedByte2(v: Word)
    ensures ((Reverse32(v) >> 16) & 0xFF) as Byte == ByteOf(v, 2)
  {
  }

  lemma ReversedByte3(v: Word)
    ensures (Reverse32(v) >> 24) as Byte == ByteOf(v, 3)
  {
  }

  lemma ReversedHalf0(v: Word)
    ensures (Reverse16((v & 0xFFFF) as HalfWord) & 0xFF) as Byte == ByteOf(v, 2)
  {
  }

  lemma ReversedHalf1(v: Word)
    ensures (Reverse16((v & 0xFFFF) as HalfWord) >> 8) as Byte == ByteOf(v, 3)
  {
  }

  /** A load reads the bytes of its own address range, the most significant first. */
  lemma GetReads(m: Mem, o: nat, w: Width, signed: bool)
    requires o + Size(w) <= MEMORY_LENGTH
    ensures Get(m, o, w, signed) ==
            match w
            case AsWord => Join(m[o], m[o + 1], m[o + 2], m[o + 3])
            case AsHalf => (var h := JoinHalf(m[o], m[o + 1]); if signed then SignExtend16(h) else h as Word)
            case AsByte => if signed then SignExtend8(m[o]) else m[o] as Word
  {
    hide Reverse32, Reverse16, Join, JoinHalf, SignExtend16, SignExtend8;
    if w.AsWord? { ReversedHostWord(m[o], m[o + 1], m[o + 2], m[o + 3]); }
    if w.AsHalf? { ReversedHostHalf(m[o], m[o + 1]); }
  }

  /** A store writes the low bytes of its word to its own address range, the most significant
      first, and no other byte. */
  lemma PutWrites(m: Mem, o: nat, w: Width, v: Word)
    requires o + Size(w) <= MEMORY_LENGTH
    ensures forall i: nat :: i < MEMORY_LENGTH ==>
              Put(m, o, w, v)[i] == if o <= i < o + Size(w) then ByteOf(v, 4 - Size(w) + i - o) else m[i]
  {
    hide Reverse32, Reverse16;
    match w
    case AsWord =>
      ReversedByte0(v);
      ReversedByte1(v);
      ReversedByte2(v);
      ReversedByte3(v);
      hide ByteOf;
    case AsHalf =>
      ReversedHalf0(v);
      ReversedHalf1(v);
      hide ByteOf;
    case AsByte =>
  }

  // ---------------------------------------------------------------- round trips

  lemma WordRoundTrip(m: Mem, o: nat, v: Word, signed: bool)
    requires o + 4 <= MEMORY_LENGTH
    ensures Get(Put(m, o, AsWord, v), o, AsWord, signed) == v
  {
    hide Get, Put, ByteOf, Join;
    PutWrites(m, o, AsWord, v);
    GetReads(Put(m, o, AsWord, v), o, AsWord, signed);
    JoinOfBytes(v);
  }

  lemma HalfRoundTrip(m: Mem, o: nat, v: Word)
    requires o + 2 <= MEMORY_LENGTH
    ensures Get(Put(m, o, AsHalf, v), o, AsHalf, false) == v & 0xFFFF
  {
    hide Get, Put, ByteOf, JoinHalf;
    PutWrites(m, o, AsHalf, v);
    GetReads(Put(m, o, AsHalf, v), o, AsHalf, false);
    JoinHalfOfBytes(v);
  }

  lemma ByteRoundTrip(m: Mem, o: nat, v: Word)
    requires o + 1 <= MEMORY_LENGTH
    ensures Get(Put(m, o, AsByte, v), o, AsByte, false) == v & 0xFF
  {
  }

  /** The half words and the bytes of a stored word, with both extensions. */
  lemma PartsOfWord(m: Mem, o: nat, v: Word, k: nat, signed: bool)
    requires o + 4 <= MEMORY_LENGTH && k < 4
    ensures var m' := Put(m, o, AsWord, v);
      && Get(m', o + k, AsByte, signed) == (if signed then SignExtend8(ByteOf(v, k)) else ByteOf(v, k) as Word)
      && (k < 3 ==> var h := JoinHalf(ByteOf(v, k), ByteOf(v, k + 1));
            Get(m', o + k, AsHalf, signed) == if signed then SignExtend16(h) else h as Word)
  {
    hide Get, Put, ByteOf, JoinHalf, SignExtend8, SignExtend16;
    PutWrites(m, o, AsWord, v);
    GetReads(Put(m, o, AsWord, v), o + k, AsByte, signed);
    if k < 3 { GetReads(Put(m, o, AsWord, v), o + k, AsHalf, signed); }
  }

  /** A store changes no load from other addresses. */
  lemma DisjointAreUnchanged(m: Mem, o: nat, w: Width, v: Word, o': nat, w': Width, signed: bool)
    requires o + Size(w) <= MEMORY_LENGTH && o' + Size(w') <= MEMORY_LENGTH
    requires o + Size(w) <= o' || o' + Size(w') <= o
    ensures Get(Put(m, o, w, v), o', w', signed) == Get(m, o', w', signed)
  {
    hide Get, Put, ByteOf, Join, JoinHalf, SignExtend8, SignExtend16;
    PutWrites(m, o, w, v);
    GetReads(m, o', w', signed);
    GetReads(Put(m, o, w, v), o', w', signed);
  }

  // ---------------------------------------------------------------- in place

  datatype Loaded = Value(value: Word) | LoadFault(fault: Fault) | LoadAstray

  datatype Stored = Done | StoreFault(fault: Fault) | StoreAstray

  /** `mMemory` and its accessors. */
  class Memory {
    const bytes: array<Byte>

    ghost predicate Valid() { bytes.Length == MEMORY_LENGTH }

    ghost function Contents(): Mem
      reads this, bytes
      requires Valid()
    {
      bytes[..]
    }

    /** The constructors of `Context` zero the memory. */
    constructor ()
      ensures Valid() && fresh(bytes) && forall i: nat :: i < MEMORY_LENGTH ==> Contents()[i] == 0
    {
      bytes := new Byte[MEMORY_LENGTH](_ => 0);
    }

    method ReadWord(o: nat) returns (w: Word)
      requires Valid() && o + 4 <= MEMORY_LENGTH
      ensures w == HostWord(Contents(), o)
    {
      w := (bytes[o] as Word) | ((bytes[o + 1] as Word) << 8) |
           ((bytes[o + 2] as Word) << 16) | ((bytes[o + 3] as Word) << 24);
    }

    method ReadHalf(o: nat) returns (h: HalfWord)
      requires Valid() && o + 2 <= MEMORY_LENGTH
      ensures h == HostHalf(Contents(), o)
    {
      h := (bytes[o] as HalfWord) | ((bytes[o + 1] as HalfWord) << 8);
    }

    method WriteWord(o: nat, w: Word)
      requires Valid() && o + 4 <= MEMORY_LENGTH
      modifies bytes
      ensures Contents() == PutHostWord(old(Contents()), o, w)
    {
      bytes[o] := (w & 0xFF) as Byte;
      bytes[o + 1] := ((w >> 8) & 0xFF) as Byte;
      bytes[o + 2] := ((w >> 16) & 0xFF) as Byte;
      bytes[o + 3] := (w >> 24) as Byte;
    }

    method WriteHalf(o: nat, h: HalfWord)
      requires Valid() && o + 2 <= MEMORY_LENGTH
      modifies bytes
      ensures Contents() == PutHostHalf(old(Contents()), o, h)
    {
      bytes[o] := (h & 0xFF) as Byte;
      bytes[o + 1] := (h >> 8) as Byte;
    }

    /** SW, SH and SB write through the reference that the accessor returns. */
    method Store(offset: Word, w: Width, v: Word) returns (r: Stored)
      requires Valid()
      modifies bytes
      ensures match Check(offset, Size(w))
        case Within => r == Done && Contents() == Put(old(Contents()), Unsigned(offset), w, v)
        case Denied(f) => r == StoreFault(f) && Contents() == old(Contents())
        case Astray => r == StoreAstray && Contents() == old(Contents())
    {
      hide PutHostWord, PutHostHalf, Reverse32, Reverse16, Unsigned;
      var access := Check(offset, Size(w));
      if access.Denied? {
        return StoreFault(access.fault);
      }
      if access.Astray? {
        return StoreAstray;
      }
      UnsignedRange(offset);
      var o: nat := Unsigned(offset);
      r := Done;
      match w {
        case AsWord => WriteWord(o, Reverse32(v));
        case AsHalf => WriteHalf(o, Reverse16((v & 0xFFFF) as HalfWord));
        case AsByte => bytes[o] := (v & 0xFF) as Byte;
      }
    }

    /** LW after the accessor. */
    method LoadWord(o: nat, signed: bool) returns (v: Word)
      requires Valid() && o + 4 <= MEMORY_LENGTH
      ensures v == Get(Contents(), o, AsWord, signed)
    {
      hide HostWord, Reverse32;
      v := ReadWord(o);
      v := Reverse32(v);
    }

    /** LH and LHU. */
    method LoadHalf(o: nat, signed: bool) returns (v: Word)
      requires Valid() && o + 2 <= MEMORY_LENGTH
      ensures v == Get(Contents(), o, AsHalf, signed)
    {
      hide HostHalf, Reverse16, ExtendHalf;
      var h := ReadHalf(o);
      v := ExtendHalf(Reverse16(h), signed);
    }

    /** LB and LBU. */
    method LoadByte(o: nat, signed: bool) returns (v: Word)
      requires Valid() && o < MEMORY_LENGTH
      ensures v == Get(Contents(), o, AsByte, signed)
    {
      hide ExtendByte;
      v := ExtendByte(bytes[o], signed);
    }

    method Load(offset: Word, w: Width, signed: bool) returns (r: Loaded)
      requires Valid()
      ensures match Check(offset, Size(w))
        case Within => r == Value(Get(Contents(), Unsigned(offset), w, signed))
        case Denied(f) => r == LoadFault(f)
        case Astray => r == LoadAstray
    {
      hide Get, Unsigned;
      var access := Check(offset, Size(w));
      if access.Denied? {
        return LoadFault(access.fault);
      }
      if access.Astray? {
        return LoadAstray;
      }
      UnsignedRange(offset);
      var o: nat := Unsigned(offset);
      var v: Word;
      match w {
        case AsWord => v := LoadWord(o, signed);
        case AsHalf => v := LoadHalf(o, signed);
        case AsByte => v := LoadByte(o, signed);
      }
      r := Value(v);
    }
  }
}
