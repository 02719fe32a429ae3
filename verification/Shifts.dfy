/** What the shifts mean for integers: multiplication and division by powers of two. */
module Shifts {
  import opened Basics
  import opened Words
  import Divisors

  function Pow2(n: nat): (r: nat)
    ensures r > 0
  {
    if n == 0 then 1 else 2 * Pow2(n - 1)
  }

  function Halve(w: Word): Word { w >> 1 }

  function LowBit(w: Word): Word { w & 1 }

  lemma LowBitIsSmall(w: Word)
    ensures 0 <= Unsigned(LowBit(w)) <= 1
  {
  }

  lemma HalfIsSmall(w: Word)
    ensures 0 <= Unsigned(Halve(w)) < TWO_31
  {
    HalfIsPositive(w);
    hide Unsigned, IsNegative, Halve;
    SignBit(Halve(w));
    UnsignedRange(Halve(w));
  }

  lemma HalfIsPositive(w: Word)
    ensures !IsNegative(Halve(w))
  {
  }

  lemma HalvesRebuild(w: Word)
    ensures WidePlus(Halve(w), Plus(Halve(w), LowBit(w))) == w as bv64
  {
  }

  lemma HalveDivides(w: Word)
    ensures Unsigned(Halve(w)) == Unsigned(w) / 2
  {
    hide Unsigned, Halve, LowBit, Plus, WidePlus, Unsigned64;
    LowBitIsSmall(w);
    HalfIsSmall(w);
    HalvesRebuild(w);
    NoCarry(w);
    PlusWraps(Halve(w), LowBit(w));
    WideSum(Halve(w), Plus(Halve(w), LowBit(w)));
  }

  lemma DoubleTimesTwo(w: Word)
    ensures Unsigned(Double(w)) == (2 * Unsigned(w)) % TWO_32
  {
    hide Unsigned, Double, Plus;
    DoubleIsPlus(w);
    PlusWraps(w, w);
  }

  lemma OneLess(k: Word)
    requires 0 < k < 32
    ensures Unsigned(k - 1) == Unsigned(k) - 1
  {
  }

  lemma IsZero(k: Word)
    ensures Unsigned(k) == 0 <==> k == 0
  {
  }

  lemma ShiftByZero(w: Word)
    ensures ShiftRight(w, 0) == w && ShiftLeft(w, 0) == w
  {
  }

  lemma OneMoreRight(w: Word, k: Word)
    requires 0 < k < 32
    ensures ShiftRight(w, k) == Halve(ShiftRight(w, k - 1))
  {
  }

  lemma OneMoreLeft(w: Word, k: Word)
    requires 0 < k < 32
    ensures ShiftLeft(w, k) == Double(ShiftLeft(w, k - 1))
  {
  }

  lemma DivideAgain(x: nat, d: nat)
    requires d > 0
    ensures (x / d) / 2 == x / (2 * d)
  {
    var q := x / d;
    var r := q / 2;
    assert x == q * d + x % d && q == 2 * r + q % 2;
    assert x == r * (2 * d) + ((q % 2) * d + x % d) by {
      assert q * d == (2 * r) * d + (q % 2) * d && (2 * r) * d == r * (2 * d);
    }
    assert (q % 2) * d + x % d < 2 * d;
    QuotientIs(x, 2 * d, r, (q % 2) * d + x % d);
  }

  lemma QuotientIs(x: int, d: int, q: int, r: int)
    requires d > 0 && 0 <= r < d && x == q * d + r
    ensures x / d == q
  {
    var p := x / d;
    assert x == p * d + x % d;
    assert (p - q) * d == r - x % d && (q - p) * d == x % d - r;
    Divisors.ProductBounds(p - q, d);
    Divisors.ProductBounds(q - p, d);
  }

  lemma DoubleModulo(y: int)
    ensures (2 * (y % TWO_32)) % TWO_32 == (2 * y) % TWO_32
  {
    var q := y / TWO_32;
    assert 2 * y == 2 * (y % TWO_32) + (2 * q) * TWO_32;
  }

  /** SRL divides. */
  lemma {:induction false} ShiftRightDivides(w: Word, k: Word)
    requires k < 32
    ensures Unsigned(k) >= 0
    ensures Unsigned(ShiftRight(w, k)) == Unsigned(w) / Pow2(Unsigned(k))
    decreases Unsigned(k)
  {
    UnsignedRange(k);
    UnsignedRange(w);
    IsZero(k);
    hide Unsigned, ShiftRight;
    if k == 0 {
      ShiftByZero(w);
    } else {
      OneLess(k);
      ShiftRightDivides(w, k - 1);
      OneMoreRight(w, k);
      HalveDivides(ShiftRight(w, k - 1));
      DivideAgain(Unsigned(w), Pow2(Unsigned(k) - 1));
    }
  }

  lemma TwiceProduct(x: int, p: int)
    ensures 2 * (x * p) == x * (2 * p)
  {
  }

  /** SLL multiplies, modulo 2^32. */
  lemma {:induction false} ShiftLeftMultiplies(w: Word, k: Word)
    requires k < 32
    ensures Unsigned(k) >= 0
    ensures Unsigned(ShiftLeft(w, k)) == (Unsigned(w) * Pow2(Unsigned(k))) % TWO_32
    decreases Unsigned(k)
  {
    UnsignedRange(k);
    UnsignedRange(w);
    IsZero(k);
    hide Unsigned, ShiftLeft;
    if k == 0 {
      ShiftByZero(w);
    } else {
      OneLess(k);
      ShiftLeftMultiplies(w, k - 1);
      OneMoreLeft(w, k);
      DoubleTimesTwo(ShiftLeft(w, k - 1));
      var p := Pow2(Unsigned(k) - 1);
      assert Pow2(Unsigned(k)) == 2 * p;
      hide Pow2;
      DoubleModulo(Unsigned(w) * p);
      TwiceProduct(Unsigned(w), p);
    }
  }

  lemma ComplementDivides(n: int, d: int)
    requires n < 0 && d > 0
    ensures n / d == -1 - (-1 - n) / d
  {
    var q, r := (-1 - n) / d, (-1 - n) % d;
    assert -1 - n == q * d + r;
    assert n == (-1 - q) * d + (d - 1 - r) by { assert (-1 - q) * d == -d - q * d; }
    QuotientIs(n, d, -1 - q, d - 1 - r);
  }

  lemma DivisionShrinks(n: int, d: int)
    requires 0 <= n && d > 0
    ensures 0 <= n / d <= n
  {
    var q := n / d;
    assert n == q * d + n % d;
    Divisors.ProductBounds(q, d);
    Divisors.ProductBounds(q, d - 1);
    assert q * d == q * (d - 1) + q;
  }

  /** SRA divides the signed value, rounding down. */
  lemma ShiftRightArithmeticDivides(w: Word, k: Word)
    requires k < 32
    ensures Unsigned(k) >= 0
    ensures Signed(ShiftRightArithmetic(w, k)) == Signed(w) / Pow2(Unsigned(k))
  {
    hide Unsigned, ShiftRight, IsNegative, Not, Pow2;
    SignBit(w);
    UnsignedRange(w);
    ShiftRightDivides(w, k);
    ShiftRightDivides(Not(w), k);
    NotIsMinus(w);
    NotIsMinus(ShiftRight(Not(w), k));
    var d := Pow2(Unsigned(k));
    if IsNegative(w) {
      ComplementDivides(Signed(w), d);
      DivisionShrinks(-1 - Signed(w), d);
    } else {
      DivisionShrinks(Signed(w), d);
    }
  }
}
