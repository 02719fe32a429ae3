/** `boost::rational` over unbounded integers. */
module Rationals {
  import opened Divisors

  // ---------------------------------------------------------------- the division of C++

  /** `/` truncates toward zero. */
  function Quot(a: int, b: int): int
    requires b != 0
  {
    if (a < 0) == (b < 0) then Abs(a) / Abs(b) else -(Abs(a) / Abs(b))
  }

  /** `%` takes the sign of the dividend. */
  function Rem(a: int, b: int): int
    requires b != 0
  {
    a - Quot(a, b) * b
  }

  /** The quotient is the greatest in size that does not exceed the dividend, with the sign of both. */
  lemma QuotTruncates(a: int, b: int)
    requires b != 0
    ensures Abs(Quot(a, b)) * Abs(b) <= Abs(a) < (Abs(Quot(a, b)) + 1) * Abs(b)
    ensures Quot(a, b) == 0 || (Quot(a, b) < 0 <==> (a < 0) != (b < 0))
    ensures Rem(a, b) == 0 || (Rem(a, b) < 0 <==> a < 0)
  {
    var q, r := Abs(a) / Abs(b), Abs(a) % Abs(b);
    assert Abs(a) == q * Abs(b) + r;
    assert Abs(Quot(a, b)) == q;
    assert Quot(a, b) * b == if a < 0 then -(q * Abs(b)) else q * Abs(b);
  }

  lemma NatQuotient(k: nat, g: nat)
    requires g > 0
    ensures (k * g) / g == k
  {
    var n := k * g;
    var q := n / g;
    assert (k - q) * g == n % g;
    ProductBounds(k - q, g);
  }

  lemma QuotExact(k: int, g: int)
    requires g != 0
    ensures Quot(k * g, g) == k
  {
    assert Abs(k * g) == Abs(k) * Abs(g);
    NatQuotient(Abs(k), Abs(g));
    if k == 0 {
    } else if (k < 0) == (g < 0) {
      assert k * g > 0;
    } else {
      assert k * g < 0;
    }
  }

  lemma RemBounds(a: int, b: int)
    requires b > 0
    ensures -b < Rem(a, b) < b && a == Quot(a, b) * b + Rem(a, b)
    ensures a >= 0 ==> Rem(a, b) >= 0 && Quot(a, b) >= 0
  {
    assert Abs(a) == (Abs(a) / b) * b + Abs(a) % b;
    if a < 0 { assert (-(Abs(a) / b)) * b == -((Abs(a) / b) * b); }
  }

  // ---------------------------------------------------------------- values and lowest terms

  ghost predicate LowestTerms(n: int, d: int) { d > 0 && Coprime(n, d) }

  function Value(n: int, d: int): real
    requires d != 0
  {
    n as real / d as real
  }

  /** Fractions are compared by cross multiplication. */
  lemma CrossMultiply(n: int, d: int, m: int, e: int)
    requires d > 0 && e > 0
    ensures Value(n, d) == Value(m, e) <==> n * e == m * d
    ensures Value(n, d) < Value(m, e) <==> n * e < m * d
  {
    var x, y, p, q := n as real, m as real, d as real, e as real;
    assert x == Value(n, d) * p && y == Value(m, e) * q;
    assert x * q == (n * e) as real && y * p == (m * d) as real;
    assert x * q == Value(n, d) * (p * q) && y * p == Value(m, e) * (p * q);
    Scale(Value(n, d), Value(m, e), p * q);
  }

  lemma Scale(x: real, y: real, k: real)
    requires k > 0.0
    ensures x == y <==> x * k == y * k
    ensures x < y <==> x * k < y * k
  {
    if x < y { ScaleLess(x, y, k); }
    if y < x { ScaleLess(y, x, k); }
  }

  lemma ScaleLess(x: real, y: real, k: real)
    requires k > 0.0 && x < y
    ensures x * k < y * k
  {
    assert (y - x) * k > 0.0;
  }

  // ---------------------------------------------------------------- sums

  /** Coprimality of the numerator of a sum with the cofactors of the denominators. */
  lemma SumCoprime(a: int, b1: int, c: int, d1: int, g: int)
    requires Coprime(a, b1 * g) && Coprime(c, d1 * g) && Coprime(b1, d1)
    ensures Coprime(a * d1 + c * b1, b1 * d1)
  {
    CoprimeDivisor(a, b1, g);
    CoprimeDivisor(c, d1, g);
    CoprimeSymmetric(b1, d1);
    SumCoprimeOne(a, b1, c, d1);
    SumCoprimeOne(c, d1, a, b1);
    CoprimeProduct(a * d1 + c * b1, b1, d1);
  }

  lemma SumCoprimeOne(a: int, b1: int, c: int, d1: int)
    requires Coprime(a, b1) && Coprime(d1, b1)
    ensures Coprime(a * d1 + c * b1, b1)
  {
    CoprimeSymmetric(a, b1);
    CoprimeSymmetric(d1, b1);
    CoprimeProduct(b1, a, d1);
    CoprimeSymmetric(b1, a * d1);
    CoprimeShift(a * d1, b1, c);
  }

  /** What `operator+=` computes from a/b and c/d: the sum, in lowest terms although only the gcd
      of the numerator and g has been cancelled. */
  lemma SumTerms(a: int, b: int, c: int, d: int) returns (g: nat, b1: int, d1: int, h: nat, t1: int, d2: int)
    requires LowestTerms(a, b) && LowestTerms(c, d)
    ensures g == Gcd(b, d) && g > 0 && b == b1 * g && d == d1 * g
    ensures h == Gcd(a * d1 + c * b1, g) && h > 0 && a * d1 + c * b1 == t1 * h && d == d2 * h
    ensures LowestTerms(t1, b1 * d2)
    ensures t1 * (b * d) == (a * d + c * b) * (b1 * d2)
  {
    hide Gcd, Coprime;
    g, b1, d1 := Cofactors(b, d);
    var t := a * d1 + c * b1;
    SumCoprime(a, b1, c, d1, g);
    var g1: int;
    h, t1, g1 := Cofactors(t, g);
    d2 := d1 * g1;
    assert d == d2 * h by { assert (d1 * g1) * h == d1 * (g1 * h); }
    CoprimeLeftDivisor(t1, h, b1 * d1);
    CoprimeProduct(t1, b1 * d1, g1);
    assert (b1 * d1) * g1 == b1 * d2;
    SumExact(a, b1, c, d1, g, t1, h, g1);
    Positive(b1, g);
    Positive(d2, h);
    assert b1 * d2 > 0;
  }

  lemma CoprimeLeftDivisor(t1: int, h: int, m: int)
    requires Coprime(t1 * h, m)
    ensures Coprime(t1, m)
  {
    CoprimeSymmetric(t1 * h, m);
    CoprimeDivisor(m, t1, h);
    CoprimeSymmetric(m, t1);
  }

  lemma Positive(x: int, g: int)
    requires g > 0 && x * g > 0
    ensures x > 0
  {
    ProductBounds(x, g);
  }

  lemma SumExact(a: int, b1: int, c: int, d1: int, g: int, t1: int, h: int, g1: int)
    requires a * d1 + c * b1 == t1 * h && g == g1 * h
    ensures t1 * ((b1 * g) * (d1 * g)) == (a * (d1 * g) + c * (b1 * g)) * (b1 * (d1 * g1))
  {
    var k := b1 * d1 * g1;
    calc {
      (a * (d1 * g) + c * (b1 * g)) * (b1 * (d1 * g1));
      { assert a * (d1 * g) == (a * d1) * g && c * (b1 * g) == (c * b1) * g; assert b1 * (d1 * g1) == k; }
      ((a * d1) * g + (c * b1) * g) * k;
      { assert (a * d1) * g + (c * b1) * g == (t1 * h) * g; }
      ((t1 * h) * g) * k;
      { assert ((t1 * h) * g) * k == t1 * (g * (h * k)); }
      t1 * (g * (h * k));
      { assert h * k == (b1 * d1) * (g1 * h); }
      t1 * (g * ((b1 * d1) * g));
      { assert g * ((b1 * d1) * g) == (b1 * g) * (d1 * g); }
      t1 * ((b1 * g) * (d1 * g));
    }
  }

  lemma SumValue(a: int, b: int, c: int, d: int, n: int, m: int)
    requires b > 0 && d > 0 && m > 0 && n * (b * d) == (a * d + c * b) * m
    ensures Value(n, m) == Value(a, b) + Value(c, d)
  {
    assert b * d > 0;
    CrossMultiply(n, m, a * d + c * b, b * d);
    SumOfFractions(a as real, b as real, c as real, d as real);
    assert (b * d) as real == b as real * d as real;
    assert (a * d + c * b) as real == a as real * d as real + c as real * b as real;
  }

  lemma SumOfFractions(a: real, b: real, c: real, d: real)
    requires b != 0.0 && d != 0.0
    ensures b * d != 0.0 && (a * d + c * b) / (b * d) == a / b + c / d
  {
    var x, y := a / b, c / d;
    assert a * d + c * b == (x + y) * (b * d) by {
      assert (x * b) * d == x * (b * d) && (y * d) * b == y * (b * d);
    }
  }

  // ---------------------------------------------------------------- products and quotients

  /** What `operator*=` computes from a/b and c/d, and `operator/=` from a/b and d/c: cancelling
      crosswise keeps lowest terms. */
  lemma ProductTerms(a: int, b: int, c: int, d: int) returns (g1: nat, g2: nat, a1: int, b1: int, c1: int, d1: int)
    requires Coprime(a, b) && Coprime(c, d) && b != 0 && d != 0
    ensures g1 == Gcd(a, d) && g1 > 0 && a == a1 * g1 && d == d1 * g1
    ensures g2 == Gcd(c, b) && g2 > 0 && c == c1 * g2 && b == b1 * g2
    ensures Coprime(a1 * c1, b1 * d1) && b1 * d1 != 0
    ensures (a1 * c1) * (b * d) == (a * c) * (b1 * d1)
    ensures b1 * d1 > 0 <==> b * d > 0
  {
    hide Gcd, Coprime;
    g1, a1, d1 := Cofactors(a, d);
    g2, c1, b1 := Cofactors(c, b);
    CoprimeCofactors(a1, g1, b1, g2);
    CoprimeCofactors(c1, g2, d1, g1);
    CoprimeSymmetric(c1, b1);
    CoprimeProduct(a1, b1, d1);
    CoprimeSymmetric(b1, c1);
    CoprimeProduct(c1, b1, d1);
    CoprimeSymmetric(a1, b1 * d1);
    CoprimeSymmetric(c1, b1 * d1);
    CoprimeProduct(b1 * d1, a1, c1);
    CoprimeSymmetric(b1 * d1, a1 * c1);
    ProductExact(a1, b1, c1, d1, g1, g2);
    SignOfCofactors(b1, d1, g1, g2);
  }

  lemma CoprimeCofactors(x: int, g: int, y: int, h: int)
    requires Coprime(x * g, y * h)
    ensures Coprime(x, y)
  {
    CoprimeLeftDivisor(x, g, y * h);
    CoprimeDivisor(x, y, h);
  }

  lemma ProductExact(a1: int, b1: int, c1: int, d1: int, g1: int, g2: int)
    ensures (a1 * c1) * ((b1 * g2) * (d1 * g1)) == ((a1 * g1) * (c1 * g2)) * (b1 * d1)
  {
    assert (b1 * g2) * (d1 * g1) == (b1 * d1) * (g1 * g2);
    assert (a1 * g1) * (c1 * g2) == (a1 * c1) * (g1 * g2);
    var u, v, k := a1 * c1, b1 * d1, g1 * g2;
    assert u * (v * k) == (u * k) * v;
  }

  lemma SignOfCofactors(b1: int, d1: int, g1: int, g2: int)
    requires g1 > 0 && g2 > 0 && b1 * g2 != 0 && d1 * g1 != 0
    ensures b1 * d1 != 0
    ensures b1 * d1 > 0 <==> (b1 * g2) * (d1 * g1) > 0
  {
    assert b1 != 0 && d1 != 0;
    assert b1 * g2 > 0 <==> b1 > 0;
    assert d1 * g1 > 0 <==> d1 > 0;
    SameSign(b1, d1);
    SameSign(b1 * g2, d1 * g1);
  }

  lemma SameSign(x: int, y: int)
    requires x != 0 && y != 0
    ensures x * y != 0
    ensures x * y > 0 <==> ((x > 0) == (y > 0))
  {
  }

  lemma ProductValue(a: int, b: int, c: int, d: int, n: int, m: int)
    requires b > 0 && d > 0 && m > 0 && n * (b * d) == (a * c) * m
    ensures Value(n, m) == Value(a, b) * Value(c, d)
  {
    assert b * d > 0;
    CrossMultiply(n, m, a * c, b * d);
    ProductOfFractions(a as real, b as real, c as real, d as real);
    assert (b * d) as real == b as real * d as real && (a * c) as real == a as real * c as real;
  }

  lemma ProductOfFractions(a: real, b: real, c: real, d: real)
    requires b != 0.0 && d != 0.0
    ensures b * d != 0.0 && (a * c) / (b * d) == (a / b) * (c / d)
  {
    var x, y := a / b, c / d;
    assert a * c == (x * y) * (b * d) by {
      assert (x * b) * (y * d) == (x * y) * (b * d);
    }
  }

  /** A quotient is the number whose product with the divisor is the dividend. */
  lemma QuotientValue(a: int, b: int, c: int, d: int, n: int, m: int)
    requires b > 0 && d > 0 && m > 0 && c != 0 && n * (b * c) == (a * d) * m
    ensures Value(c, d) != 0.0 && Value(n, m) == Value(a, b) / Value(c, d)
  {
    assert n * (b * c) == (n * c) * b && (a * d) * m == a * (m * d);
    ProductValue(n, m, c, d, a, b);
    NonZeroValue(c, d);
    DivideReals(Value(n, m), Value(c, d), Value(a, b));
  }

  lemma NonZeroValue(c: int, d: int)
    requires c != 0 && d > 0
    ensures Value(c, d) != 0.0
  {
    assert c as real == Value(c, d) * d as real;
  }

  lemma DivideReals(x: real, y: real, z: real)
    requires y != 0.0 && x * y == z
    ensures x == z / y
  {
  }

  /** The form is canonical: equal values have equal numerators and denominators. */
  lemma Canonical(n: int, d: int, m: int, e: int)
    requires LowestTerms(n, d) && LowestTerms(m, e)
    ensures Value(n, d) == Value(m, e) <==> n == m && d == e
  {
    CrossMultiply(n, d, m, e);
    if n * e == m * d {
      DenominatorDivides(n, d, m, e);
      DenominatorDivides(m, e, n, d);
      MutualDivisors(d, e);
      assert (n - m) * d == 0;
    }
  }

  lemma DenominatorDivides(n: int, d: int, m: int, e: int)
    requires Coprime(n, d) && n * e == m * d
    ensures Divides(d, e)
  {
    var x: int, y: int :| Unit(n, d, x, y);
    calc {
      e;
      (n * x + d * y) * e;
      { assert (n * x) * e == (n * e) * x && (d * y) * e == (y * e) * d; }
      (m * d) * x + (y * e) * d;
      { assert (m * d) * x == (m * x) * d; }
      (m * x + y * e) * d;
    }
  }

  lemma MutualDivisors(d: int, e: int)
    requires d > 0 && e > 0 && Divides(d, e) && Divides(e, d)
    ensures d == e
  {
    var j: int :| e == j * d;
    var k: int :| d == k * e;
    ProductBounds(j, d);
    ProductBounds(k, e);
  }

  lemma NegatedTerms(n: int, d: int)
    requires Coprime(n, d) && d < 0
    ensures LowestTerms(-n, -d)
  {
    CoprimeNegation(n, d);
  }

  lemma CoprimeWithOne(a: int)
    ensures Coprime(a, 1) && Coprime(1, a) && Gcd(a, 1) == 1 && Gcd(1, a) == 1
  {
    assert Unit(a, 1, 0, 1) && Unit(1, a, 1, 0);
    CoprimeIffGcdOne(a, 1);
    CoprimeIffGcdOne(1, a);
  }

  // ---------------------------------------------------------------- gcd by remainders

  /** `inner_gcd`, on the remainders of C++. */
  function InnerGcd(a: int, b: int): int
    decreases Abs(b)
  {
    if b == 0 then a
    else
      RemSmaller(a, b);
      InnerGcd(b, Rem(a, b))
  }

  lemma RemSmaller(a: int, b: int)
    requires b != 0
    ensures Abs(Rem(a, b)) == Abs(a) % Abs(b)
  {
    var q, r := Abs(a) / Abs(b), Abs(a) % Abs(b);
    assert Abs(a) == q * Abs(b) + r;
    assert Quot(a, b) * b == if a < 0 then -(q * Abs(b)) else q * Abs(b);
  }

  /** Up to its sign, which `is_normalized` ignores, it is the gcd. */
  lemma {:induction false} InnerGcdIsGcd(a: int, b: int)
    ensures Abs(InnerGcd(a, b)) == Gcd(a, b)
    decreases Abs(b)
  {
    if b != 0 {
      RemSmaller(a, b);
      InnerGcdIsGcd(b, Rem(a, b));
    }
  }

  predicate IsNormalized(n: int, d: int) {
    d > 0 && (n != 0 || d == 1) && Abs(InnerGcd(n, d)) == 1
  }

  /** The check of a conversion accepts exactly the fractions in lowest terms. */
  lemma IsNormalizedIffLowestTerms(n: int, d: int)
    ensures IsNormalized(n, d) <==> LowestTerms(n, d)
  {
    hide Coprime;
    InnerGcdIsGcd(n, d);
    CoprimeIffGcdOne(n, d);
    if d > 0 && n == 0 {
      assert Gcd(0, d) == GcdNat(d, 0 % d);
    }
  }

  // ---------------------------------------------------------------- comparison

  /** One argument of the comparison: n/d with its quotient and remainder. */
  datatype Part = Part(n: int, d: int, q: int, r: int) {
    predicate Valid() { d > 0 && n == q * d + r && 0 <= r < d }
  }

  predicate Below(s: Part, t: Part) { s.n * t.d < t.n * s.d }

  lemma Expand(s: Part, t: Part)
    requires s.Valid() && t.Valid()
    ensures s.n * t.d - t.n * s.d == (s.q - t.q) * (s.d * t.d) + (s.r * t.d - t.r * s.d)
  {
    assert s.n * t.d == s.q * (s.d * t.d) + s.r * t.d;
    assert t.n * s.d == t.q * (s.d * t.d) + t.r * s.d;
  }

  /** Different whole parts decide. */
  lemma QuotientsDecide(s: Part, t: Part)
    requires s.Valid() && t.Valid() && s.q < t.q
    ensures Below(s, t) && !Below(t, s)
  {
    Expand(s, t);
    assert s.r * t.d < s.d * t.d;
    assert t.r * s.d >= 0;
    assert (s.q - t.q) * (s.d * t.d) <= -(s.d * t.d) by { ProductBounds(t.q - s.q, s.d * t.d); }
  }

  /** With equal whole parts the order is that of the remainders ... */
  lemma RemaindersDecide(s: Part, t: Part)
    requires s.Valid() && t.Valid() && s.q == t.q
    ensures Below(s, t) <==> s.r * t.d < t.r * s.d
  {
    Expand(s, t);
  }

  /** ... which is the reverse of that of the reciprocals. */
  lemma ReciprocalsReverse(s: Part, t: Part, s': Part, t': Part)
    requires s.Valid() && t.Valid() && s.q == t.q
    requires s'.n == s.d && s'.d == s.r && t'.n == t.d && t'.d == t.r
    ensures Below(s, t) <==> Below(t', s')
  {
    RemaindersDecide(s, t);
  }

  /** A continued fraction that ends is the smaller one. */
  lemma EndedIsBelow(s: Part, t: Part)
    requires s.Valid() && t.Valid() && s.q == t.q && (s.r == 0 || t.r == 0)
    ensures Below(s, t) <==> (s.r == 0 && t.r != 0)
  {
    RemaindersDecide(s, t);
    if t.r != 0 { assert t.r * s.d > 0; }
    if s.r != 0 { assert s.r * t.d > 0; }
  }

  // ---------------------------------------------------------------- the class

  class Rational {
    var num: int
    var den: int

    /** `test_invariant`. */
    ghost predicate Valid()
      reads this
    {
      LowestTerms(num, den)
    }

    ghost function Val(): real
      reads this
      requires Valid()
    {
      Value(num, den)
    }

    /** The conversion from an integer. */
    constructor (n: int)
      ensures Valid() && Val() == n as real && den == 1
    {
      num, den := n, 1;
      CoprimeWithOne(n);
    }

    /** The constructor from two integers, before it normalizes. */
    constructor Unnormalized(n: int, d: int)
      ensures num == n && den == d
    {
      num, den := n, d;
    }

    /** `normalize`: false stands for the exception. */
    method Normalize() returns (ok: bool)
      modifies this
      ensures ok == (old(den) != 0)
      ensures !ok ==> num == old(num) && den == old(den)
      ensures ok ==> Valid() && num * old(den) == old(num) * den
    {
      hide Coprime, Gcd, Quot;
      if den == 0 {
        return false;
      }
      ok := true;
      if num == 0 {
        den := 1;
        CoprimeWithOne(0);
        return;
      }
      ghost var n, d := num, den;
      ghost var g0, n1, d1 := Cofactors(num, den);
      var g := Gcd(num, den);
      QuotExact(n1, g);
      QuotExact(d1, g);
      num := Quot(num, g);
      den := Quot(den, g);
      assert n1 * d == n * d1 by { assert n1 * (d1 * g0) == (n1 * g0) * d1; }
      if den < 0 {
        NegatedTerms(num, den);
        num, den := -num, -den;
        assert num * d == n * den;
      }
    }

    /** `assign`: a failure to build the temporary leaves this object alone. */
    method Assign(n: int, d: int) returns (ok: bool)
      modifies this
      ensures ok == (d != 0)
      ensures ok ==> Valid() && num * d == n * den
      ensures !ok ==> num == old(num) && den == old(den)
    {
      var t := new Rational.Unnormalized(n, d);
      ok := t.Normalize();
      if ok {
        num, den := t.num, t.den;
      }
    }

    /** `operator+=`. The argument may be this object. */
    method Add(r: Rational)
      requires Valid() && r.Valid()
      modifies this
      ensures Valid() && Val() == old(Val()) + old(r.Val())
    {
      hide Coprime, Gcd, Quot, Value;
      var rNum, rDen := r.num, r.den;
      ghost var a, b := num, den;
      ghost var g0, b1, d1, h, t1, d2 := SumTerms(num, den, rNum, rDen);
      var g := Gcd(den, rDen);
      QuotExact(b1, g);
      QuotExact(d1, g);
      den := Quot(den, g);
      num := num * Quot(rDen, g) + rNum * den;
      g := Gcd(num, g);
      QuotExact(t1, g);
      QuotExact(d2, g);
      num := Quot(num, g);
      den := den * Quot(rDen, g);
      SumValue(a, b, rNum, rDen, num, den);
    }

    /** `operator-=`. */
    method Subtract(r: Rational)
      requires Valid() && r.Valid()
      modifies this
      ensures Valid() && Val() == old(Val()) - old(r.Val())
    {
      hide Coprime, Gcd, Quot, Value;
      var rNum, rDen := r.num, r.den;
      ghost var a, b := num, den;
      NegatedNumerator(rNum, rDen);
      ghost var g0, b1, d1, h, t1, d2 := SumTerms(num, den, -rNum, rDen);
      var g := Gcd(den, rDen);
      QuotExact(b1, g);
      QuotExact(d1, g);
      den := Quot(den, g);
      assert (-rNum) * den == -(rNum * den);
      num := num * Quot(rDen, g) - rNum * den;
      g := Gcd(num, g);
      QuotExact(t1, g);
      QuotExact(d2, g);
      num := Quot(num, g);
      den := den * Quot(rDen, g);
      SumValue(a, b, -rNum, rDen, num, den);
    }

    /** `operator*=`. */
    method Multiply(r: Rational)
      requires Valid() && r.Valid()
      modifies this
      ensures Valid() && Val() == old(Val()) * old(r.Val())
    {
      hide Coprime, Gcd, Quot, Value;
      var rNum, rDen := r.num, r.den;
      ghost var a, b := num, den;
      ghost var h1, h2, a1, b1, c1, d1 := ProductTerms(num, den, rNum, rDen);
      var gcd1 := Gcd(num, rDen);
      var gcd2 := Gcd(rNum, den);
      QuotExact(a1, gcd1);
      QuotExact(b1, gcd2);
      QuotExact(c1, gcd2);
      QuotExact(d1, gcd1);
      num := Quot(num, gcd1) * Quot(rNum, gcd2);
      den := Quot(den, gcd2) * Quot(rDen, gcd1);
      assert b * rDen > 0;
      ProductValue(a, b, rNum, rDen, num, den);
    }

    /** `operator/=`: false stands for the exception. */
    method Divide(r: Rational) returns (ok: bool)
      requires Valid() && r.Valid()
      modifies this
      ensures ok == (old(r.num) != 0)
      ensures !ok ==> num == old(num) && den == old(den)
      ensures ok ==> Valid() && old(r.Val()) != 0.0 && Val() == old(Val()) / old(r.Val())
    {
      hide Coprime, Gcd, Quot, Value;
      var rNum, rDen := r.num, r.den;
      if rNum == 0 {
        return false;
      }
      ok := true;
      NonZeroValue(rNum, rDen);
      if num == 0 {
        ZeroQuotient(den, rNum, rDen);
        return;
      }
      ghost var a, b := num, den;
      CoprimeSymmetric(rNum, rDen);
      ghost var h1, h2, a1, b1, c1, d1 := ProductTerms(num, den, rDen, rNum);
      var gcd1 := Gcd(num, rNum);
      var gcd2 := Gcd(rDen, den);
      QuotExact(a1, gcd1);
      QuotExact(b1, gcd2);
      QuotExact(c1, gcd2);
      QuotExact(d1, gcd1);
      num := Quot(num, gcd1) * Quot(rDen, gcd2);
      den := Quot(den, gcd2) * Quot(rNum, gcd1);
      if den < 0 {
        NegatedTerms(num, den);
        num, den := -num, -den;
      }
      QuotientValue(a, b, rNum, rDen, num, den);
    }

    /** `operator+=` of an integer. */
    method AddInt(i: int)
      requires Valid()
      modifies this
      ensures Valid() && Val() == old(Val()) + i as real
    {
      hide Coprime, Value;
      ghost var a := num;
      num := num + i * den;
      CoprimeShift(a, den, i);
      CoprimeWithOne(i);
      SumValue(a, den, i, 1, num, den);
      WholeValue(i);
    }

    /** `operator-=` of an integer. */
    method SubtractInt(i: int)
      requires Valid()
      modifies this
      ensures Valid() && Val() == old(Val()) - i as real
    {
      hide Coprime, Value;
      ghost var a := num;
      num := num - i * den;
      assert num == a + (-i) * den;
      CoprimeShift(a, den, -i);
      SumValue(a, den, -i, 1, num, den);
      WholeValue(-i);
    }

    /** `operator*=` of an integer. */
    method MultiplyInt(i: int)
      requires Valid()
      modifies this
      ensures Valid() && Val() == old(Val()) * i as real
    {
      hide Coprime, Gcd, Quot, Value;
      ghost var a, b := num, den;
      CoprimeWithOne(i);
      CoprimeWithOne(num);
      ghost var h1, h2, a1, b1, c1, d1 := ProductTerms(num, den, i, 1);
      var gcd := Gcd(i, den);
      QuotExact(c1, gcd);
      QuotExact(b1, gcd);
      num := num * Quot(i, gcd);
      den := Quot(den, gcd);
      ProductValue(a, b, i, 1, num, den);
      WholeValue(i);
    }

    /** `operator/=` of an integer: false stands for the exception. */
    method DivideInt(i: int) returns (ok: bool)
      requires Valid()
      modifies this
      ensures ok == (i != 0)
      ensures !ok ==> num == old(num) && den == old(den)
      ensures ok ==> Valid() && Val() == old(Val()) / i as real
    {
      hide Coprime, Gcd, Quot, Value;
      if i == 0 {
        return false;
      }
      ok := true;
      WholeValue(i);
      if num == 0 {
        ZeroQuotient(den, i, 1);
        return;
      }
      ghost var a, b := num, den;
      CoprimeWithOne(i);
      CoprimeWithOne(den);
      ghost var h1, h2, a1, b1, c1, d1 := ProductTerms(num, den, 1, i);
      var gcd := Gcd(num, i);
      QuotExact(a1, gcd);
      QuotExact(d1, gcd);
      num := Quot(num, gcd);
      den := den * Quot(i, gcd);
      if den < 0 {
        NegatedTerms(num, den);
        num, den := -num, -den;
      }
      QuotientValue(a, b, i, 1, num, den);
    }

    /** `operator==`. */
    method Equals(r: Rational) returns (b: bool)
      requires Valid() && r.Valid()
      ensures b == (Val() == r.Val())
    {
      b := num == r.num && den == r.den;
      Canonical(num, den, r.num, r.den);
    }

    /** `operator==` of an integer. */
    method EqualsInt(i: int) returns (b: bool)
      requires Valid()
      ensures b == (Val() == i as real)
    {
      b := den == 1 && num == i;
      CoprimeWithOne(i);
      Canonical(num, den, i, 1);
      WholeValue(i);
    }

    /** `operator<`, by continued fractions. It needs positive denominators only. */
    method Less(r: Rational) returns (b: bool)
      requires den > 0 && r.den > 0
      ensures b == (Value(num, den) < Value(r.num, r.den))
    {
      hide Quot, Value;
      CrossMultiply(num, den, r.num, r.den);
      var ts := Expansion(num, den);
      var rs := Expansion(r.num, r.den);
      ghost var less := Below(ts, rs);
      var reverse := false;
      while true
        invariant ts.Valid() && rs.Valid()
        invariant less == if reverse then Below(rs, ts) else Below(ts, rs)
        decreases ts.d
      {
        if ts.q != rs.q {
          if ts.q < rs.q { QuotientsDecide(ts, rs); } else { QuotientsDecide(rs, ts); }
          return if reverse then ts.q > rs.q else ts.q < rs.q;
        }
        if ts.r == 0 || rs.r == 0 {
          EndedIsBelow(ts, rs);
          EndedIsBelow(rs, ts);
          reverse := !reverse;
          break;
        }
        var ts' := Reciprocal(ts);
        var rs' := Reciprocal(rs);
        ReciprocalsReverse(ts, rs, ts', rs');
        ReciprocalsReverse(rs, ts, rs', ts');
        ts, rs, reverse := ts', rs', !reverse;
      }
      if ts.r == rs.r {
        return false;
      } else {
        return (ts.r != 0) != reverse;
      }
    }

    /** `operator<` of an integer. */
    method LessInt(i: int) returns (b: bool)
      requires den > 0
      ensures b == (Value(num, den) < i as real)
    {
      hide Quot, Value;
      var p := Expansion(num, den);
      b := p.q < i;
      WholeValue(i);
      CrossMultiply(num, den, i, 1);
      assert p.q < i ==> (i - p.q) * den >= den by { ProductBounds(i - p.q, den); }
      assert p.q >= i ==> (p.q - i) * den >= 0;
    }

    /** `operator>` of an integer. */
    method GreaterInt(i: int) returns (b: bool)
      requires Valid()
      ensures b == (Val() > i as real)
    {
      var equal := EqualsInt(i);
      var less := LessInt(i);
      b := if equal then false else !less;
    }
  }

  /** The first quotient and remainder. `%` may be negative: one more denominator makes up for it. */
  method Expansion(n: int, d: int) returns (p: Part)
    requires d > 0
    ensures p.Valid() && p.n == n && p.d == d
  {
    hide Quot, Rem;
    var q, r := Quot(n, d), Rem(n, d);
    RemBounds(n, d);
    while r < 0
      invariant n == q * d + r && r < d
    {
      r, q := r + d, q - 1;
    }
    p := Part(n, d, q, r);
  }

  method Reciprocal(p: Part) returns (p': Part)
    requires p.Valid() && p.r > 0
    ensures p'.Valid() && p'.n == p.d && p'.d == p.r
  {
    hide Quot, Rem;
    RemBounds(p.d, p.r);
    p' := Part(p.d, p.r, Quot(p.d, p.r), Rem(p.d, p.r));
  }

  lemma NegatedNumerator(n: int, d: int)
    requires d > 0 && Coprime(n, d)
    ensures Coprime(-n, d) && Value(-n, d) == -Value(n, d)
  {
    CoprimeNegation(n, d);
  }

  lemma WholeValue(i: int)
    ensures Value(i, 1) == i as real
  {
  }

  lemma ZeroQuotient(b: int, c: int, d: int)
    requires b > 0 && d > 0 && c != 0
    ensures Value(c, d) != 0.0 && Value(0, b) == Value(0, b) / Value(c, d)
  {
    NonZeroValue(c, d);
  }
}
