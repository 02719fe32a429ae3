/** Greatest common divisors, as the rational arithmetic needs them. */
module Divisors {
  function Abs(x: int): nat { if x < 0 then -x else x }

  function GcdNat(a: nat, b: nat): nat
    decreases b
  {
    if b == 0 then a else GcdNat(b, a % b)
  }

  /** `boost::integer::gcd`: never negative. */
  function Gcd(a: int, b: int): nat { GcdNat(Abs(a), Abs(b)) }

  // ---------------------------------------------------------------- divisibility

  ghost predicate Divides(d: int, n: int) { exists k: int :: n == k * d }

  lemma DividesSum(d: int, m: int, n: int, x: int, y: int)
    requires Divides(d, m) && Divides(d, n)
    ensures Divides(d, x * m + y * n)
  {
    var j: int :| m == j * d;
    var k: int :| n == k * d;
    assert x * m + y * n == (x * j + y * k) * d by {
      assert x * (j * d) == (x * j) * d && y * (k * d) == (y * k) * d;
    }
  }

  lemma DividesNegation(d: int, n: int)
    ensures Divides(d, n) <==> Divides(d, -n)
  {
    if Divides(d, n) { var k: int :| n == k * d; assert -n == (-k) * d; }
    if Divides(d, -n) { var k: int :| -n == k * d; assert n == (-k) * d; }
  }

  lemma DividesAbs(d: int, n: int)
    ensures Divides(d, n) <==> Divides(d, Abs(n))
  {
    DividesNegation(d, n);
  }

  /** Integer coefficients of the gcd. */
  lemma {:induction false} BezoutNat(a: nat, b: nat) returns (x: int, y: int)
    ensures a * x + b * y == GcdNat(a, b)
    decreases b
  {
    if b == 0 {
      x, y := 1, 0;
    } else {
      var u, v := BezoutNat(b, a % b);
      x, y := v, u - (a / b) * v;
      calc {
        a * x + b * y;
        a * v + b * (u - (a / b) * v);
        { assert b * (u - (a / b) * v) == b * u - b * ((a / b) * v); assert b * ((a / b) * v) == (b * (a / b)) * v; }
        b * u + a * v - (b * (a / b)) * v;
        { assert a * v - (b * (a / b)) * v == (a - b * (a / b)) * v; assert a % b == a - b * (a / b); }
        b * u + (a % b) * v;
      }
    }
  }

  lemma Bezout(a: int, b: int) returns (x: int, y: int)
    ensures a * x + b * y == Gcd(a, b)
  {
    var u, v := BezoutNat(Abs(a), Abs(b));
    x, y := if a < 0 then -u else u, if b < 0 then -v else v;
    assert a * x == Abs(a) * u && b * y == Abs(b) * v;
  }

  lemma {:induction false} GcdNatDivides(a: nat, b: nat)
    ensures Divides(GcdNat(a, b), a) && Divides(GcdNat(a, b), b)
    ensures a != 0 || b != 0 ==> GcdNat(a, b) > 0
    decreases b
  {
    var g := GcdNat(a, b);
    if b == 0 {
      assert a == 1 * g && b == 0 * g;
    } else {
      GcdNatDivides(b, a % b);
      DividesSum(g, b, a % b, a / b, 1);
      assert a == (a / b) * b + 1 * (a % b);
    }
  }

  /** The gcd divides both numbers and is a combination of them: it is the greatest common
      divisor, also when one of them is negative or zero. */
  lemma GcdIsGreatest(a: int, b: int, d: int)
    ensures Divides(Gcd(a, b), a) && Divides(Gcd(a, b), b)
    ensures Divides(d, a) && Divides(d, b) ==> Divides(d, Gcd(a, b))
    ensures a != 0 || b != 0 ==> Gcd(a, b) > 0
  {
    hide Divides;
    GcdNatDivides(Abs(a), Abs(b));
    DividesAbs(Gcd(a, b), a);
    DividesAbs(Gcd(a, b), b);
    if Divides(d, a) && Divides(d, b) {
      var x, y := Bezout(a, b);
      DividesSum(d, a, b, x, y);
      assert x * a + y * b == Gcd(a, b);
    }
  }

  // ---------------------------------------------------------------- coprime numbers

  predicate Unit(a: int, b: int, x: int, y: int) { a * x + b * y == 1 }

  ghost predicate Coprime(a: int, b: int) { exists x: int, y: int :: Unit(a, b, x, y) }

  lemma CoprimeIffGcdOne(a: int, b: int)
    ensures Coprime(a, b) <==> Gcd(a, b) == 1
  {
    if Gcd(a, b) == 1 {
      var x, y := Bezout(a, b);
      assert Unit(a, b, x, y);
    }
    if Coprime(a, b) {
      var x: int, y: int :| Unit(a, b, x, y);
      GcdIsGreatest(a, b, 1);
      DividesSum(Gcd(a, b), a, b, x, y);
      assert x * a + y * b == 1;
      var k: int :| 1 == k * Gcd(a, b);
      DivisorOfOne(k, Gcd(a, b));
    }
  }

  lemma ProductBounds(k: int, g: nat)
    ensures k <= 0 ==> k * g <= 0
    ensures k >= 1 ==> k * g >= g
    ensures k >= 2 ==> k * g >= 2 * g
  {
  }

  lemma DivisorOfOne(k: int, g: nat)
    requires k * g == 1
    ensures g == 1
  {
    ProductBounds(k, g);
  }

  lemma CoprimeSymmetric(a: int, b: int)
    requires Coprime(a, b)
    ensures Coprime(b, a)
  {
    var x: int, y: int :| Unit(a, b, x, y);
    assert Unit(b, a, y, x);
  }

  lemma CoprimeProduct(a: int, b: int, c: int)
    requires Coprime(a, b) && Coprime(a, c)
    ensures Coprime(a, b * c)
  {
    var x: int, y: int :| Unit(a, b, x, y);
    var u: int, v: int :| Unit(a, c, u, v);
    var s := x * (a * u + c * v) + b * y * u;
    var t := y * v;
    calc {
      1;
      (a * x + b * y) * (a * u + c * v);
      a * x * (a * u + c * v) + b * y * (a * u + c * v);
      { assert b * y * (a * u + c * v) == a * (b * y * u) + (b * c) * t; }
      a * x * (a * u + c * v) + a * (b * y * u) + (b * c) * t;
      { assert a * x * (a * u + c * v) == a * (x * (a * u + c * v)); }
      a * s + (b * c) * t;
    }
    assert Unit(a, b * c, s, t);
  }

  lemma CoprimeDivisor(a: int, b: int, c: int)
    requires Coprime(a, b * c)
    ensures Coprime(a, b)
  {
    var x: int, y: int :| Unit(a, b * c, x, y);
    assert (b * c) * y == b * (c * y);
    assert Unit(a, b, x, c * y);
  }

  lemma CoprimeShift(a: int, b: int, c: int)
    requires Coprime(a, b)
    ensures Coprime(a + c * b, b)
  {
    var x: int, y: int :| Unit(a, b, x, y);
    assert (a + c * b) * x + b * (y - c * x) == a * x + b * y;
    assert Unit(a + c * b, b, x, y - c * x);
  }

  lemma CoprimeNegation(a: int, b: int)
    requires Coprime(a, b)
    ensures Coprime(-a, b) && Coprime(-a, -b)
  {
    var x: int, y: int :| Unit(a, b, x, y);
    assert Unit(-a, b, -x, y) && Unit(-a, -b, -x, -y);
  }

  /** The cofactors of the gcd. */
  lemma Cofactors(a: int, b: int) returns (g: nat, a1: int, b1: int)
    requires a != 0 || b != 0
    ensures g == Gcd(a, b) && g > 0 && a == a1 * g && b == b1 * g && Coprime(a1, b1)
  {
    g := Gcd(a, b);
    GcdIsGreatest(a, b, 1);
    a1 :| a == a1 * g;
    b1 :| b == b1 * g;
    var x, y := Bezout(a, b);
    Factor(a1, b1, x, y, g);
    CancelUnit(a1 * x + b1 * y, g);
    assert Unit(a1, b1, x, y);
  }

  lemma Factor(a1: int, b1: int, x: int, y: int, g: int)
    ensures (a1 * g) * x + (b1 * g) * y == (a1 * x + b1 * y) * g
  {
    assert (a1 * g) * x == (a1 * x) * g && (b1 * g) * y == (b1 * y) * g;
  }

  lemma CancelUnit(u: int, g: nat)
    requires g > 0 && u * g == g
    ensures u == 1
  {
    ProductBounds(u, g);
  }
}
