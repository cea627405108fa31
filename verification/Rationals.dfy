/** Exact rationals in lowest terms, as Go's big.Rat keeps them, and when one has a finite
    decimal form. */
module Rationals {

  // ----- divisibility -----

  ghost predicate Divides(d: int, n: int) {
    exists k: int :: n == d * k
  }

  lemma DividesProduct(d: int, n: int, m: int)
    requires Divides(d, n)
    ensures Divides(d, n * m) && Divides(d, m * n)
  {
    var k :| n == d * k;
    assert n * m == d * (k * m) && m * n == d * (k * m);
  }

  lemma DividesSum(d: int, n: int, m: int)
    requires Divides(d, n) && Divides(d, m)
    ensures Divides(d, n + m) && Divides(d, n - m)
  {
    var k, l :| n == d * k && m == d * l;
    assert n + m == d * (k + l) && n - m == d * (k - l);
  }

  lemma DividesTransitive(a: int, b: int, c: int)
    requires Divides(a, b) && Divides(b, c)
    ensures Divides(a, c)
  {
    var k, l :| b == a * k && c == b * l;
    assert c == a * (k * l);
  }

  lemma DividesBoth(a: int, b: int, c: int, d: int)
    requires Divides(a, b) && Divides(c, d)
    ensures Divides(a * c, b * d)
  {
    var k, l :| b == a * k && d == c * l;
    assert b * d == (a * c) * (k * l);
  }

  lemma ProductPositive(a: int, b: int)
    requires a > 0 && b > 0
    ensures a * b > 0 && a * b >= a && a * b >= b
  {
  }

  lemma FactorPositive(a: int, k: int)
    requires a > 0 && a * k > 0
    ensures k > 0
  {
  }

  lemma FactorNonNegative(a: int, k: int)
    requires a > 0 && a * k >= 0
    ensures k >= 0
  {
  }

  lemma Cancel(a: int, b: int, c: int)
    requires a != 0 && a * b == a * c
    ensures b == c
  {
    assert a * (b - c) == 0;
  }

  lemma Mutual(a: int, b: int)
    requires a > 0 && b > 0 && Divides(a, b) && Divides(b, a)
    ensures a == b
  {
    var k, l :| b == a * k && a == b * l;
    FactorPositive(a, k);
    FactorPositive(b, l);
    ProductPositive(a, k);
    ProductPositive(b, l);
  }

  lemma DivisorOfOne(d: int)
    requires d > 0 && Divides(d, 1)
    ensures d == 1
  {
    assert d == 1 * d;
    Mutual(d, 1);
  }

  lemma Quotient(n: int, d: int, k: int)
    requires d > 0 && n == d * k
    ensures n / d == k && n % d == 0
  {
    DivisionUnique(d, k, n / d, n % d);
  }

  lemma DivisionUnique(d: int, k: int, q: int, r: int)
    requires d > 0 && 0 <= r < d && d * k == d * q + r
    ensures k == q && r == 0
  {
    assert d * (k - q) == r && d * (q - k) == -r;
    if k > q {
      ProductPositive(d, k - q);
    } else if k < q {
      ProductPositive(d, q - k);
    }
  }

  /** The greatest common divisor, by Euclid's algorithm. */
  function Gcd(a: nat, b: nat): (g: nat)
    ensures a > 0 || b > 0 ==> g > 0
    decreases b
  {
    if b == 0 then a else Gcd(b, a % b)
  }

  /** Bezout's identity, and that the result divides both. */
  lemma {:induction false} Bezout(a: nat, b: nat) returns (u: int, v: int)
    ensures u * a + v * b == Gcd(a, b)
    ensures Divides(Gcd(a, b), a) && Divides(Gcd(a, b), b)
    decreases b
  {
    if b == 0 {
      u, v := 1, 0;
      assert a == a * 1 && 0 == a * 0;
    } else {
      var q, r := a / b, a % b;
      assert a == q * b + r;
      var s, t := Bezout(b, r);
      u, v := t, s - q * t;
      BezoutStep(a, b, q, r, s, t);
      DividesProduct(Gcd(b, r), b, q);
      DividesSum(Gcd(b, r), b * q, r);
    }
  }

  /** Gauss's lemma: what divides a product and shares nothing with one factor divides the other. */
  lemma Gauss(d: nat, n: nat, m: int)
    requires Gcd(n, d) == 1 && Divides(d, n * m)
    ensures Divides(d, m)
  {
    var u, v := Bezout(n, d);
    var k :| n * m == d * k;
    GaussStep(d, n, m, k, u, v);
  }

  lemma BezoutStep(a: int, b: int, q: int, r: int, s: int, t: int)
    requires a == q * b + r
    ensures t * a + (s - q * t) * b == s * b + t * r
  {
    calc {
      t * a + (s - q * t) * b;
      t * (q * b + r) + (s - q * t) * b;
      (t * (q * b) + t * r) + (s * b - (q * t) * b);
      { assert t * (q * b) == (q * t) * b; }
      s * b + t * r;
    }
  }

  lemma GaussStep(d: int, n: int, m: int, k: int, u: int, v: int)
    requires u * n + v * d == 1 && n * m == d * k
    ensures m == d * (u * k + v * m)
  {
    calc {
      m;
      (u * n + v * d) * m;
      u * (n * m) + d * (v * m);
      u * (d * k) + d * (v * m);
      d * (u * k) + d * (v * m);
      d * (u * k + v * m);
    }
  }

  // ----- powers -----

  function Pow(b: nat, e: nat): (p: nat)
    ensures b > 0 ==> p > 0
  {
    if e == 0 then 1 else b * Pow(b, e - 1)
  }

  lemma {:induction false} PowSum(b: nat, e: nat, f: nat)
    ensures Pow(b, e + f) == Pow(b, e) * Pow(b, f)
    decreases e
  {
    if e > 0 {
      PowSum(b, e - 1, f);
      assert Pow(b, e + f) == b * (Pow(b, e - 1) * Pow(b, f));
    }
  }

  lemma {:induction false} PowOfProduct(a: nat, b: nat, e: nat)
    ensures Pow(a * b, e) == Pow(a, e) * Pow(b, e)
  {
    if e > 0 {
      PowOfProduct(a, b, e - 1);
      Interleave(a, b, Pow(a, e - 1), Pow(b, e - 1));
    }
  }

  lemma Interleave(a: int, b: int, p: int, q: int)
    ensures (a * b) * (p * q) == (a * p) * (b * q)
  {
    calc { (a * b) * (p * q); a * (b * (p * q)); a * (p * (b * q)); (a * p) * (b * q); }
  }

  lemma PowDivides(b: nat, e: nat, f: nat)
    requires e <= f
    ensures Divides(Pow(b, e), Pow(b, f))
  {
    PowSum(b, e, f - e);
  }

  // ----- rationals -----

  datatype Fraction = Fraction(num: int, den: int)

  function Abs(n: int): nat {
    if n < 0 then -n else n
  }

  predicate Reduced(f: Fraction) {
    f.den > 0 && Gcd(Abs(f.num), f.den) == 1
  }

  type Rat = f: Fraction | Reduced(f) witness Fraction(0, 1)

  /** n/d in lowest terms. */
  function Make(n: int, d: int): (r: Rat)
    requires d > 0
    ensures r.num * d == n * r.den
  {
    var g := Gcd(Abs(n), d);
    MakeReduces(n, d);
    Fraction(n / g, d / g)
  }

  lemma MakeReduces(n: int, d: int)
    requires d > 0
    ensures var g := Gcd(Abs(n), d); g > 0 && Reduced(Fraction(n / g, d / g)) && (n / g) * d == n * (d / g)
  {
    var g := Gcd(Abs(n), d);
    var u, v := Bezout(Abs(n), d);
    var k: int, l: int :| Abs(n) == g * k && d == g * l;
    FactorPositive(g, l);
    FactorNonNegative(g, k);
    QuotientsShareNothing(g, k, l, u, v);
    var m: int := if n < 0 then -k else k;
    assert n == g * m;
    Quotient(n, g, m);
    Quotient(d, g, l);
    CrossProducts(m, g, l);
  }

  lemma CrossProducts(m: int, g: int, l: int)
    ensures m * (g * l) == (g * m) * l
  {
  }

  lemma QuotientsShareNothing(g: int, k: nat, l: nat, u: int, v: int)
    requires g > 0 && u * (g * k) + v * (g * l) == g && l > 0
    ensures Gcd(k, l) == 1
  {
    assert g * (u * k + v * l) == g * 1;
    Cancel(g, u * k + v * l, 1);
    var s, t := Bezout(k, l);
    DividesProduct(Gcd(k, l), k, u);
    DividesProduct(Gcd(k, l), l, v);
    DividesSum(Gcd(k, l), u * k, v * l);
    DivisorOfOne(Gcd(k, l));
  }

  /** Two fractions in lowest terms with the same value are the same fraction. */
  lemma SameValue(a: Rat, b: Rat)
    requires a.num * b.den == b.num * a.den
    ensures a == b
  {
    AbsOfProduct(a.num, b.den);
    AbsOfProduct(b.num, a.den);
    DividesByWitness(a.den, Abs(a.num) * b.den, Abs(b.num));
    DividesByWitness(b.den, Abs(b.num) * a.den, Abs(a.num));
    Gauss(a.den, Abs(a.num), b.den);
    Gauss(b.den, Abs(b.num), a.den);
    Mutual(a.den, b.den);
    Cancel(a.den, a.num, b.num);
  }

  lemma AbsOfProduct(n: int, d: int)
    requires d > 0
    ensures Abs(n * d) == Abs(n) * d
  {
    if n < 0 {
      ProductPositive(-n, d);
      assert n * d == -((-n) * d);
    }
  }

  lemma DividesByWitness(d: int, n: int, k: int)
    requires n == d * k
    ensures Divides(d, n)
  {
  }

  function Add(a: Rat, b: Rat): (r: Rat) { ProductPositive(a.den, b.den); Make(a.num * b.den + b.num * a.den, a.den * b.den) }
  function Sub(a: Rat, b: Rat): (r: Rat) { ProductPositive(a.den, b.den); Make(a.num * b.den - b.num * a.den, a.den * b.den) }
  function Mul(a: Rat, b: Rat): (r: Rat) { ProductPositive(a.den, b.den); Make(a.num * b.num, a.den * b.den) }

  /** The fraction stands for the real number x. */
  predicate Stands(f: Fraction, x: real) {
    f.num as real == x * f.den as real
  }

  lemma ToReal(x: int, y: int)
    ensures (x * y) as real == x as real * y as real
  {
  }

  lemma StandsForQuotient(n: int, d: int, x: real)
    requires d > 0 && n as real == x * d as real
    ensures Stands(Make(n, d), x)
  {
    var r := Make(n, d);
    StandsAcross(r.num, r.den, n, d, x);
  }

  lemma StandsAcross(a: int, b: int, n: int, d: int, x: real)
    requires d > 0 && a * d == n * b && n as real == x * d as real
    ensures a as real == x * b as real
  {
    ToReal(a, d);
    ToReal(n, b);
    CancelReal(a as real, b as real, d as real, n as real, x);
  }

  lemma CancelReal(n: real, d: real, e: real, m: real, x: real)
    requires e > 0.0 && n * e == m * d && m == x * e
    ensures n == x * d
  {
    assert n * e == (x * d) * e;
  }

  // The arithmetic is exact.

  lemma AddIsExact(a: Rat, b: Rat, x: real, y: real)
    requires Stands(a, x) && Stands(b, y)
    ensures Stands(Add(a, b), x + y)
  {
    hide Make;
    ProductPositive(a.den, b.den);
    Numerators(a.num, a.den, b.num, b.den, x, y);
    var n, d := a.num * b.den + b.num * a.den, a.den * b.den;
    StandsForQuotient(n, d, x + y);
  }

  lemma SubIsExact(a: Rat, b: Rat, x: real, y: real)
    requires Stands(a, x) && Stands(b, y)
    ensures Stands(Sub(a, b), x - y)
  {
    hide Make;
    ProductPositive(a.den, b.den);
    Numerators(a.num, a.den, b.num, b.den, x, y);
    var n, d := a.num * b.den - b.num * a.den, a.den * b.den;
    StandsForQuotient(n, d, x - y);
  }

  lemma MulIsExact(a: Rat, b: Rat, x: real, y: real)
    requires Stands(a, x) && Stands(b, y)
    ensures Stands(Mul(a, b), x * y)
  {
    hide Make;
    ProductPositive(a.den, b.den);
    Numerators(a.num, a.den, b.num, b.den, x, y);
    var n, d := a.num * b.num, a.den * b.den;
    StandsForQuotient(n, d, x * y);
  }

  lemma Numerators(a: int, c: int, b: int, d: int, x: real, y: real)
    requires a as real == x * c as real && b as real == y * d as real
    ensures (a * d + b * c) as real == (x + y) * (c * d) as real
    ensures (a * d - b * c) as real == (x - y) * (c * d) as real
    ensures (a * b) as real == (x * y) * (c * d) as real
  {
    ToReal(a, d);
    ToReal(b, c);
    ToReal(a, b);
    ToReal(c, d);
    Combine(a as real, c as real, b as real, d as real, x, y);
  }

  lemma Combine(a: real, c: real, b: real, d: real, x: real, y: real)
    requires a == x * c && b == y * d
    ensures a * d + b * c == (x + y) * (c * d)
    ensures a * d - b * c == (x - y) * (c * d)
    ensures a * b == (x * y) * (c * d)
  {
    assert a * d == x * (c * d) && b * c == y * (c * d);
    assert (x * c) * (y * d) == (x * y) * (c * d);
  }

  // ----- finite decimals -----

  /** The value has at most s decimals: 10^s times it is whole. */
  ghost predicate HasDecimals(r: Rat, s: nat) {
    Divides(r.den, r.num * Pow(10, s))
  }

  /** That depends only on the value, not on the fraction it was made from. */
  lemma HasDecimalsOfMake(n: int, d: int, s: nat)
    requires d > 0
    ensures HasDecimals(Make(n, d), s) <==> Divides(d, n * Pow(10, s))
  {
    var r, p := Make(n, d), Pow(10, s);
    if HasDecimals(r, s) {
      ScaleAcross(r.num, r.den, n, d, p);
    }
    if Divides(d, n * p) {
      ScaleAcross(n, d, r.num, r.den, p);
    }
  }

  lemma ScaleAcross(a: int, b: int, c: int, d: int, p: int)
    requires b > 0 && d > 0 && a * d == c * b && Divides(b, a * p)
    ensures Divides(d, c * p)
  {
    var k :| a * p == b * k;
    calc {
      b * (c * p);
      (a * d) * p;
      d * (a * p);
      d * (b * k);
      b * (d * k);
    }
    Cancel(b, c * p, d * k);
  }

  /** In lowest terms, only the denominator counts. */
  lemma HasDecimalsOfDenominator(r: Rat, s: nat)
    ensures HasDecimals(r, s) <==> Divides(r.den, Pow(10, s))
  {
    if Divides(r.den, Pow(10, s)) {
      DividesProduct(r.den, Pow(10, s), r.num);
    }
    if HasDecimals(r, s) {
      DividesProduct(r.den, r.num * Pow(10, s), -1);
      AbsTimes(r.num, Pow(10, s));
      Gauss(r.den, Abs(r.num), Pow(10, s));
    }
  }

  lemma AbsTimes(n: int, p: int)
    ensures Abs(n) * p == if n < 0 then (n * p) * -1 else n * p
  {
  }
}
