/** FEEL numbers: an exact value, and the scale it was written or computed with when that is wider
    than the value needs (12.50 is 12.5 with scale 2). */
module FeelNumbers {

  import opened Wrappers
  import opened Rationals

  function Max(a: int, b: int): int {
    if a < b then b else a
  }

  // ----- how many decimals a value needs -----

  /** Twos and fives divided out of what is left of a denominator; -1 if something else remains. */
  function Stripped(d: nat, twos: nat, fives: nat): int
    requires d > 0
    decreases d
  {
    if d == 1 then Max(twos, fives)
    else if d % 2 == 0 then Stripped(d / 2, twos + 1, fives)
    else if d % 5 == 0 then Stripped(d / 5, twos, fives + 1)
    else -1
  }

  /** How many decimals the value needs, -1 if it has no finite decimal form. */
  function NaturalScale(r: Rat): int {
    Stripped(r.den, 0, 0)
  }

  method ComputeNaturalScale(r: Rat) returns (s: int)
    ensures s == NaturalScale(r)
  {
    var d: nat, twos: nat, fives: nat := r.den, 0, 0;
    while d != 1
      invariant d > 0 && Stripped(d, twos, fives) == NaturalScale(r)
      decreases d
    {
      if d % 2 == 0 {
        d, twos := d / 2, twos + 1;
      } else if d % 5 == 0 {
        d, fives := d / 5, fives + 1;
      } else {
        return -1;
      }
    }
    s := Max(twos, fives);
  }

  /** 2^a 5^b divides 10^t exactly when t is at least both. */
  lemma TwosAndFives(a: nat, b: nat, t: nat)
    ensures Divides(Pow(2, a) * Pow(5, b), Pow(10, t)) <==> t >= a && t >= b
  {
    PowOfProduct(2, 5, t);
    if t >= a && t >= b {
      PowDivides(2, a, t);
      PowDivides(5, b, t);
      DividesBoth(Pow(2, a), Pow(2, t), Pow(5, b), Pow(5, t));
    }
    if Divides(Pow(2, a) * Pow(5, b), Pow(10, t)) {
      var k :| Pow(2, t) * Pow(5, t) == (Pow(2, a) * Pow(5, b)) * k;
      if t < a {
        PowSum(2, t, a - t);
        Rearrange(Pow(2, t), Pow(2, a - t), Pow(5, b), k);
        Cancel(Pow(2, t), Pow(5, t), Pow(2, a - t) * (Pow(5, b) * k));
        FivesAreOdd(t);
        Halves(Pow(5, t), 2, Pow(2, a - t - 1), Pow(5, b) * k);
      }
      if t < b {
        PowSum(5, t, b - t);
        Rearrange(Pow(5, t), Pow(5, b - t), Pow(2, a), k);
        assert Pow(2, t) * Pow(5, t) == Pow(5, t) * Pow(2, t);
        Cancel(Pow(5, t), Pow(2, t), Pow(5, b - t) * (Pow(2, a) * k));
        TwosAreNotFives(t);
        Halves(Pow(2, t), 5, Pow(5, b - t - 1), Pow(2, a) * k);
      }
    }
  }

  lemma Rearrange(x: int, y: int, z: int, k: int)
    ensures ((x * y) * z) * k == x * (y * (z * k))
    ensures (z * (x * y)) * k == x * (y * (z * k))
  {
  }

  lemma Halves(n: int, p: int, q: int, k: int)
    requires p > 0 && n == (p * q) * k
    ensures n % p == 0
  {
    assert n == p * (q * k);
    Quotient(n, p, q * k);
  }

  lemma {:induction false} FivesAreOdd(t: nat)
    ensures Pow(5, t) % 2 == 1
  {
    if t > 0 {
      FivesAreOdd(t - 1);
    }
  }

  lemma {:induction false} TwosAreNotFives(t: nat)
    ensures Pow(2, t) % 5 != 0
  {
    if t > 0 {
      TwosAreNotFives(t - 1);
    }
  }

  /** A number over 1 without the factors 2 and 5 divides no power of ten. */
  lemma {:induction false} NoOtherFactor(m: nat, t: nat)
    requires m > 1 && m % 2 != 0 && m % 5 != 0
    ensures !Divides(m, Pow(10, t))
  {
    if Divides(m, Pow(10, t)) {
      if t == 0 {
        DivisorOfOne(m);
      } else {
        CoprimeToTen(m);
        Gauss(m, 10, Pow(10, t - 1));
        NoOtherFactor(m, t - 1);
      }
    }
  }

  lemma CoprimeToTen(m: nat)
    requires m > 1 && m % 2 != 0 && m % 5 != 0
    ensures Gcd(10, m) == 1
  {
    var g := Gcd(10, m);
    var u, v := Bezout(10, m);
    var k: int, l: int :| 10 == g * k && m == g * l;
    FactorPositive(g, k);
    ProductPositive(g, k);
    assert g != 10 && g != 5 by { if g == 10 || g == 5 { Halves(m, 5, g / 5, l); } }
    assert g != 2 by { if g == 2 { Halves(m, 2, 1, l); } }
    DividesTen(g, k);
  }

  lemma DividesTen(g: nat, k: int)
    requires 10 == g * k && k > 0
    ensures g == 1 || g == 2 || g == 5 || g == 10
  {
    assert g != 0;
    assert g <= 10 by { ProductPositive(g, k); }
    match g
    case 3 => case 4 => case 6 => case 7 => case 8 => case 9 =>
    case _ =>
  }

  lemma {:induction false} StrippedExact(whole: nat, d: nat, twos: nat, fives: nat, t: nat)
    requires d > 0 && whole == d * (Pow(2, twos) * Pow(5, fives))
    ensures Divides(whole, Pow(10, t)) <==> 0 <= Stripped(d, twos, fives) <= t
    decreases d
  {
    if d == 1 {
      TwosAndFives(twos, fives, t);
    } else if d % 2 == 0 {
      MoveFactor(d / 2, 2, Pow(2, twos), Pow(5, fives));
      StrippedExact(whole, d / 2, twos + 1, fives, t);
    } else if d % 5 == 0 {
      MoveFactor(d / 5, 5, Pow(5, fives), Pow(2, twos));
      StrippedExact(whole, d / 5, twos, fives + 1, t);
    } else if Divides(whole, Pow(10, t)) {
      DividesByWitness(d, whole, Pow(2, twos) * Pow(5, fives));
      DividesTransitive(d, whole, Pow(10, t));
      NoOtherFactor(d, t);
    }
  }

  lemma MoveFactor(d: int, p: int, x: int, y: int)
    ensures (d * p) * (x * y) == d * ((p * x) * y) && (d * p) * (y * x) == d * (y * (p * x))
  {
  }

  /** naturalScale is the least number of decimals the value has, and -1 exactly when it has no
      finite decimal form. */
  lemma NaturalScaleIsLeast(r: Rat, t: nat)
    ensures HasDecimals(r, t) <==> 0 <= NaturalScale(r) <= t
  {
    HasDecimalsOfDenominator(r, t);
    assert r.den == r.den * (Pow(2, 0) * Pow(5, 0));
    StrippedExact(r.den, r.den, 0, 0, t);
  }

  // ----- numbers with a scale -----

  datatype Number = Number(value: Rat, recorded: Option<nat>)

  /** A scale is recorded only where it is wider than the value needs. */
  predicate Consistent(n: Number) {
    n.recorded.Some? ==> 0 <= NaturalScale(n.value) < n.recorded.value
  }

  type Num = n: Number | Consistent(n) witness Number(Fraction(0, 1), None)

  /** The number r with `scale` decimals, or with as many as it needs if that is more. */
  function WithScale(r: Rat, scale: int): Num {
    var natural := NaturalScale(r);
    if natural < 0 || scale <= natural then Number(r, None) else Number(r, Some(scale))
  }

  /** The recorded scale, or the decimals the value needs; -1 with no finite decimal form. */
  function ScaleOf(n: Num): int {
    if n.recorded.Some? then n.recorded.value else NaturalScale(n.value)
  }

  /** The scales the interpreter records, keyed by the identity of the number. */
  class Rational {
    const value: Rat

    constructor (value: Rat)
      ensures this.value == value
    {
      this.value := value;
    }
  }

  class ScaleTable {
    var recorded: map<Rational, nat>

    /** What a number object means: its value and the scale recorded for it. */
    function Meaning(r: Rational): Number
      reads this
    {
      Number(r.value, if r in recorded then Some(recorded[r]) else None)
    }

    /** Records the scale of a number just computed; every other number keeps its meaning. */
    method Record(r: Rational, scale: int)
      requires r !in recorded
      modifies this
      ensures Meaning(r) == WithScale(r.value, scale)
      ensures forall other :: other != r ==> (other in recorded <==> other in old(recorded))
      ensures forall other :: other != r && other in recorded ==> recorded[other] == old(recorded)[other]
    {
      var natural := ComputeNaturalScale(r.value);
      if natural < 0 || scale <= natural {
        return;
      }
      recorded := recorded[r := scale];
    }

    method ScaleOfObject(r: Rational) returns (s: int)
      requires Consistent(Meaning(r))
      ensures s == ScaleOf(Meaning(r))
    {
      if r in recorded {
        return recorded[r];
      }
      s := ComputeNaturalScale(r.value);
    }
  }

  datatype Operator = Plus | Minus | Times

  function Exactly(op: Operator, a: Rat, b: Rat): Rat {
    match op
    case Plus => Add(a, b)
    case Minus => Sub(a, b)
    case Times => Mul(a, b)
  }

  /** The result with the scale BigDecimal would give it, when both operands have one. */
  function Compute(op: Operator, a: Num, b: Num): Num {
    var result, sa, sb := Exactly(op, a.value, b.value), ScaleOf(a), ScaleOf(b);
    if sa < 0 || sb < 0 then Number(result, None)
    else if op == Times then WithScale(result, sa + sb)
    else WithScale(result, Max(sa, sb))
  }

  /** A number has as many decimals as its scale says. */
  lemma ScaleSuffices(n: Num)
    requires ScaleOf(n) >= 0
    ensures HasDecimals(n.value, ScaleOf(n))
  {
    NaturalScaleIsLeast(n.value, ScaleOf(n));
  }

  lemma {:induction false} MoreDecimals(r: Rat, s: nat, t: nat)
    requires HasDecimals(r, s) && s <= t
    ensures HasDecimals(r, t)
  {
    NaturalScaleIsLeast(r, s);
    NaturalScaleIsLeast(r, t);
  }

  lemma ScaleOfDecimal(r: Rat, s: nat)
    requires HasDecimals(r, s)
    ensures ScaleOf(WithScale(r, s)) == s
  {
    NaturalScaleIsLeast(r, s);
  }

  lemma SumHasDecimals(a: Rat, b: Rat, s: nat)
    requires HasDecimals(a, s) && HasDecimals(b, s)
    ensures HasDecimals(Add(a, b), s) && HasDecimals(Sub(a, b), s)
  {
    var p := Pow(10, s);
    var k, l :| a.num * p == a.den * k && b.num * p == b.den * l;
    ProductPositive(a.den, b.den);
    SumNumerators(a.num, a.den, b.num, b.den, p, k, l);
    DividesByWitness(a.den * b.den, (a.num * b.den + b.num * a.den) * p, k + l);
    DividesByWitness(a.den * b.den, (a.num * b.den - b.num * a.den) * p, k - l);
    HasDecimalsOfMake(a.num * b.den + b.num * a.den, a.den * b.den, s);
    HasDecimalsOfMake(a.num * b.den - b.num * a.den, a.den * b.den, s);
  }

  lemma SumNumerators(a: int, c: int, b: int, d: int, p: int, k: int, l: int)
    requires a * p == c * k && b * p == d * l
    ensures (a * d + b * c) * p == (c * d) * (k + l) && (a * d - b * c) * p == (c * d) * (k - l)
  {
    calc { (a * d) * p; (a * p) * d; (c * k) * d; (c * d) * k; }
    calc { (b * c) * p; (b * p) * c; (d * l) * c; (c * d) * l; }
  }

  lemma ProductHasDecimals(a: Rat, b: Rat, s: nat, t: nat)
    requires HasDecimals(a, s) && HasDecimals(b, t)
    ensures HasDecimals(Mul(a, b), s + t)
  {
    DividesBoth(a.den, a.num * Pow(10, s), b.den, b.num * Pow(10, t));
    PowSum(10, s, t);
    Interchange(a.num, Pow(10, s), b.num, Pow(10, t));
    ProductPositive(a.den, b.den);
    HasDecimalsOfMake(a.num * b.num, a.den * b.den, s + t);
  }

  lemma Interchange(a: int, p: int, b: int, q: int)
    ensures (a * p) * (b * q) == (a * b) * (p * q)
  {
    calc { (a * p) * (b * q); a * (p * (b * q)); a * (b * (p * q)); (a * b) * (p * q); }
  }

  /** Addition and subtraction keep exactly the wider scale, multiplication exactly the sum; where
      an operand has no finite decimal form nothing is recorded. */
  lemma ArithmeticScale(op: Operator, a: Num, b: Num)
    ensures Compute(op, a, b).value == Exactly(op, a.value, b.value)
    ensures ScaleOf(Compute(op, a, b)) ==
            if ScaleOf(a) < 0 || ScaleOf(b) < 0 then NaturalScale(Exactly(op, a.value, b.value))
            else if op == Times then ScaleOf(a) + ScaleOf(b)
            else Max(ScaleOf(a), ScaleOf(b))
  {
    if ScaleOf(a) >= 0 && ScaleOf(b) >= 0 {
      var sa, sb := ScaleOf(a), ScaleOf(b);
      ScaleSuffices(a);
      ScaleSuffices(b);
      if op == Times {
        ProductHasDecimals(a.value, b.value, sa, sb);
        ScaleOfDecimal(Exactly(op, a.value, b.value), sa + sb);
      } else {
        MoreDecimals(a.value, sa, Max(sa, sb));
        MoreDecimals(b.value, sb, Max(sa, sb));
        SumHasDecimals(a.value, b.value, Max(sa, sb));
        ScaleOfDecimal(Exactly(op, a.value, b.value), Max(sa, sb));
      }
    }
  }

  // ----- decimal() -----

  /** n/d rounded to a whole number, ties to the even one. */
  function HalfEven(n: int, d: int): (q: int)
    requires d > 0
    ensures -d <= 2 * (q * d - n) <= d
    ensures 2 * (q * d - n) == d || 2 * (q * d - n) == -d ==> q % 2 == 0
  {
    var floor, rest := n / d, n % d;
    assert n == floor * d + rest;
    assert (floor + 1) * d == floor * d + d;
    if 2 * rest > d || (2 * rest == d && floor % 2 != 0) then floor + 1 else floor
  }

  /** No whole number is nearer to n/d, and of two equally near ones the even one is taken. */
  lemma HalfEvenIsNearest(n: int, d: int, k: int)
    requires d > 0
    ensures var q := HalfEven(n, d); Abs(q * d - n) <= Abs(k * d - n) && (Abs(q * d - n) == Abs(k * d - n) ==> k == q || q % 2 == 0)
  {
    var q := HalfEven(n, d);
    assert (k - q) * d == (k * d - n) - (q * d - n);
    if k > q {
      ProductPositive(k - q, d);
    } else if k < q {
      ProductPositive(q - k, d);
      assert (q - k) * d == -((k - q) * d);
    }
  }

  /** r rounded half-even to `scale` decimals, or to a power of ten where `scale` is negative. */
  function RoundHalfEven(r: Rat, scale: int): Rat {
    if scale >= 0 then Make(HalfEven(r.num * Pow(10, scale), r.den), Pow(10, scale))
    else
      ProductPositive(r.den, Pow(10, -scale));
      Make(HalfEven(r.num, r.den * Pow(10, -scale)) * Pow(10, -scale), 1)
  }

  /** The decimal() builtin. */
  function Decimal(n: Num, scale: int): Num {
    var rounded := RoundHalfEven(n.value, scale);
    if scale < 0 then Number(rounded, None) else WithScale(rounded, scale)
  }

  /** decimal(n, s) has scale exactly s, whatever n is. */
  lemma DecimalScale(n: Num, scale: nat)
    ensures ScaleOf(Decimal(n, scale)) == scale
  {
    var p := Pow(10, scale);
    var q := HalfEven(n.value.num * p, n.value.den);
    DividesByWitness(p, q * p, q);
    HasDecimalsOfMake(q, p, scale);
    ScaleOfDecimal(Make(q, p), scale);
  }

  /** decimal() gives q units in the last place kept, where no whole number of them is nearer to the
      argument and of two equally near ones q is even; with a negative scale the units are powers
      of ten. */
  lemma DecimalIsNearest(n: Num, scale: int, k: int) returns (q: int)
    ensures var r, x := Decimal(n, scale).value, n.value;
            if scale >= 0 then
              && r.num * Pow(10, scale) == q * r.den
              && Nearest(x.num * Pow(10, scale), x.den, q, k)
            else
              && r == Fraction(q * Pow(10, -scale), 1)
              && Nearest(x.num, x.den * Pow(10, -scale), q, k)
  {
    var x := n.value;
    if scale >= 0 {
      q := HalfEven(x.num * Pow(10, scale), x.den);
      HalfEvenIsNearest(x.num * Pow(10, scale), x.den, k);
    } else {
      var p := Pow(10, -scale);
      ProductPositive(x.den, p);
      q := HalfEven(x.num, x.den * p);
      HalfEvenIsNearest(x.num, x.den * p, k);
      WholeIsReduced(q * p);
      var r := Make(q * p, 1);
      SameValue(r, Fraction(q * p, 1));
    }
  }

  lemma WholeIsReduced(i: int)
    ensures Reduced(Fraction(i, 1))
  {
  }

  /** q is as near to n/d as k is, and even if k is another equally near. */
  predicate Nearest(n: int, d: int, q: int, k: int) {
    Abs(q * d - n) <= Abs(k * d - n) && (Abs(q * d - n) == Abs(k * d - n) ==> k == q || q % 2 == 0)
  }
}
