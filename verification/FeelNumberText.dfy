/** How FEEL writes a number and reads one back. */
module FeelNumberText {

  import opened Wrappers
  import opened Rationals
  import opened FeelNumbers
  import opened DecimalText

  // ----- reading -----

  /** The index of the first '.', or the length. */
  function PointIndex(s: string): (i: nat)
    ensures i <= |s| && (forall k :: 0 <= k < i ==> s[k] != '.') && (i < |s| ==> s[i] == '.')
  {
    if s == [] || s[0] == '.' then 0 else 1 + PointIndex(s[1..])
  }

  /** Digits with at most one point, at least one digit. */
  function Unsigned(s: string): Option<Rat> {
    var i := PointIndex(s);
    var whole, fraction := s[..i], if i < |s| then s[i + 1..] else [];
    if whole + fraction == [] || !AllDigits(whole + fraction) then None
    else Some(Make(Spelled(whole + fraction), Pow(10, |fraction|)))
  }

  /** The same after an optional sign: what the number() builtin reads. */
  function Signed(s: string): Option<Rat> {
    if s != [] && s[0] == '-' then
      match Unsigned(s[1..])
      case None => None
      case Some(r) => Some(Negated(r))
    else if s != [] && s[0] == '+' then Unsigned(s[1..])
    else Unsigned(s)
  }

  function Negated(r: Rat): Rat {
    Fraction(-r.num, r.den)
  }

  /** The number of decimals a literal is written with. */
  function LiteralScale(s: string): nat {
    if 'e' in s || 'E' in s then 0
    else if PointIndex(s) < |s| then |s| - PointIndex(s) - 1
    else 0
  }

  /** A number literal: its value, and the scale it is written with. */
  function ReadLiteral(s: string): Option<Num> {
    match Unsigned(s)
    case None => None
    case Some(r) => Some(WithScale(r, LiteralScale(s)))
  }

  // ----- writing -----

  function Sign(r: Rat): string {
    if r.num < 0 then "-" else ""
  }

  /** |r| times 10^prec, rounded to a whole number, halves away from zero. */
  function Rounded(r: Rat, prec: nat): nat {
    var n := Abs(r.num) * Pow(10, prec);
    var q, rest := n / r.den, n % r.den;
    if 2 * rest >= r.den then q + 1 else q
  }

  /** r with exactly `prec` decimals. */
  function FloatString(r: Rat, prec: nat): string {
    var n := Rounded(r, prec);
    var whole := Sign(r) + Digits(n / Pow(10, prec));
    if prec == 0 then whole else whole + "." + Padded(n % Pow(10, prec), prec)
  }

  function TrimZeros(s: string): string
    decreases |s|
  {
    if s != [] && s[|s| - 1] == '0' then TrimZeros(s[..|s| - 1]) else s
  }

  function TrimPoint(s: string): string {
    if s != [] && s[|s| - 1] == '.' then s[..|s| - 1] else s
  }

  /** How string() writes a number. */
  function Format(n: Num): string {
    if ScaleOf(n) > NaturalScale(n.value) then FloatString(n.value, ScaleOf(n))
    else if n.value.den == 1 then Sign(n.value) + Digits(Abs(n.value.num))
    else TrimPoint(TrimZeros(FloatString(n.value, 20)))
  }

  // ----- the round trip -----

  /** The text is written in full: a recorded scale, or at most twenty decimals. */
  predicate WrittenInFull(n: Num) {
    n.recorded.Some? || 0 <= NaturalScale(n.value) <= 20
  }

  lemma PointAfterDigits(whole: string, fraction: string)
    requires AllDigits(whole) && AllDigits(fraction)
    ensures PointIndex(whole + "." + fraction) == |whole|
    ensures PointIndex(whole) == |whole|
  {
    var s := whole + "." + fraction;
    assert s[|whole|] == '.';
    assert forall k :: 0 <= k < |whole| ==> s[k] == whole[k];
  }

  /** Reading a whole part, a point and a fraction. */
  lemma UnsignedOfPointed(w: nat, fraction: string)
    requires AllDigits(fraction)
    ensures Unsigned(Digits(w) + "." + fraction) == Some(Make(w * Pow(10, |fraction|) + Spelled(fraction), Pow(10, |fraction|)))
  {
    hide Digits, Spelled, Pow, Make, PointIndex;
    var whole := Digits(w);
    SpelledOfConcat(whole, fraction);
    DigitsSpell(w);
    UnsignedSplits(whole, fraction);
  }

  lemma UnsignedSplits(whole: string, fraction: string)
    requires whole != "" && AllDigits(whole) && AllDigits(fraction)
    ensures AllDigits(whole + fraction) && Unsigned(whole + "." + fraction) == Some(Make(Spelled(whole + fraction), Pow(10, |fraction|)))
  {
    hide Spelled, Pow, Make, PointIndex;
    var s := whole + "." + fraction;
    PointAfterDigits(whole, fraction);
    assert s[..|whole|] == whole && s[|whole| + 1..] == fraction;
  }

  lemma UnsignedOfDigits(w: nat)
    ensures Unsigned(Digits(w)) == Some(Make(w, 1)) && Make(w, 1) == Fraction(w, 1)
  {
    PointAfterDigits(Digits(w), []);
    assert Digits(w)[..|Digits(w)|] + [] == Digits(w);
    DigitsSpell(w);
    assert Make(w, 1).num * 1 == w * Make(w, 1).den;
    assert Gcd(w, 1) == 1;
    SameValue(Make(w, 1), Fraction(w, 1));
  }

  function Magnitude(r: Rat): Rat {
    Fraction(Abs(r.num), r.den)
  }

  /** A value with `prec` decimals is written exactly: no rounding. */
  lemma RoundedExact(r: Rat, prec: nat)
    requires HasDecimals(r, prec)
    ensures Make(Rounded(r, prec), Pow(10, prec)) == Magnitude(r)
  {
    var p, n := Pow(10, prec), Rounded(r, prec);
    RoundedWhole(r, prec);
    var m := Make(n, p);
    Proportion(m.num, m.den, n, p, Abs(r.num), r.den);
    SameValue(m, Magnitude(r));
  }

  lemma RoundedWhole(r: Rat, prec: nat)
    requires HasDecimals(r, prec)
    ensures Rounded(r, prec) * r.den == Abs(r.num) * Pow(10, prec)
  {
    HasDecimalsOfDenominator(r, prec);
    DividesProduct(r.den, Pow(10, prec), Abs(r.num));
    var k :| Abs(r.num) * Pow(10, prec) == r.den * k;
    RoundedIs(r, prec, k);
  }

  lemma RoundedIs(r: Rat, prec: nat, k: int)
    requires Abs(r.num) * Pow(10, prec) == r.den * k
    ensures Rounded(r, prec) == k
  {
    Quotient(Abs(r.num) * Pow(10, prec), r.den, k);
  }

  lemma Proportion(a: int, b: int, n: int, p: int, c: int, d: int)
    requires p > 0 && a * p == n * b && n * d == c * p
    ensures a * d == c * b
  {
    calc { p * (a * d); (a * p) * d; (n * b) * d; (n * d) * b; (c * p) * b; p * (c * b); }
    Cancel(p, a * d, c * b);
  }

  lemma PointedReads(w: nat, f: nat, prec: nat)
    requires f < Pow(10, prec)
    ensures Unsigned(Digits(w) + "." + Padded(f, prec)) == Some(Make(w * Pow(10, prec) + f, Pow(10, prec)))
  {
    hide Unsigned, Digits, Pow, Make;
    UnsignedOfPointed(w, Padded(f, prec));
    PaddedSpells(f, prec);
  }

  lemma Split(n: nat, p: nat) returns (w: nat, f: nat)
    requires p > 0
    ensures w == n / p && f == n % p && f < p && n == w * p + f
  {
    w, f := n / p, n % p;
  }

  /** What FloatString writes, split at the point. */
  lemma FloatStringSplit(r: Rat, prec: nat) returns (w: nat, f: nat)
    requires prec > 0
    ensures f < Pow(10, prec) && Rounded(r, prec) == w * Pow(10, prec) + f
    ensures FloatString(r, prec) == Sign(r) + (Digits(w) + "." + Padded(f, prec))
  {
    w, f := Split(Rounded(r, prec), Pow(10, prec));
    assert FloatString(r, prec) == Sign(r) + (Digits(w) + "." + Padded(f, prec));
  }

  lemma SignedOfText(r: Rat, text: string)
    requires text != [] && IsDigit(text[0])
    ensures Signed(Sign(r) + text) == if r.num >= 0 then Unsigned(text) else if Unsigned(text).None? then None else Some(Negated(Unsigned(text).value))
  {
    var s := Sign(r) + text;
    if r.num < 0 {
      assert s[1..] == text;
    } else {
      assert s == text;
    }
  }

  // ----- trimming -----

  /** Trimming stops at the last digit that is not zero, and never passes the point. */
  lemma {:induction false} TrimZerosStops(head: string, tail: string) returns (m: nat)
    requires head != [] && head[|head| - 1] != '0'
    ensures m <= |tail| && TrimZeros(head + tail) == head + tail[..m]
    ensures forall i :: m <= i < |tail| ==> tail[i] == '0'
    ensures m > 0 ==> tail[m - 1] != '0'
    decreases |tail|
  {
    var s := head + tail;
    if tail == [] {
      m := 0;
      assert s == head;
    } else {
      assert s[|s| - 1] == tail[|tail| - 1];
      if tail[|tail| - 1] == '0' {
        assert s[..|s| - 1] == head + tail[..|tail| - 1];
        m := TrimZerosStops(head, tail[..|tail| - 1]);
        assert tail[..|tail| - 1][..m] == tail[..m];
      } else {
        m := |tail|;
      }
    }
  }

  /** The text trimmed after `prec` decimals: what is left of them, with the point if any is. */
  lemma TrimmedText(r: Rat, prec: nat) returns (w: nat, f: nat, m: nat, text: string)
    requires prec > 0
    ensures f < Pow(10, prec) && Rounded(r, prec) == w * Pow(10, prec) + f
    ensures m <= prec && (forall i :: m <= i < prec ==> Padded(f, prec)[i] == '0') && (m > 0 ==> Padded(f, prec)[m - 1] != '0')
    ensures text == if m == 0 then Digits(w) else Digits(w) + "." + Padded(f, prec)[..m]
    ensures TrimPoint(TrimZeros(FloatString(r, prec))) == Sign(r) + text
  {
    w, f := FloatStringSplit(r, prec);
    var head, fraction := Sign(r) + (Digits(w) + "."), Padded(f, prec);
    assert Sign(r) + (Digits(w) + "." + fraction) == head + fraction;
    m := TrimZerosStops(head, fraction);
    text := if m == 0 then Digits(w) else Digits(w) + "." + fraction[..m];
    if m == 0 {
      assert (head + fraction[..0])[..|head| - 1] == Sign(r) + text;
    } else {
      assert head + fraction[..m] == Sign(r) + text;
    }
  }

  /** Whatever is left after trimming reads as a value with no more decimals than are left. */
  lemma TrimmedReads(w: nat, fraction: string) returns (read: Rat)
    requires AllDigits(fraction)
    ensures Unsigned(if fraction == [] then Digits(w) else Digits(w) + "." + fraction) == Some(read)
    ensures HasDecimals(read, |fraction|)
  {
    if fraction == [] {
      UnsignedOfDigits(w);
      HasMDecimals(w, 0);
      read := Make(w, 1);
    } else {
      UnsignedOfPointed(w, fraction);
      var k := w * Pow(10, |fraction|) + Spelled(fraction);
      HasMDecimals(k, |fraction|);
      read := Make(k, Pow(10, |fraction|));
    }
  }

  /** Text with at most twenty decimals never spells a value that needs more. */
  lemma TrimmedLosesDecimals(n: Num)
    requires !WrittenInFull(n)
    ensures Signed(Format(n)) != Some(n.value) && (n.value.num >= 0 ==> Unsigned(Format(n)) != Some(n.value))
  {
    var r := n.value;
    var w, f, m, text := TrimmedText(r, 20);
    var read := TrimmedReads(w, Padded(f, 20)[..m]);
    MoreDecimals(read, m, 20);
    NegatedDecimals(read, 20);
    NaturalScaleIsLeast(r, 20);
    SignedOfText(r, text);
    assert Format(n) == Sign(r) + text;
    if r.num >= 0 {
      assert Format(n) == text;
    }
  }

  lemma HasMDecimals(k: int, m: nat)
    ensures HasDecimals(Make(k, Pow(10, m)), m)
  {
    DividesByWitness(Pow(10, m), k * Pow(10, m), k);
    HasDecimalsOfMake(k, Pow(10, m), m);
  }

  lemma NegatedDecimals(r: Rat, s: nat)
    requires HasDecimals(r, s)
    ensures HasDecimals(Negated(r), s)
  {
    DividesProduct(r.den, r.num * Pow(10, s), -1);
    assert Negated(r).num * Pow(10, s) == (r.num * Pow(10, s)) * -1;
  }

  lemma PaddedLast(f: nat, k: nat)
    requires k > 0
    ensures Padded(f, k)[k - 1] == DigitChar(f % 10)
  {
  }

  /** With as many decimals as the value needs, the last one is not zero. */
  lemma LastDecimalNeeded(r: Rat, s: nat)
    requires NaturalScale(r) == s && s > 0
    ensures Rounded(r, s) % 10 != 0
  {
    NaturalScaleIsLeast(r, s);
    RoundedWhole(r, s);
    if Rounded(r, s) % 10 == 0 {
      var k := Rounded(r, s) / 10;
      Tenth(k, r.den, Abs(r.num), Pow(10, s - 1));
      RoundedIs(r, s - 1, k);
      assert Divides(r.den, Abs(r.num) * Pow(10, s - 1));
      Gauss(r.den, Abs(r.num), Pow(10, s - 1));
      HasDecimalsOfDenominator(r, s - 1);
      NaturalScaleIsLeast(r, s - 1);
    }
  }

  lemma Tenth(k: int, d: int, n: int, p: int)
    requires (k * 10) * d == n * (10 * p)
    ensures n * p == d * k
  {
  }

  /** Twenty decimals of a value that needs s of them: those s, then zeros. */
  lemma WidenRounded(r: Rat, s: nat, prec: nat)
    requires HasDecimals(r, s) && s <= prec
    ensures Rounded(r, prec) == Rounded(r, s) * Pow(10, prec - s)
  {
    RoundedWhole(r, s);
    PowSum(10, s, prec - s);
    Widen(Rounded(r, s), r.den, Abs(r.num), Pow(10, s), Pow(10, prec - s));
    RoundedIs(r, prec, Rounded(r, s) * Pow(10, prec - s));
  }

  lemma Widen(k: int, d: int, n: int, p: int, q: int)
    requires k * d == n * p
    ensures n * (p * q) == d * (k * q)
  {
    calc { n * (p * q); (n * p) * q; (k * d) * q; d * (k * q); }
  }

  /** Trimming decimals leaves exactly the ones the value needs. */
  lemma TrimmedIsExact(r: Rat, s: nat, prec: nat)
    requires NaturalScale(r) == s && 0 < s <= prec
    ensures TrimPoint(TrimZeros(FloatString(r, prec))) == FloatString(r, s)
  {
    NaturalScaleIsLeast(r, s);
    var w, f, m, text := TrimmedText(r, prec);
    var v, g := FloatStringSplit(r, s);
    WidenRounded(r, s, prec);
    SameSplit(r, s, prec, w, f, v, g);
    LastDecimalNeeded(r, s);
    LastDigitOfSum(v, g, s);
    TrimmedFraction(f, prec, g, s, m);
  }

  lemma TrimmedFraction(f: nat, prec: nat, g: nat, s: nat, m: nat)
    requires 0 < s <= prec && f == g * Pow(10, prec - s) && g % 10 != 0
    requires m <= prec && (forall i :: m <= i < prec ==> Padded(f, prec)[i] == '0') && (m > 0 ==> Padded(f, prec)[m - 1] != '0')
    ensures m == s && Padded(f, prec)[..m] == Padded(g, s)
  {
    PaddedZeros(g, s, prec - s);
    PaddedLast(g, s);
    var wide := Padded(f, prec);
    assert wide[s - 1] == Padded(g, s)[s - 1] != '0';
    assert forall i :: s <= i < prec ==> wide[i] == '0';
    assert wide[..s] == Padded(g, s);
  }

  lemma LastDigitOfSum(v: nat, g: nat, s: nat)
    requires s > 0
    ensures (v * Pow(10, s) + g) % 10 == g % 10
  {
    TenTimes(v, Pow(10, s - 1), g);
  }

  lemma TenTimes(v: nat, p: nat, g: nat)
    ensures (v * (10 * p) + g) % 10 == g % 10
  {
    assert v * (10 * p) == 10 * (v * p);
    MultipleOfTen(v * p, g);
  }

  lemma MultipleOfTen(x: nat, g: nat)
    ensures (10 * x + g) % 10 == g % 10
  {
  }

  lemma SameSplit(r: Rat, s: nat, prec: nat, w: nat, f: nat, v: nat, g: nat)
    requires s <= prec && Rounded(r, prec) == Rounded(r, s) * Pow(10, prec - s)
    requires f < Pow(10, prec) && Rounded(r, prec) == w * Pow(10, prec) + f
    requires g < Pow(10, s) && Rounded(r, s) == v * Pow(10, s) + g
    ensures w == v && f == g * Pow(10, prec - s)
  {
    PowSum(10, s, prec - s);
    SplitAcross(Rounded(r, s), Pow(10, s), Pow(10, prec - s), w, f, v, g);
  }

  lemma SplitAcross(n: nat, p: nat, q: nat, w: nat, f: nat, v: nat, g: nat)
    requires p > 0 && q > 0
    requires f < p * q && n * q == w * (p * q) + f
    requires g < p && n == v * p + g
    ensures w == v && f == g * q
  {
    Distribute(v, p, g, q);
    UniqueSplit(w, f, v, g * q, p * q);
  }

  lemma Distribute(v: nat, p: nat, g: nat, q: nat)
    requires g < p && q > 0
    ensures (v * p + g) * q == v * (p * q) + g * q && g * q < p * q
  {
    ProductPositive(p - g, q);
    calc { (v * p + g) * q; (v * p) * q + g * q; v * (p * q) + g * q; }
    assert (p - g) * q == p * q - g * q;
  }

  lemma UniqueSplit(w: nat, f: nat, v: nat, g: nat, p: nat)
    requires f < p && g < p && w * p + f == v * p + g
    ensures w == v && f == g
  {
    if f >= g {
      DivisionUnique(p, v, w, f - g);
    } else {
      DivisionUnique(p, w, v, g - f);
    }
  }

  /** The text of a number that is written in full spells its value. */
  lemma FormatSpells(n: Num) returns (text: string)
    requires WrittenInFull(n)
    ensures Format(n) == Sign(n.value) + text && text != [] && IsDigit(text[0])
    ensures Unsigned(text) == Some(Magnitude(n.value)) && LiteralScale(text) == ScaleOf(n)
  {
    var r, s := n.value, ScaleOf(n);
    ScaleSuffices(n);
    if s == 0 {
      WholeDenominator(r);
      text := Digits(Abs(r.num));
      UnsignedOfDigits(Abs(r.num));
      PointAfterDigits(text, []);
    } else {
      if n.recorded.None? {
        TrimmedIsExact(r, s, 20);
      }
      var w, f := FloatStringSplit(r, s);
      text := Digits(w) + "." + Padded(f, s);
      PointedReads(w, f, s);
      RoundedExact(r, s);
      PointAfterDigits(Digits(w), Padded(f, s));
    }
    assert forall c :: c in text ==> IsDigit(c) || c == '.';
  }

  /** Digits, and maybe a point and more digits: what the lexer takes for one number. */
  predicate Numeral(s: string) {
    var i := PointIndex(s);
    i > 0 && AllDigits(s[..i]) && (i == |s| || (i + 1 < |s| && AllDigits(s[i + 1..])))
  }

  lemma FormatIsNumeral(n: Num)
    requires n.value.num >= 0 && WrittenInFull(n)
    ensures Numeral(Format(n))
  {
    hide Digits, Padded, Pow, Rounded, FloatString;
    var r, s := n.value, ScaleOf(n);
    ScaleSuffices(n);
    if s == 0 {
      WholeDenominator(r);
      var text := Digits(Abs(r.num));
      PointAfterDigits(text, []);
      assert Format(n) == text && text[..|text|] == text;
    } else {
      if n.recorded.None? {
        TrimmedIsExact(r, s, 20);
      }
      var w, f := FloatStringSplit(r, s);
      PointAfterDigits(Digits(w), Padded(f, s));
      var text := Digits(w) + "." + Padded(f, s);
      assert Sign(r) + text == text;
      assert Format(n) == text;
      assert text[..|Digits(w)|] == Digits(w) && text[|Digits(w)| + 1..] == Padded(f, s);
    }
  }

  lemma WholeDenominator(r: Rat)
    requires HasDecimals(r, 0)
    ensures r.den == 1
  {
    HasDecimalsOfDenominator(r, 0);
    DivisorOfOne(r.den);
  }

  /** Reading a written number as a literal gives back the same value and the same scale, exactly
      when the number is written in full. */
  lemma LiteralRoundTrip(n: Num)
    requires n.value.num >= 0
    ensures ReadLiteral(Format(n)) == Some(n) <==> WrittenInFull(n)
  {
    if WrittenInFull(n) {
      var text := FormatSpells(n);
      assert Format(n) == text;
      NaturalScaleIsLeast(n.value, ScaleOf(n));
      assert WithScale(n.value, ScaleOf(n)) == n;
    } else {
      TrimmedLosesDecimals(n);
    }
  }

  lemma NumberReadsBack(n: Num)
    requires WrittenInFull(n)
    ensures Signed(Format(n)) == Some(n.value)
  {
    hide Unsigned, Format, Signed;
    var text := FormatSpells(n);
    SignedOfText(n.value, text);
  }

  /** number(string(x)) is x in value, for either sign, exactly when x is written in full. */
  lemma NumberRoundTrip(n: Num)
    ensures Signed(Format(n)) == Some(n.value) <==> WrittenInFull(n)
  {
    if WrittenInFull(n) {
      NumberReadsBack(n);
    } else {
      TrimmedLosesDecimals(n);
    }
  }
}
