/** Decimal digits: writing naturals, reading them back. */
module DecimalText {

  import opened Rationals

  predicate IsDigit(c: char) {
    '0' <= c <= '9'
  }

  predicate AllDigits(s: string) {
    forall i :: 0 <= i < |s| ==> IsDigit(s[i])
  }

  function DigitChar(d: nat): (c: char)
    requires d < 10
    ensures IsDigit(c) && DigitValue(c) == d
  {
    '0' + d as char
  }

  function DigitValue(c: char): (d: nat)
    requires IsDigit(c)
    ensures d < 10
  {
    (c - '0') as nat
  }

  /** The number a string of digits spells, 0 for the empty one. */
  function Spelled(s: string): nat
    requires AllDigits(s)
    decreases |s|
  {
    if s == [] then 0 else Spelled(s[..|s| - 1]) * 10 + DigitValue(s[|s| - 1])
  }

  /** A number without leading zeros. */
  function Digits(n: nat): (s: string)
    ensures s != [] && AllDigits(s)
  {
    if n < 10 then [DigitChar(n)] else Digits(n / 10) + [DigitChar(n % 10)]
  }

  /** The last k digits of a number. */
  function Padded(n: nat, k: nat): (s: string)
    ensures |s| == k && AllDigits(s)
    decreases k
  {
    if k == 0 then [] else Padded(n / 10, k - 1) + [DigitChar(n % 10)]
  }

  lemma {:induction false} DigitsSpell(n: nat)
    ensures Spelled(Digits(n)) == n
  {
    var s := Digits(n);
    if n < 10 {
      assert s[..0] == [];
    } else {
      DigitsSpell(n / 10);
      assert s[..|s| - 1] == Digits(n / 10);
    }
  }

  lemma {:induction false} PaddedSpells(n: nat, k: nat)
    requires n < Pow(10, k)
    ensures Spelled(Padded(n, k)) == n
    decreases k
  {
    if k > 0 {
      PaddedSpells(n / 10, k - 1);
      assert Padded(n, k)[..k - 1] == Padded(n / 10, k - 1);
    }
  }

  lemma {:induction false} SpelledOfConcat(s: string, t: string)
    requires AllDigits(s) && AllDigits(t)
    ensures AllDigits(s + t) && Spelled(s + t) == Spelled(s) * Pow(10, |t|) + Spelled(t)
    decreases |t|
  {
    if t == [] {
      assert s + t == s;
    } else {
      var u := t[..|t| - 1];
      SpelledOfConcat(s, u);
      assert (s + t)[..|s + t| - 1] == s + u;
      assert (s + t)[|s + t| - 1] == t[|t| - 1];
      Shift(Spelled(s), Pow(10, |u|), Spelled(u), DigitValue(t[|t| - 1]));
    }
  }

  lemma Shift(a: nat, p: nat, b: nat, d: nat)
    ensures (a * p + b) * 10 + d == a * (10 * p) + (b * 10 + d)
  {
  }

  /** Widening by a factor of ten adds zeros on the right. */
  lemma {:induction false} PaddedZeros(n: nat, k: nat, z: nat)
    ensures Padded(n * Pow(10, z), k + z) == Padded(n, k) + seq(z, _ => '0')
    decreases z
  {
    if z == 0 {
      assert n * Pow(10, 0) == n;
      assert Padded(n, k) + seq(0, _ => '0') == Padded(n, k);
    } else {
      var wider := n * Pow(10, z);
      assert wider == (n * Pow(10, z - 1)) * 10;
      PaddedZeros(n, k, z - 1);
      assert seq(z, _ => '0') == seq(z - 1, _ => '0') + ['0'];
    }
  }
}
