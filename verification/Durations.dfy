/** Durations as ISO 8601 text, written and read back. */
module Durations {

  import opened Wrappers
  import opened Rationals
  import opened DecimalText
  import opened FeelSyntax
  import opened FeelValues
  import opened Floats

  const SECOND: int := 1_000_000_000
  const MINUTE: int := 60 * SECOND
  const HOUR: int := 60 * MINUTE
  const DAY: int := 24 * HOUR

  /** The fraction arithmetic of binary floats, and what a conversion out of range gives, taken as they
      are: what a numeral with a point adds in a unit, the text of seconds that are not whole, and the
      64-bit integer an oversized float becomes. */
  datatype Float = Float(fraction: (string, Unit) -> Option<int>, seconds: int -> string, beyond: int)

  datatype Unit = Years | Months | Weeks | Days | Hours | Minutes | Seconds

  function DateUnit(c: char): Option<Unit> {
    if c == 'Y' then Some(Years) else if c == 'M' then Some(Months) else if c == 'W' then Some(Weeks)
    else if c == 'D' then Some(Days) else None
  }

  function TimeUnit(c: char): Option<Unit> {
    if c == 'H' then Some(Hours) else if c == 'M' then Some(Minutes) else if c == 'S' then Some(Seconds) else None
  }

  /** A float as a 64-bit integer. */
  function ToInt(float: Float, f: nat): int {
    if f < TWO63 then f else float.beyond
  }

  /** What a whole number of a unit adds: months, or nanoseconds through float multiplications. */
  function Amount(float: Float, n: nat, unit: Unit): int {
    var f := RoundF(n);
    match unit
    case Years => Wrap64(ToInt(float, f) * 12)
    case Months => ToInt(float, f)
    case Weeks => ToInt(float, RoundF(RoundF(RoundF(f * 7) * 24) * HOUR))
    case Days => ToInt(float, RoundF(RoundF(f * 24) * HOUR))
    case Hours => ToInt(float, RoundF(f * HOUR))
    case Minutes => ToInt(float, RoundF(f * MINUTE))
    case Seconds => ToInt(float, RoundF(f * SECOND))
  }

  predicate NumeralChar(c: char) { IsDigit(c) || c == '.' }

  /** The largest floats end below this power of two; a numeral that rounds beyond is an error. */
  function Measure(float: Float, numeral: string, unit: Unit): Option<int> {
    if numeral == "" then None
    else if AllDigits(numeral) then
      (if RoundF(Spelled(numeral)) >= Pow(2, 1024) then None else Some(Amount(float, Spelled(numeral), unit)))
    else float.fraction(numeral, unit)
  }

  /** What has been read so far. */
  datatype Sum = Sum(months: int, nanos: int, ym: bool, dt: bool) {
    function Plus(unit: Unit, amount: int): Sum {
      if unit.Years? || unit.Months? then this.(months := Wrap64(months + amount), ym := true)
      else this.(nanos := Wrap64(nanos + amount), dt := true)
    }
  }

  /** Reading a part: numerals, each followed by a unit. */
  function Read(float: Float, part: string, time: bool, numeral: string, sum: Sum): Option<Sum>
    decreases |part|
  {
    if part == "" then (if numeral == "" then Some(sum) else None)
    else if NumeralChar(part[0]) then Read(float, part[1..], time, numeral + [part[0]], sum)
    else
      var unit := if time then TimeUnit(part[0]) else DateUnit(part[0]);
      if numeral == "" || unit.None? || Measure(float, numeral, unit.value).None? then None
      else Read(float, part[1..], time, "", sum.Plus(unit.value, Measure(float, numeral, unit.value).value))
  }

  /** The loop that does it. */
  method ReadPart(float: Float, part: string, time: bool, start: Sum) returns (r: Option<Sum>)
    ensures r == Read(float, part, time, "", start)
  {
    var num, sum := "", start;
    for i := 0 to |part|
      invariant Read(float, part, time, "", start) == Read(float, part[i..], time, num, sum)
    {
      var c := part[i];
      assert part[i..][1..] == part[i + 1..];
      if NumeralChar(c) {
        num := num + [c];
        continue;
      }
      var unit := if time then TimeUnit(c) else DateUnit(c);
      if num == "" || unit.None? {
        return None;
      }
      var amount := Measure(float, num, unit.value);
      if amount.None? {
        return None;
      }
      sum, num := sum.Plus(unit.value, amount.value), "";
    }
    return if num == "" then Some(sum) else None;
  }

  /** Where the first T is; the length if there is none. */
  function Cut(s: string): (i: nat)
    ensures i <= |s| && (i < |s| ==> s[i] == 'T') && forall k :: 0 <= k < i ==> s[k] != 'T'
  {
    if s == "" || s[0] == 'T' then 0 else 1 + Cut(s[1..])
  }

  function Parse(float: Float, text: string): Option<Value> {
    var neg := text != "" && text[0] == '-';
    var s := if neg then text[1..] else text;
    if |s| < 2 || s[0] != 'P' then None else
    var t := Cut(s[1..]);
    var date := Read(float, s[1..][..t], false, "", Sum(0, 0, false, false));
    if date.None? then None else
    var all := if t == |s| - 1 then date else Read(float, s[1..][t + 1..], true, "", date.value);
    if all.None? then None else Finish(neg, all.value)
  }

  function Finish(neg: bool, sum: Sum): Option<Value> {
    if sum.ym && sum.dt then None
    else if sum.ym then Some(YearMonth(if neg then Wrap64(-sum.months) else sum.months))
    else if sum.dt then Some(DayTime(if neg then Wrap64(-sum.nanos) else sum.nanos))
    else None
  }

  // ----- writing -----

  /** A number with its unit, if there is any of it. */
  function Piece(n: int, unit: char): string {
    if n > 0 then Digits(n) + [unit] else ""
  }

  /** Division that drops the fraction, for either sign. */
  function Quotient(a: int, b: int): int
    requires b > 0
  {
    if a >= 0 then a / b else -(-a / b)
  }

  function FormatDayTime(float: Float, nanos: int): string {
    if nanos == 0 then "PT0S" else
    var sign, d := if nanos < 0 then "-" else "", if nanos < 0 then Wrap64(-nanos) else nanos;
    var days := Quotient(d, DAY);
    var h := Quotient(d - days * DAY, HOUR);
    var m := Quotient(d - days * DAY - h * HOUR, MINUTE);
    sign + "P" + Piece(days, 'D') + TimeText(float, h, m, d - days * DAY - h * HOUR - m * MINUTE)
  }

  function TimeText(float: Float, h: int, m: int, rest: int): string {
    if h > 0 || m > 0 || rest > 0 then "T" + (Piece(h, 'H') + (Piece(m, 'M') + SecondsText(float, rest))) else ""
  }

  function SecondsText(float: Float, rest: int): string {
    if rest <= 0 then "" else if rest % SECOND == 0 then Digits(rest / SECOND) + ['S'] else float.seconds(rest) + ['S']
  }

  function FormatYearMonth(months: int): string {
    var sign, n := if months < 0 then "-" else "", if months < 0 then Wrap64(-months) else months;
    var y := Quotient(n, 12);
    var m := n - y * 12;
    if y > 0 then sign + "P" + (Piece(y, 'Y') + Piece(m, 'M'))
    else sign + "P" + Signed(m) + "M"
  }

  /** A month count in -11 to 11. */
  function Signed(m: int): string {
    if m < 0 then "-" + Digits(-m) else Digits(m)
  }

  // ----- reading back what was written -----

  lemma {:induction false} ReadNumeral(float: Float, digits: string, rest: string, time: bool, numeral: string, sum: Sum)
    requires AllDigits(digits)
    ensures Read(float, digits + rest, time, numeral, sum) == Read(float, rest, time, numeral + digits, sum)
    decreases |digits|
  {
    if digits == "" {
      assert digits + rest == rest && numeral + digits == numeral;
    } else {
      assert (digits + rest)[1..] == digits[1..] + rest;
      assert (numeral + [digits[0]]) + digits[1..] == numeral + digits;
      ReadNumeral(float, digits[1..], rest, time, numeral + [digits[0]], sum);
    }
  }

  /** A whole number, small enough for a float to hold, and its unit. */
  lemma ReadNumber(float: Float, n: nat, c: char, rest: string, time: bool, sum: Sum)
    requires !NumeralChar(c) && RoundF(n) < Pow(2, 1024) && (if time then TimeUnit(c) else DateUnit(c)).Some?
    ensures var unit := (if time then TimeUnit(c) else DateUnit(c)).value;
            Read(float, Digits(n) + ([c] + rest), time, "", sum) == Read(float, rest, time, "", sum.Plus(unit, Amount(float, n, unit)))
  {
    hide Digits, Amount, RoundF, Pow, Spelled;
    ReadNumeral(float, Digits(n), [c] + rest, time, "", sum);
    DigitsSpell(n);
    assert "" + Digits(n) == Digits(n);
    assert ([c] + rest)[1..] == rest;
  }

  lemma SmallEnough(n: nat)
    requires n < TWO63
    ensures RoundF(n) < Pow(2, 1024)
  {
    hide Pow, RoundF;
    RoundedBelow(n);
    PowGrows(64, 1024);
    Pow64();
  }

  lemma Pow64()
    ensures Pow(2, 64) == 2 * TWO63
  {
    assert Pow(2, 8) == 256;
    PowSum(2, 8, 8);
    PowSum(2, 16, 16);
    PowSum(2, 32, 32);
  }

  lemma {:induction false} PowGrows(a: nat, b: nat)
    requires a <= b
    ensures Pow(2, a) <= Pow(2, b)
    decreases b - a
  {
    if a < b {
      PowGrows(a, b - 1);
    }
  }

  /** Rounding at most doubles. */
  lemma RoundedBelow(n: nat)
    ensures RoundF(n) <= 2 * n
  {
    var p := Pow(2, ExtraBits(n));
    ExtraBelow(n);
    if n < TWO53 {
      RoundKeepsExactly(n);
    }
  }

  lemma {:induction false} ExtraBelow(n: nat)
    ensures n >= TWO53 ==> Pow(2, ExtraBits(n)) <= n
  {
    if n >= TWO53 {
      ExtraBelow(n / 2);
      if n / 2 < TWO53 {
        assert ExtraBits(n / 2) == 0 && Pow(2, 0) == 1;
        assert Pow(2, ExtraBits(n)) == 2 * Pow(2, ExtraBits(n / 2));
      }
    }
  }

  // ----- days and time -----

  /** Unit lengths in nanoseconds. */
  function Length(unit: Unit): int {
    match unit
    case Days => DAY
    case Hours => HOUR
    case Minutes => MINUTE
    case Seconds => SECOND
    case _ => 0
  }

  function OddPart(unit: Unit): nat {
    match unit
    case Days => 1318359375
    case Hours => 439453125
    case Minutes => 29296875
    case Seconds => 1953125
    case _ => 0
  }

  function TwoPart(unit: Unit): nat {
    match unit
    case Days => 16
    case Hours => 13
    case Minutes => 11
    case Seconds => 9
    case _ => 0
  }

  lemma LengthParts(unit: Unit)
    requires unit.Days? || unit.Hours? || unit.Minutes? || unit.Seconds?
    ensures Length(unit) == OddPart(unit) * Pow(2, TwoPart(unit))
  {
    assert Pow(2, 9) == 512 && Pow(2, 11) == 2048;
    assert Pow(2, 13) == 8192;
    assert Pow(2, 16) == 65536;
  }

  /** Within a 64-bit duration the float products are exact. */
  lemma AmountIsExact(float: Float, n: nat, unit: Unit)
    requires (unit.Days? && n <= 106751) || ((unit.Hours? || unit.Minutes? || unit.Seconds?) && n < 60)
    ensures Amount(float, n, unit) == n * Length(unit) < TWO63 && RoundF(n) == n
  {
    RoundKeepsExactly(n);
    RoundKeepsExactly(n * 24);
    var x := n * Length(unit);
    LengthParts(unit);
    assert x == (n * OddPart(unit)) * Pow(2, TwoPart(unit));
    SmallTimesPower(n * OddPart(unit), TwoPart(unit));
    RoundKeepsExactly(x);
    if unit.Days? {
      assert (n * 24) * HOUR == x;
    }
  }

  /** A piece, if written, adds its length. */
  lemma ReadPiece(float: Float, n: int, c: char, unit: Unit, rest: string, time: bool, sum: Sum)
    requires 0 <= n && !NumeralChar(c) && (if time then TimeUnit(c) else DateUnit(c)) == Some(unit)
    requires (unit.Days? && n <= 106751) || ((unit.Hours? || unit.Minutes? || unit.Seconds?) && n < 60)
    requires 0 <= sum.nanos && sum.nanos + n * Length(unit) < TWO63
    ensures Read(float, Piece(n, c) + rest, time, "", sum) == Read(float, rest, time, "", Plus(sum, n, Length(unit)))
  {
    hide Read, Amount, RoundF, Pow;
    if n > 0 {
      AmountIsExact(float, n, unit);
      SmallEnough(n);
      ReadNumber(float, n, c, rest, time, sum);
      assert Piece(n, c) + rest == Digits(n) + ([c] + rest);
    } else {
      assert Piece(n, c) + rest == rest;
    }
  }

  lemma CutAfter(a: string, b: string)
    requires forall k :: 0 <= k < |a| ==> a[k] != 'T'
    ensures Cut(a + "T" + b) == |a|
  {
    var s := a + "T" + b;
    assert s[|a|] == 'T' && forall k :: 0 <= k < |a| ==> s[k] == a[k];
  }

  /** What follows the P: a date part without a T, and maybe a T and a time part. */
  function ReadBody(float: Float, body: string): Option<Sum> {
    var t := Cut(body);
    var date := Read(float, body[..t], false, "", Sum(0, 0, false, false));
    if date.None? || t == |body| then date else Read(float, body[t + 1..], true, "", date.value)
  }

  lemma ParseBody(float: Float, neg: bool, body: string)
    requires body != ""
    ensures var all := ReadBody(float, body);
            Parse(float, (if neg then "-" else "") + "P" + body) == if all.None? then None else Finish(neg, all.value)
  {
    hide Read, Cut;
    var text := (if neg then "-" else "") + "P" + body;
    var s := if neg then text[1..] else text;
    assert s == "P" + body;
    assert s[1..] == body;
  }

  lemma ParseParts(float: Float, neg: bool, date: string, time: string)
    requires (forall k :: 0 <= k < |date| ==> date[k] != 'T') && date + time != "" && (time != "" ==> time[0] == 'T')
    ensures var d := Read(float, date, false, "", Sum(0, 0, false, false));
            var all := if d.None? || time == "" then d else Read(float, time[1..], true, "", d.value);
            Parse(float, (if neg then "-" else "") + "P" + date + time) == if all.None? then None else Finish(neg, all.value)
  {
    hide Read, Parse;
    var body := date + time;
    ParseBody(float, neg, body);
    assert (if neg then "-" else "") + "P" + date + time == (if neg then "-" else "") + "P" + body;
    if time == "" {
      assert body == date && body[..|body|] == body;
      assert Cut(body) == |body|;
    } else {
      assert body == date + "T" + time[1..];
      CutAfter(date, time[1..]);
      assert body[..|date|] == date && body[|date| + 1..] == time[1..];
    }
  }

  lemma DigitsHaveNoT(n: int, c: char)
    requires c != 'T'
    ensures forall k :: 0 <= k < |Piece(n, c)| ==> Piece(n, c)[k] != 'T'
  {
    if n > 0 {
      assert AllDigits(Digits(n));
    }
  }

  /** A part of the time, whether written or not. */
  function Plus(sum: Sum, n: int, length: int): Sum {
    if n > 0 then sum.(nanos := sum.nanos + n * length, dt := true) else sum
  }

  lemma ReadTime(float: Float, h: int, m: int, s: int, sum: Sum)
    requires 0 <= h < 24 && 0 <= m < 60 && 0 <= s < 60
    requires 0 <= sum.nanos && sum.nanos + h * HOUR + m * MINUTE + s * SECOND < TWO63
    ensures Read(float, Piece(h, 'H') + (Piece(m, 'M') + Piece(s, 'S')), true, "", sum) == Some(Plus(Plus(Plus(sum, h, HOUR), m, MINUTE), s, SECOND))
  {
    hide Read, Piece;
    ReadPiece(float, h, 'H', Hours, Piece(m, 'M') + Piece(s, 'S'), true, sum);
    ReadPiece(float, m, 'M', Minutes, Piece(s, 'S'), true, Plus(sum, h, HOUR));
    ReadPiece(float, s, 'S', Seconds, "", true, Plus(Plus(sum, h, HOUR), m, MINUTE));
    assert Piece(s, 'S') + "" == Piece(s, 'S');
    ReadNothing(float, true, Plus(Plus(Plus(sum, h, HOUR), m, MINUTE), s, SECOND));
  }

  lemma ReadNothing(float: Float, time: bool, sum: Sum)
    ensures Read(float, "", time, "", sum) == Some(sum)
  {
  }

  lemma TimeTextOf(float: Float, h: int, m: int, s: int)
    requires 0 <= h && 0 <= m && 0 <= s
    ensures var text := Piece(h, 'H') + (Piece(m, 'M') + Piece(s, 'S'));
            TimeText(float, h, m, s * SECOND) == if h > 0 || m > 0 || s > 0 then "T" + text else ""
    ensures h > 0 || m > 0 || s > 0 ==> TimeText(float, h, m, s * SECOND)[0] == 'T'
  {
    hide Piece;
    assert SecondsText(float, s * SECOND) == Piece(s, 'S') by { SecondsTextOf(float, s); }
  }

  lemma SecondsTextOf(float: Float, s: int)
    requires 0 <= s
    ensures SecondsText(float, s * SECOND) == Piece(s, 'S')
  {
    Multiple(s * SECOND, SECOND, s);
  }

  /** The written parts, read back and added up. */
  lemma PartsReadBack(float: Float, neg: bool, days: int, h: int, m: int, s: int)
    requires 0 <= days <= 106751 && 0 <= h < 24 && 0 <= m < 60 && 0 <= s < 60 && (days > 0 || h > 0 || m > 0 || s > 0)
    requires days * DAY + h * HOUR + m * MINUTE + s * SECOND < TWO63
    ensures Parse(float, (if neg then "-" else "") + "P" + Piece(days, 'D') + TimeText(float, h, m, s * SECOND)) ==
              Finish(neg, Sum(0, days * DAY + h * HOUR + m * MINUTE + s * SECOND, false, true))
  {
    hide Read, Piece, TimeText, Parse, Pow;
    var zero := Sum(0, 0, false, false);
    DigitsHaveNoT(days, 'D');
    ReadPiece(float, days, 'D', Days, "", false, zero);
    assert Piece(days, 'D') + "" == Piece(days, 'D');
    var sum := Plus(zero, days, DAY);
    ReadNothing(float, false, sum);
    TimeTextOf(float, h, m, s);
    ReadTime(float, h, m, s, sum);
    assert ("T" + (Piece(h, 'H') + (Piece(m, 'M') + Piece(s, 'S'))))[1..] == Piece(h, 'H') + (Piece(m, 'M') + Piece(s, 'S'));
    NotEmpty(days, 'D');
    ParseParts(float, neg, Piece(days, 'D'), TimeText(float, h, m, s * SECOND));
  }

  /** Every days-and-time duration of whole seconds, negative and zero included, reads back as itself. */
  lemma DayTimeRoundTrip(float: Float, nanos: int)
    requires -TWO63 <= nanos < TWO63 && nanos % SECOND == 0
    ensures Parse(float, FormatDayTime(float, nanos)) == Some(DayTime(nanos))
  {
    hide Read, Piece, TimeText, Parse, Pow;
    if nanos == 0 {
      ParseZero(float);
    } else {
      var days, h, m, s := Split(if nanos < 0 then -nanos else nanos);
      PartsReadBack(float, nanos < 0, days, h, m, s);
    }
  }

  lemma NotEmpty(n: int, c: char)
    ensures Piece(n, c) == "" <==> n <= 0
  {
  }

  lemma ParseZero(float: Float)
    ensures Parse(float, "PT0S") == Some(DayTime(0))
  {
    var zero := Sum(0, 0, false, false);
    ParseParts(float, false, "", "T0S");
    AmountIsExact(float, 0, Seconds);
    SmallEnough(0);
    ReadNumber(float, 0, 'S', "", true, zero);
    assert Digits(0) + (['S'] + "") == "0S" == "T0S"[1..];
    assert "" + "P" + "" + "T0S" == "PT0S";
  }

  lemma Clock(k: int)
    requires 0 <= k
    ensures k == k / 86400 * 86400 + k % 86400 / 3600 * 3600 + k % 3600 / 60 * 60 + k % 60
  {
    var a, r := k / 86400, k % 86400;
    var b, q := r / 3600, r % 3600;
    DivisionIsUnique(k, 3600, a * 24 + b, q);
    DivisionIsUnique(k, 60, (a * 24 + b) * 60 + q / 60, q % 60);
  }

  /** The parts a whole number of seconds is written in. */
  lemma Split(d: int) returns (days: int, h: int, m: int, s: int)
    requires 0 < d <= TWO63 && d % SECOND == 0
    ensures d < TWO63 && 0 <= days <= 106751 && 0 <= h < 24 && 0 <= m < 60 && 0 <= s < 60
    ensures d == days * DAY + h * HOUR + m * MINUTE + s * SECOND && (days > 0 || h > 0 || m > 0 || s > 0)
    ensures days == Quotient(d, DAY) && h == Quotient(d - days * DAY, HOUR) && m == Quotient(d - days * DAY - h * HOUR, MINUTE)
    ensures s * SECOND == d - days * DAY - h * HOUR - m * MINUTE
  {
    var k := d / SECOND;
    days, h, m, s := k / 86400, k % 86400 / 3600, k % 3600 / 60, k % 60;
    Clock(k);
    assert d == days * DAY + h * HOUR + m * MINUTE + s * SECOND;
    DivisionIsUnique(d, DAY, days, h * HOUR + m * MINUTE + s * SECOND);
    DivisionIsUnique(h * HOUR + m * MINUTE + s * SECOND, HOUR, h, m * MINUTE + s * SECOND);
    DivisionIsUnique(m * MINUTE + s * SECOND, MINUTE, m, s * SECOND);
  }

  // ----- years and months -----

  lemma ReadYears(float: Float, y: nat, m: nat, sum: Sum)
    requires 0 < y && y * 12 + m < TWO63 && m < 12 && sum == Sum(0, 0, false, false)
    ensures var r := Read(float, Piece(y, 'Y') + Piece(m, 'M'), false, "", sum);
            r == Some(Sum(Wrap64(Wrap64(ToInt(float, RoundF(y)) * 12) + m), 0, true, false))
  {
    hide Read, RoundF, Pow;
    SmallEnough(y);
    SmallEnough(m);
    RoundKeepsExactly(m);
    ReadNothing(float, false, sum.Plus(Years, Amount(float, y, Years)));
    ReadNumber(float, y, 'Y', Piece(m, 'M'), false, sum);
    assert Piece(y, 'Y') + Piece(m, 'M') == Digits(y) + (['Y'] + Piece(m, 'M'));
    var years := sum.Plus(Years, Amount(float, y, Years));
    if m > 0 {
      ReadNumber(float, m, 'M', "", false, years);
      ReadNothing(float, false, years.Plus(Months, Amount(float, m, Months)));
      assert Piece(m, 'M') == Digits(m) + (['M'] + "");
    }
  }

  lemma ReadMonths(float: Float, m: nat)
    requires m < 12
    ensures Read(float, Digits(m) + "M", false, "", Sum(0, 0, false, false)) == Some(Sum(m, 0, true, false))
  {
    SmallEnough(m);
    RoundKeepsExactly(m);
    ReadNumber(float, m, 'M', "", false, Sum(0, 0, false, false));
    assert Digits(m) + (['M'] + "") == Digits(m) + "M";
  }

  /** A rounded number of years never makes up for the rounding. */
  lemma RoundedYears(float: Float, y: nat, m: nat)
    requires y * 12 + m < TWO63 && m < 12
    ensures Wrap64(Wrap64(ToInt(float, RoundF(y)) * 12) + m) == y * 12 + m <==> RoundF(y) == y
  {
    RoundedBelow(y);
    assert RoundF(y) * 12 <= 2 * (y * 12);
  }

  /** Where the format's own sign fails: the least duration is its own negation. */
  lemma LeastDurationIsLost(float: Float)
    ensures FormatYearMonth(-TWO63) == "-P-8M" && Parse(float, FormatYearMonth(-TWO63)) == None
  {
    assert Wrap64(TWO63) == -TWO63;
    assert Quotient(-TWO63, 12) == -768614336404564650;
    assert Digits(8) == "8";
    assert "-" + "P" + ("-" + "8") + "M" == "-P-8M" == "-" + "P" + "-8M" + "";
    ParseParts(float, true, "-8M", "");
  }

  /** The duration of n months, written with a sign and read back. */
  lemma MonthsReadBack(float: Float, neg: bool, n: int)
    requires 0 <= n < TWO63
    ensures var y, m := n / 12, n % 12;
            var date := if y > 0 then Piece(y, 'Y') + Piece(m, 'M') else Digits(m) + "M";
            Parse(float, (if neg then "-" else "") + "P" + date) == Some(YearMonth(if neg then -n else n)) <==> Representable(y)
  {
    hide Read, RoundF, Pow, Parse, Piece, Digits, AllDigits;
    var y, m := n / 12, n % 12;
    var date := if y > 0 then Piece(y, 'Y') + Piece(m, 'M') else Digits(m) + "M";
    DateHasNoT(y, m);
    ParseParts(float, neg, date, "");
    assert (if neg then "-" else "") + "P" + date + "" == (if neg then "-" else "") + "P" + date;
    if y > 0 {
      ReadYears(float, y, m, Sum(0, 0, false, false));
      RoundedYears(float, y, m);
      RoundKeepsExactly(y);
    } else {
      ReadMonths(float, m);
    }
  }

  lemma DateHasNoT(y: nat, m: nat)
    ensures var date := if y > 0 then Piece(y, 'Y') + Piece(m, 'M') else Digits(m) + "M";
            date != "" && forall k :: 0 <= k < |date| ==> date[k] != 'T'
  {
    DigitsHaveNoT(y, 'Y');
    DigitsHaveNoT(m, 'M');
    assert AllDigits(Digits(m));
  }

  /** A years-and-months duration reads back as itself exactly when its years fit the float they are
      read through, and it is not the least one. */
  lemma YearMonthRoundTrip(float: Float, months: int)
    requires -TWO63 <= months < TWO63
    ensures Parse(float, FormatYearMonth(months)) == Some(YearMonth(months)) <==>
              months != -TWO63 && Representable((if months < 0 then -months else months) / 12)
  {
    hide Read, RoundF, Pow, Parse, Piece, Representable;
    if months == -TWO63 {
      LeastDurationIsLost(float);
    } else {
      var n := if months < 0 then -months else months;
      MonthsReadBack(float, months < 0, n);
      if n / 12 == 0 {
        assert (if months < 0 then "-" else "") + "P" + Digits(n % 12) + "M" == (if months < 0 then "-" else "") + "P" + (Digits(n % 12) + "M");
      }
    }
  }

  /** So does every duration up to 2^53 years, and the first beyond does not. */
  lemma YearsUpTo53Bits(float: Float)
    ensures forall months :: -12 * TWO53 < months < 12 * TWO53 ==> Parse(float, FormatYearMonth(months)) == Some(YearMonth(months))
    ensures Parse(float, FormatYearMonth(12 * TWO53 + 12)) != Some(YearMonth(12 * TWO53 + 12))
  {
    hide Parse, FormatYearMonth;
    forall months | -12 * TWO53 < months < 12 * TWO53 ensures Parse(float, FormatYearMonth(months)) == Some(YearMonth(months)) {
      YearMonthRoundTrip(float, months);
    }
    YearMonthRoundTrip(float, 12 * TWO53 + 12);
    assert (12 * TWO53 + 12) / 12 == TWO53 + 1;
  }
}
