/** The FEEL lexer: from characters to tokens. */
module FeelLexer {

  import opened Wrappers
  import opened FeelSyntax
  import FeelNumberText
  import DecimalText

  /** Unicode's classes of characters, and reading four characters after \u as a code. */
  datatype Unicode = Unicode(space: char -> bool, letter: char -> bool, digit: char -> bool, hex: string -> Option<char>)

  predicate IsSpace(u: Unicode, c: char) { u.space(c) }
  predicate IsDigit(u: Unicode, c: char) { u.digit(c) }
  predicate StartsName(u: Unicode, c: char) { u.letter(c) || c == '_' || c == '?' || c == '$' }
  predicate ContinuesName(u: Unicode, c: char) { u.letter(c) || u.digit(c) || c == '_' || c == '$' }

  function MarkText(m: Mark): (s: string)
    ensures 1 <= |s| <= 2
  {
    match m
    case DotDot => ".." case Power => "**" case NotEqual => "!=" case AtMost => "<=" case AtLeast => ">="
    case OpenParen => "(" case CloseParen => ")" case OpenBracket => "[" case CloseBracket => "]"
    case OpenBrace => "{" case CloseBrace => "}" case Comma => "," case Colon => ":" case Dot => "."
    case Plus => "+" case Minus => "-" case Star => "*" case Slash => "/" case Equal => "=" case Less => "<" case Greater => ">"
  }

  /** The mark s starts with; the marks of two characters are tried first. */
  function MarkAt(s: string): (m: Option<Mark>)
    ensures m.Some? ==> MarkText(m.value) <= s
  {
    if s == "" then None
    else if Starts(s, '.', '.') then Some(DotDot) else if Starts(s, '*', '*') then Some(Power)
    else if Starts(s, '!', '=') then Some(NotEqual) else if Starts(s, '<', '=') then Some(AtMost) else if Starts(s, '>', '=') then Some(AtLeast)
    else match s[0]
      case '(' => Some(OpenParen) case ')' => Some(CloseParen) case '[' => Some(OpenBracket) case ']' => Some(CloseBracket)
      case '{' => Some(OpenBrace) case '}' => Some(CloseBrace) case ',' => Some(Comma) case ':' => Some(Colon) case '.' => Some(Dot)
      case '+' => Some(Plus) case '-' => Some(Minus) case '*' => Some(Star) case '/' => Some(Slash)
      case '=' => Some(Equal) case '<' => Some(Less) case '>' => Some(Greater)
      case _ => None
  }

  predicate Starts(s: string, a: char, b: char) { 2 <= |s| && s[0] == a && s[1] == b }

  function Digits(u: Unicode, s: string): (n: nat)
    ensures n <= |s| && (forall k :: 0 <= k < n ==> IsDigit(u, s[k])) && (n < |s| ==> !IsDigit(u, s[n]))
  {
    if s == "" || !IsDigit(u, s[0]) then 0 else 1 + Digits(u, s[1..])
  }

  function NameRest(u: Unicode, s: string): (n: nat)
    ensures n <= |s| && (forall k :: 0 <= k < n ==> ContinuesName(u, s[k])) && (n < |s| ==> !ContinuesName(u, s[n]))
  {
    if s == "" || !ContinuesName(u, s[0]) then 0 else 1 + NameRest(u, s[1..])
  }

  predicate StartsNumber(u: Unicode, s: string, afterDot: bool)
    requires s != ""
  {
    IsDigit(u, s[0]) || (s[0] == '.' && 1 < |s| && IsDigit(u, s[1]) && !afterDot)
  }

  /** The length of the number s starts with: digits, and a fraction if a digit follows the point. */
  function NumberLength(u: Unicode, s: string): (n: nat)
    ensures n <= |s|
  {
    var n := Digits(u, s);
    if n + 1 < |s| && s[n] == '.' && IsDigit(u, s[n + 1]) then n + 1 + Digits(u, s[n + 1..]) else n
  }

  /** The rest of a quoted string: its value and how many characters it takes with the closing quote. */
  function QuotedFrom(u: Unicode, s: string, quote: char): (r: Option<(string, nat)>)
    ensures r.Some? ==> r.value.1 <= |s|
    decreases |s|
  {
    if s == "" then None
    else if s[0] == quote then Some(("", 1))
    else if s[0] == '\\' && 1 < |s| then
      if s[1] == 'u' && 5 < |s| && u.hex(s[2..6]).Some? then Then(u.hex(s[2..6]).value, QuotedFrom(u, s[6..], quote), 6)
      else Then(Unescaped(s[1]), QuotedFrom(u, s[2..], quote), 2)
    else Then(s[0], QuotedFrom(u, s[1..], quote), 1)
  }

  function Unescaped(c: char): char {
    if c == 'n' then '\n' else if c == 't' then '\t' else if c == 'r' then '\r' else c
  }

  function Then(c: char, rest: Option<(string, nat)>, n: nat): Option<(string, nat)> {
    if rest.None? then None else Some(([c] + rest.value.0, n + rest.value.1))
  }

  /** The loop over a quoted string, r starting at its opening quote. */
  method ReadQuoted(u: Unicode, r: string, quote: char) returns (res: Option<(string, nat)>)
    requires r != ""
    ensures res == After("", QuotedFrom(u, r[1..], quote), 1)
  {
    hide QuotedFrom;
    var b, i := "", 1;
    while i < |r|
      invariant 1 <= i <= |r|
      invariant After("", QuotedFrom(u, r[1..], quote), 1) == After(b, QuotedFrom(u, r[i..], quote), i)
      decreases |r| - i
    {
      QuotedStep(u, r, i, quote, b);
      var c := r[i];
      if c == quote {
        return Some((b, i + 1));
      }
      if c == '\\' && i + 1 < |r| {
        if r[i + 1] == 'u' && i + 5 < |r| && u.hex(r[i + 2..i + 6]).Some? {
          b, i := b + [u.hex(r[i + 2..i + 6]).value], i + 6;
        } else {
          b, i := b + [Unescaped(r[i + 1])], i + 2;
        }
      } else {
        b, i := b + [c], i + 1;
      }
    }
    assert r[i..] == "";
    QuotedEmpty(u, quote);
    return None;
  }

  lemma QuotedEmpty(u: Unicode, quote: char)
    ensures QuotedFrom(u, "", quote) == None
  {
  }

  lemma QuotedStep(u: Unicode, r: string, i: nat, quote: char, b: string)
    requires i < |r|
    ensures After(b, QuotedFrom(u, r[i..], quote), i) ==
              if r[i] == quote then Some((b, i + 1))
              else if r[i] == '\\' && i + 1 < |r| then
                if r[i + 1] == 'u' && i + 5 < |r| && u.hex(r[i + 2..i + 6]).Some? then
                  After(b + [u.hex(r[i + 2..i + 6]).value], QuotedFrom(u, r[i + 6..], quote), i + 6)
                else After(b + [Unescaped(r[i + 1])], QuotedFrom(u, r[i + 2..], quote), i + 2)
              else After(b + [r[i]], QuotedFrom(u, r[i + 1..], quote), i + 1)
  {
    var s := r[i..];
    if r[i] == quote {
      assert b + "" == b;
    } else if r[i] == '\\' && i + 1 < |r| {
      assert 5 < |s| ==> s[2..6] == r[i + 2..i + 6] && s[6..] == r[i + 6..];
      assert s[2..] == r[i + 2..];
      if r[i + 1] == 'u' && i + 5 < |r| && u.hex(r[i + 2..i + 6]).Some? {
        AfterThen(b, u.hex(r[i + 2..i + 6]).value, QuotedFrom(u, r[i + 6..], quote), i, 6);
      } else {
        AfterThen(b, Unescaped(r[i + 1]), QuotedFrom(u, r[i + 2..], quote), i, 2);
      }
    } else {
      assert s[1..] == r[i + 1..];
      AfterThen(b, r[i], QuotedFrom(u, r[i + 1..], quote), i, 1);
    }
  }

  function After(b: string, rest: Option<(string, nat)>, n: nat): Option<(string, nat)> {
    if rest.None? then None else Some((b + rest.value.0, n + rest.value.1))
  }

  lemma AfterThen(b: string, c: char, rest: Option<(string, nat)>, n: nat, m: nat)
    ensures After(b, Then(c, rest, m), n) == After(b + [c], rest, n + m)
  {
    if rest.Some? {
      assert b + ([c] + rest.value.0) == (b + [c]) + rest.value.0;
    }
  }

  /** Up to the end of the line. */
  function LineLength(s: string): (n: nat)
    ensures n <= |s|
  {
    if s == "" || s[0] == '\n' then 0 else 1 + LineLength(s[1..])
  }

  /** Up to and with the first end of comment, if there is one. */
  function CommentLength(s: string): (n: Option<nat>)
    ensures n.Some? ==> n.value <= |s|
  {
    if |s| < 2 then None else if s[0] == '*' && s[1] == '/' then Some(2)
    else match CommentLength(s[1..])
      case None => None
      case Some(n) => Some(n + 1)
  }

  /** What stands at the start of s: the characters to pass over, and the token, if they are one. */
  datatype Piece = Piece(length: nat, token: Option<Token>)

  function PieceAt(u: Unicode, s: string, afterDot: bool): (p: Option<Piece>)
    requires s != ""
    ensures p.Some? ==> 0 < p.value.length <= |s|
  {
    if IsSpace(u, s[0]) then Some(Piece(1, None))
    else if s[0] == '/' && 1 < |s| && s[1] == '/' then Some(Piece(2 + LineLength(s[2..]), None))
    else if s[0] == '/' && 1 < |s| && s[1] == '*' then
      match CommentLength(s[2..])
      case None => None
      case Some(n) => Some(Piece(2 + n, None))
    else if StartsNumber(u, s, afterDot) then Some(Piece(NumberLength(u, s), Some(NumberToken(s[..NumberLength(u, s)]))))
    else if s[0] == '"' || s[0] == '\'' then
      match QuotedFrom(u, s[1..], s[0])
      case None => None
      case Some((text, n)) => Some(Piece(1 + n, Some(StringToken(text))))
    else if s[0] == '@' && 1 < |s| && s[1] == '"' then
      match QuotedFrom(u, s[2..], '"')
      case None => None
      case Some((text, n)) => Some(Piece(2 + n, Some(Temporal(text))))
    else if StartsName(u, s[0]) then
      var n := 1 + NameRest(u, s[1..]);
      Some(Piece(n, Some(Name(WordOf(s[..n])))))
    else
      match MarkAt(s)
      case None => None
      case Some(m) => Some(Piece(|MarkText(m)|, Some(Punct(m))))
  }

  /** The tokens of a text, or None where it has none; `afterDot` says that a point came just before. */
  function Lex(u: Unicode, s: string, afterDot: bool): (toks: Option<seq<Token>>)
    ensures toks.Some? ==> toks.value != [] && toks.value[|toks.value| - 1] == Eof
    decreases |s|
  {
    if s == "" then Some([Eof])
    else
      match PieceAt(u, s, afterDot)
      case None => None
      case Some(p) =>
        var rest := Lex(u, s[p.length..], s[p.length - 1] == '.');
        if rest.None? then None else Some((if p.token.None? then [] else [p.token.value]) + rest.value)
  }

  /** Tokens in front of what comes after them. */
  function Before(out: seq<Token>, rest: Option<seq<Token>>): Option<seq<Token>> {
    if rest.None? then None else Some(out + rest.value)
  }

  lemma LexStep(u: Unicode, s: string, afterDot: bool, out: seq<Token>)
    requires s != ""
    ensures var p := PieceAt(u, s, afterDot);
            Before(out, Lex(u, s, afterDot)) ==
              if p.None? then None
              else Before(out + if p.value.token.None? then [] else [p.value.token.value], Lex(u, s[p.value.length..], s[p.value.length - 1] == '.'))
  {
    hide PieceAt;
    var p := PieceAt(u, s, afterDot);
    if p.Some? {
      var rest := Lex(u, s[p.value.length..], s[p.value.length - 1] == '.');
      if rest.Some? {
        var token := if p.value.token.None? then [] else [p.value.token.value];
        assert out + (token + rest.value) == (out + token) + rest.value;
      }
    }
  }

  /** The loop over the text, its index moving from piece to piece. */
  method Tokenize(u: Unicode, text: string) returns (toks: Option<seq<Token>>)
    ensures toks == Lex(u, text, false)
  {
    hide PieceAt, Lex;
    var i, out: seq<Token> := 0, [];
    NothingBefore(Lex(u, text, false));
    assert text[0..] == text;
    while i < |text|
      invariant 0 <= i <= |text|
      invariant Lex(u, text, false) == Before(out, Lex(u, text[i..], i > 0 && text[i - 1] == '.'))
      decreases |text| - i
    {
      var s := text[i..];
      var piece := PieceAt(u, s, i > 0 && text[i - 1] == '.');
      LexStep(u, s, i > 0 && text[i - 1] == '.', out);
      if piece.None? {
        return None;
      }
      var length := piece.value.length;
      assert s[length..] == text[i + length..] && s[length - 1] == text[i + length - 1];
      out := out + if piece.value.token.None? then [] else [piece.value.token.value];
      i := i + length;
    }
    assert text[i..] == "";
    LexEmpty(u, i > 0 && text[i - 1] == '.');
    return Some(out + [Eof]);
  }

  lemma NothingBefore(rest: Option<seq<Token>>)
    ensures Before([], rest) == rest
  {
    if rest.Some? {
      assert [] + rest.value == rest.value;
    }
  }

  lemma LexEmpty(u: Unicode, afterDot: bool)
    ensures Lex(u, "", afterDot) == Some([Eof])
  {
  }

  // ----- text for tokens -----

  function EscapedChar(c: char): string {
    if c == '"' || c == '\\' then ['\\', c] else [c]
  }

  function Escaped(s: string): string {
    if s == "" then "" else EscapedChar(s[0]) + Escaped(s[1..])
  }

  function TokenText(t: Token): string {
    match t
    case NumberToken(text) => text
    case StringToken(text) => "\"" + (Escaped(text) + "\"")
    case Temporal(text) => "@\"" + (Escaped(text) + "\"")
    case Name(word) => TextOf(word)
    case Punct(mark) => MarkText(mark)
    case Eof => ""
  }

  /** The token ends where its text does, though `rest` comes straight after it. */
  predicate Apart(u: Unicode, t: Token, rest: string) {
    rest == "" ||
    match t
    case NumberToken(_) => !IsDigit(u, rest[0]) && !(rest[0] == '.' && 1 < |rest| && IsDigit(u, rest[1]))
    case Name(_) => !ContinuesName(u, rest[0])
    case Punct(Dot) => rest[0] != '.' && !IsDigit(u, rest[0])
    case Punct(Star) => rest[0] != '*'
    case Punct(Slash) => rest[0] != '/' && rest[0] != '*'
    case Punct(Less) => rest[0] != '='
    case Punct(Greater) => rest[0] != '='
    case _ => true
  }

  predicate Blank(u: Unicode, s: string) {
    forall i :: 0 <= i < |s| ==> IsSpace(u, s[i])
  }

  /** Tokens with a gap before each of them and one at the end. */
  function TextWith(ts: seq<Token>, gaps: seq<string>): string
    requires |gaps| == |ts| + 1
    decreases |ts|
  {
    if ts == [] then gaps[0] else gaps[0] + (TokenText(ts[0]) + TextWith(ts[1..], gaps[1..]))
  }

  /** The gaps are blank, and not empty where two tokens would run together. */
  predicate Separated(u: Unicode, ts: seq<Token>, gaps: seq<string>)
    requires |gaps| == |ts| + 1
    decreases |ts|
  {
    Blank(u, gaps[0]) && (ts != [] ==> Apart(u, ts[0], TextWith(ts[1..], gaps[1..])) && Separated(u, ts[1..], gaps[1..]))
  }

  /** No gap, or a single space where two tokens would run together. */
  function Tightest(u: Unicode, ts: seq<Token>): (gaps: seq<string>)
    ensures |gaps| == |ts| + 1 && gaps[0] == ""
    decreases |ts|
  {
    if ts == [] then [""]
    else
      var rest := Tightest(u, ts[1..]);
      ["", if Apart(u, ts[0], TextWith(ts[1..], rest)) then "" else " "] + rest[1..]
  }

  predicate NameText(u: Unicode, s: string) {
    s != "" && StartsName(u, s[0]) && forall k :: 0 < k < |s| ==> ContinuesName(u, s[k])
  }

  /** A token that has a text: names made of name characters, numbers as they are written. */
  predicate Lexable(u: Unicode, t: Token) {
    match t
    case NumberToken(text) => FeelNumberText.Numeral(text)
    case Name(word) => NameText(u, TextOf(word)) && WordOf(TextOf(word)) == word
    case Eof => false
    case _ => true
  }

  /** The characters of marks, quotes and what else a token may start with, besides letters and digits. */
  predicate Special(c: char) {
    c == '/' || c == '.' || c == '"' || c == '\'' || c == '@' || c == '(' || c == ')' || c == '[' || c == ']' || c == '{' || c == '}'
    || c == ',' || c == ':' || c == '+' || c == '-' || c == '*' || c == '=' || c == '<' || c == '>' || c == '!'
  }

  /** What is true of Unicode's classes. */
  ghost predicate Sensible(u: Unicode) {
    && IsSpace(u, ' ') && !IsDigit(u, ' ') && !ContinuesName(u, ' ')
    && (forall c :: DecimalText.IsDigit(c) ==> IsDigit(u, c) && !IsSpace(u, c))
    && (forall c :: Special(c) ==> !IsSpace(u, c) && !IsDigit(u, c) && !StartsName(u, c))
    && (forall c :: StartsName(u, c) ==> !IsSpace(u, c) && !IsDigit(u, c))
    && (forall c :: 'a' <= c <= 'z' ==> StartsName(u, c) && ContinuesName(u, c))
  }

  // ----- lexing that text -----

  lemma {:induction false} QuotedBack(u: Unicode, text: string, rest: string)
    ensures QuotedFrom(u, Escaped(text) + ("\"" + rest), '"') == Some((text, |Escaped(text)| + 1))
    decreases |text|
  {
    hide EscapedChar;
    if text == "" {
      assert Escaped(text) + ("\"" + rest) == "\"" + rest;
    } else {
      var tail := Escaped(text[1..]) + ("\"" + rest);
      QuotedBack(u, text[1..], rest);
      QuotedOne(u, text[0], tail);
      assert Escaped(text) + ("\"" + rest) == EscapedChar(text[0]) + tail;
      assert [text[0]] + text[1..] == text;
    }
  }

  lemma QuotedOne(u: Unicode, c: char, tail: string)
    ensures QuotedFrom(u, EscapedChar(c) + tail, '"') == Then(c, QuotedFrom(u, tail, '"'), |EscapedChar(c)|)
  {
    var head := EscapedChar(c);
    var s := head + tail;
    assert s[0] == head[0] && s[|head|..] == tail;
    assert |head| == 2 ==> s[1] == c;
  }

  lemma DigitsOf(u: Unicode, digits: string, rest: string)
    requires Sensible(u) && DecimalText.AllDigits(digits) && (rest == "" || !IsDigit(u, rest[0]))
    ensures Digits(u, digits + rest) == |digits|
  {
    var s := digits + rest;
    assert forall k :: 0 <= k < |digits| ==> s[k] == digits[k];
    assert rest != "" ==> s[|digits|] == rest[0];
  }

  lemma NumberBack(u: Unicode, text: string, rest: string, afterDot: bool)
    requires Sensible(u) && FeelNumberText.Numeral(text) && Apart(u, NumberToken(text), rest)
    ensures PieceAt(u, text + rest, afterDot) == Some(Piece(|text|, Some(NumberToken(text)))) && text != ""
  {
    var s, i := text + rest, FeelNumberText.PointIndex(text);
    var whole := text[..i];
    if i == |text| {
      assert whole == text;
      DigitsOf(u, text, rest);
      assert 1 < |rest| ==> s[|text| + 1] == rest[1];
    } else {
      var fraction := text[i + 1..];
      assert text == whole + ("." + fraction);
      assert s == whole + ("." + (fraction + rest));
      DigitsOf(u, whole, "." + (fraction + rest));
      assert s[i + 1..] == fraction + rest;
      DigitsOf(u, fraction, rest);
    }
    assert s[..|text|] == text;
    assert DecimalText.IsDigit(s[0]);
  }

  lemma NameBack(u: Unicode, text: string, rest: string, afterDot: bool)
    requires Sensible(u) && NameText(u, text) && (rest == "" || !ContinuesName(u, rest[0]))
    ensures PieceAt(u, text + rest, afterDot) == Some(Piece(|text|, Some(Name(WordOf(text)))))
  {
    var s := text + rest;
    assert s[0] == text[0] && (rest != "" ==> s[|text|] == rest[0]) && forall k :: 0 < k < |text| ==> s[k] == text[k];
    var tail := s[1..];
    assert (rest != "" ==> tail[|text| - 1] == rest[0]) && forall k :: 0 <= k < |text| - 1 ==> tail[k] == text[k + 1];
    assert NameRest(u, tail) == |text| - 1;
    assert s[..|text|] == text;
    NoNameInSpecials(u, s[0]);
  }

  lemma NoNameInSpecials(u: Unicode, c: char)
    requires Sensible(u) && StartsName(u, c)
    ensures c != '/' && c != '.' && c != '"' && c != '\'' && c != '@' && !IsSpace(u, c) && !IsDigit(u, c)
  {
    assert Special('/') && Special('.') && Special('"') && Special('\'') && Special('@');
  }

  lemma StringBack(u: Unicode, text: string, rest: string, afterDot: bool, temporal: bool)
    requires Sensible(u)
    ensures var t := if temporal then Temporal(text) else StringToken(text);
            PieceAt(u, TokenText(t) + rest, afterDot) == Some(Piece(|TokenText(t)|, Some(t)))
  {
    hide Escaped, QuotedFrom, NumberLength, NameRest, MarkAt, CommentLength, LineLength;
    var t := if temporal then Temporal(text) else StringToken(text);
    var s := TokenText(t) + rest;
    QuotedBack(u, text, rest);
    assert s == (if temporal then "@\"" else "\"") + (Escaped(text) + ("\"" + rest));
    assert s[(if temporal then 2 else 1)..] == Escaped(text) + ("\"" + rest);
    assert Special('"') && Special('@');
  }

  lemma MarkBack(u: Unicode, m: Mark, rest: string, afterDot: bool)
    requires Sensible(u) && Apart(u, Punct(m), rest)
    ensures PieceAt(u, MarkText(m) + rest, afterDot) == Some(Piece(|MarkText(m)|, Some(Punct(m))))
  {
    var s := MarkText(m) + rest;
    MarkFound(u, m, rest);
    assert s[0] == MarkText(m)[0] && (1 < |s| ==> s[1] == (if |MarkText(m)| == 2 then MarkText(m)[1] else rest[0]));
    MarkIsSpecial(m);
    assert Special('.');
  }

  lemma MarkIsSpecial(m: Mark)
    ensures Special(MarkText(m)[0]) && MarkText(m)[0] != '"' && MarkText(m)[0] != '\'' && MarkText(m)[0] != '@'
  {
  }

  /** Trying the marks in order finds the one written, since what follows makes it no longer one. */
  lemma MarkFound(u: Unicode, m: Mark, rest: string)
    requires Apart(u, Punct(m), rest)
    ensures MarkAt(MarkText(m) + rest) == Some(m)
  {
    var s := MarkText(m) + rest;
    assert s[0] == MarkText(m)[0] && (1 < |s| ==> s[1] == if |MarkText(m)| == 2 then MarkText(m)[1] else rest[0]);
  }

  lemma {:induction false} TokenBack(u: Unicode, t: Token, rest: string, afterDot: bool)
    requires Sensible(u) && Lexable(u, t) && Apart(u, t, rest)
    ensures PieceAt(u, TokenText(t) + rest, afterDot) == Some(Piece(|TokenText(t)|, Some(t))) && TokenText(t) != ""
  {
    hide PieceAt;
    match t
    case NumberToken(text) => NumberBack(u, text, rest, afterDot);
    case StringToken(text) => StringBack(u, text, rest, afterDot, false);
    case Temporal(text) => StringBack(u, text, rest, afterDot, true);
    case Name(word) => NameBack(u, TextOf(word), rest, afterDot);
    case Punct(mark) => MarkBack(u, mark, rest, afterDot);
  }

  lemma {:induction false} GapThenRest(u: Unicode, gap: string, rest: string, afterDot: bool) returns (after: bool)
    requires Sensible(u) && Blank(u, gap)
    ensures Lex(u, gap + rest, afterDot) == Lex(u, rest, after)
    decreases |gap|
  {
    hide Lex;
    if gap == "" {
      assert gap + rest == rest;
      after := afterDot;
    } else {
      var s := gap + rest;
      LexStep(u, s, afterDot, []);
      NothingBefore(Lex(u, s, afterDot));
      assert s[1..] == gap[1..] + rest && s[0] == gap[0];
      NothingBefore(Lex(u, s[1..], s[0] == '.'));
      var none: seq<Token> := [];
      assert none + [] == none;
      after := GapThenRest(u, gap[1..], rest, s[0] == '.');
    }
  }

  /** Any tokens that have a text, with any blanks between them as long as no two run together, are lexed
      back: "1..10" as a number, two points and a number. */
  lemma {:induction false} LexOfText(u: Unicode, ts: seq<Token>, gaps: seq<string>, afterDot: bool)
    requires Sensible(u) && |gaps| == |ts| + 1 && Separated(u, ts, gaps) && forall i :: 0 <= i < |ts| ==> Lexable(u, ts[i])
    ensures Lex(u, TextWith(ts, gaps), afterDot) == Some(ts + [Eof])
    decreases |ts|
  {
    hide PieceAt, Lex, TokenText, Apart, Sensible, Lexable, TextWith, Separated;
    FirstOfText(u, ts, gaps);
    if ts == [] {
      var after := GapThenRest(u, gaps[0], "", afterDot);
      assert gaps[0] + "" == gaps[0] && ts + [Eof] == [Eof];
      LexEmpty(u, after);
    } else {
      var rest := TextWith(ts[1..], gaps[1..]);
      var after := GapThenRest(u, gaps[0], TokenText(ts[0]) + rest, afterDot);
      var next := LexToken(u, ts[0], rest, after);
      LexOfText(u, ts[1..], gaps[1..], next);
      assert [ts[0]] + (ts[1..] + [Eof]) == ts + [Eof];
    }
  }

  lemma LexToken(u: Unicode, t: Token, rest: string, afterDot: bool) returns (next: bool)
    requires Sensible(u) && Lexable(u, t) && Apart(u, t, rest)
    ensures Lex(u, TokenText(t) + rest, afterDot) == Before([t], Lex(u, rest, next))
  {
    hide PieceAt, Lex, TokenText, Apart, Sensible, Lexable;
    var text := TokenText(t);
    var s := text + rest;
    TokenBack(u, t, rest, afterDot);
    LexStep(u, s, afterDot, []);
    NothingBefore(Lex(u, s, afterDot));
    assert s[|text|..] == rest && [] + [t] == [t];
    next := s[|text| - 1] == '.';
  }

  lemma FirstOfText(u: Unicode, ts: seq<Token>, gaps: seq<string>)
    requires |gaps| == |ts| + 1 && Separated(u, ts, gaps)
    ensures Blank(u, gaps[0]) && (ts == [] ==> TextWith(ts, gaps) == gaps[0])
    ensures ts != [] ==> var rest := TextWith(ts[1..], gaps[1..]);
                         TextWith(ts, gaps) == gaps[0] + (TokenText(ts[0]) + rest) && Apart(u, ts[0], rest) && Separated(u, ts[1..], gaps[1..])
  {
    hide Apart, TokenText, Blank;
  }

  /** Writing as little space as possible keeps the tokens apart. */
  lemma {:induction false} TightestSeparates(u: Unicode, ts: seq<Token>)
    requires Sensible(u)
    ensures Separated(u, ts, Tightest(u, ts))
    decreases |ts|
  {
    hide Apart, Sensible;
    if ts != [] {
      var rest, gaps := Tightest(u, ts[1..]), Tightest(u, ts);
      TightestSeparates(u, ts[1..]);
      if Apart(u, ts[0], TextWith(ts[1..], rest)) {
        assert gaps[1..] == rest;
      } else {
        assert gaps[1..] == [" "] + rest[1..];
        SpaceInstead(u, ts[1..], rest);
        SpaceIsApart(u, ts[0], TextWith(ts[1..], gaps[1..]));
      }
    }
  }

  /** A space in place of no gap at the front. */
  lemma SpaceInstead(u: Unicode, ts: seq<Token>, gaps: seq<string>)
    requires Sensible(u) && |gaps| == |ts| + 1 && gaps[0] == "" && Separated(u, ts, gaps)
    ensures var wider := [" "] + gaps[1..]; Separated(u, ts, wider) && TextWith(ts, wider) == " " + TextWith(ts, gaps)
  {
    hide Apart, Sensible, TokenText;
    var wider := [" "] + gaps[1..];
    assert wider[1..] == gaps[1..] && wider[0] == " ";
    SpaceIsBlank(u);
    if ts != [] {
      var tail := TokenText(ts[0]) + TextWith(ts[1..], gaps[1..]);
      assert "" + tail == tail;
    }
  }

  lemma SpaceIsBlank(u: Unicode)
    requires Sensible(u)
    ensures Blank(u, " ")
  {
  }

  lemma SpaceIsApart(u: Unicode, t: Token, rest: string)
    requires Sensible(u) && rest != "" && rest[0] == ' '
    ensures Apart(u, t, rest)
  {
  }
}
