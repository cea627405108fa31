/** Where the parts of a written expression lie in the token list, and what lookahead sees there. */
module FeelTokens {

  import opened Wrappers
  import opened FeelSyntax
  import opened FeelGrammar
  import opened FeelPrinter

  /** The tokens `ts` stand at pos. */
  ghost predicate Holds(toks: seq<Token>, pos: nat, ts: seq<Token>) {
    pos + |ts| <= |toks| && forall i {:trigger ts[i]} :: 0 <= i < |ts| ==> toks[pos + i] == ts[i]
  }

  lemma HoldsAppend(toks: seq<Token>, pos: nat, a: seq<Token>, b: seq<Token>)
    requires Holds(toks, pos, a + b)
    ensures Holds(toks, pos, a) && Holds(toks, pos + |a|, b)
  {
    var ts := a + b;
    forall i | 0 <= i < |a| ensures toks[pos + i] == a[i] {
      assert ts[i] == a[i];
    }
    forall i | 0 <= i < |b| ensures toks[pos + |a| + i] == b[i] {
      assert ts[|a| + i] == b[i];
    }
  }

  lemma HoldsFirst(toks: seq<Token>, pos: nat, t: Token, b: seq<Token>)
    requires Holds(toks, pos, [t] + b)
    ensures pos < |toks| && toks[pos] == t && Holds(toks, pos + 1, b)
  {
    HoldsAppend(toks, pos, [t], b);
    HoldsOne(toks, pos, t);
  }

  lemma HoldsOne(toks: seq<Token>, pos: nat, t: Token)
    requires Holds(toks, pos, [t])
    ensures pos < |toks| && toks[pos] == t
  {
    HoldsAt(toks, pos, [t], 0);
  }

  lemma HoldsAt(toks: seq<Token>, pos: nat, ts: seq<Token>, i: nat)
    requires Holds(toks, pos, ts) && i < |ts|
    ensures toks[pos + i] == ts[i]
  {
  }

  /** Where a written expression ends. */
  function End(pos: nat, e: Node, level: nat): nat {
    pos + |Print(e, level)|
  }

  /** The tokens of e, written at a level, stand at pos, and something follows. */
  ghost predicate Written(toks: seq<Token>, pos: nat, e: Node, level: nat) {
    Holds(toks, pos, Print(e, level)) && End(pos, e, level) < |toks|
  }

  /** The same without parentheses. */
  function BareEnd(pos: nat, e: Node): nat {
    pos + |Bare(e)|
  }

  ghost predicate WrittenBare(toks: seq<Token>, pos: nat, e: Node) {
    Holds(toks, pos, Bare(e)) && BareEnd(pos, e) < |toks|
  }

  // ----- the parts of each form -----

  lemma SplitParens(toks: seq<Token>, pos: nat, e: Node, level: nat)
    requires Written(toks, pos, e, level) && Level(e) < level
    ensures toks[pos] == Punct(OpenParen) && WrittenBare(toks, pos + 1, e) && Print(e, 0) == Bare(e)
    ensures toks[BareEnd(pos + 1, e)] == Punct(CloseParen) && End(pos, e, level) == BareEnd(pos + 1, e) + 1
  {
    hide Bare;
    SplitEnclosed(toks, pos, Punct(OpenParen), Bare(e), Punct(CloseParen));
  }

  lemma SplitEnclosed(toks: seq<Token>, pos: nat, open: Token, body: seq<Token>, close: Token)
    requires Holds(toks, pos, [open] + (body + [close]))
    ensures pos + 1 + |body| < |toks| && toks[pos] == open && Holds(toks, pos + 1, body) && toks[pos + 1 + |body|] == close
  {
    HoldsFirst(toks, pos, open, body + [close]);
    HoldsAppend(toks, pos + 1, body, [close]);
    HoldsOne(toks, pos + 1 + |body|, close);
  }

  lemma SplitNegation(toks: seq<Token>, pos: nat, e: Node)
    requires WrittenBare(toks, pos, e) && e.Negation?
    ensures toks[pos] == Punct(Minus) && Written(toks, pos + 1, e.x, 7) && BareEnd(pos, e) == End(pos + 1, e.x, 7)
  {
    hide Print;
    HoldsFirst(toks, pos, Punct(Minus), Print(e.x, 7));
  }

  /** The levels a binary expression's sides are written at. */
  function LeftLevel(op: BinaryOp): nat { if IsComparison(op) then 4 else OperatorLevel(op) }
  function RightLevel(op: BinaryOp): nat { if IsComparison(op) then 4 else OperatorLevel(op) + 1 }

  lemma SplitBinary(toks: seq<Token>, pos: nat, e: Node) returns (m: nat)
    requires WrittenBare(toks, pos, e) && e.Binary?
    ensures Written(toks, pos, e.l, LeftLevel(e.op)) && m == End(pos, e.l, LeftLevel(e.op)) && toks[m] == OperatorToken(e.op)
    ensures Written(toks, m + 1, e.r, RightLevel(e.op)) && BareEnd(pos, e) == End(m + 1, e.r, RightLevel(e.op))
  {
    hide Print;
    var l, op, r := Print(e.l, LeftLevel(e.op)), OperatorToken(e.op), Print(e.r, RightLevel(e.op));
    m := pos + |l|;
    HoldsAppend(toks, pos, l, [op] + r);
    HoldsFirst(toks, m, op, r);
  }

  lemma SplitBetween(toks: seq<Token>, pos: nat, e: Node) returns (a: nat, b: nat)
    requires WrittenBare(toks, pos, e) && e.BetweenNode?
    ensures Written(toks, pos, e.x, 4) && a == End(pos, e.x, 4) && toks[a] == Name(Between)
    ensures Written(toks, a + 1, e.lo, 4) && b == End(a + 1, e.lo, 4) && toks[b] == Name(And)
    ensures Written(toks, b + 1, e.hi, 4) && BareEnd(pos, e) == End(b + 1, e.hi, 4)
  {
    hide Print;
    var rest := Print(e.lo, 4) + ([Name(And)] + Print(e.hi, 4));
    HoldsAppend(toks, pos, Print(e.x, 4), [Name(Between)] + rest);
    a := pos + |Print(e.x, 4)|;
    HoldsFirst(toks, a, Name(Between), rest);
    HoldsAppend(toks, a + 1, Print(e.lo, 4), [Name(And)] + Print(e.hi, 4));
    b := a + 1 + |Print(e.lo, 4)|;
    HoldsFirst(toks, b, Name(And), Print(e.hi, 4));
  }

  lemma SplitIn(toks: seq<Token>, pos: nat, e: Node) returns (a: nat)
    requires WrittenBare(toks, pos, e) && e.InNode?
    ensures Written(toks, pos, e.x, 4) && a == End(pos, e.x, 4) && a + 2 <= |toks| && toks[a] == Name(In) && toks[a + 1] == Punct(OpenParen)
    ensures Holds(toks, a + 2, PrintItems(e.tests, CloseParen)) && BareEnd(pos, e) == a + 2 + |PrintItems(e.tests, CloseParen)|
  {
    hide Print;
    var opening := [Name(In), Punct(OpenParen)];
    HoldsAppend(toks, pos, Print(e.x, 4), opening + PrintItems(e.tests, CloseParen));
    a := pos + |Print(e.x, 4)|;
    HoldsAppend(toks, a, opening, PrintItems(e.tests, CloseParen));
    HoldsAt(toks, a, opening, 0);
    HoldsAt(toks, a, opening, 1);
  }

  lemma SplitIf(toks: seq<Token>, pos: nat, e: Node) returns (a: nat, b: nat)
    requires WrittenBare(toks, pos, e) && e.IfNode?
    ensures toks[pos] == Name(If) && Written(toks, pos + 1, e.cond, 0) && a == End(pos + 1, e.cond, 0) && toks[a] == Name(Then)
    ensures Written(toks, a + 1, e.yes, 0) && b == End(a + 1, e.yes, 0) && toks[b] == Name(Else)
    ensures Written(toks, b + 1, e.no, 0) && BareEnd(pos, e) == End(b + 1, e.no, 0)
  {
    hide Print;
    var last := [Name(Else)] + Print(e.no, 0);
    var rest := Print(e.yes, 0) + last;
    HoldsFirst(toks, pos, Name(If), Print(e.cond, 0) + ([Name(Then)] + rest));
    HoldsAppend(toks, pos + 1, Print(e.cond, 0), [Name(Then)] + rest);
    a := pos + 1 + |Print(e.cond, 0)|;
    HoldsFirst(toks, a, Name(Then), rest);
    HoldsAppend(toks, a + 1, Print(e.yes, 0), last);
    b := a + 1 + |Print(e.yes, 0)|;
    HoldsFirst(toks, b, Name(Else), Print(e.no, 0));
  }

  predicate IsLoop(e: Node, open: Word, close: Word, iters: seq<Iterator>, body: Node) {
    match e
    case ForNode(i, b) => open == For && close == Return && iters == i && body == b
    case QuantNode(every, i, c) => open == (if every then Every else SomeOf) && close == Satisfies && iters == i && body == c
    case _ => false
  }

  /** for and some/every: the opening word, the iterators, the closing word and the body. */
  lemma SplitLoop(toks: seq<Token>, pos: nat, e: Node, open: Word, close: Word, iters: seq<Iterator>, body: Node) returns (a: nat)
    requires WrittenBare(toks, pos, e) && IsLoop(e, open, close, iters, body)
    ensures toks[pos] == Name(open) && Holds(toks, pos + 1, PrintIterators(iters)) && a == pos + 1 + |PrintIterators(iters)|
    ensures a < |toks| && toks[a] == Name(close) && Written(toks, a + 1, body, 0) && BareEnd(pos, e) == End(a + 1, body, 0)
  {
    hide Print;
    HoldsFirst(toks, pos, Name(open), PrintIterators(iters) + ([Name(close)] + Print(body, 0)));
    HoldsAppend(toks, pos + 1, PrintIterators(iters), [Name(close)] + Print(body, 0));
    a := pos + 1 + |PrintIterators(iters)|;
    HoldsFirst(toks, a, Name(close), Print(body, 0));
  }

  lemma SplitRange(toks: seq<Token>, pos: nat, e: Node) returns (a: nat, b: nat)
    requires WrittenBare(toks, pos, e) && e.RangeNode?
    ensures toks[pos] == Punct(if e.loClosed then OpenBracket else OpenParen)
    ensures Written(toks, pos + 1, e.lo, 4) && a == End(pos + 1, e.lo, 4) && toks[a] == Punct(DotDot)
    ensures Written(toks, a + 1, e.hi, 4) && b == End(a + 1, e.hi, 4) && BareEnd(pos, e) == b + 1
    ensures toks[b] == Punct(if e.hiClosed then CloseBracket else CloseParen)
  {
    hide Print;
    var close := Punct(if e.hiClosed then CloseBracket else CloseParen);
    var rest := Print(e.hi, 4) + [close];
    HoldsFirst(toks, pos, Punct(if e.loClosed then OpenBracket else OpenParen), Print(e.lo, 4) + ([Punct(DotDot)] + rest));
    HoldsAppend(toks, pos + 1, Print(e.lo, 4), [Punct(DotDot)] + rest);
    a := pos + 1 + |Print(e.lo, 4)|;
    HoldsFirst(toks, a, Punct(DotDot), rest);
    HoldsAppend(toks, a + 1, Print(e.hi, 4), [close]);
    b := a + 1 + |Print(e.hi, 4)|;
    HoldsOne(toks, b, close);
  }

  lemma SplitPath(toks: seq<Token>, pos: nat, e: Node) returns (a: nat)
    requires WrittenBare(toks, pos, e) && e.PathNode?
    ensures Written(toks, pos, e.x, 8) && a == End(pos, e.x, 8) && BareEnd(pos, e) == a + 2
    ensures toks[a] == Punct(Dot) && toks[a + 1] == StringToken(e.name)
  {
    hide Print;
    var tail := [Punct(Dot), StringToken(e.name)];
    HoldsAppend(toks, pos, Print(e.x, 8), tail);
    a := pos + |Print(e.x, 8)|;
    HoldsAt(toks, a, tail, 0);
    HoldsAt(toks, a, tail, 1);
  }

  lemma SplitFilter(toks: seq<Token>, pos: nat, e: Node) returns (a: nat, b: nat)
    requires WrittenBare(toks, pos, e) && e.FilterNode?
    ensures Written(toks, pos, e.x, 8) && a == End(pos, e.x, 8) && toks[a] == Punct(OpenBracket)
    ensures Written(toks, a + 1, e.cond, 0) && b == End(a + 1, e.cond, 0) && toks[b] == Punct(CloseBracket) && BareEnd(pos, e) == b + 1
  {
    hide Print;
    var rest := Print(e.cond, 0) + [Punct(CloseBracket)];
    HoldsAppend(toks, pos, Print(e.x, 8), [Punct(OpenBracket)] + rest);
    a := pos + |Print(e.x, 8)|;
    HoldsFirst(toks, a, Punct(OpenBracket), rest);
    HoldsAppend(toks, a + 1, Print(e.cond, 0), [Punct(CloseBracket)]);
    b := a + 1 + |Print(e.cond, 0)|;
    HoldsOne(toks, b, Punct(CloseBracket));
  }

  lemma SplitCall(toks: seq<Token>, pos: nat, e: Node)
    requires WrittenBare(toks, pos, e) && e.CallNode?
    ensures var a := pos + |e.fn|;
            && a < |toks| && (forall i :: 0 <= i < |e.fn| ==> toks[pos + i] == Name(e.fn[i])) && toks[a] == Punct(OpenParen)
            && Holds(toks, a + 1, if e.args == [] then [Punct(CloseParen)] else PrintItems(e.args, CloseParen))
            && BareEnd(pos, e) == a + 1 + |if e.args == [] then [Punct(CloseParen)] else PrintItems(e.args, CloseParen)|
  {
    hide Print;
    var names, args := Names(e.fn), if e.args == [] then [Punct(CloseParen)] else PrintItems(e.args, CloseParen);
    HoldsAppend(toks, pos, names, [Punct(OpenParen)] + args);
    forall i | 0 <= i < |e.fn| ensures toks[pos + i] == Name(e.fn[i]) {
      HoldsAt(toks, pos, names, i);
    }
    HoldsFirst(toks, pos + |names|, Punct(OpenParen), args);
  }

  /** The first of a list of things written one after the other, and what separates it from the rest. */
  lemma SplitSeparated(toks: seq<Token>, pos: nat, head: Node, tail: seq<Token>, single: bool, close: Token)
    requires Holds(toks, pos, Print(head, 0) + (if single then [close] else [Punct(Comma)] + tail))
    ensures var m := End(pos, head, 0);
            && Written(toks, pos, head, 0)
            && (if single then toks[m] == close else toks[m] == Punct(Comma) && Holds(toks, m + 1, tail))
  {
    var rest := if single then [close] else [Punct(Comma)] + tail;
    HoldsAppend(toks, pos, Print(head, 0), rest);
    if single {
      HoldsOne(toks, End(pos, head, 0), close);
    } else {
      HoldsFirst(toks, End(pos, head, 0), Punct(Comma), tail);
    }
  }

  lemma SplitIterators(toks: seq<Token>, pos: nat, iters: seq<Iterator>) returns (m: nat)
    requires iters != [] && Holds(toks, pos, PrintIterators(iters)) && pos + |PrintIterators(iters)| < |toks|
    ensures toks[pos] == Name(WordOf(iters[0].name)) && toks[pos + 1] == Name(In)
    ensures Written(toks, pos + 2, iters[0].source, 1) && m == End(pos + 2, iters[0].source, 1)
    ensures if |iters| == 1 then m == pos + |PrintIterators(iters)|
            else toks[m] == Punct(Comma) && Holds(toks, m + 1, PrintIterators(iters[1..])) && m + 1 + |PrintIterators(iters[1..])| == pos + |PrintIterators(iters)|
  {
    hide Print;
    var opening := [Name(WordOf(iters[0].name)), Name(In)];
    var source := Print(iters[0].source, 1);
    var rest := if |iters| == 1 then [] else [Punct(Comma)] + PrintIterators(iters[1..]);
    HoldsAppend(toks, pos, opening, source + rest);
    HoldsAt(toks, pos, opening, 0);
    HoldsAt(toks, pos, opening, 1);
    HoldsAppend(toks, pos + 2, source, rest);
    m := pos + 2 + |source|;
    if |iters| > 1 {
      HoldsFirst(toks, m, Punct(Comma), PrintIterators(iters[1..]));
    }
  }

  lemma SplitFields(toks: seq<Token>, pos: nat, fields: seq<Entry>) returns (m: nat)
    requires fields != [] && Holds(toks, pos, PrintFields(fields))
    ensures pos + 2 <= |toks| && toks[pos] == StringToken(fields[0].key) && toks[pos + 1] == Punct(Colon)
    ensures Written(toks, pos + 2, fields[0].value, 0) && m == End(pos + 2, fields[0].value, 0)
    ensures if |fields| == 1 then toks[m] == Punct(CloseBrace) && m + 1 == pos + |PrintFields(fields)|
            else toks[m] == Punct(Comma) && Holds(toks, m + 1, PrintFields(fields[1..])) && m + 1 + |PrintFields(fields[1..])| == pos + |PrintFields(fields)|
  {
    hide Print;
    var opening := [StringToken(fields[0].key), Punct(Colon)];
    var rest := if |fields| == 1 then [Punct(CloseBrace)] else [Punct(Comma)] + PrintFields(fields[1..]);
    HoldsAppend(toks, pos, opening, Print(fields[0].value, 0) + rest);
    HoldsAt(toks, pos, opening, 0);
    HoldsAt(toks, pos, opening, 1);
    m := End(pos + 2, fields[0].value, 0);
    SplitSeparated(toks, pos + 2, fields[0].value, PrintFields(fields[1..]), |fields| == 1, Punct(CloseBrace));
  }

  // ----- how a written expression starts -----

  predicate Starter(t: Token) {
    t.NumberToken? || t.StringToken? || t.Name? ||
    t == Punct(OpenParen) || t == Punct(OpenBracket) || t == Punct(OpenBrace) || t == Punct(Minus)
  }

  predicate LoopWord(t: Token) {
    t == Name(If) || t == Name(For) || t == Name(SomeOf) || t == Name(Every)
  }

  predicate GoodHead(t: Token, level: nat) {
    Starter(t) && (level >= 8 ==> t != Punct(Minus)) && (level >= 1 ==> !LoopWord(t))
  }

  /** The part a form starts with, and the level it is written at. */
  function LeftPart(e: Node): Option<(Node, nat)> {
    match e
    case Binary(op, l, _) => Some((l, LeftLevel(op)))
    case BetweenNode(x, _, _) => Some((x, 4))
    case InNode(x, _) => Some((x, 4))
    case PathNode(x, _) => Some((x, 8))
    case FilterNode(x, _) => Some((x, 8))
    case _ => None
  }

  lemma {:induction false} Head(phrases: set<seq<Word>>, e: Node, level: nat)
    requires Writable(phrases, e) && Phrases(phrases)
    ensures GoodHead(Print(e, level)[0], level)
    decreases e
  {
    if Level(e) >= level && LeftPart(e).Some? {
      Head(phrases, LeftPart(e).value.0, LeftPart(e).value.1);
    }
  }

  /** At any level but the weakest, no expression starts with a call of "time". */
  lemma {:induction false} NotTimeCall(phrases: set<seq<Word>>, e: Node, level: nat)
    requires level >= 1 && Writable(phrases, e) && Phrases(phrases)
    ensures var ts := Print(e, level); ts[0] == Name(Plain("time")) && |ts| > 1 ==> ts[1] != Punct(OpenParen)
    decreases e
  {
    if Level(e) >= level {
      if LeftPart(e).Some? {
        LeftPartFirst(phrases, e);
        NotTimeCall(phrases, LeftPart(e).value.0, LeftPart(e).value.1);
      } else {
        NotTimeCallAlone(phrases, e);
      }
    }
  }

  /** A form starts with its left part, and what comes after that is not an opening parenthesis. */
  lemma LeftPartFirst(phrases: set<seq<Word>>, e: Node)
    requires Writable(phrases, e) && LeftPart(e).Some?
    ensures var (x, level) := LeftPart(e).value; var left := Print(x, level);
            && Writable(phrases, x) && level >= 1 && |left| < |Bare(e)| && Bare(e)[0] == left[0]
            && Bare(e)[1] == (if |left| > 1 then left[1] else Bare(e)[1]) && (|left| == 1 ==> Bare(e)[1] != Punct(OpenParen))
  {
  }

  lemma NotTimeCallAlone(phrases: set<seq<Word>>, e: Node)
    requires Writable(phrases, e) && Phrases(phrases) && LeftPart(e).None? && Level(e) >= 1
    ensures var ts := Bare(e); ts[0] == Name(Plain("time")) && |ts| > 1 ==> ts[1] != Punct(OpenParen)
  {
  }

  /** An expression that starts with a minus goes on with an operand. */
  lemma {:induction false} MinusHasOperand(phrases: set<seq<Word>>, e: Node, level: nat)
    requires Writable(phrases, e) && Phrases(phrases)
    ensures var ts := Print(e, level); ts[0] == Punct(Minus) ==> |ts| > 1 && Starter(ts[1])
    decreases e
  {
    if Level(e) >= level {
      if LeftPart(e).Some? {
        LeftPartFirst(phrases, e);
        MinusHasOperand(phrases, LeftPart(e).value.0, LeftPart(e).value.1);
      } else if e.Negation? {
        Head(phrases, e.x, 7);
      }
    }
  }

  // ----- the names at the front -----

  /** The first token that is not a name, if there is one. */
  function FirstMark(ts: seq<Token>): Option<Token> {
    if ts == [] then None else if ts[0].Name? then FirstMark(ts[1..]) else Some(ts[0])
  }

  lemma {:induction false} FirstMarkAppend(a: seq<Token>, b: seq<Token>)
    ensures FirstMark(a + b) == if FirstMark(a).Some? then FirstMark(a) else FirstMark(b)
  {
    if a == [] {
      assert a + b == b;
    } else {
      assert (a + b)[1..] == a[1..] + b;
      FirstMarkAppend(a[1..], b);
    }
  }

  lemma FirstMarkName(w: Word, b: seq<Token>)
    ensures FirstMark([Name(w)] + b) == FirstMark(b)
  {
    assert ([Name(w)] + b)[1..] == b;
  }

  lemma {:induction false} FirstMarkOfNames(words: seq<Word>)
    ensures FirstMark(Names(words)) == None
  {
    if words != [] {
      assert Names(words)[1..] == Names(words[1..]);
      FirstMarkOfNames(words[1..]);
    }
  }

  predicate NoColon(ts: seq<Token>) {
    FirstMark(ts) != Some(Punct(Colon))
  }

  lemma NoColonAppend(a: seq<Token>, b: seq<Token>)
    requires NoColon(a) && NoColon(b)
    ensures NoColon(a + b)
  {
    FirstMarkAppend(a, b);
  }

  lemma NoColonThen(a: seq<Token>, t: Token, b: seq<Token>)
    requires NoColon(a) && NoColon(b) && t != Punct(Colon)
    ensures NoColon(a + ([t] + b))
  {
    assert ([t] + b)[1..] == b;
    NoColonAppend(a, [t] + b);
  }

  /** A written expression never looks like the name of a named argument. */
  lemma {:induction false} NoColonFirst(phrases: set<seq<Word>>, e: Node, level: nat)
    requires Writable(phrases, e) && Phrases(phrases)
    ensures NoColon(Print(e, level))
    decreases e, 2
  {
    if Level(e) >= level {
      NoColonBare(phrases, e);
    }
  }

  lemma {:induction false} NoColonBare(phrases: set<seq<Word>>, e: Node)
    requires Writable(phrases, e) && Phrases(phrases)
    ensures NoColon(Bare(e))
    decreases e, 1
  {
    match e
    case Binary(op, l, r) =>
      NoColonFirst(phrases, l, LeftLevel(op));
      NoColonFirst(phrases, r, RightLevel(op));
      NoColonThen(Print(l, LeftLevel(op)), OperatorToken(op), Print(r, RightLevel(op)));
    case BetweenNode(x, lo, hi) =>
      NoColonFirst(phrases, x, 4);
      NoColonFirst(phrases, lo, 4);
      NoColonFirst(phrases, hi, 4);
      NoColonThen(Print(lo, 4), Name(And), Print(hi, 4));
      NoColonThen(Print(x, 4), Name(Between), Print(lo, 4) + ([Name(And)] + Print(hi, 4)));
    case InNode(x, tests) =>
      NoColonFirst(phrases, x, 4);
      var tail := [Name(In), Punct(OpenParen)] + PrintItems(tests, CloseParen);
      assert tail[1..][0] == Punct(OpenParen);
      NoColonAppend(Print(x, 4), tail);
    case IfNode(cond, yes, no) =>
      NoColonFirst(phrases, cond, 0);
      NoColonFirst(phrases, yes, 0);
      NoColonFirst(phrases, no, 0);
      var last := Print(yes, 0) + ([Name(Else)] + Print(no, 0));
      NoColonThen(Print(yes, 0), Name(Else), Print(no, 0));
      NoColonThen(Print(cond, 0), Name(Then), last);
      FirstMarkName(If, Print(cond, 0) + ([Name(Then)] + last));
    case ForNode(iters, body) =>
      NoColonLoop(phrases, e, For, iters, Return, body);
    case QuantNode(every, iters, cond) =>
      NoColonLoop(phrases, e, if every then Every else SomeOf, iters, Satisfies, cond);
    case PathNode(x, name) =>
      NoColonFirst(phrases, x, 8);
      NoColonAppend(Print(x, 8), [Punct(Dot), StringToken(name)]);
    case FilterNode(x, cond) =>
      NoColonFirst(phrases, x, 8);
      NoColonAppend(Print(x, 8), [Punct(OpenBracket)] + (Print(cond, 0) + [Punct(CloseBracket)]));
    case CallNode(fn, args, _) =>
      FirstMarkOfNames(fn);
      NoColonAppend(Names(fn), [Punct(OpenParen)] + (if args == [] then [Punct(CloseParen)] else PrintItems(args, CloseParen)));
    case NotTest(tests) =>
      assert Bare(e)[1..][0] == Punct(OpenParen);
    case _ =>
  }

  lemma {:induction false} NoColonLoop(phrases: set<seq<Word>>, e: Node, open: Word, iters: seq<Iterator>, close: Word, body: Node)
    requires Writable(phrases, e) && Phrases(phrases) && IsLoop(e, open, close, iters, body)
    ensures NoColon([Name(open)] + (PrintIterators(iters) + ([Name(close)] + Print(body, 0))))
    decreases e, 0
  {
    NoColonIterators(phrases, iters);
    NoColonFirst(phrases, body, 0);
    NoColonThen(PrintIterators(iters), Name(close), Print(body, 0));
    FirstMarkName(open, PrintIterators(iters) + ([Name(close)] + Print(body, 0)));
  }

  lemma {:induction false} NoColonIterators(phrases: set<seq<Word>>, iters: seq<Iterator>)
    requires WritableIterators(phrases, iters) && Phrases(phrases)
    ensures NoColon(PrintIterators(iters))
    decreases iters, 3
  {
    if iters != [] {
      var source := Print(iters[0].source, 1);
      var tail := if |iters| == 1 then [] else [Punct(Comma)] + PrintIterators(iters[1..]);
      NoColonFirst(phrases, iters[0].source, 1);
      NoColonAppend(source, tail);
      var opening := [Name(WordOf(iters[0].name)), Name(In)];
      assert opening[1..] == [Name(In)] && FirstMark([Name(In)]) == None;
      NoColonAppend(opening, source + tail);
    }
  }

  /** So the parser takes it for a positional argument. */
  lemma {:induction false} NoNamedArgument(src: Source, pos: nat, i: nat, ts: seq<Token>)
    requires Ended(src) && pos + i < |src.toks| && i <= 4 && (forall k :: pos <= k < pos + i ==> src.toks[k].Name?)
    requires Holds(src.toks, pos + i, ts) && FirstMark(ts).Some? && NoColon(ts)
    ensures NamedSpan(src, pos, i) == 0
    decreases 4 - i
  {
    HoldsAt(src.toks, pos + i, ts, 0);
    if i < 4 && ts[0].Name? {
      assert ts == [ts[0]] + ts[1..];
      HoldsFirst(src.toks, pos + i, ts[0], ts[1..]);
      NoNamedArgument(src, pos, i + 1, ts[1..]);
    }
  }

  // ----- the search for ".." -----

  /** What the search sees in some tokens: a verdict, or the depth it goes on at. */
  datatype Scanned = Verdict(range: bool) | Depth(d: int)

  function ScanSeq(ts: seq<Token>, d: int): Scanned {
    if ts == [] then Depth(d)
    else if ts[0] == Eof then Verdict(false)
    else if Opens(ts[0]) then ScanSeq(ts[1..], d + 1)
    else if Closes(ts[0]) then (if d > 1 then ScanSeq(ts[1..], d - 1) else Verdict(false))
    else if ts[0] == Punct(DotDot) && d == 1 then Verdict(true)
    else if ts[0] == Punct(Comma) && d == 1 then Verdict(false)
    else ScanSeq(ts[1..], d)
  }

  function Onward(r: Scanned, b: seq<Token>): Scanned {
    if r.Verdict? then r else ScanSeq(b, r.d)
  }

  lemma {:induction false} ScanAppend(a: seq<Token>, b: seq<Token>, d: int)
    ensures ScanSeq(a + b, d) == Onward(ScanSeq(a, d), b)
    decreases |a|
  {
    if a == [] {
      assert a + b == b;
    } else {
      assert (a + b)[1..] == a[1..] + b;
      ScanAppend(a[1..], b, d);
      ScanAppend(a[1..], b, d + 1);
      ScanAppend(a[1..], b, d - 1);
    }
  }

  lemma ScanToken(t: Token, b: seq<Token>, d: int)
    ensures ScanSeq([t] + b, d) == Onward(ScanSeq([t], d), b)
    ensures ScanSeq([t], d) == if t == Eof then Verdict(false)
                               else if Opens(t) then Depth(d + 1)
                               else if Closes(t) then (if d > 1 then Depth(d - 1) else Verdict(false))
                               else if t == Punct(DotDot) && d == 1 then Verdict(true)
                               else if t == Punct(Comma) && d == 1 then Verdict(false)
                               else Depth(d)
  {
    assert [t][1..] == [];
    ScanAppend([t], b, d);
  }

  /** The search through the token list is the search through the tokens that stand there. */
  lemma {:induction false} ScanHolds(toks: seq<Token>, pos: nat, ts: seq<Token>, d: int)
    requires Holds(toks, pos, ts)
    ensures Scan(toks, pos, d) == var r := ScanSeq(ts, d); if r.Verdict? then r.range else Scan(toks, pos + |ts|, r.d)
    decreases |ts|
  {
    if ts != [] {
      assert ts == [ts[0]] + ts[1..];
      HoldsFirst(toks, pos, ts[0], ts[1..]);
      ScanHolds(toks, pos + 1, ts[1..], d);
      ScanHolds(toks, pos + 1, ts[1..], d + 1);
      ScanHolds(toks, pos + 1, ts[1..], d - 1);
    }
  }

  /** Inside brackets the tokens leave the depth as it was; just inside the bracket in question an
      unparenthesized expression may also end the search, at the comma of a for or a quantifier. */
  predicate Skipped(ts: seq<Token>, d: int, weakest: bool) {
    ScanSeq(ts, d) == Depth(d) || (d == 1 && weakest && ScanSeq(ts, d) == Verdict(false))
  }

  predicate Neutral(t: Token) {
    t != Eof && !Opens(t) && !Closes(t) && t != Punct(DotDot) && t != Punct(Comma)
  }

  lemma SkippedThen(a: seq<Token>, t: Token, b: seq<Token>, d: int, weakest: bool)
    requires Skipped(a, d, weakest) && Neutral(t) && Skipped(b, d, weakest)
    ensures Skipped(a + ([t] + b), d, weakest)
  {
    ScanAppend(a, [t] + b, d);
    ScanToken(t, b, d);
  }

  lemma SkippedToken(t: Token, d: int, weakest: bool)
    requires Neutral(t)
    ensures Skipped([t], d, weakest)
  {
    ScanToken(t, [], d);
  }

  lemma SkippedAfter(t: Token, b: seq<Token>, d: int, weakest: bool)
    requires Neutral(t) && Skipped(b, d, weakest)
    ensures Skipped([t] + b, d, weakest)
  {
    ScanToken(t, b, d);
  }

  /** Something in brackets is skipped whatever it holds, as long as that is skipped inside. */
  lemma SkippedEnclosed(open: Token, body: seq<Token>, close: Token, d: int, weakest: bool)
    requires d >= 1 && Opens(open) && Closes(close) && Skipped(body, d + 1, true)
    ensures Skipped([open] + (body + [close]), d, weakest)
  {
    ScanToken(open, body + [close], d);
    ScanAppend(body, [close], d + 1);
    ScanToken(close, [], d + 1);
  }

  /** The same where the closing bracket is written with the contents. */
  lemma SkippedOpened(open: Token, body: seq<Token>, d: int, weakest: bool)
    requires d >= 1 && Opens(open) && ScanSeq(body, d + 1) == Depth(d)
    ensures Skipped([open] + body, d, weakest)
  {
    ScanToken(open, body, d);
  }

  lemma {:induction false} SkipPrint(phrases: set<seq<Word>>, e: Node, level: nat, d: int)
    requires d >= 1 && WritableTest(phrases, e)
    ensures Skipped(Print(e, level), d, level == 0)
    decreases e, 4
  {
    if Level(e) >= level {
      SkipBare(phrases, e, d, level == 0);
    } else {
      SkipBare(phrases, e, d + 1, true);
      SkippedEnclosed(Punct(OpenParen), Bare(e), Punct(CloseParen), d, level == 0);
    }
  }

  lemma {:induction false} SkipBare(phrases: set<seq<Word>>, e: Node, d: int, weakest: bool)
    requires d >= 1 && WritableTest(phrases, e) && (weakest || Level(e) > 0 || e.CallNode?)
    ensures Skipped(Bare(e), d, weakest)
    decreases e, 3
  {
    hide Print, PrintItems, PrintIterators, Skipped, ScanSeq;
    match e
    case Literal(v) => SkippedToken(LiteralToken(v), d, weakest);
    case Variable(name) => SkippedToken(Name(WordOf(name)), d, weakest);
    case AnyTest => SkippedToken(Punct(Minus), d, weakest);
    case CompareTest(op, x) =>
      SkipPrint(phrases, x, 4, d);
      SkippedAfter(OperatorToken(op), Print(x, 4), d, weakest);
    case Negation(x) =>
      SkipPrint(phrases, x, 7, d);
      SkippedAfter(Punct(Minus), Print(x, 7), d, weakest);
    case Binary(op, l, r) =>
      SkipPrint(phrases, l, LeftLevel(op), d);
      SkipPrint(phrases, r, RightLevel(op), d);
      SkippedThen(Print(l, LeftLevel(op)), OperatorToken(op), Print(r, RightLevel(op)), d, weakest);
    case BetweenNode(_, _, _) => SkipBetween(phrases, e, d, weakest);
    case InNode(x, tests) => SkipIn(phrases, e, d, weakest);
    case IfNode(_, _, _) => SkipIf(phrases, e, d, weakest);
    case ForNode(iters, body) => SkipLoop(phrases, e, For, iters, Return, body, d, weakest);
    case QuantNode(every, iters, cond) => SkipLoop(phrases, e, if every then Every else SomeOf, iters, Satisfies, cond, d, weakest);
    case _ => SkipBracketed(phrases, e, d, weakest);
  }

  lemma {:induction false} SkipBetween(phrases: set<seq<Word>>, e: Node, d: int, weakest: bool)
    requires d >= 1 && Writable(phrases, e) && e.BetweenNode?
    ensures Skipped(Bare(e), d, weakest)
    decreases e, 2
  {
    hide Print, Writable, ScanSeq;
    WritableParts(phrases, e);
    SkipPart(phrases, e.x, 4, d);
    SkipPart(phrases, e.lo, 4, d);
    SkipPart(phrases, e.hi, 4, d);
    SkippedThen(Print(e.lo, 4), Name(And), Print(e.hi, 4), d, weakest);
    SkippedThen(Print(e.x, 4), Name(Between), Print(e.lo, 4) + ([Name(And)] + Print(e.hi, 4)), d, weakest);
  }

  lemma {:induction false} SkipIf(phrases: set<seq<Word>>, e: Node, d: int, weakest: bool)
    requires d >= 1 && weakest && Writable(phrases, e) && e.IfNode?
    ensures Skipped(Bare(e), d, weakest)
    decreases e, 2
  {
    hide Print, Writable, ScanSeq;
    WritableParts(phrases, e);
    SkipPart(phrases, e.cond, 0, d);
    SkipPart(phrases, e.yes, 0, d);
    SkipPart(phrases, e.no, 0, d);
    var last := Print(e.yes, 0) + ([Name(Else)] + Print(e.no, 0));
    SkippedThen(Print(e.yes, 0), Name(Else), Print(e.no, 0), d, weakest);
    SkippedThen(Print(e.cond, 0), Name(Then), last, d, weakest);
    SkippedAfter(Name(If), Print(e.cond, 0) + ([Name(Then)] + last), d, weakest);
  }

  /** An expression, as against a test. */
  lemma {:induction false} SkipPart(phrases: set<seq<Word>>, e: Node, level: nat, d: int)
    requires d >= 1 && Writable(phrases, e)
    ensures Skipped(Print(e, level), d, level == 0)
    decreases e, 5
  {
    WritableParts(phrases, e);
    SkipPrint(phrases, e, level, d);
  }

  lemma {:induction false} SkipIn(phrases: set<seq<Word>>, e: Node, d: int, weakest: bool)
    requires d >= 1 && Writable(phrases, e) && e.InNode?
    ensures Skipped(Bare(e), d, weakest)
    decreases e, 2
  {
    SkipPrint(phrases, e.x, 4, d);
    SkipItems(phrases, e.tests, CloseParen, d + 1);
    SkippedOpened(Punct(OpenParen), PrintItems(e.tests, CloseParen), d, false);
    assert [Name(In), Punct(OpenParen)] + PrintItems(e.tests, CloseParen) == [Name(In)] + ([Punct(OpenParen)] + PrintItems(e.tests, CloseParen));
    SkippedThen(Print(e.x, 4), Name(In), [Punct(OpenParen)] + PrintItems(e.tests, CloseParen), d, weakest);
  }

  lemma {:induction false} SkipLoop(phrases: set<seq<Word>>, e: Node, open: Word, iters: seq<Iterator>, close: Word, body: Node, d: int, weakest: bool)
    requires d >= 1 && weakest && Writable(phrases, e) && IsLoop(e, open, close, iters, body)
    ensures Skipped(Bare(e), d, weakest)
    decreases e, 2
  {
    hide Print, PrintIterators, Writable, ScanSeq;
    WritableParts(phrases, e);
    SkipIterators(phrases, iters, d);
    SkipPart(phrases, body, 0, d);
    SkippedThen(PrintIterators(iters), Name(close), Print(body, 0), d, weakest);
    SkippedAfter(Name(open), PrintIterators(iters) + ([Name(close)] + Print(body, 0)), d, weakest);
  }

  /** The forms that end in a bracket of their own. */
  lemma {:induction false} SkipBracketed(phrases: set<seq<Word>>, e: Node, d: int, weakest: bool)
    requires d >= 1 && Writable(phrases, e)
    requires e.ListNode? || e.ContextNode? || e.RangeNode? || e.PathNode? || e.FilterNode? || e.CallNode? || e.NotTest?
    ensures Skipped(Bare(e), d, weakest)
    decreases e, 2
  {
    hide Print, PrintItems, PrintFields, Writable, ScanSeq;
    WritableParts(phrases, e);
    match e
    case ListNode(items) =>
      if items == [] {
        ScanToken(Punct(CloseBracket), [], d + 1);
      } else {
        AllAreTests(phrases, items);
        SkipItems(phrases, items, CloseBracket, d + 1);
      }
      SkippedOpened(Punct(OpenBracket), if items == [] then [Punct(CloseBracket)] else PrintItems(items, CloseBracket), d, weakest);
    case ContextNode(fields) =>
      if fields == [] {
        ScanToken(Punct(CloseBrace), [], d + 1);
      } else {
        SkipFields(phrases, fields, d + 1);
      }
      SkippedOpened(Punct(OpenBrace), if fields == [] then [Punct(CloseBrace)] else PrintFields(fields), d, weakest);
    case RangeNode(_, _, _, _) => SkipRange(phrases, e, d, weakest);
    case NotTest(tests) =>
      SkipItems(phrases, tests, CloseParen, d + 1);
      SkippedOpened(Punct(OpenParen), PrintItems(tests, CloseParen), d, weakest);
      assert Bare(e) == [Name(Not)] + ([Punct(OpenParen)] + PrintItems(tests, CloseParen));
      SkippedAfter(Name(Not), [Punct(OpenParen)] + PrintItems(tests, CloseParen), d, weakest);
    case PathNode(_, _) => SkipTrailing(phrases, e, d, weakest);
    case FilterNode(_, _) => SkipTrailing(phrases, e, d, weakest);
    case CallNode(_, _, _) => SkipTrailing(phrases, e, d, weakest);
  }

  /** A path, a filter or a call: something before its own brackets. */
  lemma {:induction false} SkipTrailing(phrases: set<seq<Word>>, e: Node, d: int, weakest: bool)
    requires d >= 1 && Writable(phrases, e) && (e.PathNode? || e.FilterNode? || e.CallNode?)
    ensures Skipped(Bare(e), d, weakest)
    decreases e, 1
  {
    hide Print, PrintItems, Writable, ScanSeq;
    WritableParts(phrases, e);
    match e
    case PathNode(x, name) =>
      SkipPart(phrases, x, 8, d);
      SkippedToken(StringToken(name), d, weakest);
      assert [Punct(Dot), StringToken(name)] == [Punct(Dot)] + [StringToken(name)];
      SkippedThen(Print(x, 8), Punct(Dot), [StringToken(name)], d, weakest);
    case FilterNode(x, cond) =>
      SkipPart(phrases, x, 8, d);
      SkipPart(phrases, cond, 0, d + 1);
      SkippedEnclosed(Punct(OpenBracket), Print(cond, 0), Punct(CloseBracket), d, false);
      ScanAppend(Print(x, 8), [Punct(OpenBracket)] + (Print(cond, 0) + [Punct(CloseBracket)]), d);
    case CallNode(fn, args, _) =>
      SkipNames(fn, d);
      if args == [] {
        ScanToken(Punct(CloseParen), [], d + 1);
      } else {
        AllAreTests(phrases, args);
        SkipItems(phrases, args, CloseParen, d + 1);
      }
      var tail := if args == [] then [Punct(CloseParen)] else PrintItems(args, CloseParen);
      SkippedOpened(Punct(OpenParen), tail, d, false);
      ScanAppend(Names(fn), [Punct(OpenParen)] + tail, d);
  }

  lemma {:induction false} SkipRange(phrases: set<seq<Word>>, e: Node, d: int, weakest: bool)
    requires d >= 1 && Writable(phrases, e) && e.RangeNode?
    ensures Skipped(Bare(e), d, weakest)
    decreases e, 1
  {
    hide Print, Writable;
    WritableParts(phrases, e);
    var open, close := Punct(if e.loClosed then OpenBracket else OpenParen), Punct(if e.hiClosed then CloseBracket else CloseParen);
    SkipPrint(phrases, e.lo, 4, d + 1);
    SkipPrint(phrases, e.hi, 4, d + 1);
    ScanRange(open, Print(e.lo, 4), Print(e.hi, 4), close, d);
  }

  lemma ScanRange(open: Token, lo: seq<Token>, hi: seq<Token>, close: Token, d: int)
    requires d >= 1 && Opens(open) && Closes(close) && Skipped(lo, d + 1, false) && Skipped(hi, d + 1, false)
    ensures ScanSeq([open] + (lo + ([Punct(DotDot)] + (hi + [close]))), d) == Depth(d)
  {
    hide ScanSeq;
    var tail := [Punct(DotDot)] + (hi + [close]);
    ScanToken(open, lo + tail, d);
    ScanAppend(lo, tail, d + 1);
    ScanToken(Punct(DotDot), hi + [close], d + 1);
    ScanAppend(hi, [close], d + 1);
    ScanToken(close, [], d + 1);
    assert [close] + [] == [close];
  }

  lemma {:induction false} SkipNames(words: seq<Word>, d: int)
    ensures ScanSeq(Names(words), d) == Depth(d)
  {
    if words != [] {
      assert Names(words)[1..] == Names(words[1..]);
      SkipNames(words[1..], d);
    }
  }

  /** One thing of a separated list: below the bracket in question the list closes its bracket; in
      it, the first comma or the closing bracket ends the search. */
  lemma ScanSeparated(head: seq<Token>, tail: seq<Token>, single: bool, close: Token, d: int)
    requires d >= 1 && Skipped(head, d, true) && Closes(close)
    requires !single && d >= 2 ==> ScanSeq(tail, d) == Depth(d - 1)
    ensures ScanSeq(head + (if single then [close] else [Punct(Comma)] + tail), d) == if d >= 2 then Depth(d - 1) else Verdict(false)
  {
    ScanAppend(head, if single then [close] else [Punct(Comma)] + tail, d);
    ScanToken(close, [], d);
    ScanToken(Punct(Comma), tail, d);
  }

  lemma {:induction false} SkipItems(phrases: set<seq<Word>>, items: seq<Node>, close: Mark, d: int)
    requires d >= 1 && items != [] && WritableTests(phrases, items) && Closes(Punct(close))
    ensures ScanSeq(PrintItems(items, close), d) == if d >= 2 then Depth(d - 1) else Verdict(false)
    decreases items, 6
  {
    hide Print, ScanSeq;
    SkipPrint(phrases, items[0], 0, d);
    if |items| > 1 && d >= 2 {
      SkipItems(phrases, items[1..], close, d);
    }
    ScanSeparated(Print(items[0], 0), PrintItems(items[1..], close), |items| == 1, Punct(close), d);
  }

  lemma {:induction false} SkipFields(phrases: set<seq<Word>>, fields: seq<Entry>, d: int)
    requires d >= 1 && fields != [] && WritableFields(phrases, fields)
    ensures ScanSeq(PrintFields(fields), d) == if d >= 2 then Depth(d - 1) else Verdict(false)
    decreases fields, 6
  {
    hide Print, ScanSeq;
    SkipPrint(phrases, fields[0].value, 0, d);
    if |fields| > 1 && d >= 2 {
      SkipFields(phrases, fields[1..], d);
    }
    var rest := Print(fields[0].value, 0) + (if |fields| == 1 then [Punct(CloseBrace)] else [Punct(Comma)] + PrintFields(fields[1..]));
    ScanSeparated(Print(fields[0].value, 0), PrintFields(fields[1..]), |fields| == 1, Punct(CloseBrace), d);
    assert PrintFields(fields) == [StringToken(fields[0].key)] + ([Punct(Colon)] + rest);
    ScanToken(StringToken(fields[0].key), [Punct(Colon)] + rest, d);
    ScanToken(Punct(Colon), rest, d);
  }

  lemma {:induction false} SkipIterators(phrases: set<seq<Word>>, iters: seq<Iterator>, d: int)
    requires d >= 1 && WritableIterators(phrases, iters)
    ensures Skipped(PrintIterators(iters), d, true)
    decreases iters, 6
  {
    hide Print, ScanSeq;
    if iters == [] {
      ScanNothing(d);
    } else {
      SkipPrint(phrases, iters[0].source, 1, d);
      SkipIterators(phrases, iters[1..], d);
      ScanIterator(Name(WordOf(iters[0].name)), Print(iters[0].source, 1), |iters| == 1, PrintIterators(iters[1..]), d);
    }
  }

  lemma ScanNothing(d: int)
    ensures ScanSeq([], d) == Depth(d)
  {
  }

  lemma ScanIterator(name: Token, source: seq<Token>, single: bool, more: seq<Token>, d: int)
    requires d >= 1 && Neutral(name) && Skipped(source, d, false) && Skipped(more, d, true)
    ensures Skipped([name, Name(In)] + (source + (if single then [] else [Punct(Comma)] + more)), d, true)
  {
    hide ScanSeq;
    var tail := if single then [] else [Punct(Comma)] + more;
    ScanNothing(d);
    ScanAppend(source, tail, d);
    ScanToken(Punct(Comma), more, d);
    SkippedAfter(Name(In), source + tail, d, true);
    SkippedAfter(name, [Name(In)] + (source + tail), d, true);
    assert [name, Name(In)] + (source + tail) == [name] + ([Name(In)] + (source + tail));
  }
}
