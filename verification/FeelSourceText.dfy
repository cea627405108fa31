/** From an expression to its source text and back, through the lexer and the parser. */
module FeelSourceText {

  import opened Wrappers
  import opened FeelSyntax
  import opened FeelGrammar
  import opened FeelPrinter
  import opened FeelLexer
  import FeelNumberText
  import FeelRoundTrip

  predicate WordText(u: Unicode, w: Word) { Lexable(u, Name(w)) }

  /** The names in an expression are ones the lexer reads as one name. */
  predicate Named(u: Unicode, e: Node) {
    match e
    case Literal(_) => true
    case AnyTest => true
    case Variable(name) => NameText(u, name)
    case Negation(x) => Named(u, x)
    case Binary(_, l, r) => Named(u, l) && Named(u, r)
    case BetweenNode(x, lo, hi) => Named(u, x) && Named(u, lo) && Named(u, hi)
    case InNode(x, tests) => Named(u, x) && forall i :: 0 <= i < |tests| ==> Named(u, tests[i])
    case IfNode(cond, yes, no) => Named(u, cond) && Named(u, yes) && Named(u, no)
    case ForNode(iters, body) => Named(u, body) && forall i :: 0 <= i < |iters| ==> NameText(u, iters[i].name) && Named(u, iters[i].source)
    case QuantNode(_, iters, cond) => Named(u, cond) && forall i :: 0 <= i < |iters| ==> NameText(u, iters[i].name) && Named(u, iters[i].source)
    case ListNode(items) => forall i :: 0 <= i < |items| ==> Named(u, items[i])
    case ContextNode(fields) => forall i :: 0 <= i < |fields| ==> Named(u, fields[i].value)
    case RangeNode(lo, hi, _, _) => Named(u, lo) && Named(u, hi)
    case PathNode(x, _) => Named(u, x)
    case FilterNode(x, cond) => Named(u, x) && Named(u, cond)
    case CallNode(fn, args, _) => (forall i :: 0 <= i < |fn| ==> WordText(u, fn[i])) && forall i :: 0 <= i < |args| ==> Named(u, args[i])
    case CompareTest(_, x) => Named(u, x)
    case NotTest(tests) => forall i :: 0 <= i < |tests| ==> Named(u, tests[i])
  }

  predicate AllLexable(u: Unicode, ts: seq<Token>) {
    forall i :: 0 <= i < |ts| ==> Lexable(u, ts[i])
  }

  predicate Keyword(w: Word) { !w.Plain? }

  lemma KeywordText(u: Unicode, w: Word)
    requires Sensible(u) && Keyword(w)
    ensures Lexable(u, Name(w))
  {
    var s := TextOf(w);
    assert WordOf(s) == w;
    assert s != "" && forall k :: 0 <= k < |s| ==> 'a' <= s[k] <= 'z';
  }

  lemma VariableText(u: Unicode, name: string)
    requires NameText(u, name)
    ensures Lexable(u, Name(WordOf(name)))
  {
    assert TextOf(WordOf(name)) == name;
  }

  lemma LiteralText(u: Unicode, v: Value)
    requires Sensible(u) && WritableLiteral(v)
    ensures Lexable(u, LiteralToken(v))
  {
    match v
    case Numeric(n) => FeelNumberText.FormatIsNumeral(n);
    case Text(_) =>
    case Boolean(b) => KeywordText(u, if b then True else False);
    case Null => KeywordText(u, NullWord);
  }

  lemma OperatorText(u: Unicode, op: BinaryOp)
    requires Sensible(u)
    ensures Lexable(u, OperatorToken(op))
  {
    KeywordText(u, And);
    KeywordText(u, Or);
  }

  lemma KeywordsText(u: Unicode)
    requires Sensible(u)
    ensures forall w :: Keyword(w) ==> Lexable(u, Name(w))
  {
    forall w | Keyword(w) ensures Lexable(u, Name(w)) {
      KeywordText(u, w);
    }
  }

  lemma {:induction false} PrintLexable(u: Unicode, phrases: set<seq<Word>>, e: Node, level: nat)
    requires Sensible(u) && WritableTest(phrases, e) && Named(u, e)
    ensures AllLexable(u, Print(e, level))
    decreases e, 3
  {
    hide Lexable;
    BareLexable(u, phrases, e);
    MarksLexable(u);
  }

  lemma MarksLexable(u: Unicode)
    ensures (forall m :: Lexable(u, Punct(m))) && forall s :: Lexable(u, StringToken(s))
  {
  }

  lemma {:induction false} BareLexable(u: Unicode, phrases: set<seq<Word>>, e: Node)
    requires Sensible(u) && WritableTest(phrases, e) && Named(u, e)
    ensures AllLexable(u, Bare(e))
    decreases e, 2
  {
    hide Lexable, Print, PrintItems, PrintIterators, PrintFields, NameText, Sensible, Writable, WritableTest;
    WritableTestParts(phrases, e);
    match e
    case AnyTest => MarksLexable(u);
    case CompareTest(op, x) => OperatorText(u, op); ExprLexable(u, phrases, x, 4);
    case Literal(v) => WritableParts(phrases, e); LiteralText(u, v);
    case Variable(name) => VariableText(u, name);
    case Negation(x) => WritableParts(phrases, e); MarksLexable(u); ExprLexable(u, phrases, x, 7);
    case Binary(op, l, r) =>
      WritableParts(phrases, e);
      OperatorText(u, op);
      ExprLexable(u, phrases, l, if IsComparison(op) then 4 else OperatorLevel(op));
      ExprLexable(u, phrases, r, if IsComparison(op) then 4 else OperatorLevel(op) + 1);
    case BetweenNode(_, _, _) => WordyLexable(u, phrases, e);
    case InNode(_, _) => WordyLexable(u, phrases, e);
    case IfNode(_, _, _) => WordyLexable(u, phrases, e);
    case ForNode(_, _) => LoopLexable(u, phrases, e);
    case QuantNode(_, _, _) => LoopLexable(u, phrases, e);
    case _ => BracketedLexable(u, phrases, e);
  }

  /** The forms with keywords. */
  lemma {:induction false} WordyLexable(u: Unicode, phrases: set<seq<Word>>, e: Node)
    requires Sensible(u) && Writable(phrases, e) && Named(u, e)
    requires e.BetweenNode? || e.InNode? || e.IfNode?
    ensures AllLexable(u, Bare(e))
    decreases e, 0
  {
    hide Lexable, Print, PrintItems, PrintIterators, PrintFields, NameText, Sensible, Writable, WritableTest;
    WritableParts(phrases, e);
    KeywordsText(u);
    MarksLexable(u);
    match e
    case BetweenNode(x, lo, hi) => ExprLexable(u, phrases, x, 4); ExprLexable(u, phrases, lo, 4); ExprLexable(u, phrases, hi, 4);
    case InNode(x, tests) => ExprLexable(u, phrases, x, 4); ItemsLexable(u, phrases, tests, CloseParen);
    case IfNode(cond, yes, no) => ExprLexable(u, phrases, cond, 0); ExprLexable(u, phrases, yes, 0); ExprLexable(u, phrases, no, 0);
  }

  lemma {:induction false} LoopLexable(u: Unicode, phrases: set<seq<Word>>, e: Node)
    requires Sensible(u) && Writable(phrases, e) && Named(u, e) && (e.ForNode? || e.QuantNode?)
    ensures AllLexable(u, Bare(e))
    decreases e, 0
  {
    hide Lexable, Print, PrintItems, PrintIterators, PrintFields, NameText, Sensible, Writable, WritableTest;
    WritableParts(phrases, e);
    KeywordsText(u);
    match e
    case ForNode(iters, body) => IteratorsLexable(u, phrases, iters); ExprLexable(u, phrases, body, 0);
    case QuantNode(_, iters, cond) => IteratorsLexable(u, phrases, iters); ExprLexable(u, phrases, cond, 0);
  }

  /** The forms with brackets or a point. */
  lemma {:induction false} BracketedLexable(u: Unicode, phrases: set<seq<Word>>, e: Node)
    requires Sensible(u) && Writable(phrases, e) && Named(u, e)
    requires e.ListNode? || e.ContextNode? || e.RangeNode? || e.PathNode? || e.FilterNode? || e.CallNode? || e.NotTest?
    ensures AllLexable(u, Bare(e))
    decreases e, 1
  {
    hide Lexable, Print, PrintItems, PrintIterators, PrintFields, NameText, Sensible, Writable, WritableTest;
    WritableParts(phrases, e);
    MarksLexable(u);
    match e
    case ListNode(_) => CollectionLexable(u, phrases, e);
    case ContextNode(_) => CollectionLexable(u, phrases, e);
    case RangeNode(lo, hi, _, _) => ExprLexable(u, phrases, lo, 4); ExprLexable(u, phrases, hi, 4);
    case PathNode(x, _) => ExprLexable(u, phrases, x, 8);
    case FilterNode(x, cond) => ExprLexable(u, phrases, x, 8); ExprLexable(u, phrases, cond, 0);
    case CallNode(_, _, _) => CallLexable(u, phrases, e);
    case NotTest(_) => CallLexable(u, phrases, e);
  }

  lemma {:induction false} CollectionLexable(u: Unicode, phrases: set<seq<Word>>, e: Node)
    requires Sensible(u) && Writable(phrases, e) && Named(u, e) && (e.ListNode? || e.ContextNode?)
    ensures AllLexable(u, Bare(e))
    decreases e, 0
  {
    hide Lexable, Print, PrintItems, PrintIterators, PrintFields, NameText, Sensible, Writable, WritableTest;
    WritableParts(phrases, e);
    MarksLexable(u);
    if e.ListNode? {
      AllAreTests(phrases, e.elements);
      ItemsLexable(u, phrases, e.elements, CloseBracket);
    } else {
      FieldsLexable(u, phrases, e.fields);
    }
  }

  /** A call, or a not. */
  lemma {:induction false} CallLexable(u: Unicode, phrases: set<seq<Word>>, e: Node)
    requires Sensible(u) && Writable(phrases, e) && Named(u, e) && (e.CallNode? || e.NotTest?)
    ensures AllLexable(u, Bare(e))
    decreases e, 0
  {
    hide Lexable, PrintItems, NameText, Sensible, Writable;
    WritableParts(phrases, e);
    MarksLexable(u);
    if e.CallNode? {
      AllAreTests(phrases, e.args);
      ItemsLexable(u, phrases, e.args, CloseParen);
    } else {
      KeywordText(u, Not);
      ItemsLexable(u, phrases, e.tests, CloseParen);
    }
  }

  lemma {:induction false} ExprLexable(u: Unicode, phrases: set<seq<Word>>, e: Node, level: nat)
    requires Sensible(u) && Writable(phrases, e) && Named(u, e)
    ensures AllLexable(u, Print(e, level))
    decreases e, 4
  {
    WritableParts(phrases, e);
    PrintLexable(u, phrases, e, level);
  }

  /** What a test is made of: the parts of an expression, or the operand of a comparison. */
  lemma WritableTestParts(phrases: set<seq<Word>>, e: Node)
    requires WritableTest(phrases, e)
    ensures e.CompareTest? ==> Writable(phrases, e.x)
    ensures !e.CompareTest? && !e.AnyTest? ==> Writable(phrases, e)
  {
  }

  lemma {:induction false} ItemsLexable(u: Unicode, phrases: set<seq<Word>>, items: seq<Node>, close: Mark)
    requires Sensible(u) && WritableTests(phrases, items) && forall i :: 0 <= i < |items| ==> Named(u, items[i])
    ensures AllLexable(u, PrintItems(items, close))
    decreases items, 5
  {
    hide Lexable, Print;
    MarksLexable(u);
    if items != [] {
      PrintLexable(u, phrases, items[0], 0);
      ItemsLexable(u, phrases, items[1..], close);
    }
  }

  lemma {:induction false} IteratorsLexable(u: Unicode, phrases: set<seq<Word>>, iters: seq<Iterator>)
    requires Sensible(u) && WritableIterators(phrases, iters)
    requires forall i :: 0 <= i < |iters| ==> NameText(u, iters[i].name) && Named(u, iters[i].source)
    ensures AllLexable(u, PrintIterators(iters))
    decreases iters, 5
  {
    hide Lexable, Print, NameText;
    KeywordsText(u);
    MarksLexable(u);
    if iters != [] {
      VariableText(u, iters[0].name);
      ExprLexable(u, phrases, iters[0].source, 1);
      IteratorsLexable(u, phrases, iters[1..]);
    }
  }

  lemma {:induction false} FieldsLexable(u: Unicode, phrases: set<seq<Word>>, fields: seq<Entry>)
    requires Sensible(u) && WritableFields(phrases, fields) && forall i :: 0 <= i < |fields| ==> Named(u, fields[i].value)
    ensures AllLexable(u, PrintFields(fields))
    decreases fields, 5
  {
    hide Lexable, Print;
    MarksLexable(u);
    if fields != [] {
      ExprLexable(u, phrases, fields[0].value, 0);
      FieldsLexable(u, phrases, fields[1..]);
    }
  }

  /** Lexing and parsing a text. */
  function ParseText(u: Unicode, text: string, phrases: set<seq<Word>>, temporal: string -> Option<Value>): Option<Node> {
    var toks := Lex(u, text, false);
    if toks.None? then None else ParseExpression(FeelGrammar.Source(toks.value, phrases, temporal))
  }

  /** Every expression the grammar can produce, with names the lexer reads as names, comes back exactly as it
      was from its source text, with any blanks that keep its tokens apart. */
  lemma ParseOfSource(u: Unicode, e: Node, gaps: seq<string>, phrases: set<seq<Word>>, temporal: string -> Option<Value>)
    requires Sensible(u) && Phrases(phrases) && Writable(phrases, e) && Named(u, e)
    requires |gaps| == |Print(e, 0)| + 1 && Separated(u, Print(e, 0), gaps)
    ensures ParseText(u, TextWith(Print(e, 0), gaps), phrases, temporal) == Some(e)
  {
    hide Lex, Print, Lexable, Separated, TextWith;
    PrintLexable(u, phrases, e, 0);
    LexOfText(u, Print(e, 0), gaps, false);
    FeelRoundTrip.ParseOfPrint(e, phrases, temporal);
  }

  /** The source text of an expression with as little space as it needs. */
  function SourceOf(u: Unicode, e: Node): string {
    TextWith(Print(e, 0), Tightest(u, Print(e, 0)))
  }

  lemma ParseOfTightSource(u: Unicode, e: Node, phrases: set<seq<Word>>, temporal: string -> Option<Value>)
    requires Sensible(u) && Phrases(phrases) && Writable(phrases, e) && Named(u, e)
    ensures ParseText(u, SourceOf(u, e), phrases, temporal) == Some(e)
  {
    hide Lex, Print, Separated, TextWith;
    TightestSeparates(u, Print(e, 0));
    ParseOfSource(u, e, Tightest(u, Print(e, 0)), phrases, temporal);
  }
}
