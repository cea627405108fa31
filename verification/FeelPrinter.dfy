/** Writing an expression back as tokens, by the grammar's precedence levels, with parentheses only
    where a level needs them. */
module FeelPrinter {

  import opened Wrappers
  import opened FeelSyntax
  import opened FeelGrammar
  import FeelNumberText

  // Levels: 0 expression, 1 or, 2 and, 3 comparison, 4 sum, 5 product, 6 power, 7 minus, 8 path or
  // filter, 9 primary.

  function OperatorLevel(op: BinaryOp): nat {
    match op
    case OrOp => 1
    case AndOp => 2
    case AddOp => 4 case SubOp => 4
    case MulOp => 5 case DivOp => 5
    case PowOp => 6
    case _ => 3
  }

  function OperatorToken(op: BinaryOp): Token {
    match op
    case OrOp => Name(Or) case AndOp => Name(And)
    case EqOp => Punct(Equal) case NeOp => Punct(NotEqual) case LtOp => Punct(Less)
    case LeOp => Punct(AtMost) case GtOp => Punct(Greater) case GeOp => Punct(AtLeast)
    case AddOp => Punct(Plus) case SubOp => Punct(Minus)
    case MulOp => Punct(Star) case DivOp => Punct(Slash)
    case PowOp => Punct(Power)
  }

  /** The weakest position an expression stands in without parentheses. A call of a function named
      "time" stands only alone: after "date and" it would be read as the built-in "date and time". */
  function Level(e: Node): nat {
    match e
    case IfNode(_, _, _) => 0 case ForNode(_, _) => 0 case QuantNode(_, _, _) => 0
    case Binary(op, _, _) => OperatorLevel(op)
    case BetweenNode(_, _, _) => 3 case InNode(_, _) => 3
    case Negation(_) => 7
    case PathNode(_, _) => 8 case FilterNode(_, _) => 8
    case CallNode(fn, _, _) => if fn == [Plain("time")] then 0 else 9
    case _ => 9
  }

  function Print(e: Node, level: nat): (ts: seq<Token>)
    ensures ts != []
    decreases e, 1
  {
    if Level(e) >= level then Bare(e) else [Punct(OpenParen)] + (Bare(e) + [Punct(CloseParen)])
  }

  function Bare(e: Node): (ts: seq<Token>)
    ensures ts != []
    decreases e, 0
  {
    match e
    case Literal(v) => [LiteralToken(v)]
    case Variable(name) => [Name(WordOf(name))]
    case Negation(x) => [Punct(Minus)] + Print(x, 7)
    case Binary(op, l, r) =>
      if IsComparison(op) then Print(l, 4) + ([OperatorToken(op)] + Print(r, 4))
      else Print(l, OperatorLevel(op)) + ([OperatorToken(op)] + Print(r, OperatorLevel(op) + 1))
    case BetweenNode(x, lo, hi) => Print(x, 4) + ([Name(Between)] + (Print(lo, 4) + ([Name(And)] + Print(hi, 4))))
    case InNode(x, tests) => Print(x, 4) + ([Name(In), Punct(OpenParen)] + PrintItems(tests, CloseParen))
    case IfNode(cond, yes, no) => [Name(If)] + (Print(cond, 0) + ([Name(Then)] + (Print(yes, 0) + ([Name(Else)] + Print(no, 0)))))
    case ForNode(iters, body) => [Name(For)] + (PrintIterators(iters) + ([Name(Return)] + Print(body, 0)))
    case QuantNode(every, iters, cond) =>
      [Name(if every then Every else SomeOf)] + (PrintIterators(iters) + ([Name(Satisfies)] + Print(cond, 0)))
    case ListNode(items) => [Punct(OpenBracket)] + (if items == [] then [Punct(CloseBracket)] else PrintItems(items, CloseBracket))
    case ContextNode(fields) => [Punct(OpenBrace)] + (if fields == [] then [Punct(CloseBrace)] else PrintFields(fields))
    case RangeNode(lo, hi, loClosed, hiClosed) =>
      [Punct(if loClosed then OpenBracket else OpenParen)] +
      (Print(lo, 4) + ([Punct(DotDot)] + (Print(hi, 4) + [Punct(if hiClosed then CloseBracket else CloseParen)])))
    case PathNode(x, name) => Print(x, 8) + [Punct(Dot), StringToken(name)]
    case FilterNode(x, cond) => Print(x, 8) + ([Punct(OpenBracket)] + (Print(cond, 0) + [Punct(CloseBracket)]))
    case CallNode(fn, args, _) => Names(fn) + ([Punct(OpenParen)] + (if args == [] then [Punct(CloseParen)] else PrintItems(args, CloseParen)))
    case CompareTest(op, x) => [OperatorToken(op)] + Print(x, 4)
    case AnyTest => [Punct(Minus)]
    case NotTest(tests) => [Name(Not), Punct(OpenParen)] + PrintItems(tests, CloseParen)
  }

  function LiteralToken(v: Value): Token {
    match v
    case Numeric(n) => NumberToken(FeelNumberText.Format(n))
    case Text(s) => StringToken(s)
    case Boolean(b) => Name(if b then True else False)
    case _ => Name(NullWord)
  }

  function Names(words: seq<Word>): (ts: seq<Token>)
    ensures |ts| == |words| && forall i :: 0 <= i < |words| ==> ts[i] == Name(words[i])
  {
    seq(|words|, i requires 0 <= i < |words| => Name(words[i]))
  }

  /** Expressions or tests separated by commas, up to a closing mark. */
  function PrintItems(items: seq<Node>, close: Mark): (ts: seq<Token>)
    decreases items, 2
  {
    if items == [] then []
    else Print(items[0], 0) + (if |items| == 1 then [Punct(close)] else [Punct(Comma)] + PrintItems(items[1..], close))
  }

  function PrintIterators(iters: seq<Iterator>): (ts: seq<Token>)
    decreases iters, 2
  {
    if iters == [] then []
    else [Name(WordOf(iters[0].name)), Name(In)] + (Print(iters[0].source, 1) + (if |iters| == 1 then [] else [Punct(Comma)] + PrintIterators(iters[1..])))
  }

  function PrintFields(fields: seq<Entry>): (ts: seq<Token>)
    decreases fields, 2
  {
    if fields == [] then []
    else [StringToken(fields[0].key), Punct(Colon)] + (Print(fields[0].value, 0) + (if |fields| == 1 then [Punct(CloseBrace)] else [Punct(Comma)] + PrintFields(fields[1..])))
  }

  // ----- what can be written -----

  predicate Reserved(w: Word) {
    w.If? || w.For? || w.SomeOf? || w.Every? || w.True? || w.False? || w.NullWord?
  }

  predicate WritableLiteral(v: Value) {
    match v
    case Numeric(n) => n.value.num >= 0 && FeelNumberText.WrittenInFull(n)
    case Text(_) => true
    case Boolean(_) => true
    case Null => true
    case _ => false
  }

  /** An expression the grammar can produce: no reserved word for a variable, no empty list of
      iterators or tests, unary tests only where tests go, a callable function name, and literals
      that have a text. Temporal literals and named arguments are not covered. */
  predicate Writable(phrases: set<seq<Word>>, e: Node)
    decreases e, 1
  {
    match e
    case Literal(v) => WritableLiteral(v)
    case Variable(name) => !Reserved(WordOf(name))
    case Negation(x) => Writable(phrases, x)
    case Binary(_, l, r) => Writable(phrases, l) && Writable(phrases, r)
    case BetweenNode(x, lo, hi) => Writable(phrases, x) && Writable(phrases, lo) && Writable(phrases, hi)
    case InNode(x, tests) => Writable(phrases, x) && tests != [] && WritableTests(phrases, tests)
    case IfNode(cond, yes, no) => Writable(phrases, cond) && Writable(phrases, yes) && Writable(phrases, no)
    case ForNode(iters, body) => iters != [] && WritableIterators(phrases, iters) && Writable(phrases, body)
    case QuantNode(_, iters, cond) => iters != [] && WritableIterators(phrases, iters) && Writable(phrases, cond)
    case ListNode(items) => WritableAll(phrases, items)
    case ContextNode(fields) => WritableFields(phrases, fields)
    case RangeNode(lo, hi, _, _) => Writable(phrases, lo) && Writable(phrases, hi)
    case PathNode(x, _) => Writable(phrases, x)
    case FilterNode(x, cond) => Writable(phrases, x) && Writable(phrases, cond)
    case CallNode(fn, args, named) => named == map[] && CallableName(phrases, fn) && WritableAll(phrases, args)
    case CompareTest(_, _) => false
    case AnyTest => false
    case NotTest(tests) => tests != [] && WritableTests(phrases, tests)
  }

  predicate CallableName(phrases: set<seq<Word>>, fn: seq<Word>) {
    (|fn| == 1 && fn[0].Plain?) || fn in phrases
  }

  predicate WritableTest(phrases: set<seq<Word>>, t: Node)
    decreases t, 2
  {
    match t
    case AnyTest => true
    case CompareTest(op, x) => IsComparison(op) && Writable(phrases, x)
    case _ => Writable(phrases, t)
  }

  predicate WritableAll(phrases: set<seq<Word>>, es: seq<Node>)
    decreases es, 3
  {
    es != [] ==> Writable(phrases, es[0]) && WritableAll(phrases, es[1..])
  }

  predicate WritableTests(phrases: set<seq<Word>>, es: seq<Node>)
    decreases es, 3
  {
    es != [] ==> WritableTest(phrases, es[0]) && WritableTests(phrases, es[1..])
  }

  predicate WritableIterators(phrases: set<seq<Word>>, iters: seq<Iterator>)
    decreases iters, 3
  {
    iters != [] ==> Writable(phrases, iters[0].source) && WritableIterators(phrases, iters[1..])
  }

  predicate WritableFields(phrases: set<seq<Word>>, fields: seq<Entry>)
    decreases fields, 3
  {
    fields != [] ==> Writable(phrases, fields[0].value) && WritableFields(phrases, fields[1..])
  }

  /** The parts of an expression that can be written can be written. */
  lemma WritableParts(phrases: set<seq<Word>>, e: Node)
    requires Writable(phrases, e)
    ensures match e
            case Literal(v) => WritableLiteral(v)
            case Variable(name) => !Reserved(WordOf(name))
            case Negation(x) => Writable(phrases, x)
            case Binary(_, l, r) => Writable(phrases, l) && Writable(phrases, r)
            case BetweenNode(x, lo, hi) => Writable(phrases, x) && Writable(phrases, lo) && Writable(phrases, hi)
            case InNode(x, tests) => Writable(phrases, x) && tests != [] && WritableTests(phrases, tests)
            case IfNode(cond, yes, no) => Writable(phrases, cond) && Writable(phrases, yes) && Writable(phrases, no)
            case ForNode(iters, body) => iters != [] && WritableIterators(phrases, iters) && Writable(phrases, body)
            case QuantNode(_, iters, cond) => iters != [] && WritableIterators(phrases, iters) && Writable(phrases, cond)
            case ListNode(items) => WritableAll(phrases, items)
            case ContextNode(fields) => WritableFields(phrases, fields)
            case RangeNode(lo, hi, _, _) => Writable(phrases, lo) && Writable(phrases, hi)
            case PathNode(x, _) => Writable(phrases, x)
            case FilterNode(x, cond) => Writable(phrases, x) && Writable(phrases, cond)
            case CallNode(fn, args, named) => named == map[] && CallableName(phrases, fn) && WritableAll(phrases, args)
            case CompareTest(_, _) => false
            case AnyTest => false
            case NotTest(tests) => tests != [] && WritableTests(phrases, tests)
  {
  }

  /** Expressions can stand where tests do. */
  lemma {:induction false} AllAreTests(phrases: set<seq<Word>>, es: seq<Node>)
    requires WritableAll(phrases, es)
    ensures WritableTests(phrases, es)
    decreases |es|
  {
    if es != [] {
      WritableParts(phrases, es[0]);
      AllAreTests(phrases, es[1..]);
    }
  }

  /** A table of function names of several words: they start with a plain word, and only
      "date and time" has a keyword after it. */
  ghost predicate Phrases(phrases: set<seq<Word>>) {
    forall p: seq<Word> {:trigger p in phrases} :: p in phrases ==>
      2 <= |p| <= 5 && p[0].Plain? && (p[1].Plain? || p == [Plain("date"), And, Plain("time")])
  }
}
