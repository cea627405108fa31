/** The FEEL grammar as functions from a position in the token list to the expression there and
    the position after it. They are the specification of the parser object and the subject of the
    round-trip theorem. */
module FeelGrammar {

  import opened Wrappers
  import opened FeelSyntax
  import FeelNumberText

  /** A token list, the function names of several words, and the reading of temporal literals,
      which belongs to the time library. */
  datatype Source = Source(toks: seq<Token>, phrases: set<seq<Word>>, temporal: string -> Option<Value>)

  /** What the lexer produces: a list ending in the end marker. */
  predicate Ended(src: Source) {
    src.toks != [] && src.toks[|src.toks| - 1] == Eof
  }

  datatype Parsed<+T> = Bad | Ok(value: T, next: nat)

  /** The token n places after pos; past the end, the end marker. */
  function PeekAt(src: Source, pos: nat, n: nat): Token
    requires Ended(src)
  {
    if pos + n < |src.toks| then src.toks[pos + n] else src.toks[|src.toks| - 1]
  }

  predicate At(src: Source, pos: nat, mark: Mark)
    requires pos < |src.toks|
  {
    src.toks[pos] == Punct(mark)
  }

  predicate AtWord(src: Source, pos: nat, word: Word)
    requires pos < |src.toks|
  {
    src.toks[pos] == Name(word)
  }

  // ----- lookahead -----

  predicate Opens(t: Token) {
    t == Punct(OpenParen) || t == Punct(OpenBracket) || t == Punct(OpenBrace)
  }

  predicate Closes(t: Token) {
    t == Punct(CloseParen) || t == Punct(CloseBracket) || t == Punct(CloseBrace)
  }

  /** Whether ".." comes before "," and before the end of the bracket opened at depth 1. */
  function Scan(toks: seq<Token>, i: nat, depth: int): bool
    decreases |toks| - i
  {
    if i >= |toks| || toks[i] == Eof then false
    else if Opens(toks[i]) then Scan(toks, i + 1, depth + 1)
    else if Closes(toks[i]) then depth > 1 && Scan(toks, i + 1, depth - 1)
    else if toks[i] == Punct(DotDot) && depth == 1 then true
    else if toks[i] == Punct(Comma) && depth == 1 then false
    else Scan(toks, i + 1, depth)
  }

  predicate LooksLikeRange(src: Source, pos: nat) {
    Scan(src.toks, pos, 0)
  }

  /** The words of the n name tokens at pos. */
  function WordsAt(src: Source, pos: nat, n: nat): (words: seq<Word>)
    requires pos + n <= |src.toks|
    requires forall i :: pos <= i < pos + n ==> src.toks[i].Name?
    ensures |words| == n && forall i :: 0 <= i < n ==> words[i] == src.toks[pos + i].word
  {
    seq(n, i requires 0 <= i < n => src.toks[pos + i].word)
  }

  /** How many tokens the longest function name at pos spans, 0 when no call starts there. */
  function FunctionSpan(src: Source, pos: nat): (n: nat)
    requires Ended(src) && pos < |src.toks|
    ensures n > 0 ==> pos + n < |src.toks| && forall i :: pos <= i < pos + n ==> src.toks[i].Name?
    ensures n > 0 ==> src.toks[pos + n] == Punct(OpenParen)
  {
    SpanFrom(src, pos, 0, 0)
  }

  function SpanFrom(src: Source, pos: nat, i: nat, best: nat): (n: nat)
    requires Ended(src) && pos + i < |src.toks| && best <= i <= 5
    requires forall k :: pos <= k < pos + i ==> src.toks[k].Name?
    requires best > 0 ==> src.toks[pos + best] == Punct(OpenParen)
    ensures n > 0 ==> pos + n < |src.toks| && forall k :: pos <= k < pos + n ==> src.toks[k].Name?
    ensures n > 0 ==> src.toks[pos + n] == Punct(OpenParen)
    decreases 5 - i
  {
    if i == 5 || !src.toks[pos + i].Name? then best
    else SpanFrom(src, pos, i + 1, if CalledHere(src, pos, i + 1) then i + 1 else best)
  }

  /** The n names at pos are a function name and "(" follows: any single name, or a known phrase. */
  predicate CalledHere(src: Source, pos: nat, n: nat)
    requires 0 < n && pos + n < |src.toks|
    requires forall k :: pos <= k < pos + n ==> src.toks[k].Name?
  {
    src.toks[pos + n] == Punct(OpenParen) && (n == 1 || WordsAt(src, pos, n) in src.phrases)
  }

  /** How many name tokens at pos form the name of a named argument, 0 if none. */
  function NamedSpan(src: Source, pos: nat, i: nat): (n: nat)
    requires Ended(src) && pos + i < |src.toks| && i <= 4
    requires forall k :: pos <= k < pos + i ==> src.toks[k].Name?
    ensures n > 0 ==> pos + n < |src.toks| && src.toks[pos + n] == Punct(Colon) && forall k :: pos <= k < pos + n ==> src.toks[k].Name?
    decreases 4 - i
  {
    if i == 4 then 0
    else if src.toks[pos + i] == Punct(Colon) then i
    else if !src.toks[pos + i].Name? then 0
    else NamedSpan(src, pos, i + 1)
  }

  // ----- the left-associative binary levels -----

  datatype Tier = OrTier | AndTier | AddTier | MulTier | PowTier

  /** The operator a token is at a level, if any. */
  function OperatorAt(tier: Tier, t: Token): Option<BinaryOp> {
    match tier
    case OrTier => if t == Name(Or) then Some(OrOp) else None
    case AndTier => if t == Name(And) then Some(AndOp) else None
    case AddTier => if t == Punct(Plus) then Some(AddOp) else if t == Punct(Minus) then Some(SubOp) else None
    case MulTier => if t == Punct(Star) then Some(MulOp) else if t == Punct(Slash) then Some(DivOp) else None
    case PowTier => if t == Punct(Power) then Some(PowOp) else None
  }

  function ComparisonAt(t: Token): Option<BinaryOp> {
    if t == Punct(Equal) then Some(EqOp) else if t == Punct(NotEqual) then Some(NeOp)
    else if t == Punct(Less) then Some(LtOp) else if t == Punct(AtMost) then Some(LeOp)
    else if t == Punct(Greater) then Some(GtOp) else if t == Punct(AtLeast) then Some(GeOp)
    else None
  }

  function Rank(tier: Tier): nat {
    match tier
    case OrTier => 26
    case AndTier => 24
    case AddTier => 18
    case MulTier => 16
    case PowTier => 14
  }

  // ----- the grammar -----

  function Expr(src: Source, pos: nat): (r: Parsed<Node>)
    requires Ended(src) && pos < |src.toks|
    ensures r.Ok? ==> pos < r.next < |src.toks|
    decreases |src.toks| - pos, 30
  {
    if AtWord(src, pos, If) then
      var cond := Expr(src, pos + 1);
      if cond.Bad? || !AtWord(src, cond.next, Then) then Bad else
      var yes := Expr(src, cond.next + 1);
      if yes.Bad? || !AtWord(src, yes.next, Else) then Bad else
      var no := Expr(src, yes.next + 1);
      if no.Bad? then Bad else Ok(IfNode(cond.value, yes.value, no.value), no.next)
    else if AtWord(src, pos, For) then
      var iters := Iterators(src, pos + 1);
      if iters.Bad? || !AtWord(src, iters.next, Return) then Bad else
      var body := Expr(src, iters.next + 1);
      if body.Bad? then Bad else Ok(ForNode(iters.value, body.value), body.next)
    else if AtWord(src, pos, SomeOf) || AtWord(src, pos, Every) then
      var iters := Iterators(src, pos + 1);
      if iters.Bad? || !AtWord(src, iters.next, Satisfies) then Bad else
      var cond := Expr(src, iters.next + 1);
      if cond.Bad? then Bad else Ok(QuantNode(AtWord(src, pos, Every), iters.value, cond.value), cond.next)
    else Chain(src, OrTier, pos)
  }

  function Iterators(src: Source, pos: nat): (r: Parsed<seq<Iterator>>)
    requires Ended(src) && pos < |src.toks|
    ensures r.Ok? ==> pos < r.next < |src.toks|
    decreases |src.toks| - pos, 30
  {
    if !src.toks[pos].Name? || !AtWord(src, pos + 1, In) then Bad else
    var source := IteratorSource(src, pos + 2);
    if source.Bad? then Bad else
    var iter := Iterator(TextOf(src.toks[pos].word), source.value);
    if !At(src, source.next, Comma) then Ok([iter], source.next) else
    var more := Iterators(src, source.next + 1);
    if more.Bad? then Bad else Ok([iter] + more.value, more.next)
  }

  /** What an iterator runs over; "1..3" without brackets is a closed range. */
  function IteratorSource(src: Source, pos: nat): (r: Parsed<Node>)
    requires Ended(src) && pos < |src.toks|
    ensures r.Ok? ==> pos < r.next < |src.toks|
    decreases |src.toks| - pos, 30
  {
    var lo := Chain(src, OrTier, pos);
    if lo.Bad? || !At(src, lo.next, DotDot) then lo else
    var hi := Chain(src, OrTier, lo.next + 1);
    if hi.Bad? then Bad else Ok(RangeNode(lo.value, hi.value, true, true), hi.next)
  }

  function Chain(src: Source, tier: Tier, pos: nat): (r: Parsed<Node>)
    requires Ended(src) && pos < |src.toks|
    ensures r.Ok? ==> pos < r.next < |src.toks|
    decreases |src.toks| - pos, Rank(tier)
  {
    var l := Operand(src, tier, pos);
    if l.Bad? then Bad else ChainFrom(src, tier, l.value, l.next)
  }

  /** The rest of a chain whose left part is already parsed. */
  function ChainFrom(src: Source, tier: Tier, l: Node, pos: nat): (r: Parsed<Node>)
    requires Ended(src) && pos < |src.toks|
    ensures r.Ok? ==> pos <= r.next < |src.toks|
    decreases |src.toks| - pos, Rank(tier)
  {
    var op := OperatorAt(tier, src.toks[pos]);
    if op.None? then Ok(l, pos) else
    var r := Operand(src, tier, pos + 1);
    if r.Bad? then Bad else ChainFrom(src, tier, Binary(op.value, l, r.value), r.next)
  }

  function Operand(src: Source, tier: Tier, pos: nat): (r: Parsed<Node>)
    requires Ended(src) && pos < |src.toks|
    ensures r.Ok? ==> pos < r.next < |src.toks|
    decreases |src.toks| - pos, Rank(tier) - 1
  {
    match tier
    case OrTier => Chain(src, AndTier, pos)
    case AndTier => Comparison(src, pos)
    case AddTier => Chain(src, MulTier, pos)
    case MulTier => Chain(src, PowTier, pos)
    case PowTier => Unary(src, pos)
  }

  function Comparison(src: Source, pos: nat): (r: Parsed<Node>)
    requires Ended(src) && pos < |src.toks|
    ensures r.Ok? ==> pos < r.next < |src.toks|
    decreases |src.toks| - pos, 22
  {
    var l := Chain(src, AddTier, pos);
    if l.Bad? then Bad else ComparisonFrom(src, l.value, l.next)
  }

  function ComparisonFrom(src: Source, l: Node, pos: nat): (r: Parsed<Node>)
    requires Ended(src) && pos < |src.toks|
    ensures r.Ok? ==> pos <= r.next < |src.toks|
    decreases |src.toks| - pos, 22
  {
    var op := ComparisonAt(src.toks[pos]);
    if op.Some? then
      var r := Chain(src, AddTier, pos + 1);
      if r.Bad? then Bad else Ok(Binary(op.value, l, r.value), r.next)
    else if AtWord(src, pos, Between) then
      var lo := Chain(src, AddTier, pos + 1);
      if lo.Bad? || !AtWord(src, lo.next, And) then Bad else
      var hi := Chain(src, AddTier, lo.next + 1);
      if hi.Bad? then Bad else Ok(BetweenNode(l, lo.value, hi.value), hi.next)
    else if AtWord(src, pos, In) then
      var tests := PositiveTests(src, pos + 1);
      if tests.Bad? then Bad else Ok(InNode(l, tests.value), tests.next)
    else Ok(l, pos)
  }

  /** The right side of "in": one test, or a parenthesized list of tests. */
  function PositiveTests(src: Source, pos: nat): (r: Parsed<seq<Node>>)
    requires Ended(src) && pos < |src.toks|
    ensures r.Ok? ==> pos < r.next < |src.toks|
    decreases |src.toks| - pos, 34
  {
    if At(src, pos, OpenParen) && !LooksLikeRange(src, pos) then Tests(src, pos + 1)
    else
      var test := UnaryTest(src, pos);
      if test.Bad? then Bad else Ok([test.value], test.next)
  }

  /** Tests separated by commas, up to a closing parenthesis. */
  function Tests(src: Source, pos: nat): (r: Parsed<seq<Node>>)
    requires Ended(src) && pos < |src.toks|
    ensures r.Ok? ==> pos < r.next < |src.toks|
    decreases |src.toks| - pos, 34
  {
    var test := UnaryTest(src, pos);
    if test.Bad? then Bad
    else if At(src, test.next, CloseParen) then Ok([test.value], test.next + 1)
    else if !At(src, test.next, Comma) then Bad
    else
      var more := Tests(src, test.next + 1);
      if more.Bad? then Bad else Ok([test.value] + more.value, more.next)
  }

  function UnaryTest(src: Source, pos: nat): (r: Parsed<Node>)
    requires Ended(src) && pos < |src.toks|
    ensures r.Ok? ==> pos < r.next < |src.toks|
    decreases |src.toks| - pos, 32
  {
    var after := PeekAt(src, pos, 1);
    if At(src, pos, Minus) && (after == Eof || after == Punct(Comma) || after == Punct(CloseParen)) then Ok(AnyTest, pos + 1)
    else if ComparisonAt(src.toks[pos]).Some? then
      var x := Chain(src, AddTier, pos + 1);
      if x.Bad? then Bad else Ok(CompareTest(ComparisonAt(src.toks[pos]).value, x.value), x.next)
    else Expr(src, pos)
  }

  function Unary(src: Source, pos: nat): (r: Parsed<Node>)
    requires Ended(src) && pos < |src.toks|
    ensures r.Ok? ==> pos < r.next < |src.toks|
    decreases |src.toks| - pos, 12
  {
    if At(src, pos, Minus) then
      var x := Unary(src, pos + 1);
      if x.Bad? then Bad else Ok(Negation(x.value), x.next)
    else Postfix(src, pos)
  }

  function Postfix(src: Source, pos: nat): (r: Parsed<Node>)
    requires Ended(src) && pos < |src.toks|
    ensures r.Ok? ==> pos < r.next < |src.toks|
    decreases |src.toks| - pos, 10
  {
    var x := Primary(src, pos);
    if x.Bad? then Bad else PostfixFrom(src, x.value, x.next)
  }

  function PostfixFrom(src: Source, x: Node, pos: nat): (r: Parsed<Node>)
    requires Ended(src) && pos < |src.toks|
    ensures r.Ok? ==> pos <= r.next < |src.toks|
    decreases |src.toks| - pos, 10
  {
    if At(src, pos, Dot) then
      match src.toks[pos + 1]
      case Name(word) => PostfixFrom(src, PathNode(x, TextOf(word)), pos + 2)
      case StringToken(text) => PostfixFrom(src, PathNode(x, text), pos + 2)
      case _ => Bad
    else if At(src, pos, OpenBracket) then
      var cond := Expr(src, pos + 1);
      if cond.Bad? || !At(src, cond.next, CloseBracket) then Bad
      else PostfixFrom(src, FilterNode(x, cond.value), cond.next + 1)
    else Ok(x, pos)
  }

  function Primary(src: Source, pos: nat): (r: Parsed<Node>)
    requires Ended(src) && pos < |src.toks|
    ensures r.Ok? ==> pos < r.next < |src.toks|
    decreases |src.toks| - pos, 8
  {
    match src.toks[pos]
    case NumberToken(text) =>
      var n := FeelNumberText.ReadLiteral(text);
      if n.None? then Bad else Ok(Literal(Numeric(n.value)), pos + 1)
    case StringToken(text) => Ok(Literal(Text(text)), pos + 1)
    case Temporal(text) =>
      var v := src.temporal(text);
      if v.None? then Bad else Ok(Literal(v.value), pos + 1)
    case Name(word) => Named(src, pos)
    case Punct(mark) =>
      (match mark
       case OpenParen =>
         if LooksLikeRange(src, pos) then RangeLiteral(src, pos) else
         var x := Expr(src, pos + 1);
         if x.Bad? || !At(src, x.next, CloseParen) then Bad else Ok(x.value, x.next + 1)
       case OpenBracket =>
         if LooksLikeRange(src, pos) then RangeLiteral(src, pos)
         else if At(src, pos + 1, CloseBracket) then Ok(ListNode([]), pos + 2)
         else
           var items := Items(src, pos + 1);
           if items.Bad? then Bad else Ok(ListNode(items.value), items.next)
       case CloseBracket => RangeLiteral(src, pos)
       case OpenBrace =>
         if At(src, pos + 1, CloseBrace) then Ok(ContextNode([]), pos + 2)
         else
           var fields := Fields(src, pos + 1);
           if fields.Bad? then Bad else Ok(ContextNode(fields.value), fields.next)
       case _ => Bad)
    case Eof => Bad
  }

  /** A primary starting with a name: a constant, not(...), a call or a variable. */
  function Named(src: Source, pos: nat): (r: Parsed<Node>)
    requires Ended(src) && pos < |src.toks| && src.toks[pos].Name?
    ensures r.Ok? ==> pos < r.next < |src.toks|
    decreases |src.toks| - pos, 6
  {
    var word := src.toks[pos].word;
    if word == True || word == False then Ok(Literal(Boolean(word == True)), pos + 1)
    else if word == NullWord then Ok(Literal(Null), pos + 1)
    else if word == Not && PeekAt(src, pos, 1) == Punct(OpenParen) then
      var tests := Tests(src, pos + 2);
      if tests.Bad? then Bad else Ok(NotTest(tests.value), tests.next)
    else
      var n := FunctionSpan(src, pos);
      if n > 0 then Call(src, WordsAt(src, pos, n), pos + n) else Ok(Variable(TextOf(word)), pos + 1)
  }

  /** Expressions separated by commas, up to a closing bracket. */
  function Items(src: Source, pos: nat): (r: Parsed<seq<Node>>)
    requires Ended(src) && pos < |src.toks|
    ensures r.Ok? ==> pos < r.next < |src.toks|
    decreases |src.toks| - pos, 32
  {
    var item := Expr(src, pos);
    if item.Bad? then Bad
    else if At(src, item.next, CloseBracket) then Ok([item.value], item.next + 1)
    else if !At(src, item.next, Comma) then Bad
    else
      var more := Items(src, item.next + 1);
      if more.Bad? then Bad else Ok([item.value] + more.value, more.next)
  }

  function Call(src: Source, fn: seq<Word>, pos: nat): (r: Parsed<Node>)
    requires Ended(src) && pos < |src.toks|
    ensures r.Ok? ==> pos < r.next < |src.toks|
    decreases |src.toks| - pos, 4
  {
    if !At(src, pos, OpenParen) then Bad
    else if At(src, pos + 1, CloseParen) then Ok(CallNode(fn, [], map[]), pos + 2)
    else
      var args := Arguments(src, pos + 1);
      if args.Bad? then Bad else Ok(CallNode(fn, args.value.positional, args.value.named), args.next)
  }

  /** Positional arguments in order and named ones by name; a name given again replaces. */
  datatype Args = Args(positional: seq<Node>, named: map<seq<Word>, Node>) {
    function Then(more: Args): Args {
      Args(positional + more.positional, named + more.named)
    }
  }

  /** One argument: positional, or named by the words before a colon. */
  function Argument(src: Source, pos: nat): (r: Parsed<Args>)
    requires Ended(src) && pos < |src.toks|
    ensures r.Ok? ==> pos < r.next < |src.toks|
    decreases |src.toks| - pos, 32
  {
    var n := NamedSpan(src, pos, 0);
    if n > 0 then
      var v := Expr(src, pos + n + 1);
      if v.Bad? then Bad else Ok(Args([], map[WordsAt(src, pos, n) := v.value]), v.next)
    else
      var v := Expr(src, pos);
      if v.Bad? then Bad else Ok(Args([v.value], map[]), v.next)
  }

  /** Arguments separated by commas, up to the closing parenthesis. */
  function Arguments(src: Source, pos: nat): (r: Parsed<Args>)
    requires Ended(src) && pos < |src.toks|
    ensures r.Ok? ==> pos < r.next < |src.toks|
    decreases |src.toks| - pos, 34
  {
    var first := Argument(src, pos);
    if first.Bad? then Bad else ArgumentsFrom(src, first.value, first.next)
  }

  /** The rest of a list of arguments, the cursor being after one of them. */
  function ArgumentsFrom(src: Source, args: Args, pos: nat): (r: Parsed<Args>)
    requires Ended(src) && pos < |src.toks|
    ensures r.Ok? ==> pos < r.next < |src.toks|
    decreases |src.toks| - pos, 34
  {
    if At(src, pos, CloseParen) then Ok(args, pos + 1)
    else if !At(src, pos, Comma) then Bad
    else
      var arg := Argument(src, pos + 1);
      if arg.Bad? then Bad else ArgumentsFrom(src, args.Then(arg.value), arg.next)
  }

  function RangeLiteral(src: Source, pos: nat): (r: Parsed<Node>)
    requires Ended(src) && pos < |src.toks| && src.toks[pos].Punct?
    ensures r.Ok? ==> pos < r.next < |src.toks|
    decreases |src.toks| - pos, 4
  {
    var lo := Chain(src, AddTier, pos + 1);
    if lo.Bad? || !At(src, lo.next, DotDot) then Bad else
    var hi := Chain(src, AddTier, lo.next + 1);
    if hi.Bad? then Bad
    else if At(src, hi.next, CloseBracket) || At(src, hi.next, CloseParen) || At(src, hi.next, OpenBracket) then
      Ok(RangeNode(lo.value, hi.value, At(src, pos, OpenBracket), At(src, hi.next, CloseBracket)), hi.next + 1)
    else Bad
  }

  function Field(src: Source, pos: nat): (r: Parsed<Entry>)
    requires Ended(src) && pos < |src.toks|
    ensures r.Ok? ==> pos < r.next < |src.toks|
    decreases |src.toks| - pos, 32
  {
    var key := Key(src, pos);
    if key.Bad? || !At(src, key.next, Colon) then Bad else
    var v := Expr(src, key.next + 1);
    if v.Bad? then Bad else Ok(Entry(key.value, v.value), v.next)
  }

  /** Context entries separated by commas, up to the closing brace. */
  function Fields(src: Source, pos: nat): (r: Parsed<seq<Entry>>)
    requires Ended(src) && pos < |src.toks|
    ensures r.Ok? ==> pos < r.next < |src.toks|
    decreases |src.toks| - pos, 34
  {
    var entry := Field(src, pos);
    if entry.Bad? then Bad
    else if At(src, entry.next, CloseBrace) then Ok([entry.value], entry.next + 1)
    else if !At(src, entry.next, Comma) then Bad
    else
      var more := Fields(src, entry.next + 1);
      if more.Bad? then Bad else Ok([entry.value] + more.value, more.next)
  }

  /** A context key: a string or name, and the names after it, joined by spaces. */
  function Key(src: Source, pos: nat): (r: Parsed<string>)
    requires Ended(src) && pos < |src.toks|
    ensures r.Ok? ==> pos < r.next < |src.toks|
  {
    match src.toks[pos]
    case Name(word) => KeyFrom(src, TextOf(word), pos + 1)
    case StringToken(text) => KeyFrom(src, text, pos + 1)
    case _ => Bad
  }

  function KeyFrom(src: Source, key: string, pos: nat): (r: Parsed<string>)
    requires Ended(src) && pos < |src.toks|
    ensures r.Ok? && pos <= r.next < |src.toks|
    decreases |src.toks| - pos
  {
    if src.toks[pos].Name? then KeyFrom(src, key + " " + TextOf(src.toks[pos].word), pos + 1) else Ok(key, pos)
  }

  /** A whole expression: nothing may follow it. */
  function ParseExpression(src: Source): Option<Node>
    requires Ended(src)
  {
    var r := Expr(src, 0);
    if r.Bad? || src.toks[r.next] != Eof then None else Some(r.value)
  }

  /** A decision table's input entry: unary tests separated by commas, up to the end. */
  function ParseUnaryTests(src: Source, pos: nat): (r: Option<seq<Node>>)
    requires Ended(src) && pos < |src.toks|
    ensures r.Some? ==> r.value != []
    decreases |src.toks| - pos
  {
    var test := UnaryTest(src, pos);
    if test.Bad? then None
    else if src.toks[test.next] == Eof then Some([test.value])
    else if !At(src, test.next, Comma) then None
    else
      var more := ParseUnaryTests(src, test.next + 1);
      if more.None? then None else Some([test.value] + more.value)
  }
}
