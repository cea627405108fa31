/** The parser object: a cursor advanced through the token list by mutually recursive methods,
    each proved to return what the grammar says is at the cursor and to leave the cursor after it.
    The five left-associative binary levels share one method. */
module FeelParser {

  import opened Wrappers
  import opened FeelSyntax
  import opened FeelGrammar
  import FeelNumberText

  lemma SpanNext(src: Source, pos: nat, i: nat, best: nat)
    requires Ended(src) && pos + i < |src.toks| && best <= i < 5 && src.toks[pos + i].Name?
    requires forall k :: pos <= k < pos + i ==> src.toks[k].Name?
    requires best > 0 ==> src.toks[pos + best] == Punct(OpenParen)
    ensures CalledHere(src, pos, i + 1) ==> src.toks[pos + i + 1] == Punct(OpenParen)
    ensures SpanFrom(src, pos, i, best) == SpanFrom(src, pos, i + 1, if CalledHere(src, pos, i + 1) then i + 1 else best)
  {
  }

  lemma SpanLast(src: Source, pos: nat, i: nat, best: nat)
    requires Ended(src) && pos + i < |src.toks| && best <= i <= 5 && (i == 5 || !src.toks[pos + i].Name?)
    requires forall k :: pos <= k < pos + i ==> src.toks[k].Name?
    requires best > 0 ==> src.toks[pos + best] == Punct(OpenParen)
    ensures SpanFrom(src, pos, i, best) == best
  {
  }

  class Parser {
    const src: Source
    var pos: nat

    constructor (src: Source)
      ensures this.src == src && pos == 0
    {
      this.src, this.pos := src, 0;
    }

    ghost predicate Valid()
      reads this
    {
      Ended(src) && pos < |src.toks|
    }

    /** The result is the grammar's, and the cursor is after it. */
    ghost predicate Agrees<T>(r: Option<T>, spec: Parsed<T>)
      reads this
    {
      match spec
      case Bad => r.None?
      case Ok(value, next) => r == Some(value) && pos == next
    }

    /** Accumulated results followed by what the grammar still finds. */
    static ghost function Prefixed<T>(acc: seq<T>, spec: Parsed<seq<T>>): Parsed<seq<T>> {
      if spec.Bad? then Bad else Ok(acc + spec.value, spec.next)
    }

    static lemma NothingPrefixed<T>(spec: Parsed<seq<T>>)
      ensures Prefixed([], spec) == spec
    {
      if spec.Ok? {
        assert [] + spec.value == spec.value;
      }
    }

    static lemma OneMore<T>(acc: seq<T>, x: T, spec: Parsed<seq<T>>)
      ensures Prefixed(acc + [x], spec) == Prefixed(acc, Prefixed([x], spec))
    {
      if spec.Ok? {
        assert (acc + [x]) + spec.value == acc + ([x] + spec.value);
      }
    }

    method Accept(mark: Mark) returns (ok: bool)
      requires Valid()
      modifies this`pos
      ensures Valid() && ok == At(src, old(pos), mark) && pos == if ok then old(pos) + 1 else old(pos)
    {
      ok := At(src, pos, mark);
      if ok {
        pos := pos + 1;
      }
    }

    method Keyword(word: Word) returns (ok: bool)
      requires Valid()
      modifies this`pos
      ensures Valid() && ok == AtWord(src, old(pos), word) && pos == if ok then old(pos) + 1 else old(pos)
    {
      ok := AtWord(src, pos, word);
      if ok {
        pos := pos + 1;
      }
    }

    method ParseExpr() returns (r: Option<Node>)
      requires Valid()
      modifies this`pos
      ensures r.Some? ==> Valid()
      ensures Agrees(r, Expr(src, old(pos)))
      decreases |src.toks| - pos, 30
    {
      match src.toks[pos] {
        case Name(If) => r := ParseIf();
        case Name(For) => r := ParseFor();
        case Name(SomeOf) => r := ParseQuantified(false);
        case Name(Every) => r := ParseQuantified(true);
        case _ => r := ParseChain(OrTier);
      }
    }

    method ParseIf() returns (r: Option<Node>)
      requires Valid() && AtWord(src, pos, If)
      modifies this`pos
      ensures r.Some? ==> Valid()
      ensures Agrees(r, Expr(src, old(pos)))
      decreases |src.toks| - pos, 28
    {
      pos := pos + 1;
      var cond := ParseExpr();
      if cond.None? { return None; }
      var ok := Keyword(Then);
      if !ok { return None; }
      var yes := ParseExpr();
      if yes.None? { return None; }
      ok := Keyword(Else);
      if !ok { return None; }
      var no := ParseExpr();
      if no.None? { return None; }
      return Some(IfNode(cond.value, yes.value, no.value));
    }

    method ParseFor() returns (r: Option<Node>)
      requires Valid() && AtWord(src, pos, For)
      modifies this`pos
      ensures r.Some? ==> Valid()
      ensures Agrees(r, Expr(src, old(pos)))
      decreases |src.toks| - pos, 28
    {
      pos := pos + 1;
      var iters := ParseIterators();
      if iters.None? { return None; }
      var ok := Keyword(Return);
      if !ok { return None; }
      var body := ParseExpr();
      if body.None? { return None; }
      return Some(ForNode(iters.value, body.value));
    }

    method ParseQuantified(every: bool) returns (r: Option<Node>)
      requires Valid() && AtWord(src, pos, if every then Every else SomeOf)
      modifies this`pos
      ensures r.Some? ==> Valid()
      ensures Agrees(r, Expr(src, old(pos)))
      decreases |src.toks| - pos, 28
    {
      pos := pos + 1;
      var iters := ParseIterators();
      if iters.None? { return None; }
      var ok := Keyword(Satisfies);
      if !ok { return None; }
      var cond := ParseExpr();
      if cond.None? { return None; }
      return Some(QuantNode(every, iters.value, cond.value));
    }

    method ParseIterators() returns (r: Option<seq<Iterator>>)
      requires Valid()
      modifies this`pos
      ensures r.Some? ==> Valid()
      ensures Agrees(r, Iterators(src, old(pos)))
      decreases |src.toks| - pos, 30
    {
      var iters: seq<Iterator> := [];
      NothingPrefixed(Iterators(src, pos));
      while true
        invariant Valid() && old(pos) <= pos
        invariant Iterators(src, old(pos)) == Prefixed(iters, Iterators(src, pos))
        decreases |src.toks| - pos
      {
        var name := src.toks[pos];
        if !name.Name? { return None; }
        pos := pos + 1;
        var ok := Keyword(In);
        if !ok { return None; }
        var source := ParseIteratorSource();
        if source.None? { return None; }
        var iter := Iterator(TextOf(name.word), source.value);
        ok := Accept(Comma);
        if !ok { return Some(iters + [iter]); }
        OneMore(iters, iter, Iterators(src, pos));
        iters := iters + [iter];
      }
    }

    method ParseIteratorSource() returns (r: Option<Node>)
      requires Valid()
      modifies this`pos
      ensures r.Some? ==> Valid()
      ensures Agrees(r, IteratorSource(src, old(pos)))
      decreases |src.toks| - pos, 30
    {
      r := ParseChain(OrTier);
      if r.None? { return None; }
      var bare := Accept(DotDot);
      if bare {
        var hi := ParseChain(OrTier);
        if hi.None? { return None; }
        r := Some(RangeNode(r.value, hi.value, true, true));
      }
    }

    /** disjunction, conjunction, additive, multiplicative and exponent: operands joined to the left. */
    method ParseChain(tier: Tier) returns (r: Option<Node>)
      requires Valid()
      modifies this`pos
      ensures r.Some? ==> Valid()
      ensures Agrees(r, Chain(src, tier, old(pos)))
      decreases |src.toks| - pos, Rank(tier)
    {
      r := ParseOperand(tier);
      if r.None? { return None; }
      while OperatorAt(tier, src.toks[pos]).Some?
        invariant r.Some? && Valid() && old(pos) < pos
        invariant Chain(src, tier, old(pos)) == ChainFrom(src, tier, r.value, pos)
        decreases |src.toks| - pos
      {
        var op := OperatorAt(tier, src.toks[pos]).value;
        pos := pos + 1;
        var right := ParseOperand(tier);
        if right.None? { return None; }
        r := Some(Binary(op, r.value, right.value));
      }
    }

    method ParseOperand(tier: Tier) returns (r: Option<Node>)
      requires Valid()
      modifies this`pos
      ensures r.Some? ==> Valid()
      ensures Agrees(r, Operand(src, tier, old(pos)))
      decreases |src.toks| - pos, Rank(tier) - 1
    {
      match tier
      case OrTier => r := ParseChain(AndTier);
      case AndTier => r := ParseComparison();
      case AddTier => r := ParseChain(MulTier);
      case MulTier => r := ParseChain(PowTier);
      case PowTier => r := ParseUnary();
    }

    method ParseComparison() returns (r: Option<Node>)
      requires Valid()
      modifies this`pos
      ensures r.Some? ==> Valid()
      ensures Agrees(r, Comparison(src, old(pos)))
      decreases |src.toks| - pos, 22
    {
      var l := ParseChain(AddTier);
      if l.None? { return None; }
      var t := src.toks[pos];
      if ComparisonAt(t).Some? {
        pos := pos + 1;
        var right := ParseChain(AddTier);
        if right.None? { return None; }
        return Some(Binary(ComparisonAt(t).value, l.value, right.value));
      }
      if t == Name(Between) {
        pos := pos + 1;
        var lo := ParseChain(AddTier);
        if lo.None? { return None; }
        var ok := Keyword(And);
        if !ok { return None; }
        var hi := ParseChain(AddTier);
        if hi.None? { return None; }
        return Some(BetweenNode(l.value, lo.value, hi.value));
      }
      if t == Name(In) {
        pos := pos + 1;
        var tests := ParsePositiveTests();
        if tests.None? { return None; }
        return Some(InNode(l.value, tests.value));
      }
      r := l;
    }

    method ParsePositiveTests() returns (r: Option<seq<Node>>)
      requires Valid()
      modifies this`pos
      ensures r.Some? ==> Valid()
      ensures Agrees(r, PositiveTests(src, old(pos)))
      decreases |src.toks| - pos, 34
    {
      if src.toks[pos] == Punct(OpenParen) {
        var range := RangeAhead();
        if !range {
          pos := pos + 1;
          r := ParseTests();
          return;
        }
      }
      var test := ParseUnaryTest();
      r := if test.None? then None else Some([test.value]);
    }

    /** Whether the bracket at the cursor opens a range. */
    method RangeAhead() returns (range: bool)
      requires Valid()
      ensures range == LooksLikeRange(src, pos)
    {
      var depth := 0;
      for i := pos to |src.toks|
        invariant LooksLikeRange(src, pos) == Scan(src.toks, i, depth)
      {
        var t := src.toks[i];
        if Opens(t) {
          depth := depth + 1;
        } else if Closes(t) {
          depth := depth - 1;
          if depth <= 0 { return false; }
        } else if t == Punct(DotDot) {
          if depth == 1 { return true; }
        } else if t == Punct(Comma) {
          if depth == 1 { return false; }
        }
        if t == Eof { return false; }
      }
      range := false;
    }

    method ParseTests() returns (r: Option<seq<Node>>)
      requires Valid()
      modifies this`pos
      ensures r.Some? ==> Valid()
      ensures Agrees(r, Tests(src, old(pos)))
      decreases |src.toks| - pos, 34
    {
      var tests: seq<Node> := [];
      NothingPrefixed(Tests(src, pos));
      while true
        invariant Valid() && old(pos) <= pos
        invariant Tests(src, old(pos)) == Prefixed(tests, Tests(src, pos))
        decreases |src.toks| - pos
      {
        var test := ParseUnaryTest();
        if test.None? { return None; }
        var closed := Accept(CloseParen);
        if closed { return Some(tests + [test.value]); }
        var ok := Accept(Comma);
        if !ok { return None; }
        OneMore(tests, test.value, Tests(src, pos));
        tests := tests + [test.value];
      }
    }

    method ParseUnaryTest() returns (r: Option<Node>)
      requires Valid()
      modifies this`pos
      ensures r.Some? ==> Valid()
      ensures Agrees(r, UnaryTest(src, old(pos)))
      decreases |src.toks| - pos, 32
    {
      var t, after := src.toks[pos], PeekAt(src, pos, 1);
      if t == Punct(Minus) && (after == Eof || after == Punct(Comma) || after == Punct(CloseParen)) {
        pos := pos + 1;
        return Some(AnyTest);
      }
      if ComparisonAt(t).Some? {
        pos := pos + 1;
        var x := ParseChain(AddTier);
        return if x.None? then None else Some(CompareTest(ComparisonAt(t).value, x.value));
      }
      r := ParseExpr();
    }

    method ParseUnary() returns (r: Option<Node>)
      requires Valid()
      modifies this`pos
      ensures r.Some? ==> Valid()
      ensures Agrees(r, Unary(src, old(pos)))
      decreases |src.toks| - pos, 12
    {
      var minus := Accept(Minus);
      if minus {
        var x := ParseUnary();
        return if x.None? then None else Some(Negation(x.value));
      }
      r := ParsePostfix();
    }

    method ParsePostfix() returns (r: Option<Node>)
      requires Valid()
      modifies this`pos
      ensures r.Some? ==> Valid()
      ensures Agrees(r, Postfix(src, old(pos)))
      decreases |src.toks| - pos, 10
    {
      hide Primary, Expr;
      r := ParsePrimary();
      if r.None? { return None; }
      while true
        invariant r.Some? && Valid() && old(pos) < pos
        invariant Postfix(src, old(pos)) == PostfixFrom(src, r.value, pos)
        decreases |src.toks| - pos
      {
        if src.toks[pos] == Punct(Dot) {
          var name := src.toks[pos + 1];
          if !name.Name? && !name.StringToken? { return None; }
          pos := pos + 2;
          r := Some(PathNode(r.value, if name.Name? then TextOf(name.word) else name.text));
        } else if src.toks[pos] == Punct(OpenBracket) {
          pos := pos + 1;
          var cond := ParseExpr();
          if cond.None? { return None; }
          var ok := Accept(CloseBracket);
          if !ok { return None; }
          r := Some(FilterNode(r.value, cond.value));
        } else {
          return;
        }
      }
    }

    method ParsePrimary() returns (r: Option<Node>)
      requires Valid()
      modifies this`pos
      ensures r.Some? ==> Valid()
      ensures Agrees(r, Primary(src, old(pos)))
      decreases |src.toks| - pos, 8
    {
      match src.toks[pos] {
        case NumberToken(text) =>
          pos := pos + 1;
          var n := FeelNumberText.ReadLiteral(text);
          r := if n.None? then None else Some(Literal(Numeric(n.value)));
        case StringToken(text) =>
          pos := pos + 1;
          r := Some(Literal(Text(text)));
        case Temporal(text) =>
          pos := pos + 1;
          var v := src.temporal(text);
          r := if v.None? then None else Some(Literal(v.value));
        case Name(_) => r := ParseNamed();
        case Punct(mark) => r := ParseBracketed(mark);
        case Eof => r := None;
      }
    }

    method ParseBracketed(mark: Mark) returns (r: Option<Node>)
      requires Valid() && src.toks[pos] == Punct(mark)
      modifies this`pos
      ensures r.Some? ==> Valid()
      ensures Agrees(r, Primary(src, old(pos)))
      decreases |src.toks| - pos, 6
    {
      hide Expr, Items, Fields, RangeLiteral, Scan, LooksLikeRange;
      match mark {
        case OpenParen =>
          var range := RangeAhead();
          if range {
            r := ParseRange();
          } else {
            pos := pos + 1;
            r := ParseExpr();
            if r.None? { return None; }
            var ok := Accept(CloseParen);
            if !ok { return None; }
          }
        case OpenBracket =>
          var range := RangeAhead();
          if range {
            r := ParseRange();
          } else {
            pos := pos + 1;
            var empty := Accept(CloseBracket);
            if empty { return Some(ListNode([])); }
            var items := ParseItems();
            r := if items.None? then None else Some(ListNode(items.value));
          }
        case CloseBracket => r := ParseRange();
        case OpenBrace =>
          pos := pos + 1;
          var empty := Accept(CloseBrace);
          if empty { return Some(ContextNode([])); }
          var fields := ParseFields();
          r := if fields.None? then None else Some(ContextNode(fields.value));
        case _ => r := None;
      }
    }

    method ParseNamed() returns (r: Option<Node>)
      requires Valid() && src.toks[pos].Name?
      modifies this`pos
      ensures r.Some? ==> Valid()
      ensures Agrees(r, Named(src, old(pos)))
      decreases |src.toks| - pos, 6
    {
      hide Expr, Chain, Comparison, Primary, Tests, Call, FunctionSpan;
      var word := src.toks[pos].word;
      if word == True || word == False {
        pos := pos + 1;
        return Some(Literal(Boolean(word == True)));
      }
      if word == NullWord {
        pos := pos + 1;
        return Some(Literal(Null));
      }
      if word == Not && PeekAt(src, pos, 1) == Punct(OpenParen) {
        pos := pos + 2;
        var tests := ParseTests();
        return if tests.None? then None else Some(NotTest(tests.value));
      }
      var n := FindFunctionName();
      if n > 0 {
        var fn := WordsAt(src, pos, n);
        pos := pos + n;
        r := ParseCall(fn);
        return;
      }
      pos := pos + 1;
      r := Some(Variable(TextOf(word)));
    }

    /** How many tokens the longest function name at the cursor spans. */
    method FindFunctionName() returns (best: nat)
      requires Valid()
      ensures best == FunctionSpan(src, pos)
    {
      hide SpanFrom, CalledHere;
      best := 0;
      var i := 0;
      while i < 5 && src.toks[pos + i].Name?
        invariant i <= 5 && best <= i && pos + i < |src.toks|
        invariant forall k :: pos <= k < pos + i ==> src.toks[k].Name?
        invariant best > 0 ==> src.toks[pos + best] == Punct(OpenParen)
        invariant FunctionSpan(src, pos) == SpanFrom(src, pos, i, best)
      {
        SpanNext(src, pos, i, best);
        i := i + 1;
        if CalledHere(src, pos, i) {
          best := i;
        }
      }
      SpanLast(src, pos, i, best);
    }

    method ParseItems() returns (r: Option<seq<Node>>)
      requires Valid()
      modifies this`pos
      ensures r.Some? ==> Valid()
      ensures Agrees(r, Items(src, old(pos)))
      decreases |src.toks| - pos, 32
    {
      var items: seq<Node> := [];
      NothingPrefixed(Items(src, pos));
      while true
        invariant Valid() && old(pos) <= pos
        invariant Items(src, old(pos)) == Prefixed(items, Items(src, pos))
        decreases |src.toks| - pos
      {
        var item := ParseExpr();
        if item.None? { return None; }
        var closed := Accept(CloseBracket);
        if closed { return Some(items + [item.value]); }
        var ok := Accept(Comma);
        if !ok { return None; }
        OneMore(items, item.value, Items(src, pos));
        items := items + [item.value];
      }
    }

    method ParseCall(fn: seq<Word>) returns (r: Option<Node>)
      requires Valid()
      modifies this`pos
      ensures r.Some? ==> Valid()
      ensures Agrees(r, Call(src, fn, old(pos)))
      decreases |src.toks| - pos, 4
    {
      var ok := Accept(OpenParen);
      if !ok { return None; }
      var empty := Accept(CloseParen);
      if empty { return Some(CallNode(fn, [], map[])); }
      var args := ParseArguments();
      r := if args.None? then None else Some(CallNode(fn, args.value.positional, args.value.named));
    }

    method ParseArguments() returns (r: Option<Args>)
      requires Valid()
      modifies this`pos
      ensures r.Some? ==> Valid()
      ensures Agrees(r, Arguments(src, old(pos)))
      decreases |src.toks| - pos, 34
    {
      var first := ParseArgument();
      if first.None? { return None; }
      var args := first.value;
      while !At(src, pos, CloseParen)
        invariant Valid() && old(pos) < pos
        invariant ArgumentsFrom(src, args, pos) == Arguments(src, old(pos))
        decreases |src.toks| - pos
      {
        var ok := Accept(Comma);
        if !ok { return None; }
        var arg := ParseArgument();
        if arg.None? { return None; }
        args := args.Then(arg.value);
      }
      pos := pos + 1;
      r := Some(args);
    }

    method ParseArgument() returns (r: Option<Args>)
      requires Valid()
      modifies this`pos
      ensures r.Some? ==> Valid()
      ensures Agrees(r, Argument(src, old(pos)))
      decreases |src.toks| - pos, 32
    {
      var n := NamedSpan(src, pos, 0);
      if n > 0 {
        var name := WordsAt(src, pos, n);
        pos := pos + n + 1;
        var v := ParseExpr();
        return if v.None? then None else Some(Args([], map[name := v.value]));
      }
      var arg := ParseExpr();
      return if arg.None? then None else Some(Args([arg.value], map[]));
    }

    method ParseRange() returns (r: Option<Node>)
      requires Valid() && src.toks[pos].Punct?
      modifies this`pos
      ensures r.Some? ==> Valid()
      ensures Agrees(r, RangeLiteral(src, old(pos)))
      decreases |src.toks| - pos, 4
    {
      var open := src.toks[pos];
      pos := pos + 1;
      var lo := ParseChain(AddTier);
      if lo.None? { return None; }
      var ok := Accept(DotDot);
      if !ok { return None; }
      var hi := ParseChain(AddTier);
      if hi.None? { return None; }
      var close := src.toks[pos];
      if close != Punct(CloseBracket) && close != Punct(CloseParen) && close != Punct(OpenBracket) { return None; }
      pos := pos + 1;
      r := Some(RangeNode(lo.value, hi.value, open == Punct(OpenBracket), close == Punct(CloseBracket)));
    }

    method ParseFields() returns (r: Option<seq<Entry>>)
      requires Valid()
      modifies this`pos
      ensures r.Some? ==> Valid()
      ensures Agrees(r, Fields(src, old(pos)))
      decreases |src.toks| - pos, 34
    {
      var fields: seq<Entry> := [];
      NothingPrefixed(Fields(src, pos));
      while true
        invariant Valid() && old(pos) <= pos
        invariant Fields(src, old(pos)) == Prefixed(fields, Fields(src, pos))
        decreases |src.toks| - pos
      {
        var entry := ParseField();
        if entry.None? { return None; }
        var closed := Accept(CloseBrace);
        if closed { return Some(fields + [entry.value]); }
        var ok := Accept(Comma);
        if !ok { return None; }
        OneMore(fields, entry.value, Fields(src, pos));
        fields := fields + [entry.value];
      }
    }

    method ParseField() returns (r: Option<Entry>)
      requires Valid()
      modifies this`pos
      ensures r.Some? ==> Valid()
      ensures Agrees(r, Field(src, old(pos)))
      decreases |src.toks| - pos, 32
    {
      var key := ParseKey();
      if key.None? { return None; }
      var ok := Accept(Colon);
      if !ok { return None; }
      var v := ParseExpr();
      return if v.None? then None else Some(Entry(key.value, v.value));
    }

    method ParseKey() returns (r: Option<string>)
      requires Valid()
      modifies this`pos
      ensures r.Some? ==> Valid()
      ensures Agrees(r, Key(src, old(pos)))
    {
      var k := src.toks[pos];
      if !k.Name? && !k.StringToken? { return None; }
      var key := if k.Name? then TextOf(k.word) else k.text;
      pos := pos + 1;
      while src.toks[pos].Name?
        invariant Valid()
        invariant Key(src, old(pos)) == KeyFrom(src, key, pos)
        decreases |src.toks| - pos
      {
        key := key + " " + TextOf(src.toks[pos].word);
        pos := pos + 1;
      }
      r := Some(key);
    }

    /** Parses a decision table's input entry: tests separated by commas, up to the end. */
    method ParseEntry() returns (r: Option<seq<Node>>)
      requires Valid() && pos == 0
      modifies this`pos
      ensures r == ParseUnaryTests(src, 0)
    {
      hide UnaryTest;
      var tests: seq<Node> := [];
      assert forall more: seq<Node> :: tests + more == more;
      while true
        invariant Valid()
        invariant ParseUnaryTests(src, 0) == var more := ParseUnaryTests(src, pos); if more.None? then None else Some(tests + more.value)
        decreases |src.toks| - pos
      {
        var test := ParseUnaryTest();
        if test.None? { return None; }
        var before := tests;
        tests := tests + [test.value];
        if src.toks[pos] == Eof { return Some(tests); }
        var ok := Accept(Comma);
        if !ok { return None; }
        assert forall more: seq<Node> :: before + ([test.value] + more) == tests + more;
      }
    }

    /** Parses a whole expression from the start of the token list. */
    method Parse() returns (r: Option<Node>)
      requires Valid() && pos == 0
      modifies this`pos
      ensures r == ParseExpression(src)
    {
      r := ParseExpr();
      if r.Some? && src.toks[pos] != Eof {
        r := None;
      }
    }
  }
}
