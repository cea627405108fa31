/** Parsing what was written gives back the expression. */
module FeelRoundTrip {

  import opened Wrappers
  import opened FeelSyntax
  import opened FeelGrammar
  import opened FeelPrinter
  import opened FeelTokens
  import FeelNumberText

  // ----- what may follow -----

  /** The level at which a token after an expression would be taken into it; 9 where it would turn
      a name before it into a call. */
  function Binding(t: Token): nat {
    match t
    case Punct(Dot) => 8 case Punct(OpenBracket) => 8
    case Punct(Power) => 6
    case Punct(Star) => 5 case Punct(Slash) => 5
    case Punct(Plus) => 4 case Punct(Minus) => 4
    case Punct(Equal) => 3 case Punct(NotEqual) => 3 case Punct(Less) => 3
    case Punct(AtMost) => 3 case Punct(Greater) => 3 case Punct(AtLeast) => 3
    case Name(Between) => 3 case Name(In) => 3
    case Name(And) => 2
    case Name(Or) => 1
    case Punct(OpenParen) => 9
    case Name(Then) => 0 case Name(Else) => 0 case Name(Return) => 0 case Name(Satisfies) => 0
    case Name(_) => 9
    case _ => 0
  }

  /** The strongest binding a token after an expression read at a level may have. */
  function Limit(level: nat): nat {
    if level == 3 then 2 else if level == 7 then 6 else if level >= 8 then 8 else level
  }

  /** No name just before p is read as the name of a function. */
  ghost predicate Quiet(src: Source, p: nat) {
    && Ended(src) && p < |src.toks| && Binding(src.toks[p]) < 9
    && (src.toks[p] == Name(And) ==> !(PeekAt(src, p, 1) == Name(Plain("time")) && PeekAt(src, p, 2) == Punct(OpenParen)))
  }

  lemma {:induction false} NoCallFrom(src: Source, p: nat, i: nat)
    requires Quiet(src, p + 1) && Phrases(src.phrases) && src.toks[p + 1].Name? && 1 <= i <= 5 && p + i < |src.toks|
    requires forall k :: p <= k < p + i ==> src.toks[k].Name?
    ensures SpanFrom(src, p, i, 0) == 0
    decreases 5 - i
  {
    if i < 5 && src.toks[p + i].Name? {
      var words := WordsAt(src, p, i + 1);
      assert words[1] == src.toks[p + 1].word;
      assert i == 2 ==> words[2] == src.toks[p + 2].word;
      assert !CalledHere(src, p, i + 1);
      NoCallFrom(src, p, i + 1);
    }
  }

  lemma NoCall(src: Source, p: nat)
    requires p < |src.toks| && src.toks[p].Name? && Quiet(src, p + 1) && Phrases(src.phrases)
    ensures FunctionSpan(src, p) == 0
  {
    if src.toks[p + 1].Name? {
      NoCallFrom(src, p, 1);
    }
  }

  lemma {:induction false} CallSpanFrom(src: Source, p: nat, fn: seq<Word>, i: nat)
    requires Ended(src) && CallableName(src.phrases, fn) && Phrases(src.phrases) && p + |fn| < |src.toks| && i < |fn|
    requires forall k :: p <= k < p + |fn| ==> src.toks[k] == Name(fn[k - p])
    requires src.toks[p + |fn|] == Punct(OpenParen)
    ensures SpanFrom(src, p, i, 0) == |fn|
    decreases |fn| - i
  {
    if i + 1 == |fn| {
      assert WordsAt(src, p, i + 1) == fn;
    } else {
      assert src.toks[p + i + 1] == Name(fn[i + 1]);
      CallSpanFrom(src, p, fn, i + 1);
    }
  }

  // ----- the levels -----

  function ParseAt(src: Source, level: nat, pos: nat): Parsed<Node>
    requires Ended(src) && pos < |src.toks|
  {
    match level
    case 0 => Expr(src, pos)
    case 1 => Chain(src, OrTier, pos)
    case 2 => Chain(src, AndTier, pos)
    case 3 => Comparison(src, pos)
    case 4 => Chain(src, AddTier, pos)
    case 5 => Chain(src, MulTier, pos)
    case 6 => Chain(src, PowTier, pos)
    case 7 => Unary(src, pos)
    case 8 => Postfix(src, pos)
    case _ => Primary(src, pos)
  }

  /** What a level makes of an expression it has just read and what follows it. */
  function Resume(src: Source, level: nat, e: Node, pos: nat): Parsed<Node>
    requires Ended(src) && pos < |src.toks|
  {
    match level
    case 1 => ChainFrom(src, OrTier, e, pos)
    case 2 => ChainFrom(src, AndTier, e, pos)
    case 4 => ChainFrom(src, AddTier, e, pos)
    case 5 => ChainFrom(src, MulTier, e, pos)
    case 6 => ChainFrom(src, PowTier, e, pos)
    case 8 => PostfixFrom(src, e, pos)
    case _ => Ok(e, pos)
  }

  /** With nothing binding as strongly after it, the expression is complete. */
  lemma Settles(src: Source, level: nat, e: Node, pos: nat)
    requires Ended(src) && pos < |src.toks| && Binding(src.toks[pos]) < level <= 9
    ensures Resume(src, level, e, pos) == Ok(e, pos)
  {
    hide Operand, Chain, Expr;
  }

  lemma LiftOne(src: Source, pos: nat, e: Node, end: nat, level: nat)
    requires Ended(src) && pos < |src.toks| && end < |src.toks| && level < 9
    requires ParseAt(src, level + 1, pos) == Ok(e, end) && Binding(src.toks[end]) <= Limit(level)
    requires level == 7 ==> src.toks[pos] != Punct(Minus)
    requires level == 0 ==> !LoopWord(src.toks[pos])
    ensures ParseAt(src, level, pos) == Resume(src, level, e, end)
  {
    match level
    case 0 => Settles(src, 1, e, end);
    case 1 => assert Operand(src, OrTier, pos) == Chain(src, AndTier, pos);
    case 2 => assert Operand(src, AndTier, pos) == Comparison(src, pos);
    case 3 => assert ComparisonFrom(src, e, end) == Ok(e, end);
    case 4 => assert Operand(src, AddTier, pos) == Chain(src, MulTier, pos);
    case 5 => assert Operand(src, MulTier, pos) == Chain(src, PowTier, pos);
    case 6 => assert Operand(src, PowTier, pos) == Unary(src, pos);
    case 7 =>
    case 8 =>
  }

  /** What a strong level reads, every weaker level reads too. */
  lemma {:induction false} Lift(src: Source, pos: nat, e: Node, end: nat, from: nat, level: nat)
    requires Ended(src) && pos < |src.toks| && end < |src.toks| && level < from <= 9
    requires ParseAt(src, from, pos) == Ok(e, end) && Binding(src.toks[end]) <= Limit(level)
    requires from >= 8 && level <= 7 ==> src.toks[pos] != Punct(Minus)
    requires level == 0 ==> !LoopWord(src.toks[pos])
    ensures ParseAt(src, level, pos) == Resume(src, level, e, end)
    decreases from
  {
    LiftOne(src, pos, e, end, from - 1);
    if from - 1 > level {
      Settles(src, from - 1, e, end);
      Lift(src, pos, e, end, from - 1, level);
    }
  }

  // ----- reading what was written -----

  /** e stands at pos written at a level, and what follows does not run into it. */
  ghost predicate Ready(src: Source, pos: nat, e: Node, level: nat) {
    && Ended(src) && Phrases(src.phrases) && Writable(src.phrases, e) && level <= 9
    && Written(src.toks, pos, e, level)
    && Quiet(src, End(pos, e, level)) && Binding(src.toks[End(pos, e, level)]) <= Limit(level)
  }

  ghost predicate ReadyBare(src: Source, pos: nat, e: Node) {
    && Ended(src) && Phrases(src.phrases) && Writable(src.phrases, e)
    && WrittenBare(src.toks, pos, e)
    && Quiet(src, BareEnd(pos, e)) && Binding(src.toks[BareEnd(pos, e)]) <= Limit(Level(e))
  }

  lemma {:induction false} Reads(src: Source, pos: nat, e: Node, level: nat)
    requires Ready(src, pos, e, level)
    ensures ParseAt(src, level, pos) == Resume(src, level, e, End(pos, e, level))
    decreases e, 6
  {
    hide Print, Bare, Writable, Expr, Chain, ChainFrom, Comparison, Unary, Postfix, PostfixFrom, Primary, Holds;
    var end := End(pos, e, level);
    if Level(e) < level {
      ReadsParens(src, pos, e, level);
      if level < 9 {
        Lift(src, pos, e, end, 9, level);
      }
    } else {
      PrintedBare(e, level);
      ReadsBare(src, pos, e);
      if Level(e) > level {
        Settles(src, Level(e), e, end);
        HeadBare(src, pos, e);
        Lift(src, pos, e, end, Level(e), level);
      }
    }
  }

  lemma PrintedBare(e: Node, level: nat)
    requires Level(e) >= level
    ensures Print(e, level) == Bare(e)
  {
    hide Bare;
  }

  lemma HeadBare(src: Source, pos: nat, e: Node)
    requires Phrases(src.phrases) && Writable(src.phrases, e) && WrittenBare(src.toks, pos, e)
    ensures GoodHead(src.toks[pos], Level(e))
  {
    hide Print, Bare, Writable;
    PrintedBare(e, Level(e));
    Head(src.phrases, e, Level(e));
    HoldsAt(src.toks, pos, Bare(e), 0);
  }

  /** A whole expression, before a token that takes nothing into it. */
  lemma {:induction false} ReadsExpr(src: Source, pos: nat, e: Node)
    requires Ended(src) && Phrases(src.phrases) && Writable(src.phrases, e)
    requires Written(src.toks, pos, e, 0) && Binding(src.toks[End(pos, e, 0)]) == 0
    ensures Expr(src, pos) == Ok(e, End(pos, e, 0))
    decreases e, 7
  {
    hide Print, Bare, Writable;
    Reads(src, pos, e, 0);
  }

  /** An operand of a comparison, a range or a unary test. */
  lemma {:induction false} ReadsSum(src: Source, pos: nat, e: Node)
    requires Ended(src) && Phrases(src.phrases) && Writable(src.phrases, e)
    requires Written(src.toks, pos, e, 4) && Quiet(src, End(pos, e, 4)) && Binding(src.toks[End(pos, e, 4)]) < 4
    ensures Chain(src, AddTier, pos) == Ok(e, End(pos, e, 4))
    decreases e, 7
  {
    hide Print, Bare, Writable;
    Reads(src, pos, e, 4);
    Settles(src, 4, e, End(pos, e, 4));
  }

  lemma {:induction false} ReadsParens(src: Source, pos: nat, e: Node, level: nat)
    requires Ready(src, pos, e, level) && Level(e) < level
    ensures Primary(src, pos) == Ok(e, End(pos, e, level)) && src.toks[pos] == Punct(OpenParen)
    decreases e, 5
  {
    hide Print, Bare, Writable, Expr, Chain, ChainFrom, Comparison, Unary, Postfix, PostfixFrom, Primary, Holds;
    SplitParens(src.toks, pos, e, level);
    var m := BareEnd(pos + 1, e);
    NotARange(src, pos, e);
    ReadsBare(src, pos + 1, e);
    if Level(e) > 0 {
      Settles(src, Level(e), e, m);
      HeadBare(src, pos + 1, e);
      Lift(src, pos + 1, e, m, Level(e), 0);
    }
    ParensAreRead(src, pos, e, m);
  }

  lemma ParensAreRead(src: Source, pos: nat, e: Node, m: nat)
    requires Ended(src) && pos + 1 < |src.toks| && src.toks[pos] == Punct(OpenParen) && !LooksLikeRange(src, pos)
    requires Expr(src, pos + 1) == Ok(e, m) && src.toks[m] == Punct(CloseParen)
    ensures Primary(src, pos) == Ok(e, m + 1)
  {
    hide Expr, Chain, Items, Fields, LooksLikeRange;
  }

  lemma NotARange(src: Source, pos: nat, e: Node)
    requires Writable(src.phrases, e) && pos < |src.toks| && src.toks[pos] == Punct(OpenParen)
    requires WrittenBare(src.toks, pos + 1, e) && src.toks[BareEnd(pos + 1, e)] == Punct(CloseParen)
    ensures !LooksLikeRange(src, pos)
  {
    hide Print, Bare, Writable;
    WritableParts(src.phrases, e);
    SkipBare(src.phrases, e, 1, true);
    ScanHolds(src.toks, pos + 1, Bare(e), 1);
  }

  lemma {:induction false} ReadsBare(src: Source, pos: nat, e: Node)
    requires ReadyBare(src, pos, e)
    ensures ParseAt(src, Level(e), pos) == Resume(src, Level(e), e, BareEnd(pos, e))
    decreases e, 4
  {
    hide Print, Bare, Writable, Expr, Chain, Comparison, Postfix, PostfixFrom, ChainFrom;
    WritableParts(src.phrases, e);
    match e
    case Negation(_) => ReadsNegation(src, pos, e);
    case Binary(op, _, _) => if IsComparison(op) { ReadsComparison(src, pos, e); } else { ReadsChain(src, pos, e); }
    case BetweenNode(_, _, _) => ReadsBetween(src, pos, e);
    case InNode(_, _) => ReadsIn(src, pos, e);
    case IfNode(_, _, _) => ReadsIf(src, pos, e);
    case ForNode(iters, body) => ReadsLoop(src, pos, e, For, Return, iters, body);
    case QuantNode(every, iters, cond) => ReadsLoop(src, pos, e, if every then Every else SomeOf, Satisfies, iters, cond);
    case PathNode(_, _) => ReadsPath(src, pos, e);
    case FilterNode(_, _) => ReadsFilter(src, pos, e);
    case CallNode(_, _, _) =>
      ReadsPrimary(src, pos, e);
      if Level(e) == 0 {
        ReadsTimeCall(src, pos, e);
      }
    case Literal(_) => ReadsPrimary(src, pos, e);
    case Variable(_) => ReadsPrimary(src, pos, e);
    case ListNode(_) => ReadsPrimary(src, pos, e);
    case ContextNode(_) => ReadsPrimary(src, pos, e);
    case RangeNode(_, _, _, _) => ReadsPrimary(src, pos, e);
    case NotTest(_) => ReadsPrimary(src, pos, e);
  }

  lemma {:induction false} ReadsNegation(src: Source, pos: nat, e: Node)
    requires ReadyBare(src, pos, e) && e.Negation?
    ensures Unary(src, pos) == Ok(e, BareEnd(pos, e))
    decreases e, 3
  {
    hide Print, Bare, Writable, Holds;
    WritableParts(src.phrases, e);
    SplitNegation(src.toks, pos, e);
    Reads(src, pos + 1, e.x, 7);
  }

  lemma ReadsTimeCall(src: Source, pos: nat, e: Node)
    requires ReadyBare(src, pos, e) && e.CallNode? && e.fn == [Plain("time")] && Primary(src, pos) == Ok(e, BareEnd(pos, e))
    ensures Expr(src, pos) == Ok(e, BareEnd(pos, e))
  {
    hide Print, Bare, Writable, Expr, Primary;
    SplitCall(src.toks, pos, e);
    assert src.toks[pos + 0] == Name(e.fn[0]);
    Lift(src, pos, e, BareEnd(pos, e), 9, 0);
  }

  function TierOf(op: BinaryOp): Tier
    requires !IsComparison(op)
  {
    match op
    case OrOp => OrTier
    case AndOp => AndTier
    case AddOp => AddTier case SubOp => AddTier
    case MulOp => MulTier case DivOp => MulTier
    case PowOp => PowTier
  }

  /** "and" before a written expression does not end in "and time(". */
  lemma QuietAnd(src: Source, m: nat, r: Node, level: nat)
    requires Ended(src) && Phrases(src.phrases) && Writable(src.phrases, r) && level >= 1
    requires m < |src.toks| && src.toks[m] == Name(And)
    requires Written(src.toks, m + 1, r, level) && src.toks[End(m + 1, r, level)] != Punct(OpenParen)
    ensures Quiet(src, m)
  {
    hide Print, Bare, Writable;
    NotTimeCall(src.phrases, r, level);
    QuietBefore(src, m, Print(r, level));
  }

  lemma QuietBefore(src: Source, m: nat, ts: seq<Token>)
    requires Ended(src) && m < |src.toks| && src.toks[m] == Name(And)
    requires ts != [] && Holds(src.toks, m + 1, ts) && m + 1 + |ts| < |src.toks| && src.toks[m + 1 + |ts|] != Punct(OpenParen)
    requires ts[0] == Name(Plain("time")) && |ts| > 1 ==> ts[1] != Punct(OpenParen)
    ensures Quiet(src, m)
  {
    HoldsAt(src.toks, m + 1, ts, 0);
    if |ts| > 1 {
      HoldsAt(src.toks, m + 1, ts, 1);
    }
  }

  lemma {:induction false} ReadsChain(src: Source, pos: nat, e: Node)
    requires ReadyBare(src, pos, e) && e.Binary? && !IsComparison(e.op)
    ensures ParseAt(src, Level(e), pos) == Resume(src, Level(e), e, BareEnd(pos, e))
    decreases e, 3
  {
    hide Print, Bare, Writable, Unary, Comparison, Holds;
    WritableParts(src.phrases, e);
    var level, end := OperatorLevel(e.op), BareEnd(pos, e);
    var m := SplitBinary(src.toks, pos, e);
    if e.op.AndOp? {
      QuietAnd(src, m, e.r, level + 1);
    }
    Reads(src, pos, e.l, level);
    Reads(src, m + 1, e.r, level + 1);
    Settles(src, level + 1, e.r, end);
    assert Operand(src, TierOf(e.op), m + 1) == ParseAt(src, level + 1, m + 1);
    assert OperatorAt(TierOf(e.op), src.toks[m]) == Some(e.op);
  }

  lemma {:induction false} ReadsComparison(src: Source, pos: nat, e: Node)
    requires ReadyBare(src, pos, e) && e.Binary? && IsComparison(e.op)
    ensures Comparison(src, pos) == Ok(e, BareEnd(pos, e))
    decreases e, 3
  {
    hide Print, Bare, Writable, Comparison, Chain, Holds;
    WritableParts(src.phrases, e);
    var m := SplitBinary(src.toks, pos, e);
    ReadsSum(src, pos, e.l);
    ReadsSum(src, m + 1, e.r);
    ComparisonIsRead(src, pos, e, m, BareEnd(pos, e));
  }

  lemma ComparisonIsRead(src: Source, pos: nat, e: Node, m: nat, end: nat)
    requires Ended(src) && e.Binary? && IsComparison(e.op) && pos < |src.toks| && m + 1 < |src.toks|
    requires Chain(src, AddTier, pos) == Ok(e.l, m) && src.toks[m] == OperatorToken(e.op) && Chain(src, AddTier, m + 1) == Ok(e.r, end)
    ensures Comparison(src, pos) == Ok(e, end)
  {
    hide Chain;
    assert ComparisonAt(src.toks[m]) == Some(e.op);
  }

  lemma {:induction false} ReadsBetween(src: Source, pos: nat, e: Node)
    requires ReadyBare(src, pos, e) && e.BetweenNode?
    ensures Comparison(src, pos) == Ok(e, BareEnd(pos, e))
    decreases e, 3
  {
    hide Print, Bare, Writable, Comparison, Chain, Holds;
    WritableParts(src.phrases, e);
    var a, b := SplitBetween(src.toks, pos, e);
    ReadsSum(src, pos, e.x);
    QuietAnd(src, b, e.hi, 4);
    ReadsSum(src, a + 1, e.lo);
    ReadsSum(src, b + 1, e.hi);
    BetweenIsRead(src, pos, e, a, b, BareEnd(pos, e));
  }

  lemma BetweenIsRead(src: Source, pos: nat, e: Node, a: nat, b: nat, end: nat)
    requires Ended(src) && e.BetweenNode? && pos < |src.toks| && a + 1 < |src.toks| && b + 1 < |src.toks|
    requires Chain(src, AddTier, pos) == Ok(e.x, a) && src.toks[a] == Name(Between)
    requires Chain(src, AddTier, a + 1) == Ok(e.lo, b) && src.toks[b] == Name(And)
    requires Chain(src, AddTier, b + 1) == Ok(e.hi, end)
    ensures Comparison(src, pos) == Ok(e, end)
  {
    hide Chain;
  }

  lemma {:induction false} ReadsIn(src: Source, pos: nat, e: Node)
    requires ReadyBare(src, pos, e) && e.InNode?
    ensures Comparison(src, pos) == Ok(e, BareEnd(pos, e))
    decreases e, 3
  {
    hide Print, Bare, Writable, PrintItems, WritableTests, Tests, Chain, Comparison, PositiveTests, LooksLikeRange, Holds;
    WritableParts(src.phrases, e);
    var a := SplitIn(src.toks, pos, e);
    ReadsSum(src, pos, e.x);
    TestsAreNoRange(src, a + 1, e.tests);
    ReadsTests(src, a + 2, e.tests);
    InIsRead(src, pos, e, a, BareEnd(pos, e));
  }

  lemma InIsRead(src: Source, pos: nat, e: Node, a: nat, end: nat)
    requires Ended(src) && e.InNode? && pos < |src.toks| && a + 2 < |src.toks| && Chain(src, AddTier, pos) == Ok(e.x, a)
    requires src.toks[a] == Name(In) && src.toks[a + 1] == Punct(OpenParen) && !LooksLikeRange(src, a + 1)
    requires Tests(src, a + 2) == Ok(e.tests, end)
    ensures Comparison(src, pos) == Ok(e, end)
  {
    hide Chain, Tests, LooksLikeRange;
    assert PositiveTests(src, a + 1) == Tests(src, a + 2);
  }

  lemma TestsAreNoRange(src: Source, pos: nat, tests: seq<Node>)
    requires pos < |src.toks| && src.toks[pos] == Punct(OpenParen) && Holds(src.toks, pos + 1, PrintItems(tests, CloseParen))
    requires tests != [] && WritableTests(src.phrases, tests)
    ensures !LooksLikeRange(src, pos)
  {
    hide Print, Bare, Writable;
    SkipItems(src.phrases, tests, CloseParen, 1);
    ScanHolds(src.toks, pos + 1, PrintItems(tests, CloseParen), 1);
  }

  lemma {:induction false} ReadsIf(src: Source, pos: nat, e: Node)
    requires ReadyBare(src, pos, e) && e.IfNode?
    ensures Expr(src, pos) == Ok(e, BareEnd(pos, e))
    decreases e, 3
  {
    hide Print, Bare, Writable, Expr, Holds;
    WritableParts(src.phrases, e);
    var a, b := SplitIf(src.toks, pos, e);
    ReadsExpr(src, pos + 1, e.cond);
    ReadsExpr(src, a + 1, e.yes);
    ReadsExpr(src, b + 1, e.no);
    IfIsRead(src, pos, e, a, b, BareEnd(pos, e));
  }

  lemma IfIsRead(src: Source, pos: nat, e: Node, a: nat, b: nat, end: nat)
    requires Ended(src) && e.IfNode? && pos + 1 < |src.toks| && a + 1 < |src.toks| && b + 1 < |src.toks|
    requires src.toks[pos] == Name(If) && Expr(src, pos + 1) == Ok(e.cond, a) && src.toks[a] == Name(Then)
    requires Expr(src, a + 1) == Ok(e.yes, b) && src.toks[b] == Name(Else) && Expr(src, b + 1) == Ok(e.no, end)
    ensures Expr(src, pos) == Ok(e, end)
  {
    hide Iterators, Chain;
  }

  lemma {:induction false} ReadsLoop(src: Source, pos: nat, e: Node, open: Word, close: Word, iters: seq<Iterator>, body: Node)
    requires ReadyBare(src, pos, e) && IsLoop(e, open, close, iters, body)
    ensures Expr(src, pos) == Ok(e, BareEnd(pos, e))
    decreases e, 3
  {
    hide Print, Bare, Writable, PrintIterators, WritableIterators, Expr, Iterators, Holds;
    WritableParts(src.phrases, e);
    var a := SplitLoop(src.toks, pos, e, open, close, iters, body);
    ReadsIterators(src, pos + 1, iters, a);
    ReadsExpr(src, a + 1, body);
    LoopIsRead(src, pos, e, open, close, iters, body, a, BareEnd(pos, e));
  }

  lemma LoopIsRead(src: Source, pos: nat, e: Node, open: Word, close: Word, iters: seq<Iterator>, body: Node, a: nat, end: nat)
    requires Ended(src) && IsLoop(e, open, close, iters, body) && pos + 1 < |src.toks| && a + 1 < |src.toks|
    requires src.toks[pos] == Name(open) && Iterators(src, pos + 1) == Ok(iters, a) && src.toks[a] == Name(close) && Expr(src, a + 1) == Ok(body, end)
    ensures Expr(src, pos) == Ok(e, end)
  {
    hide Iterators, Chain;
  }

  lemma {:induction false} ReadsPath(src: Source, pos: nat, e: Node)
    requires ReadyBare(src, pos, e) && e.PathNode?
    ensures Postfix(src, pos) == PostfixFrom(src, e, BareEnd(pos, e))
    decreases e, 3
  {
    hide Print, Bare, Writable, Postfix, PostfixFrom, Holds;
    WritableParts(src.phrases, e);
    var a := SplitPath(src.toks, pos, e);
    Reads(src, pos, e.x, 8);
    PathNext(src, e.x, e.name, a);
  }

  lemma PathNext(src: Source, x: Node, name: string, a: nat)
    requires Ended(src) && a + 2 < |src.toks| && src.toks[a] == Punct(Dot) && src.toks[a + 1] == StringToken(name)
    ensures PostfixFrom(src, x, a) == PostfixFrom(src, PathNode(x, name), a + 2)
  {
    hide Expr;
  }

  lemma {:induction false} ReadsFilter(src: Source, pos: nat, e: Node)
    requires ReadyBare(src, pos, e) && e.FilterNode?
    ensures Postfix(src, pos) == PostfixFrom(src, e, BareEnd(pos, e))
    decreases e, 3
  {
    hide Print, Bare, Writable, Expr, Postfix, PostfixFrom, Holds;
    WritableParts(src.phrases, e);
    var a, b := SplitFilter(src.toks, pos, e);
    Reads(src, pos, e.x, 8);
    ReadsExpr(src, a + 1, e.cond);
    FilterNext(src, e.x, e.cond, a, b);
  }

  lemma FilterNext(src: Source, x: Node, cond: Node, a: nat, b: nat)
    requires Ended(src) && a + 1 < |src.toks| && b + 1 < |src.toks| && src.toks[a] == Punct(OpenBracket)
    requires Expr(src, a + 1) == Ok(cond, b) && src.toks[b] == Punct(CloseBracket)
    ensures PostfixFrom(src, x, a) == PostfixFrom(src, FilterNode(x, cond), b + 1)
  {
    hide Expr;
  }

  // ----- primaries -----

  lemma {:induction false} ReadsPrimary(src: Source, pos: nat, e: Node)
    requires ReadyBare(src, pos, e)
    requires e.Literal? || e.Variable? || e.ListNode? || e.ContextNode? || e.RangeNode? || e.CallNode? || e.NotTest?
    ensures Primary(src, pos) == Ok(e, BareEnd(pos, e))
    decreases e, 3
  {
    hide Print, Bare, Writable, Primary;
    WritableParts(src.phrases, e);
    match e
    case Literal(v) => BareLeaf(e); ReadsLiteral(src, pos, v);
    case Variable(name) => BareLeaf(e); ReadsVariable(src, pos, name);
    case ListNode(_) => ReadsList(src, pos, e);
    case ContextNode(_) => ReadsContext(src, pos, e);
    case RangeNode(_, _, _, _) => ReadsRange(src, pos, e);
    case CallNode(_, _, _) => ReadsCall(src, pos, e);
    case NotTest(_) => ReadsNot(src, pos, e);
  }

  lemma BareLeaf(e: Node)
    requires e.Literal? || e.Variable?
    ensures Bare(e) == [if e.Literal? then LiteralToken(e.v) else Name(WordOf(e.name))]
  {
  }

  lemma ReadsLiteral(src: Source, pos: nat, v: Value)
    requires Ended(src) && WritableLiteral(v) && Holds(src.toks, pos, [LiteralToken(v)])
    ensures pos < |src.toks| && Primary(src, pos) == Ok(Literal(v), pos + 1)
  {
    HoldsOne(src.toks, pos, LiteralToken(v));
    if v.Numeric? {
      FeelNumberText.LiteralRoundTrip(v.n);
    }
  }

  lemma ReadsVariable(src: Source, pos: nat, name: string)
    requires Ended(src) && Phrases(src.phrases) && !Reserved(WordOf(name))
    requires Holds(src.toks, pos, [Name(WordOf(name))]) && Quiet(src, pos + 1)
    ensures Primary(src, pos) == Ok(Variable(name), pos + 1)
  {
    hide Primary, FunctionSpan;
    HoldsOne(src.toks, pos, Name(WordOf(name)));
    NoCall(src, pos);
    VariableIsRead(src, pos, name);
  }

  lemma VariableIsRead(src: Source, pos: nat, name: string)
    requires Ended(src) && pos + 1 < |src.toks| && src.toks[pos] == Name(WordOf(name)) && !Reserved(WordOf(name))
    requires FunctionSpan(src, pos) == 0 && src.toks[pos + 1] != Punct(OpenParen)
    ensures Primary(src, pos) == Ok(Variable(name), pos + 1)
  {
    hide Expr, Call, Tests, FunctionSpan, WordOf;
    assert TextOf(WordOf(name)) == name;
  }

  lemma {:induction false} ReadsNot(src: Source, pos: nat, e: Node)
    requires ReadyBare(src, pos, e) && e.NotTest?
    ensures Primary(src, pos) == Ok(e, BareEnd(pos, e))
    decreases e, 2
  {
    hide Print, Bare, Writable, PrintItems, WritableTests, Primary, Tests, Holds;
    WritableParts(src.phrases, e);
    SplitNot(src.toks, pos, e);
    ReadsTests(src, pos + 2, e.tests);
    NotIsRead(src, pos, e, BareEnd(pos, e));
  }

  lemma SplitNot(toks: seq<Token>, pos: nat, e: Node)
    requires WrittenBare(toks, pos, e) && e.NotTest?
    ensures pos + 2 <= |toks| && toks[pos] == Name(Not) && toks[pos + 1] == Punct(OpenParen)
    ensures Holds(toks, pos + 2, PrintItems(e.tests, CloseParen)) && BareEnd(pos, e) == pos + 2 + |PrintItems(e.tests, CloseParen)|
  {
    hide PrintItems;
    var opening := [Name(Not), Punct(OpenParen)];
    HoldsAppend(toks, pos, opening, PrintItems(e.tests, CloseParen));
    HoldsAt(toks, pos, opening, 0);
    HoldsAt(toks, pos, opening, 1);
  }

  lemma NotIsRead(src: Source, pos: nat, e: Node, end: nat)
    requires Ended(src) && e.NotTest? && pos + 2 < |src.toks| && src.toks[pos] == Name(Not) && src.toks[pos + 1] == Punct(OpenParen)
    requires Tests(src, pos + 2) == Ok(e.tests, end)
    ensures Primary(src, pos) == Ok(e, end)
  {
    hide Tests, Expr, Call, FunctionSpan;
  }

  lemma {:induction false} ReadsList(src: Source, pos: nat, e: Node)
    requires ReadyBare(src, pos, e) && e.ListNode?
    ensures Primary(src, pos) == Ok(e, BareEnd(pos, e))
    decreases e, 2
  {
    hide Print, Bare, Writable, Primary, PrintItems, WritableAll, LooksLikeRange, Holds;
    WritableParts(src.phrases, e);
    if e.elements == [] {
      ReadsEmptyList(src, pos);
    } else {
      SplitList(src.toks, pos, e.elements);
      ItemsAreNoRange(src, pos, e.elements);
      ReadsItems(src, pos + 1, e.elements);
      ListIsRead(src, pos, e.elements, BareEnd(pos, e));
    }
  }

  lemma ReadsEmptyList(src: Source, pos: nat)
    requires Ended(src) && WrittenBare(src.toks, pos, ListNode([]))
    ensures Primary(src, pos) == Ok(ListNode([]), BareEnd(pos, ListNode([])))
  {
    hide Expr, Items, Fields, Chain;
    assert Bare(ListNode([])) == [Punct(OpenBracket), Punct(CloseBracket)];
    HoldsAt(src.toks, pos, Bare(ListNode([])), 0);
    HoldsAt(src.toks, pos, Bare(ListNode([])), 1);
    EmptyIsNoRange(src, pos);
  }

  lemma SplitList(toks: seq<Token>, pos: nat, items: seq<Node>)
    requires items != [] && Holds(toks, pos, Bare(ListNode(items)))
    ensures pos < |toks| && toks[pos] == Punct(OpenBracket)
    ensures Holds(toks, pos + 1, PrintItems(items, CloseBracket)) && |Bare(ListNode(items))| == 1 + |PrintItems(items, CloseBracket)|
  {
    hide Print, PrintItems;
    HoldsFirst(toks, pos, Punct(OpenBracket), PrintItems(items, CloseBracket));
  }

  lemma ListIsRead(src: Source, pos: nat, items: seq<Node>, end: nat)
    requires Ended(src) && pos + 1 < |src.toks| && src.toks[pos] == Punct(OpenBracket) && !LooksLikeRange(src, pos)
    requires src.toks[pos + 1] != Punct(CloseBracket) && Items(src, pos + 1) == Ok(items, end)
    ensures Primary(src, pos) == Ok(ListNode(items), end)
  {
    hide Fields, Expr, Items, Chain;
  }

  lemma EmptyIsNoRange(src: Source, pos: nat)
    requires pos + 1 < |src.toks| && src.toks[pos] == Punct(OpenBracket) && src.toks[pos + 1] == Punct(CloseBracket)
    ensures !LooksLikeRange(src, pos)
  {
    assert !Scan(src.toks, pos + 1, 1);
  }

  lemma ItemsAreNoRange(src: Source, pos: nat, items: seq<Node>)
    requires pos + 1 < |src.toks| && src.toks[pos] == Punct(OpenBracket) && Holds(src.toks, pos + 1, PrintItems(items, CloseBracket))
    requires items != [] && WritableAll(src.phrases, items) && Phrases(src.phrases)
    ensures !LooksLikeRange(src, pos) && src.toks[pos + 1] != Punct(CloseBracket)
  {
    AllAreTests(src.phrases, items);
    SkipItems(src.phrases, items, CloseBracket, 1);
    ScanHolds(src.toks, pos + 1, PrintItems(items, CloseBracket), 1);
    Head(src.phrases, items[0], 0);
    HoldsAt(src.toks, pos + 1, PrintItems(items, CloseBracket), 0);
  }

  lemma {:induction false} ReadsItems(src: Source, pos: nat, items: seq<Node>)
    requires Ended(src) && Phrases(src.phrases) && items != [] && WritableAll(src.phrases, items)
    requires Holds(src.toks, pos, PrintItems(items, CloseBracket))
    ensures pos < |src.toks| && Items(src, pos) == Ok(items, pos + |PrintItems(items, CloseBracket)|)
    decreases items, 8
  {
    hide Print, Bare, Writable, Expr, Holds;
    var m := End(pos, items[0], 0);
    SplitSeparated(src.toks, pos, items[0], PrintItems(items[1..], CloseBracket), |items| == 1, Punct(CloseBracket));
    ReadsExpr(src, pos, items[0]);
    if |items| == 1 {
      assert [items[0]] == items;
    } else {
      ReadsItems(src, m + 1, items[1..]);
      assert [items[0]] + items[1..] == items;
    }
  }

  lemma {:induction false} ReadsTests(src: Source, pos: nat, tests: seq<Node>)
    requires Ended(src) && Phrases(src.phrases) && tests != [] && WritableTests(src.phrases, tests)
    requires Holds(src.toks, pos, PrintItems(tests, CloseParen))
    ensures pos < |src.toks| && Tests(src, pos) == Ok(tests, pos + |PrintItems(tests, CloseParen)|)
    decreases tests, 8
  {
    hide Print, Bare, Writable, UnaryTest, Holds;
    var m := End(pos, tests[0], 0);
    SplitSeparated(src.toks, pos, tests[0], PrintItems(tests[1..], CloseParen), |tests| == 1, Punct(CloseParen));
    ReadsTest(src, pos, tests[0]);
    if |tests| == 1 {
      assert [tests[0]] == tests;
    } else {
      ReadsTests(src, m + 1, tests[1..]);
      assert [tests[0]] + tests[1..] == tests;
    }
  }

  /** What can come after a test. */
  predicate EndsTest(t: Token) {
    t == Punct(Comma) || t == Punct(CloseParen) || t == Eof
  }

  lemma {:induction false} ReadsTest(src: Source, pos: nat, t: Node)
    requires Ended(src) && Phrases(src.phrases) && WritableTest(src.phrases, t) && Written(src.toks, pos, t, 0)
    requires EndsTest(src.toks[End(pos, t, 0)])
    ensures UnaryTest(src, pos) == Ok(t, End(pos, t, 0))
    decreases t, 9
  {
    hide Print, Bare, Writable, Expr, UnaryTest;
    PrintedBare(t, 0);
    if t.CompareTest? {
      ReadsCompareTest(src, pos, t);
    } else if t.AnyTest? {
      ReadsAnyTest(src, pos);
    } else {
      ExpressionIsNoTest(src, pos, t);
      ReadsExpr(src, pos, t);
    }
  }

  lemma {:induction false} ReadsCompareTest(src: Source, pos: nat, t: Node)
    requires Ended(src) && Phrases(src.phrases) && WritableTest(src.phrases, t) && t.CompareTest? && WrittenBare(src.toks, pos, t)
    requires EndsTest(src.toks[BareEnd(pos, t)])
    ensures UnaryTest(src, pos) == Ok(t, BareEnd(pos, t))
    decreases t, 8
  {
    hide Print, Bare, Writable, UnaryTest, Chain;
    SplitCompareTest(src.toks, pos, t);
    ReadsSum(src, pos + 1, t.x);
    CompareTestIsRead(src, pos, t, BareEnd(pos, t));
  }

  lemma CompareTestIsRead(src: Source, pos: nat, t: Node, end: nat)
    requires Ended(src) && t.CompareTest? && IsComparison(t.op) && pos + 1 < |src.toks| && src.toks[pos] == OperatorToken(t.op)
    requires Chain(src, AddTier, pos + 1) == Ok(t.x, end)
    ensures UnaryTest(src, pos) == Ok(t, end)
  {
    hide Expr, Chain;
    assert ComparisonAt(src.toks[pos]) == Some(t.op);
  }

  lemma SplitCompareTest(toks: seq<Token>, pos: nat, t: Node)
    requires t.CompareTest? && WrittenBare(toks, pos, t)
    ensures toks[pos] == OperatorToken(t.op) && Written(toks, pos + 1, t.x, 4) && BareEnd(pos, t) == End(pos + 1, t.x, 4)
  {
    hide Print;
    HoldsFirst(toks, pos, OperatorToken(t.op), Print(t.x, 4));
  }

  lemma ReadsAnyTest(src: Source, pos: nat)
    requires Ended(src) && WrittenBare(src.toks, pos, AnyTest)
    requires EndsTest(src.toks[BareEnd(pos, AnyTest)])
    ensures UnaryTest(src, pos) == Ok(AnyTest, BareEnd(pos, AnyTest))
  {
    HoldsOne(src.toks, pos, Punct(Minus));
  }

  /** A written expression is not taken for the test "-" or for a comparison. */
  lemma ExpressionIsNoTest(src: Source, pos: nat, e: Node)
    requires Ended(src) && Phrases(src.phrases) && Writable(src.phrases, e) && Written(src.toks, pos, e, 0)
    ensures UnaryTest(src, pos) == Expr(src, pos)
  {
    hide Print, Bare, Writable;
    Head(src.phrases, e, 0);
    MinusHasOperand(src.phrases, e, 0);
    NoTestAt(src, pos, Print(e, 0));
  }

  lemma NoTestAt(src: Source, pos: nat, ts: seq<Token>)
    requires Ended(src) && ts != [] && Holds(src.toks, pos, ts)
    requires Starter(ts[0]) && (ts[0] == Punct(Minus) ==> |ts| > 1 && Starter(ts[1]))
    ensures UnaryTest(src, pos) == Expr(src, pos)
  {
    hide Expr, Chain;
    HoldsAt(src.toks, pos, ts, 0);
    if |ts| > 1 {
      HoldsAt(src.toks, pos, ts, 1);
    }
  }

  lemma {:induction false} ReadsContext(src: Source, pos: nat, e: Node)
    requires ReadyBare(src, pos, e) && e.ContextNode?
    ensures Primary(src, pos) == Ok(e, BareEnd(pos, e))
    decreases e, 2
  {
    hide Print, Bare, Writable, Primary, PrintFields, WritableFields, Holds;
    WritableParts(src.phrases, e);
    if e.fields == [] {
      ReadsEmptyContext(src, pos);
    } else {
      SplitContext(src.toks, pos, e.fields);
      var m := SplitFields(src.toks, pos + 1, e.fields);
      ReadsFields(src, pos + 1, e.fields);
      ContextIsRead(src, pos, e.fields, BareEnd(pos, e));
    }
  }

  lemma ReadsEmptyContext(src: Source, pos: nat)
    requires Ended(src) && WrittenBare(src.toks, pos, ContextNode([]))
    ensures Primary(src, pos) == Ok(ContextNode([]), BareEnd(pos, ContextNode([])))
  {
    hide Expr, Items, Fields, Chain;
    assert Bare(ContextNode([])) == [Punct(OpenBrace), Punct(CloseBrace)];
    HoldsAt(src.toks, pos, Bare(ContextNode([])), 0);
    HoldsAt(src.toks, pos, Bare(ContextNode([])), 1);
  }

  lemma SplitContext(toks: seq<Token>, pos: nat, fields: seq<Entry>)
    requires fields != [] && Holds(toks, pos, Bare(ContextNode(fields)))
    ensures pos < |toks| && toks[pos] == Punct(OpenBrace)
    ensures Holds(toks, pos + 1, PrintFields(fields)) && |Bare(ContextNode(fields))| == 1 + |PrintFields(fields)|
  {
    hide Print, PrintFields;
    HoldsFirst(toks, pos, Punct(OpenBrace), PrintFields(fields));
  }

  lemma ContextIsRead(src: Source, pos: nat, fields: seq<Entry>, end: nat)
    requires Ended(src) && pos + 1 < |src.toks| && src.toks[pos] == Punct(OpenBrace)
    requires src.toks[pos + 1] != Punct(CloseBrace) && Fields(src, pos + 1) == Ok(fields, end)
    ensures Primary(src, pos) == Ok(ContextNode(fields), end)
  {
    hide Fields, Expr, Items, Chain;
  }

  lemma {:induction false} ReadsFields(src: Source, pos: nat, fields: seq<Entry>)
    requires Ended(src) && Phrases(src.phrases) && fields != [] && WritableFields(src.phrases, fields)
    requires Holds(src.toks, pos, PrintFields(fields))
    ensures pos < |src.toks| && Fields(src, pos) == Ok(fields, pos + |PrintFields(fields)|)
    decreases fields, 8
  {
    hide Print, Bare, Writable, Expr, Field, Holds;
    var m := SplitFields(src.toks, pos, fields);
    ReadsExpr(src, pos + 2, fields[0].value);
    FieldIsRead(src, pos, fields[0], m);
    if |fields| == 1 {
      assert [fields[0]] == fields;
    } else {
      ReadsFields(src, m + 1, fields[1..]);
      assert [fields[0]] + fields[1..] == fields;
    }
  }

  lemma FieldIsRead(src: Source, pos: nat, field: Entry, m: nat)
    requires Ended(src) && pos + 2 < |src.toks| && src.toks[pos] == StringToken(field.key) && src.toks[pos + 1] == Punct(Colon)
    requires Expr(src, pos + 2) == Ok(field.value, m)
    ensures Field(src, pos) == Ok(field, m)
  {
  }

  lemma {:induction false} ReadsRange(src: Source, pos: nat, e: Node)
    requires ReadyBare(src, pos, e) && e.RangeNode?
    ensures Primary(src, pos) == Ok(e, BareEnd(pos, e))
    decreases e, 2
  {
    hide Print, Bare, Writable, Primary, Chain, Holds;
    WritableParts(src.phrases, e);
    var a, b := SplitRange(src.toks, pos, e);
    RangeAhead(src, pos, e.lo);
    ReadsSum(src, pos + 1, e.lo);
    ReadsSum(src, a + 1, e.hi);
    RangeIsRead(src, pos, e, a, b);
  }

  lemma RangeAhead(src: Source, pos: nat, lo: Node)
    requires pos < |src.toks| && Opens(src.toks[pos]) && Writable(src.phrases, lo)
    requires Written(src.toks, pos + 1, lo, 4) && src.toks[End(pos + 1, lo, 4)] == Punct(DotDot)
    ensures LooksLikeRange(src, pos)
  {
    hide Print, Bare;
    SkipPrint(src.phrases, lo, 4, 1);
    DotsAhead(src, pos, Print(lo, 4));
  }

  lemma DotsAhead(src: Source, pos: nat, ts: seq<Token>)
    requires pos < |src.toks| && Opens(src.toks[pos]) && Skipped(ts, 1, false)
    requires Holds(src.toks, pos + 1, ts) && pos + 1 + |ts| < |src.toks| && src.toks[pos + 1 + |ts|] == Punct(DotDot)
    ensures LooksLikeRange(src, pos)
  {
    ScanHolds(src.toks, pos + 1, ts, 1);
  }

  lemma RangeIsRead(src: Source, pos: nat, e: Node, a: nat, b: nat)
    requires Ended(src) && e.RangeNode? && pos + 1 < |src.toks| && a + 1 < |src.toks| && b + 1 < |src.toks| && LooksLikeRange(src, pos)
    requires src.toks[pos] == Punct(if e.loClosed then OpenBracket else OpenParen) && Chain(src, AddTier, pos + 1) == Ok(e.lo, a)
    requires src.toks[a] == Punct(DotDot) && Chain(src, AddTier, a + 1) == Ok(e.hi, b)
    requires src.toks[b] == Punct(if e.hiClosed then CloseBracket else CloseParen)
    ensures Primary(src, pos) == Ok(e, b + 1)
  {
    hide Chain, Expr, Items, Fields, LooksLikeRange;
  }

  lemma {:induction false} ReadsCall(src: Source, pos: nat, e: Node)
    requires ReadyBare(src, pos, e) && e.CallNode?
    ensures Primary(src, pos) == Ok(e, BareEnd(pos, e))
    decreases e, 2
  {
    hide Print, Bare, Writable, Primary, Call, PrintItems, WritableAll, Holds;
    WritableParts(src.phrases, e);
    SplitCall(src.toks, pos, e);
    CallIsRead(src, pos, e.fn);
    ReadsParenthesized(src, pos + |e.fn|, e);
  }

  lemma {:induction false} ReadsParenthesized(src: Source, a: nat, e: Node)
    requires Ended(src) && Phrases(src.phrases) && e.CallNode? && e.named == map[] && WritableAll(src.phrases, e.args)
    requires a < |src.toks| && src.toks[a] == Punct(OpenParen)
    requires Holds(src.toks, a + 1, if e.args == [] then [Punct(CloseParen)] else PrintItems(e.args, CloseParen))
    ensures Call(src, e.fn, a) == Ok(e, a + 1 + |if e.args == [] then [Punct(CloseParen)] else PrintItems(e.args, CloseParen)|)
    decreases e, 1
  {
    hide Print, Bare, Writable, PrintItems, WritableAll, Arguments;
    if e.args == [] {
      HoldsOne(src.toks, a + 1, Punct(CloseParen));
    } else {
      ReadsArguments(src, a + 1, e.args);
    }
  }

  /** The names of a function and an opening parenthesis are read as a call of it. */
  lemma CallIsRead(src: Source, pos: nat, fn: seq<Word>)
    requires Ended(src) && CallableName(src.phrases, fn) && Phrases(src.phrases) && pos + |fn| < |src.toks|
    requires (forall i :: 0 <= i < |fn| ==> src.toks[pos + i] == Name(fn[i])) && src.toks[pos + |fn|] == Punct(OpenParen)
    ensures Primary(src, pos) == Call(src, fn, pos + |fn|)
  {
    hide Primary, Call;
    assert src.toks[pos + 0] == Name(fn[0]);
    forall k | pos <= k < pos + |fn| ensures src.toks[k] == Name(fn[k - pos]) {
      assert src.toks[pos + (k - pos)] == Name(fn[k - pos]);
    }
    CallSpanFrom(src, pos, fn, 0);
    assert WordsAt(src, pos, |fn|) == fn;
    NamedCall(src, pos, fn);
  }

  lemma NamedCall(src: Source, pos: nat, fn: seq<Word>)
    requires Ended(src) && pos < |src.toks| && |fn| > 0 && src.toks[pos] == Name(fn[0]) && fn[0].Plain?
    requires FunctionSpan(src, pos) == |fn| && WordsAt(src, pos, |fn|) == fn
    ensures Primary(src, pos) == Call(src, fn, pos + |fn|)
  {
    hide Call, Expr, Tests, Chain, Items, Fields, FunctionSpan;
  }

  lemma {:induction false} ReadsArguments(src: Source, pos: nat, args: seq<Node>)
    requires Ended(src) && Phrases(src.phrases) && args != [] && WritableAll(src.phrases, args)
    requires Holds(src.toks, pos, PrintItems(args, CloseParen))
    ensures pos < |src.toks| && src.toks[pos] != Punct(CloseParen) && Arguments(src, pos) == Ok(Args(args, map[]), pos + |PrintItems(args, CloseParen)|)
    decreases args, 9
  {
    hide Print, Bare, Writable;
    Head(src.phrases, args[0], 0);
    HoldsAt(src.toks, pos, PrintItems(args, CloseParen), 0);
    ReadsArgs(src, pos, args, []);
    assert [] + args == args && [] + [args[0]] == [args[0]];
  }

  /** The arguments still to come, after some already read. */
  lemma {:induction false} ReadsArgs(src: Source, pos: nat, args: seq<Node>, before: seq<Node>)
    requires Ended(src) && Phrases(src.phrases) && args != [] && WritableAll(src.phrases, args)
    requires Holds(src.toks, pos, PrintItems(args, CloseParen))
    ensures pos < |src.toks| && End(pos, args[0], 0) < |src.toks| && Argument(src, pos) == Ok(Args([args[0]], map[]), End(pos, args[0], 0))
    ensures ArgumentsFrom(src, Args(before + [args[0]], map[]), End(pos, args[0], 0)) == Ok(Args(before + args, map[]), pos + |PrintItems(args, CloseParen)|)
    decreases args, 8
  {
    hide Print, Bare, Writable, Expr, Argument, ArgumentsFrom, Holds;
    var m := End(pos, args[0], 0);
    SplitSeparated(src.toks, pos, args[0], PrintItems(args[1..], CloseParen), |args| == 1, Punct(CloseParen));
    ReadsExpr(src, pos, args[0]);
    PositionalArgument(src, pos, args[0], m);
    var done := before + [args[0]];
    if |args| == 1 {
      assert [args[0]] == args;
      LastArgument(src, Args(done, map[]), m);
    } else {
      ReadsArgs(src, m + 1, args[1..], done);
      NextArgument(src, done, args[1], m, End(m + 1, args[1], 0));
      assert done + args[1..] == before + args;
    }
  }

  lemma LastArgument(src: Source, args: Args, m: nat)
    requires Ended(src) && m + 1 < |src.toks| && src.toks[m] == Punct(CloseParen)
    ensures ArgumentsFrom(src, args, m) == Ok(args, m + 1)
  {
  }

  lemma NextArgument(src: Source, done: seq<Node>, e: Node, m: nat, end: nat)
    requires Ended(src) && m + 1 < |src.toks| && end < |src.toks| && src.toks[m] == Punct(Comma)
    requires Argument(src, m + 1) == Ok(Args([e], map[]), end)
    ensures ArgumentsFrom(src, Args(done, map[]), m) == ArgumentsFrom(src, Args(done + [e], map[]), end)
  {
    hide Argument;
    assert Args(done, map[]).Then(Args([e], map[])) == Args(done + [e], map[]);
  }

  lemma PositionalArgument(src: Source, pos: nat, e: Node, m: nat)
    requires Ended(src) && Phrases(src.phrases) && Writable(src.phrases, e) && Written(src.toks, pos, e, 0)
    requires m == End(pos, e, 0) && Expr(src, pos) == Ok(e, m)
    requires src.toks[m] == Punct(Comma) || src.toks[m] == Punct(CloseParen)
    ensures Argument(src, pos) == Ok(Args([e], map[]), m)
  {
    hide Print, Bare, Writable;
    NoColonFirst(src.phrases, e, 0);
    NoNameAt(src, pos, Print(e, 0), m);
  }

  lemma NoNameAt(src: Source, pos: nat, ts: seq<Token>, m: nat)
    requires Ended(src) && NoColon(ts) && Holds(src.toks, pos, ts) && m == pos + |ts| < |src.toks|
    requires src.toks[m] == Punct(Comma) || src.toks[m] == Punct(CloseParen)
    ensures NamedSpan(src, pos, 0) == 0
  {
    FirstMarkAppend(ts, [src.toks[m]]);
    assert Holds(src.toks, pos, ts + [src.toks[m]]);
    NoNamedArgument(src, pos, 0, ts + [src.toks[m]]);
  }

  lemma {:induction false} ReadsIterators(src: Source, pos: nat, iters: seq<Iterator>, end: nat)
    requires Ended(src) && Phrases(src.phrases) && iters != [] && WritableIterators(src.phrases, iters)
    requires Holds(src.toks, pos, PrintIterators(iters)) && end == pos + |PrintIterators(iters)| < |src.toks|
    requires src.toks[end] == Name(Return) || src.toks[end] == Name(Satisfies)
    ensures pos < |src.toks| && Iterators(src, pos) == Ok(iters, end)
    decreases iters, 8
  {
    hide Print, Bare, Writable, Iterators, IteratorSource, PrintIterators, WritableIterators, Holds;
    WritableIteratorsParts(src.phrases, iters);
    var m := SplitIterators(src.toks, pos, iters);
    ReadsSource(src, pos + 2, iters[0].source);
    IteratorIsRead(src, pos, iters[0], m);
    if |iters| == 1 {
      assert [iters[0]] == iters;
    } else {
      ReadsIterators(src, m + 1, iters[1..], end);
      assert [iters[0]] + iters[1..] == iters;
    }
  }

  lemma WritableIteratorsParts(phrases: set<seq<Word>>, iters: seq<Iterator>)
    requires iters != [] && WritableIterators(phrases, iters)
    ensures Writable(phrases, iters[0].source) && WritableIterators(phrases, iters[1..])
  {
  }

  lemma IteratorIsRead(src: Source, pos: nat, iter: Iterator, m: nat)
    requires Ended(src) && pos + 2 < |src.toks| && src.toks[pos] == Name(WordOf(iter.name)) && src.toks[pos + 1] == Name(In)
    requires IteratorSource(src, pos + 2) == Ok(iter.source, m)
    ensures Iterators(src, pos) == if !At(src, m, Comma) then Ok([iter], m)
                                   else if Iterators(src, m + 1).Bad? then Bad
                                   else Ok([iter] + Iterators(src, m + 1).value, Iterators(src, m + 1).next)
  {
  }

  lemma {:induction false} ReadsSource(src: Source, pos: nat, e: Node)
    requires Ended(src) && Phrases(src.phrases) && Writable(src.phrases, e) && Written(src.toks, pos, e, 1)
    requires Binding(src.toks[End(pos, e, 1)]) == 0 && src.toks[End(pos, e, 1)] != Punct(DotDot)
    ensures IteratorSource(src, pos) == Ok(e, End(pos, e, 1))
    decreases e, 7
  {
    hide Print, Bare, Writable;
    Reads(src, pos, e, 1);
    Settles(src, 1, e, End(pos, e, 1));
  }

  // ----- the theorems -----

  /** A decision table's input entry: tests separated by commas, and the end marker. */
  function PrintEntry(tests: seq<Node>): (ts: seq<Token>)
    ensures ts != [] && ts[|ts| - 1] == Eof
  {
    if tests == [] then [Eof]
    else Print(tests[0], 0) + (if |tests| == 1 then [Eof] else [Punct(Comma)] + PrintEntry(tests[1..]))
  }

  lemma {:induction false} ReadsEntry(src: Source, pos: nat, tests: seq<Node>)
    requires Ended(src) && Phrases(src.phrases) && tests != [] && WritableTests(src.phrases, tests)
    requires Holds(src.toks, pos, PrintEntry(tests))
    ensures pos < |src.toks| && ParseUnaryTests(src, pos) == Some(tests)
    decreases |tests|
  {
    hide Print, Bare, Writable, UnaryTest;
    var m := End(pos, tests[0], 0);
    SplitSeparated(src.toks, pos, tests[0], PrintEntry(tests[1..]), |tests| == 1, Eof);
    ReadsTest(src, pos, tests[0]);
    if |tests| == 1 {
      assert [tests[0]] == tests;
    } else {
      ReadsEntry(src, m + 1, tests[1..]);
      assert [tests[0]] + tests[1..] == tests;
    }
  }

  /** Every list of tests the grammar can produce, written with commas between, parses back to exactly itself,
      the test "-" and comparisons without a left side included. */
  lemma TestsOfPrint(tests: seq<Node>, phrases: set<seq<Word>>, temporal: string -> Option<Value>)
    requires tests != [] && WritableTests(phrases, tests) && Phrases(phrases)
    ensures var src := Source(PrintEntry(tests), phrases, temporal); Ended(src) && ParseUnaryTests(src, 0) == Some(tests)
  {
    var src := Source(PrintEntry(tests), phrases, temporal);
    assert Holds(src.toks, 0, PrintEntry(tests));
    ReadsEntry(src, 0, tests);
  }

  /** Every expression the grammar can produce, written with parentheses only where its precedence
      levels need them, parses back to exactly itself, up to the end of the token list. */
  lemma ParseOfPrint(e: Node, phrases: set<seq<Word>>, temporal: string -> Option<Value>)
    requires Writable(phrases, e) && Phrases(phrases)
    ensures var src := Source(Print(e, 0) + [Eof], phrases, temporal); Ended(src) && ParseExpression(src) == Some(e)
  {
    var src := Source(Print(e, 0) + [Eof], phrases, temporal);
    assert Holds(src.toks, 0, Print(e, 0));
    ReadsExpr(src, 0, e);
  }
}
