/** Evaluating FEEL expressions: lexical scopes, three-valued logic, iterators and unary tests. */
module FeelEval {

  import opened Wrappers
  import opened FeelSyntax
  import opened FeelValues
  import opened FeelNumbers

  datatype Fault =
    | NotAnIntegerRange | RangeTooLarge | NotTakesOneArgument(given: nat)
    | UnknownFunction | MixedArguments | UnknownArgument | IndexPanic | FromFunction(message: string)

  datatype Outcome<+T> = Err(fault: Fault) | Ok(v: T)

  /** What evaluation takes from elsewhere, all of it pure: equality, whose answer on contexts depends
      on the order their entries are met in; division, powers and temporal arithmetic; the parts of
      a date; and the built-in functions with the names of their parameters. */
  datatype Library = Library(
    equal: (Value, Value) -> Equality,
    arithmetic: (BinaryOp, Value, Value) -> Value,
    component: (Value, string) -> Value,
    functions: map<seq<Word>, seq<seq<Word>>>,
    call: (seq<Word>, seq<Value>) -> Outcome<Value>)

  // ----- scopes -----

  /** A chain of variables; input is the value under test, "?". */
  datatype Scope = Scope(vars: map<string, Value>, parent: Option<Scope>, input: Option<Value>)

  function Lookup(s: Scope, name: string): Value {
    if name in s.vars then s.vars[name]
    else if name == "?" && s.input.Some? then s.input.value
    else if s.parent.None? then Null
    else Lookup(s.parent.value, name)
  }

  function Child(s: Scope, vars: map<string, Value>): Scope { Scope(vars, Some(s), s.input) }

  function Testing(s: Scope, input: Value): Scope { Scope(map[], Some(s), Some(input)) }

  // ----- operators -----

  function Compare(lib: Library, op: BinaryOp, l: Value, r: Value): Value {
    if op == EqOp || op == NeOp then
      var e := lib.equal(l, r);
      if !e.ok then Null else Boolean(if op == NeOp then !e.eq else e.eq)
    else
      match Order(l, r)
      case None => Null
      case Some(c) => Boolean(if op == LtOp then c < 0 else if op == LeOp then c <= 0 else if op == GtOp then c > 0 else c >= 0)
  }

  function Negated(v: Value): Value {
    match v
    case Numeric(n) => Numeric(NegatedNumber(n))
    case DayTime(nanos) => DayTime(Wrap64(-nanos))
    case YearMonth(months) => YearMonth(Wrap64(-months))
    case _ => Null
  }

  function Path(lib: Library, x: Value, name: string): Value {
    match x
    case Context(entries) => if name in entries then entries[name] else Null
    case List(items) => List(seq(|items|, i requires 0 <= i < |items| => Path(lib, items[i], name)))
    case Date(_, _) => lib.component(x, name)
    case DateTime(_, _) => lib.component(x, name)
    case _ => Null
  }

  function InRange(lib: Library, x: Value, lo: Value, hi: Value, loClosed: bool, hiClosed: bool): Value {
    And3(if lo.Null? then Boolean(true) else Compare(lib, if loClosed then GeOp else GtOp, x, lo),
         if hi.Null? then Boolean(true) else Compare(lib, if hiClosed then LeOp else LtOp, x, hi))
  }

  /** What a for, some or every goes through. */
  function IterationValues(coll: Value): Outcome<seq<Value>> {
    match coll
    case List(items) => Ok(items)
    case Null => Ok([])
    case Range(lo, hi, loClosed, hiClosed) =>
      if !(lo.Numeric? && hi.Numeric? && lo.n.value.den == 1 && hi.n.value.den == 1) then Err(NotAnIntegerRange) else
      var a := Wrap64(Wrap64(lo.n.value.num) + if loClosed then 0 else 1);
      var b := Wrap64(Wrap64(hi.n.value.num) - if hiClosed then 0 else 1);
      if Wrap64(b - a) > 100000 || Wrap64(a - b) > 100000 then Err(RangeTooLarge)
      else if a <= b then Ok(seq(b - a + 1, i => Numeric(Whole(a + i))))
      else Ok(seq(a - b + 1, i => Numeric(Whole(a - i))))
    case _ => Ok([coll])
  }

  // ----- evaluation -----

  function Eval(lib: Library, n: Node, s: Scope): Outcome<Value>
    decreases n, 1, 0, 0
  {
    match n
    case Literal(v) => Ok(v)
    case Variable(name) => Ok(Lookup(s, name))
    case Negation(x) =>
      var v := Eval(lib, x, s);
      if v.Err? then v else Ok(Negated(v.v))
    case Binary(op, l, r) =>
      var a := Eval(lib, l, s);
      if a.Err? then a
      else if op == AndOp && a.v == Boolean(false) then Ok(Boolean(false))
      else if op == OrOp && a.v == Boolean(true) then Ok(Boolean(true))
      else
        var b := Eval(lib, r, s);
        if b.Err? then b else Ok(Operate(lib, op, a.v, b.v))
    case BetweenNode(x, lo, hi) =>
      var v := Eval(lib, x, s);
      if v.Err? then v else
      var a := Eval(lib, lo, s);
      if a.Err? then a else
      var b := Eval(lib, hi, s);
      if b.Err? then b else Ok(And3(Compare(lib, GeOp, v.v, a.v), Compare(lib, LeOp, v.v, b.v)))
    case InNode(x, tests) =>
      var v := Eval(lib, x, s);
      if v.Err? then v else TestAny(lib, tests, v.v, s, Boolean(false))
    case IfNode(cond, yes, no) =>
      var c := Eval(lib, cond, s);
      if c.Err? then c else if c.v == Boolean(true) then Eval(lib, yes, s) else Eval(lib, no, s)
    case ForNode(_, _) => Iterate(lib, n, 0, s, List([]))
    case QuantNode(every, _, _) => Iterate(lib, n, 0, s, Boolean(every))
    case ListNode(items) =>
      var vs := EvalAll(lib, items, s);
      if vs.Err? then Err(vs.fault) else Ok(List(vs.v))
    case ContextNode(fields) => EvalFields(lib, fields, s, map[])
    case RangeNode(lo, hi, loClosed, hiClosed) =>
      var a := Eval(lib, lo, s);
      if a.Err? then a else
      var b := Eval(lib, hi, s);
      if b.Err? then b else Ok(Range(a.v, b.v, loClosed, hiClosed))
    case PathNode(x, name) =>
      var v := Eval(lib, x, s);
      if v.Err? then v else Ok(Path(lib, v.v, name))
    case FilterNode(x, cond) =>
      var v := Eval(lib, x, s);
      if v.Err? || v.v.Null? then v else
      var list := if v.v.List? then v.v.items else [v.v];
      var at := Eval(lib, cond, s);
      if at.Ok? && at.v.Numeric? then Index(list, at.v.n)
      else if at == Err(IndexPanic) then at  // other errors only mean that it is no position
      else FilterItems(lib, cond, list, s)
    case CallNode(fn, args, named) =>
      if fn !in lib.functions then Err(UnknownFunction) else
      var vs := EvalAll(lib, args, s);
      if vs.Err? then Err(vs.fault)
      else if named == map[] then Call(lib, fn, vs.v)
      else if vs.v != [] then Err(MixedArguments)
      else
        var byPosition := EvalNamed(lib, n, lib.functions[fn], s);
        if byPosition.Err? then Err(byPosition.fault)
        else if !(named.Keys <= set p | p in lib.functions[fn]) then Err(UnknownArgument)
        else Call(lib, fn, byPosition.v)
    case CompareTest(_, _) =>
      var r := SimpleTest(lib, n, Lookup(s, "?"), s);
      if r.Err? then r else Ok(Or3(Boolean(false), r.v))
    case AnyTest => Ok(Boolean(true))
    case NotTest(tests) =>
      if s.input.Some? then
        var r := TestAny(lib, tests, s.input.value, s, Boolean(false));
        if r.Err? then r else Ok(Not3(r.v))
      else if |tests| != 1 then Err(NotTakesOneArgument(|tests|))
      else
        var v := Eval(lib, tests[0], s);
        if v.Err? then v else Ok(Not3(v.v))
  }

  function Operate(lib: Library, op: BinaryOp, l: Value, r: Value): Value {
    if op == AndOp then And3(l, r)
    else if op == OrOp then Or3(l, r)
    else if IsComparison(op) then Compare(lib, op, l, r)
    else Arithmetic(lib, op, l, r)
  }

  /** Exact decimals and text here; the rest from the library. */
  function Arithmetic(lib: Library, op: BinaryOp, l: Value, r: Value): Value {
    if l.Numeric? && r.Numeric? && (op == AddOp || op == SubOp || op == MulOp) then Numeric(Sum(op, l.n, r.n))
    else if l.Text? && r.Text? && op == AddOp then Text(l.s + r.s)
    else lib.arithmetic(op, l, r)
  }

  /** Missing trailing arguments are null. */
  function Call(lib: Library, fn: seq<Word>, args: seq<Value>): Outcome<Value>
    requires fn in lib.functions
  {
    var missing := |lib.functions[fn]| - |args|;
    lib.call(fn, if missing > 0 then args + seq(missing, _ => Null) else args)
  }

  /** The list's item at a position from 1, or from -1 at the end. Positions go through a 64-bit
      integer, and the least of those is its own negation, so that it passes the test and panics. */
  function Index(list: seq<Value>, at: Num): Outcome<Value> {
    if at.value.den != 1 then Ok(Null) else
    var i := Wrap64(at.value.num);
    if 0 < i <= |list| then Ok(list[i - 1])
    else if i < 0 && Wrap64(-i) <= |list| then (if |list| + i < 0 then Err(IndexPanic) else Ok(list[|list| + i]))
    else Ok(Null)
  }

  function EvalAll(lib: Library, ns: seq<Node>, s: Scope): Outcome<seq<Value>>
    decreases ns, 2, 0, 0
  {
    if ns == [] then Ok([]) else
    var v := Eval(lib, ns[0], s);
    if v.Err? then Err(v.fault) else
    var vs := EvalAll(lib, ns[1..], s);
    if vs.Err? then vs else Ok([v.v] + vs.v)
  }

  /** Later entries see earlier ones. */
  function EvalFields(lib: Library, fields: seq<Entry>, s: Scope, done: map<string, Value>): Outcome<Value>
    decreases fields, 2, 0, 0
  {
    if fields == [] then Ok(Context(done)) else
    var v := Eval(lib, fields[0].value, Child(s, done));
    if v.Err? then v else EvalFields(lib, fields[1..], s, done[fields[0].key := v.v])
  }

  /** The values of a call's named arguments in the order of the function's parameters. */
  function EvalNamed(lib: Library, n: Node, params: seq<seq<Word>>, s: Scope): Outcome<seq<Value>>
    requires n.CallNode?
    decreases n, 0, 0, |params|
  {
    if params == [] then Ok([]) else
    var v := if params[0] in n.named then Eval(lib, n.named[params[0]], s) else Ok(Null);
    if v.Err? then Err(v.fault) else
    var vs := EvalNamed(lib, n, params[1..], s);
    if vs.Err? then vs else Ok([v.v] + vs.v)
  }

  function ItemVars(item: Value): map<string, Value> {
    (if item.Context? then item.entries else map[])["item" := item]
  }

  function FilterItems(lib: Library, cond: Node, items: seq<Value>, s: Scope): (r: Outcome<Value>)
    ensures r.Ok? ==> r.v.List?
    decreases cond, 2, 0, |items|
  {
    if items == [] then Ok(List([])) else
    var keep := Eval(lib, cond, Child(s, ItemVars(items[0])));
    if keep.Err? then keep else
    var rest := FilterItems(lib, cond, items[1..], s);
    if rest.Err? then rest else Ok(List((if keep.v == Boolean(true) then [items[0]] else []) + rest.v.items))
  }

  // ----- iterators -----

  predicate Loop(n: Node) { n.ForNode? || n.QuantNode? }

  function Iters(n: Node): seq<Iterator>
    requires Loop(n)
  {
    if n.ForNode? then n.iters else n.iters
  }

  function BodyOf(n: Node): Node
    requires Loop(n)
  {
    if n.ForNode? then n.body else n.cond
  }

  /** What a loop makes of the body's value: for appends it, some and every fold it in. */
  function Gather(n: Node, acc: Value, v: Value): Value
    requires Loop(n)
  {
    if n.ForNode? then (if acc.List? then List(acc.items + [v]) else Null)
    else if n.every then And3(acc, v) else Or3(acc, v)
  }

  /** The loop's body once for each combination of the iterators from the i-th on, the first of them
      outermost. */
  function Iterate(lib: Library, n: Node, i: nat, s: Scope, acc: Value): Outcome<Value>
    requires Loop(n) && i <= |Iters(n)|
    decreases n, 0, 2 * (|Iters(n)| - i) + 1, 0
  {
    if i == |Iters(n)| then
      var v := Eval(lib, BodyOf(n), s);
      if v.Err? then v else Ok(Gather(n, acc, v.v))
    else
      var coll := Eval(lib, Iters(n)[i].source, s);
      if coll.Err? then coll else
      var items := IterationValues(coll.v);
      if items.Err? then Err(items.fault) else IterateOver(lib, n, i, items.v, s, acc)
  }

  function Bind(s: Scope, name: string, item: Value): Scope { Child(s, map[name := item]) }

  function IterateOver(lib: Library, n: Node, i: nat, items: seq<Value>, s: Scope, acc: Value): Outcome<Value>
    requires Loop(n) && i < |Iters(n)|
    decreases n, 0, 2 * (|Iters(n)| - i), |items|
  {
    if items == [] then Ok(acc) else
    var r := Iterate(lib, n, i + 1, Bind(s, Iters(n)[i].name, items[0]), acc);
    if r.Err? then r else IterateOver(lib, n, i, items[1..], s, r.v)
  }

  // ----- unary tests -----

  /** Whether x passes one of the tests, given the verdict so far. */
  function TestAny(lib: Library, tests: seq<Node>, x: Value, s: Scope, verdict: Value): Outcome<Value>
    decreases tests, 3, 0, 0
  {
    if tests == [] then Ok(verdict) else
    var r := UnaryTest(lib, tests[0], x, s);
    if r.Err? then r else
    var now := Or3(verdict, r.v);
    if now == Boolean(true) then Ok(now) else TestAny(lib, tests[1..], x, s, now)
  }

  /** A comparison with the value under test. */
  function SimpleTest(lib: Library, t: Node, x: Value, s: Scope): Outcome<Value>
    requires t.CompareTest?
    decreases t, 0, 0, 0
  {
    var r := Eval(lib, t.x, Testing(s, x));
    if r.Err? then r else Ok(Compare(lib, t.op, x, r.v))
  }

  function UnaryTest(lib: Library, t: Node, x: Value, s: Scope): Outcome<Value>
    decreases t, 2, 0, 0
  {
    match t
    case AnyTest => Ok(Boolean(true))
    case CompareTest(_, _) => SimpleTest(lib, t, x, s)
    case NotTest(tests) =>
      var r := TestAny(lib, tests, x, Testing(s, x), Boolean(false));
      if r.Err? then r else Ok(Not3(r.v))
    case _ =>
      var v := Eval(lib, t, Testing(s, x));
      if v.Err? then v else Ok(Verdict(lib, t, x, v.v))
  }

  /** What a test's value says of x: a range holds it, a list has it, a boolean built on "?" is the
      answer, anything else equals it. */
  function Verdict(lib: Library, t: Node, x: Value, v: Value): Value {
    match v
    case Range(lo, hi, loClosed, hiClosed) => InRange(lib, x, lo, hi, loClosed, hiClosed)
    case List(items) =>
      if x.List? then Boolean(lib.equal(x, v).eq)
      else Boolean(exists i :: 0 <= i < |items| && Held(lib, x, items[i]))
    case Boolean(_) => if UsesInput(t) then v else Equals(lib, x, v)
    case _ => Equals(lib, x, v)
  }

  predicate Held(lib: Library, x: Value, item: Value) {
    lib.equal(x, item) == Equality(true, true)
  }

  function Equals(lib: Library, x: Value, v: Value): Value {
    if lib.equal(x, v).ok then Boolean(lib.equal(x, v).eq) else Null
  }

  /** Whether an expression refers to "?". */
  predicate UsesInput(n: Node) {
    match n
    case Variable(name) => name == "?"
    case Negation(x) => UsesInput(x)
    case Binary(_, l, r) => UsesInput(l) || UsesInput(r)
    case BetweenNode(x, lo, hi) => UsesInput(x) || UsesInput(lo) || UsesInput(hi)
    case InNode(x, tests) => UsesInput(x) || exists i :: 0 <= i < |tests| && UsesInput(tests[i])
    case IfNode(cond, yes, no) => UsesInput(cond) || UsesInput(yes) || UsesInput(no)
    case ForNode(iters, body) => (exists i :: 0 <= i < |iters| && UsesInput(iters[i].source)) || UsesInput(body)
    case QuantNode(_, iters, cond) => (exists i :: 0 <= i < |iters| && UsesInput(iters[i].source)) || UsesInput(cond)
    case ListNode(items) => exists i :: 0 <= i < |items| && UsesInput(items[i])
    case ContextNode(fields) => exists i :: 0 <= i < |fields| && UsesInput(fields[i].value)
    case RangeNode(lo, hi, _, _) => UsesInput(lo) || UsesInput(hi)
    case PathNode(x, _) => UsesInput(x)
    case FilterNode(x, cond) => UsesInput(x) || UsesInput(cond)
    case CallNode(_, args, named) => (exists k :: k in named && UsesInput(named[k])) || exists i :: 0 <= i < |args| && UsesInput(args[i])
    case CompareTest(_, _) => true
    case NotTest(tests) => exists i :: 0 <= i < |tests| && UsesInput(tests[i])
    case Literal(_) => false
    case AnyTest => false
  }
}
