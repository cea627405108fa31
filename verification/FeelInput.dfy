/** Expressions that do not mention "?" do not depend on the value under test. */
module FeelInput {

  import opened Wrappers
  import opened FeelSyntax
  import opened FeelValues
  import opened FeelEval

  /** A not(...) in the expression that asks the tested value, named or not. One in the tests of an "in"
      asks what stands before that "in" instead. */
  predicate HasNot(n: Node) {
    match n
    case NotTest(_) => true
    case Negation(x) => HasNot(x)
    case Binary(_, l, r) => HasNot(l) || HasNot(r)
    case BetweenNode(x, lo, hi) => HasNot(x) || HasNot(lo) || HasNot(hi)
    case InNode(x, _) => HasNot(x)
    case IfNode(cond, yes, no) => HasNot(cond) || HasNot(yes) || HasNot(no)
    case ForNode(iters, body) => (exists i :: 0 <= i < |iters| && HasNot(iters[i].source)) || HasNot(body)
    case QuantNode(_, iters, cond) => (exists i :: 0 <= i < |iters| && HasNot(iters[i].source)) || HasNot(cond)
    case ListNode(items) => exists i :: 0 <= i < |items| && HasNot(items[i])
    case ContextNode(fields) => exists i :: 0 <= i < |fields| && HasNot(fields[i].value)
    case RangeNode(lo, hi, _, _) => HasNot(lo) || HasNot(hi)
    case PathNode(x, _) => HasNot(x)
    case FilterNode(x, cond) => HasNot(x) || HasNot(cond)
    case CallNode(_, args, named) => (exists k :: k in named && HasNot(named[k])) || exists i :: 0 <= i < |args| && HasNot(args[i])
    case CompareTest(_, x) => HasNot(x)
    case Literal(_) => false
    case Variable(_) => false
    case AnyTest => false
  }

  /** Not asking the tested value at all, or only through a not(...) while it is the same. */
  predicate Steady(n: Node, same: bool) { !UsesInput(n) && (same || !HasNot(n)) }

  predicate AllSteady(ns: seq<Node>, same: bool) { forall i :: 0 <= i < |ns| ==> Steady(ns[i], same) }

  /** Two scopes give every variable the same value, "?" apart. */
  ghost predicate Agree(s: Scope, t: Scope) {
    forall name :: name != "?" ==> Lookup(s, name) == Lookup(t, name)
  }

  lemma AgreeChild(s: Scope, t: Scope, vars: map<string, Value>)
    requires Agree(s, t)
    ensures Agree(Child(s, vars), Child(t, vars))
  {
  }

  lemma AgreeTesting(s: Scope, t: Scope, a: Value, b: Value)
    requires Agree(s, t)
    ensures Agree(Testing(s, a), Testing(t, b))
  {
  }

  lemma {:induction false} Independent(lib: Library, n: Node, s: Scope, t: Scope)
    requires Agree(s, t) && Steady(n, s.input == t.input)
    ensures Eval(lib, n, s) == Eval(lib, n, t)
    decreases n, 1, 0, 0
  {
    hide TestAny, Iterate, EvalAll, EvalFields, EvalNamed, FilterItems, Path, Operate, Index, Call;
    match n
    case Literal(_) =>
    case Variable(_) =>
    case AnyTest =>
    case Negation(x) => Independent(lib, x, s, t);
    case Binary(_, l, r) => Independent(lib, l, s, t); Independent(lib, r, s, t);
    case BetweenNode(x, lo, hi) => Independent(lib, x, s, t); Independent(lib, lo, s, t); Independent(lib, hi, s, t);
    case InNode(_, _) => IndependentTested(lib, n, s, t);
    case IfNode(cond, yes, no) => Independent(lib, cond, s, t); Independent(lib, yes, s, t); Independent(lib, no, s, t);
    case ForNode(_, _) => IndependentLoop(lib, n, 0, s, t, List([]));
    case QuantNode(every, _, _) => IndependentLoop(lib, n, 0, s, t, Boolean(every));
    case ListNode(items) => IndependentAll(lib, items, s, t);
    case ContextNode(fields) => IndependentFields(lib, fields, s, t, map[]);
    case RangeNode(lo, hi, _, _) => Independent(lib, lo, s, t); Independent(lib, hi, s, t);
    case PathNode(x, _) => Independent(lib, x, s, t);
    case FilterNode(_, _) => IndependentApplied(lib, n, s, t);
    case CallNode(_, _, _) => IndependentApplied(lib, n, s, t);
    case NotTest(_) => IndependentTested(lib, n, s, t);
  }

  /** An "in" or a not(...): something put to tests. */
  lemma {:induction false} IndependentTested(lib: Library, n: Node, s: Scope, t: Scope)
    requires Agree(s, t) && Steady(n, s.input == t.input) && (n.InNode? || n.NotTest?)
    ensures Eval(lib, n, s) == Eval(lib, n, t)
    decreases n, 0, 1, 0
  {
    hide TestAny, Iterate, EvalAll, EvalFields, EvalNamed, FilterItems, Path, Operate, Index, Call, Agree;
    match n
    case InNode(x, tests) =>
      Independent(lib, x, s, t);
      if Eval(lib, x, s).Ok? {
        IndependentTests(lib, tests, Eval(lib, x, s).v, s, t, Boolean(false));
      }
    case NotTest(tests) =>
      if s.input.Some? {
        IndependentTests(lib, tests, s.input.value, s, t, Boolean(false));
      } else if |tests| == 1 {
        Independent(lib, tests[0], s, t);
      }
  }

  /** A filter or a call. */
  lemma {:induction false} IndependentApplied(lib: Library, n: Node, s: Scope, t: Scope)
    requires Agree(s, t) && Steady(n, s.input == t.input) && (n.FilterNode? || n.CallNode?)
    ensures Eval(lib, n, s) == Eval(lib, n, t)
    decreases n, 0, 1, 0
  {
    hide TestAny, Iterate, EvalAll, EvalFields, EvalNamed, FilterItems, Path, Operate, Index, Call, Agree;
    match n
    case FilterNode(x, cond) =>
      Independent(lib, x, s, t);
      Independent(lib, cond, s, t);
      if Eval(lib, x, s).Ok? {
        var v := Eval(lib, x, s).v;
        IndependentFilter(lib, cond, if v.List? then v.items else [v], s, t);
      }
    case CallNode(fn, args, named) =>
      IndependentAll(lib, args, s, t);
      if fn in lib.functions {
        IndependentNamed(lib, n, lib.functions[fn], s, t);
      }
  }

  lemma {:induction false} IndependentAll(lib: Library, ns: seq<Node>, s: Scope, t: Scope)
    requires Agree(s, t) && AllSteady(ns, s.input == t.input)
    ensures EvalAll(lib, ns, s) == EvalAll(lib, ns, t)
    decreases ns, 2, 0, 0
  {
    hide Eval, Steady, Agree;
    if ns != [] {
      Independent(lib, ns[0], s, t);
      IndependentAll(lib, ns[1..], s, t);
    }
  }

  lemma {:induction false} IndependentFields(lib: Library, fields: seq<Entry>, s: Scope, t: Scope, done: map<string, Value>)
    requires Agree(s, t) && forall i :: 0 <= i < |fields| ==> Steady(fields[i].value, s.input == t.input)
    ensures EvalFields(lib, fields, s, done) == EvalFields(lib, fields, t, done)
    decreases fields, 2, 0, 0
  {
    hide Eval, Steady, Agree;
    if fields != [] {
      AgreeChild(s, t, done);
      Independent(lib, fields[0].value, Child(s, done), Child(t, done));
      var v := Eval(lib, fields[0].value, Child(s, done));
      if v.Ok? {
        IndependentFields(lib, fields[1..], s, t, done[fields[0].key := v.v]);
      }
    }
  }

  lemma {:induction false} IndependentNamed(lib: Library, n: Node, params: seq<seq<Word>>, s: Scope, t: Scope)
    requires Agree(s, t) && n.CallNode? && forall k :: k in n.named ==> Steady(n.named[k], s.input == t.input)
    ensures EvalNamed(lib, n, params, s) == EvalNamed(lib, n, params, t)
    decreases n, 0, 0, |params|
  {
    hide Eval, Steady, Agree;
    if params != [] {
      if params[0] in n.named {
        Independent(lib, n.named[params[0]], s, t);
      }
      IndependentNamed(lib, n, params[1..], s, t);
    }
  }

  lemma {:induction false} IndependentFilter(lib: Library, cond: Node, items: seq<Value>, s: Scope, t: Scope)
    requires Agree(s, t) && Steady(cond, s.input == t.input)
    ensures FilterItems(lib, cond, items, s) == FilterItems(lib, cond, items, t)
    decreases cond, 2, 0, |items|
  {
    hide Eval, Steady, Agree;
    if items != [] {
      AgreeChild(s, t, ItemVars(items[0]));
      Independent(lib, cond, Child(s, ItemVars(items[0])), Child(t, ItemVars(items[0])));
      IndependentFilter(lib, cond, items[1..], s, t);
    }
  }

  ghost predicate SteadyLoop(n: Node, same: bool) {
    Loop(n) && Steady(BodyOf(n), same) && forall i :: 0 <= i < |Iters(n)| ==> Steady(Iters(n)[i].source, same)
  }

  lemma {:induction false} IndependentLoop(lib: Library, n: Node, i: nat, s: Scope, t: Scope, acc: Value)
    requires Agree(s, t) && SteadyLoop(n, s.input == t.input) && i <= |Iters(n)|
    ensures Iterate(lib, n, i, s, acc) == Iterate(lib, n, i, t, acc)
    decreases n, 0, 2 * (|Iters(n)| - i) + 1, 0
  {
    hide Eval, Steady, Agree;
    if i == |Iters(n)| {
      Independent(lib, BodyOf(n), s, t);
    } else {
      var source := Iters(n)[i].source;
      Independent(lib, source, s, t);
      var coll := Eval(lib, source, s);
      if coll.Ok? && IterationValues(coll.v).Ok? {
        IndependentOver(lib, n, i, IterationValues(coll.v).v, s, t, acc);
      }
    }
  }

  lemma {:induction false} IndependentOver(lib: Library, n: Node, i: nat, items: seq<Value>, s: Scope, t: Scope, acc: Value)
    requires Agree(s, t) && SteadyLoop(n, s.input == t.input) && i < |Iters(n)|
    ensures IterateOver(lib, n, i, items, s, acc) == IterateOver(lib, n, i, items, t, acc)
    decreases n, 0, 2 * (|Iters(n)| - i), |items|
  {
    hide Eval, Steady, Agree;
    if items != [] {
      var name := Iters(n)[i].name;
      AgreeChild(s, t, map[name := items[0]]);
      IndependentLoop(lib, n, i + 1, Bind(s, name, items[0]), Bind(t, name, items[0]), acc);
      var r := Iterate(lib, n, i + 1, Bind(s, name, items[0]), acc);
      if r.Ok? {
        IndependentOver(lib, n, i, items[1..], s, t, r.v);
      }
    }
  }

  lemma {:induction false} IndependentTests(lib: Library, tests: seq<Node>, x: Value, s: Scope, t: Scope, verdict: Value)
    requires Agree(s, t) && AllSteady(tests, true)
    ensures TestAny(lib, tests, x, s, verdict) == TestAny(lib, tests, x, t, verdict)
    decreases tests, 3, 0, 0
  {
    hide Eval, UnaryTest, Steady, Agree;
    if tests != [] {
      IndependentTest(lib, tests[0], x, s, t);
      var r := UnaryTest(lib, tests[0], x, s);
      if r.Ok? {
        IndependentTests(lib, tests[1..], x, s, t, Or3(verdict, r.v));
      }
    }
  }

  lemma {:induction false} IndependentTest(lib: Library, test: Node, x: Value, s: Scope, t: Scope)
    requires Agree(s, t) && Steady(test, true)
    ensures UnaryTest(lib, test, x, s) == UnaryTest(lib, test, x, t)
    decreases test, 2, 0, 0
  {
    hide TestAny, SimpleTest, Eval, Verdict;
    AgreeTesting(s, t, x, x);
    if test.NotTest? {
      IndependentTests(lib, test.tests, x, Testing(s, x), Testing(t, x), Boolean(false));
    } else {
      Independent(lib, test, Testing(s, x), Testing(t, x));
    }
  }

  /** An expression that does not mention "?", and has no not(...) but in the tests of an "in", has one value
      for all tested inputs, through nested scopes, iterators, filters, tests and calls. */
  lemma InputIndependence(lib: Library, n: Node, s: Scope, a: Value, b: Value)
    requires !HasNot(n) && !UsesInput(n)
    ensures Eval(lib, n, Testing(s, a)) == Eval(lib, n, Testing(s, b))
    ensures (forall name :: name != "?" ==> Lookup(s, name) == Lookup(Testing(s, a), name)) && Eval(lib, n, s) == Eval(lib, n, Testing(s, a))
  {
    AgreeTesting(s, s, a, b);
    Independent(lib, n, Testing(s, a), Testing(s, b));
    Independent(lib, n, s, Testing(s, a));
  }

  /** With a not(...) it need not: not(true) asks whether the input is true. */
  lemma NotAsksTheInput(lib: Library, s: Scope)
    requires forall x, y :: MayEqual(x, y, lib.equal(x, y))
    ensures var n := NotTest([Literal(Boolean(true))]);
            && !UsesInput(n)
            && Eval(lib, n, Testing(s, Boolean(true))) == Ok(Boolean(false))
            && Eval(lib, n, Testing(s, Boolean(false))) == Ok(Boolean(true))
  {
    hide Eval, MayEqual;
    NotTrue(lib, Testing(s, Boolean(true)), true);
    NotTrue(lib, Testing(s, Boolean(false)), false);
  }

  lemma NotTrue(lib: Library, s: Scope, b: bool)
    requires s.input == Some(Boolean(b)) && MayEqual(Boolean(b), Boolean(true), lib.equal(Boolean(b), Boolean(true)))
    ensures Eval(lib, NotTest([Literal(Boolean(true))]), s) == Ok(Boolean(!b))
  {
    var cond := Literal(Boolean(true));
    assert UnaryTest(lib, cond, Boolean(b), s) == Ok(Boolean(b));
    assert TestAny(lib, [cond][1..], Boolean(b), s, Boolean(false)) == Ok(Boolean(false));
  }
}
