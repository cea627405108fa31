/** What several iterators mean: nested loops of one, dependent collections and errors included. */
module FeelIterators {

  import opened Wrappers
  import opened FeelSyntax
  import opened FeelValues
  import opened FeelEval

  // ----- a loop from an iterator on is the loop over the rest of them -----

  ghost predicate Alike(n: Node, i: nat, m: Node, j: nat) {
    && Loop(n) && Loop(m) && i <= |Iters(n)| && j <= |Iters(m)| && Iters(n)[i..] == Iters(m)[j..]
    && BodyOf(n) == BodyOf(m) && n.ForNode? == m.ForNode? && (n.QuantNode? ==> n.every == m.every)
  }

  lemma {:induction false} SuffixLoop(lib: Library, n: Node, i: nat, m: Node, j: nat, s: Scope, acc: Value)
    requires Alike(n, i, m, j)
    ensures Iterate(lib, n, i, s, acc) == Iterate(lib, m, j, s, acc)
    decreases |Iters(n)| - i, 1, 0
  {
    hide Eval;
    if i < |Iters(n)| {
      assert Iters(n)[i] == Iters(n)[i..][0] == Iters(m)[j];
      var coll := Eval(lib, Iters(n)[i].source, s);
      if coll.Ok? && IterationValues(coll.v).Ok? {
        SuffixOver(lib, n, i, m, j, IterationValues(coll.v).v, s, acc);
      }
    }
  }

  lemma {:induction false} SuffixOver(lib: Library, n: Node, i: nat, m: Node, j: nat, items: seq<Value>, s: Scope, acc: Value)
    requires Alike(n, i, m, j) && i < |Iters(n)|
    ensures j < |Iters(m)| && IterateOver(lib, n, i, items, s, acc) == IterateOver(lib, m, j, items, s, acc)
    decreases |Iters(n)| - i, 0, |items|
  {
    hide Eval;
    assert Iters(n)[i] == Iters(n)[i..][0] == Iters(m)[j];
    if items != [] {
      var inner := Bind(s, Iters(n)[i].name, items[0]);
      assert Iters(n)[i + 1..] == Iters(n)[i..][1..] == Iters(m)[j + 1..];
      SuffixLoop(lib, n, i + 1, m, j + 1, inner, acc);
      var r := Iterate(lib, n, i + 1, inner, acc);
      if r.Ok? {
        SuffixOver(lib, n, i, m, j, items[1..], s, r.v);
      }
    }
  }

  // ----- what has been gathered before does not matter -----

  function Unit(n: Node): Value
    requires Loop(n)
  {
    if n.ForNode? then List([]) else Boolean(n.every)
  }

  /** A value a loop can have gathered. */
  predicate Gathered(n: Node, v: Value)
    requires Loop(n)
  {
    if n.ForNode? then v.List? else v.Boolean? || v.Null?
  }

  /** Two gatherings, one after the other. */
  function Join(n: Node, a: Value, b: Value): Value
    requires Loop(n) && Gathered(n, a) && Gathered(n, b)
  {
    if n.ForNode? then List(a.items + b.items) else if n.every then And3(a, b) else Or3(a, b)
  }

  function Joined(n: Node, a: Value, r: Outcome<Value>): Outcome<Value>
    requires Loop(n) && Gathered(n, a) && (r.Ok? ==> Gathered(n, r.v))
  {
    if r.Err? then r else Ok(Join(n, a, r.v))
  }

  lemma JoinLaws(n: Node, a: Value, b: Value, c: Value)
    requires Loop(n) && Gathered(n, a) && Gathered(n, b) && Gathered(n, c)
    ensures Join(n, Unit(n), a) == a == Join(n, a, Unit(n))
    ensures Join(n, Join(n, a, b), c) == Join(n, a, Join(n, b, c))
  {
    if n.ForNode? {
      assert [] + a.items == a.items == a.items + [];
      assert (a.items + b.items) + c.items == a.items + (b.items + c.items);
    }
  }

  lemma GatherJoins(n: Node, a: Value, v: Value)
    requires Loop(n) && Gathered(n, a)
    ensures Gather(n, a, v) == Join(n, a, Gather(n, Unit(n), v))
  {
    if n.ForNode? {
      assert a.items + ([] + [v]) == a.items + [v];
    }
  }

  lemma {:induction false} LoopJoins(lib: Library, n: Node, i: nat, s: Scope, acc: Value)
    requires Loop(n) && i <= |Iters(n)| && Gathered(n, acc)
    ensures var r := Iterate(lib, n, i, s, Unit(n));
            (r.Ok? ==> Gathered(n, r.v)) && Iterate(lib, n, i, s, acc) == Joined(n, acc, r)
    decreases |Iters(n)| - i, 1, 0
  {
    hide Eval;
    if i == |Iters(n)| {
      var v := Eval(lib, BodyOf(n), s);
      if v.Ok? {
        GatherJoins(n, acc, v.v);
      }
    } else {
      var coll := Eval(lib, Iters(n)[i].source, s);
      if coll.Ok? && IterationValues(coll.v).Ok? {
        OverJoins(lib, n, i, IterationValues(coll.v).v, s, acc);
      }
    }
  }

  lemma {:induction false} OverJoins(lib: Library, n: Node, i: nat, items: seq<Value>, s: Scope, acc: Value)
    requires Loop(n) && i < |Iters(n)| && Gathered(n, acc)
    ensures var r := IterateOver(lib, n, i, items, s, Unit(n));
            (r.Ok? ==> Gathered(n, r.v)) && IterateOver(lib, n, i, items, s, acc) == Joined(n, acc, r)
    decreases |Iters(n)| - i, 0, |items|
  {
    hide Eval, Iterate;
    if items == [] {
      JoinLaws(n, acc, acc, acc);
    } else {
      var inner := Bind(s, Iters(n)[i].name, items[0]);
      LoopJoins(lib, n, i + 1, inner, acc);
      LoopJoins(lib, n, i + 1, inner, Unit(n));
      var first := Iterate(lib, n, i + 1, inner, Unit(n));
      if first.Ok? {
        JoinLaws(n, first.v, first.v, first.v);
        OverJoins(lib, n, i, items[1..], s, first.v);
        OverJoins(lib, n, i, items[1..], s, Join(n, acc, first.v));
        var rest := IterateOver(lib, n, i, items[1..], s, Unit(n));
        if rest.Ok? {
          JoinLaws(n, acc, first.v, rest.v);
        }
      }
    }
  }

  // ----- several iterators -----

  /** The same loop without its first iterator. */
  function Inner(n: Node): Node
    requires Loop(n) && Iters(n) != []
  {
    if n.ForNode? then ForNode(n.iters[1..], n.body) else QuantNode(n.every, n.iters[1..], n.cond)
  }

  /** The first iterator's loop around the loop over the others. */
  function Nested(n: Node): Node
    requires Loop(n) && Iters(n) != []
  {
    if n.ForNode? then ForNode([n.iters[0]], Inner(n)) else QuantNode(n.every, [n.iters[0]], Inner(n))
  }

  predicate ListOfLists(v: Value) {
    v.List? && forall i :: 0 <= i < |v.items| ==> v.items[i].List?
  }

  function Concat(vs: seq<Value>): seq<Value>
    requires forall i :: 0 <= i < |vs| ==> vs[i].List?
  {
    if vs == [] then [] else Concat(vs[..|vs| - 1]) + vs[|vs| - 1].items
  }

  /** A for's lists put end to end; a quantifier's value is already one. */
  function Flat(n: Node, v: Value): Value
    requires Loop(n) && (n.ForNode? ==> ListOfLists(v))
  {
    if n.ForNode? then List(Concat(v.items)) else v
  }

  lemma {:induction false} NestedOver(lib: Library, n: Node, items: seq<Value>, s: Scope, acc: Value, lists: Value)
    requires Loop(n) && Iters(n) != [] && Gathered(n, acc) && (if n.ForNode? then ListOfLists(lists) && acc == Flat(n, lists) else lists == acc)
    ensures var flat, deep := IterateOver(lib, n, 0, items, s, acc), IterateOver(lib, Nested(n), 0, items, s, lists);
            if flat.Err? then deep == flat
            else deep.Ok? && (n.ForNode? ==> ListOfLists(deep.v)) && flat.v == Flat(n, deep.v)
    decreases |items|
  {
    hide Eval;
    if items != [] {
      var inner := Bind(s, Iters(n)[0].name, items[0]);
      LoopJoins(lib, n, 1, inner, acc);
      InnerValue(lib, n, inner);
      var v := Eval(lib, Inner(n), inner);
      if v.Ok? {
        var next := Iterate(lib, Nested(n), 1, inner, lists).v;
        if n.ForNode? {
          assert next.items == lists.items + [v.v];
          assert next.items[..|next.items| - 1] == lists.items;
        }
        NestedOver(lib, n, items[1..], s, Join(n, acc, v.v), next);
      }
    }
  }

  lemma InnerValue(lib: Library, n: Node, s: Scope)
    requires Loop(n) && Iters(n) != []
    ensures Eval(lib, Inner(n), s) == Iterate(lib, n, 1, s, Unit(n))
  {
    hide Iterate;
    assert Iters(n)[1..] == Iters(Inner(n))[0..];
    SuffixLoop(lib, n, 1, Inner(n), 0, s, Unit(n));
  }

  /** A loop with several iterators is the nested loops: the same error if there is one, otherwise for
      some and every the same value, and for a for the lists of the inner loop end to end. */
  lemma SeveralIteratorsNest(lib: Library, n: Node, s: Scope)
    requires Loop(n) && Iters(n) != []
    ensures var flat, deep := Eval(lib, n, s), Eval(lib, Nested(n), s);
            if flat.Err? then deep == flat
            else deep.Ok? && (n.ForNode? ==> ListOfLists(deep.v)) && flat.v == Flat(n, deep.v)
  {
    hide IterateOver;
    var coll := Eval(lib, Iters(n)[0].source, s);
    assert Eval(lib, n, s) == Iterate(lib, n, 0, s, Unit(n));
    assert Eval(lib, Nested(n), s) == Iterate(lib, Nested(n), 0, s, Unit(n));
    if coll.Ok? && IterationValues(coll.v).Ok? {
      NestedOver(lib, n, IterationValues(coll.v).v, s, Unit(n), Unit(n));
    }
  }

  // ----- every and some -----

  function Dual(n: Node): Node
    requires n.QuantNode?
  {
    QuantNode(!n.every, n.iters, NotTest([n.cond]))
  }

  function Opposite(r: Outcome<Value>): Outcome<Value> {
    if r.Err? then r else Ok(Not3(r.v))
  }

  lemma {:induction false} DualLoop(lib: Library, n: Node, i: nat, s: Scope, acc: Value)
    requires n.QuantNode? && i <= |n.iters| && s.input.None? && Gathered(n, acc)
    ensures Iterate(lib, Dual(n), i, s, Not3(acc)) == Opposite(Iterate(lib, n, i, s, acc))
    decreases |n.iters| - i, 1, 0
  {
    hide IterateOver, Eval;
    if i == |n.iters| {
      NotOutsideTests(lib, n.cond, s);
    } else {
      var coll := Eval(lib, n.iters[i].source, s);
      if coll.Ok? && IterationValues(coll.v).Ok? {
        DualOver(lib, n, i, IterationValues(coll.v).v, s, acc);
      }
    }
  }

  lemma NotOutsideTests(lib: Library, cond: Node, s: Scope)
    requires s.input.None?
    ensures Eval(lib, NotTest([cond]), s) == Opposite(Eval(lib, cond, s))
  {
  }

  lemma {:induction false} DualOver(lib: Library, n: Node, i: nat, items: seq<Value>, s: Scope, acc: Value)
    requires n.QuantNode? && i < |n.iters| && s.input.None? && Gathered(n, acc)
    ensures IterateOver(lib, Dual(n), i, items, s, Not3(acc)) == Opposite(IterateOver(lib, n, i, items, s, acc))
    decreases |n.iters| - i, 0, |items|
  {
    hide Eval, Iterate;
    if items != [] {
      var inner := Bind(s, n.iters[i].name, items[0]);
      DualLoop(lib, n, i + 1, inner, acc);
      LoopJoins(lib, n, i + 1, inner, acc);
      var r := Iterate(lib, n, i + 1, inner, acc);
      if r.Ok? {
        DualOver(lib, n, i, items[1..], s, r.v);
      }
    }
  }

  /** Outside a unary test, every is not some-not and some is not every-not: errors, nulls and
      conditions that are not boolean included. */
  lemma QuantifiersAreDual(lib: Library, every: bool, iters: seq<Iterator>, cond: Node, s: Scope)
    requires s.input.None?
    ensures Eval(lib, QuantNode(!every, iters, NotTest([cond])), s) == Opposite(Eval(lib, QuantNode(every, iters, cond), s))
  {
    DualLoop(lib, QuantNode(every, iters, cond), 0, s, Boolean(every));
  }

  ghost predicate DualHere(lib: Library, s: Scope, every: bool, iters: seq<Iterator>, cond: Node) {
    Eval(lib, QuantNode(!every, iters, NotTest([cond])), s) == Opposite(Eval(lib, QuantNode(every, iters, cond), s))
  }

  /** For all iterators and conditions they are dual exactly outside unary tests: inside one, whatever the
      tested value, not(...) asks that value. */
  lemma DualExactlyOutsideTests(lib: Library, s: Scope)
    requires forall x, y :: MayEqual(x, y, lib.equal(x, y))
    ensures s.input.None? <==> forall every, iters, cond :: DualHere(lib, s, every, iters, cond)
  {
    hide Eval, MayEqual;
    if s.input.None? {
      forall every, iters, cond ensures DualHere(lib, s, every, iters, cond) {
        QuantifiersAreDual(lib, every, iters, cond, s);
      }
    } else if s.input == Some(Boolean(true)) {
      NotDualUnderTest(lib, s, Null);
    } else {
      NotDualUnderTest(lib, s, Boolean(true));
    }
  }

  /** Under the tested value true they differ on the condition null, under any other on the condition true. */
  lemma NotDualUnderTest(lib: Library, s: Scope, c: Value)
    requires s.input.Some? && MayEqual(s.input.value, c, lib.equal(s.input.value, c))
    requires c == if s.input.value == Boolean(true) then Null else Boolean(true)
    ensures !DualHere(lib, s, true, [Iterator("x", Literal(List([Null])))], Literal(c))
  {
    hide Eval, Iterate, IterateOver, MayEqual;
    var iters, cond := [Iterator("x", Literal(List([Null])))], Literal(c);
    var inner := Bind(s, "x", Null);
    LiteralValue(lib, List([Null]), s);
    LiteralValue(lib, c, inner);
    NotOfConstant(lib, inner, c);
    OnceAround(lib, QuantNode(true, iters, cond), s, inner);
    OnceAround(lib, QuantNode(false, iters, NotTest([cond])), s, inner);
  }

  /** not(c) under test: not whether the tested value equals c. */
  lemma NotOfConstant(lib: Library, s: Scope, c: Value)
    requires s.input.Some? && (c == Null || c == Boolean(true)) && MayEqual(s.input.value, c, lib.equal(s.input.value, c))
    ensures Eval(lib, NotTest([Literal(c)]), s) == Ok(Not3(Equals(lib, s.input.value, c)))
    ensures c == Null ==> Equals(lib, s.input.value, c) == Boolean(s.input.value.Null?)
    ensures c == Boolean(true) && s.input.value != c ==> Equals(lib, s.input.value, c) == Boolean(false) || Equals(lib, s.input.value, c) == Null
  {
    var x, cond := s.input.value, Literal(c);
    EqualExactly(x, c, lib.equal(x, c));
    assert UnaryTest(lib, cond, x, s) == Ok(Equals(lib, x, c));
    assert forall v :: TestAny(lib, [cond][1..], x, s, v) == Ok(v);
  }

  lemma LiteralValue(lib: Library, v: Value, s: Scope)
    ensures Eval(lib, Literal(v), s) == Ok(v)
  {
  }

  lemma OnceAround(lib: Library, n: Node, s: Scope, inner: Scope)
    requires n.QuantNode? && |n.iters| == 1 && inner == Bind(s, n.iters[0].name, Null)
    requires Eval(lib, n.iters[0].source, s) == Ok(List([Null]))
    ensures Eval(lib, n, s) == var v := Eval(lib, n.cond, inner); if v.Err? then v else Ok(Gather(n, Boolean(n.every), v.v))
  {
    var unit, items := Boolean(n.every), [Null];
    var r := Iterate(lib, n, 1, inner, unit);
    assert Eval(lib, n, s) == Iterate(lib, n, 0, s, unit) == IterateOver(lib, n, 0, items, s, unit);
    assert items[1..] == [];
    assert IterateOver(lib, n, 0, items, s, unit) == if r.Err? then r else IterateOver(lib, n, 0, items[1..], s, r.v);
  }
}
