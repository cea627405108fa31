/** What evaluation means, against definitions that do not mention it. */
module FeelMeaning {

  import opened Wrappers
  import opened Rationals
  import opened FeelNumbers
  import opened FeelSyntax
  import opened FeelValues
  import opened FeelEval
  import opened FeelInput

  // ----- three-valued logic -----

  /** False, unknown, true; whatever is not a boolean is unknown. */
  function Truth(v: Value): int {
    if v == Boolean(false) then -1 else if v == Boolean(true) then 1 else 0
  }

  function Least(a: int, b: int): int { if a < b then a else b }
  function Greatest(a: int, b: int): int { if a < b then b else a }

  predicate Judgement(v: Value) { v.Boolean? || v.Null? }

  /** and is the least truth, or the greatest, not the opposite one. */
  lemma LogicIsKleene(a: Value, b: Value)
    ensures Judgement(And3(a, b)) && Truth(And3(a, b)) == Least(Truth(a), Truth(b))
    ensures Judgement(Or3(a, b)) && Truth(Or3(a, b)) == Greatest(Truth(a), Truth(b))
    ensures Judgement(Not3(a)) && Truth(Not3(a)) == -Truth(a)
    ensures Not3(And3(a, b)) == Or3(Not3(a), Not3(b))
  {
  }

  // ----- order -----

  lemma {:induction false} TextOrder(a: string, b: string, c: string)
    ensures CompareText(b, a) == -CompareText(a, b)
    ensures CompareText(a, b) <= 0 && CompareText(b, c) <= 0 ==> CompareText(a, c) <= 0
    decreases |a|
  {
    if a != [] && b != [] {
      TextOrder(a[1..], b[1..], if c != [] then c[1..] else []);
    }
  }

  lemma CrossTransitive(a: int, p: int, b: int, q: int, c: int, r: int)
    requires p > 0 && q > 0 && r > 0 && a * q <= b * p && b * r <= c * q
    ensures a * r <= c * p
  {
    calc <= {
      q * (a * r);
      (a * q) * r;
      { Scale(a * q, b * p, r); }
      (b * p) * r;
      (b * r) * p;
      { Scale(b * r, c * q, p); }
      (c * q) * p;
      q * (c * p);
    }
    assert q * (c * p + 1) == q * (c * p) + q;
    if a * r > c * p {
      Scale(c * p + 1, a * r, q);
    }
  }

  lemma Scale(x: int, y: int, k: int)
    requires x <= y && k > 0
    ensures x * k <= y * k
  {
    assert y * k == x * k + (y - x) * k;
    if y > x {
      ProductPositive(y - x, k);
    }
  }

  lemma NumberOrder(x: Rat, y: Rat, z: Rat)
    ensures CompareRat(y, x) == -CompareRat(x, y) && (CompareRat(x, y) == 0 <==> x == y)
    ensures CompareRat(x, y) <= 0 && CompareRat(y, z) <= 0 ==> CompareRat(x, z) <= 0
  {
    CompareNumbers(x, y);
    if x.num * y.den <= y.num * x.den && y.num * z.den <= z.num * y.den {
      CrossTransitive(x.num, x.den, y.num, y.den, z.num, z.den);
    }
  }

  /** Comparable values are totally ordered, and tie exactly when they are the same value. */
  lemma OrderIsTotal(a: Value, b: Value, c: Value)
    ensures Order(a, b).Some? <==> Order(b, a).Some?
    ensures Order(a, b).Some? ==> Order(b, a).value == -Order(a, b).value && (Order(a, b).value == 0 <==> Same(a, b))
    ensures Order(a, b).Some? && Order(b, c).Some? ==> Order(a, c).Some? && (Order(a, b).value <= 0 && Order(b, c).value <= 0 ==> Order(a, c).value <= 0)
  {
    hide Order, Same;
    OrderOfTwo(a, b);
    if Order(a, b).Some? && Order(b, c).Some? {
      OrderOfThree(a, b, c);
    }
  }

  lemma OrderOfTwo(a: Value, b: Value)
    ensures Order(a, b).Some? <==> Order(b, a).Some?
    ensures Order(a, b).Some? ==> Order(b, a).value == -Order(a, b).value && (Order(a, b).value == 0 <==> Same(a, b))
  {
    hide CompareText, CompareRat;
    if a.Numeric? && b.Numeric? {
      NumberOrder(a.n.value, b.n.value, b.n.value);
    } else if a.Text? && b.Text? {
      TextOrder(a.s, b.s, b.s);
    }
  }

  lemma OrderOfThree(a: Value, b: Value, c: Value)
    requires Order(a, b).Some? && Order(b, c).Some?
    ensures Order(a, c).Some? && (Order(a, b).value <= 0 && Order(b, c).value <= 0 ==> Order(a, c).value <= 0)
  {
    hide CompareText, CompareRat;
    if a.Numeric? {
      NumberOrder(a.n.value, b.n.value, c.n.value);
    } else if a.Text? {
      TextOrder(a.s, b.s, c.s);
    }
  }

  /** The six comparisons follow from one order and one equality. */
  lemma ComparisonsFit(lib: Library, l: Value, r: Value)
    requires MayEqual(l, r, lib.equal(l, r))
    ensures Compare(lib, GtOp, l, r) == Compare(lib, LtOp, r, l) && Compare(lib, GeOp, l, r) == Compare(lib, LeOp, r, l)
    ensures Compare(lib, LeOp, l, r) == Not3(Compare(lib, GtOp, l, r)) && Compare(lib, GeOp, l, r) == Not3(Compare(lib, LtOp, l, r))
    ensures Compare(lib, NeOp, l, r) == Not3(Compare(lib, EqOp, l, r))
    ensures Compare(lib, EqOp, l, r) == Boolean(true) <==> Same(l, r)
  {
    OrderIsTotal(l, r, r);
    EqualExactly(l, r, lib.equal(l, r));
  }

  // ----- between and in -----

  /** "x between lo and hi" is "x in [lo..hi]", errors included, for bounds that do not ask the tested
      value, as long as neither bound is null: a null bound makes the first null and leaves the
      second open on that side. */
  lemma BetweenIsInRange(lib: Library, x: Node, lo: Node, hi: Node, s: Scope)
    requires Steady(lo, false) && Steady(hi, false)
    requires var (a, b) := (Eval(lib, lo, s), Eval(lib, hi, s)); (a.Ok? ==> !a.v.Null?) && (b.Ok? ==> !b.v.Null?)
    ensures Eval(lib, BetweenNode(x, lo, hi), s) == Eval(lib, InNode(x, [RangeNode(lo, hi, true, true)]), s)
  {
    hide Eval, Compare, UnaryTest, TestAny, Agree;
    var range := RangeNode(lo, hi, true, true);
    var v := Eval(lib, x, s);
    BetweenValue(lib, x, lo, hi, s);
    InValue(lib, x, range, s);
    if v.Ok? {
      AgreeSelf(s, v.v);
      Independent(lib, lo, s, Testing(s, v.v));
      Independent(lib, hi, s, Testing(s, v.v));
      RangeTest(lib, lo, hi, v.v, s);
      var (a, b) := (Eval(lib, lo, s), Eval(lib, hi, s));
      if a.Ok? && b.Ok? {
        LogicIsKleene(Compare(lib, GeOp, v.v, a.v), Compare(lib, LeOp, v.v, b.v));
      }
    }
  }

  lemma BetweenValue(lib: Library, x: Node, lo: Node, hi: Node, s: Scope)
    ensures Eval(lib, BetweenNode(x, lo, hi), s) ==
              var (v, a, b) := (Eval(lib, x, s), Eval(lib, lo, s), Eval(lib, hi, s));
              if v.Err? then v else if a.Err? then a else if b.Err? then b
              else Ok(And3(Compare(lib, GeOp, v.v, a.v), Compare(lib, LeOp, v.v, b.v)))
  {
    hide Compare, And3, Iterate, TestAny, SimpleTest, EvalAll, EvalFields, EvalNamed, FilterItems, Path, Operate, Index, Call, Lookup;
  }

  lemma InValue(lib: Library, x: Node, t: Node, s: Scope)
    ensures Eval(lib, InNode(x, [t]), s) ==
              var v := Eval(lib, x, s);
              if v.Err? then v else
              var r := UnaryTest(lib, t, v.v, s);
              if r.Err? then r else Ok(Or3(Boolean(false), r.v))
  {
    hide UnaryTest, TestAny;
    var v := Eval(lib, x, s);
    if v.Ok? {
      OneTest(lib, t, v.v, s);
    }
  }

  lemma RangeTest(lib: Library, lo: Node, hi: Node, x: Value, s: Scope)
    ensures UnaryTest(lib, RangeNode(lo, hi, true, true), x, s) ==
              var (a, b) := (Eval(lib, lo, Testing(s, x)), Eval(lib, hi, Testing(s, x)));
              if a.Err? then a else if b.Err? then b else Ok(InRange(lib, x, a.v, b.v, true, true))
  {
    hide InRange, Iterate, TestAny, SimpleTest, EvalAll, EvalFields, EvalNamed, FilterItems, Path, Operate, Index, Call, Lookup;
  }

  lemma AgreeSelf(s: Scope, x: Value)
    ensures Agree(s, Testing(s, x))
  {
  }

  lemma OneTest(lib: Library, t: Node, x: Value, s: Scope)
    ensures TestAny(lib, [t], x, s, Boolean(false)) ==
              var r := UnaryTest(lib, t, x, s); if r.Err? then r else Ok(Or3(Boolean(false), r.v))
  {
    hide UnaryTest;
    var r := UnaryTest(lib, t, x, s);
    if r.Ok? {
      assert [t][1..] == [];
      assert TestAny(lib, [t][1..], x, s, Or3(Boolean(false), r.v)) == Ok(Or3(Boolean(false), r.v));
    }
  }

  // ----- loops and filters over a list -----

  /** "for x in l return x" is l. */
  lemma ForCopies(lib: Library, name: string, l: seq<Value>, s: Scope)
    ensures Eval(lib, ForNode([Iterator(name, Literal(List(l)))], Variable(name)), s) == Ok(List(l))
  {
    var n := ForNode([Iterator(name, Literal(List(l)))], Variable(name));
    ForCopiesFrom(lib, n, name, l, l, s, []);
    assert [] + l == l;
    assert Iterate(lib, n, 0, s, List([])) == IterateOver(lib, n, 0, l, s, List([]));
  }

  lemma {:induction false} ForCopiesFrom(lib: Library, n: Node, name: string, all: seq<Value>, l: seq<Value>, s: Scope, done: seq<Value>)
    requires n == ForNode([Iterator(name, Literal(List(all)))], Variable(name))
    ensures IterateOver(lib, n, 0, l, s, List(done)) == Ok(List(done + l))
    decreases |l|
  {
    if l == [] {
      assert done + l == done;
    } else {
      assert Iterate(lib, n, 1, Bind(s, name, l[0]), List(done)) == Ok(List(done + [l[0]]));
      ForCopiesFrom(lib, n, name, all, l[1..], s, done + [l[0]]);
      assert done + [l[0]] + l[1..] == done + l;
    }
  }

  ghost predicate Faithful(lib: Library) {
    forall x, y :: MayEqual(x, y, lib.equal(x, y))
  }

  /** "some x in l satisfies x = v" says true exactly when the list has v in it. */
  lemma SomeIsContains(lib: Library, name: string, l: seq<Value>, v: Value, s: Scope)
    requires Faithful(lib)
    ensures var n := QuantNode(false, [Iterator(name, Literal(List(l)))], Binary(EqOp, Variable(name), Literal(v)));
            Eval(lib, n, s).Ok? && (Eval(lib, n, s).v == Boolean(true) <==> Has(l, v))
  {
    hide MayEqual, Same, IterateOver;
    var n := QuantNode(false, [Iterator(name, Literal(List(l)))], Binary(EqOp, Variable(name), Literal(v)));
    SomeFrom(lib, n, name, l, l, v, s, Boolean(false));
    assert Iterate(lib, n, 0, s, Boolean(false)) == IterateOver(lib, n, 0, l, s, Boolean(false));
  }

  lemma {:induction false} SomeFrom(lib: Library, n: Node, name: string, all: seq<Value>, l: seq<Value>, v: Value, s: Scope, acc: Value)
    requires Faithful(lib) && n == QuantNode(false, [Iterator(name, Literal(List(all)))], Binary(EqOp, Variable(name), Literal(v)))
    ensures var r := IterateOver(lib, n, 0, l, s, acc); r.Ok? && (r.v == Boolean(true) <==> acc == Boolean(true) || Has(l, v))
    decreases |l|
  {
    hide MayEqual, Same;
    if l != [] {
      EqualsVariable(lib, name, l[0], v, s);
      var c := Compare(lib, EqOp, l[0], v);
      assert Iterate(lib, n, 1, Bind(s, name, l[0]), acc) == Ok(Or3(acc, c));
      SomeFrom(lib, n, name, all, l[1..], v, s, Or3(acc, c));
      HasFirst(l, v);
    }
  }

  lemma HasFirst(l: seq<Value>, v: Value)
    requires l != []
    ensures Has(l, v) <==> Same(l[0], v) || Has(l[1..], v)
  {
    hide Same;
    if Has(l[1..], v) {
      var i :| 0 <= i < |l[1..]| && Same(l[1..][i], v);
      assert Same(l[i + 1], v);
    }
    if Has(l, v) {
      var i :| 0 <= i < |l| && Same(l[i], v);
      assert i > 0 ==> Same(l[1..][i - 1], v);
    }
  }

  /** A bound variable compared with a literal. */
  lemma EqualsVariable(lib: Library, name: string, item: Value, v: Value, s: Scope)
    requires Faithful(lib)
    ensures Eval(lib, Binary(EqOp, Variable(name), Literal(v)), Bind(s, name, item)) == Ok(Compare(lib, EqOp, item, v))
    ensures Compare(lib, EqOp, item, v) == Boolean(true) <==> Same(item, v)
  {
    hide MayEqual, Same, Iterate, TestAny, FilterItems;
    EqualExactly(item, v, lib.equal(item, v));
  }

  function Kept(l: seq<Value>, v: Value): seq<Value> {
    if l == [] then [] else (if Same(l[0], v) then [l[0]] else []) + Kept(l[1..], v)
  }

  /** "l[item = v]" is the items of l that are v, in their order, whatever entries they bring into
      scope. */
  lemma FilterByEquality(lib: Library, l: seq<Value>, v: Value, s: Scope)
    requires Faithful(lib)
    ensures Eval(lib, FilterNode(Literal(List(l)), Binary(EqOp, Variable("item"), Literal(v))), s) == Ok(List(Kept(l, v)))
  {
    var cond := Binary(EqOp, Variable("item"), Literal(v));
    FilterKeeps(lib, cond, l, v, s);
    assert Eval(lib, cond, s) == Ok(Compare(lib, EqOp, Lookup(s, "item"), v));
  }

  lemma {:induction false} FilterKeeps(lib: Library, cond: Node, l: seq<Value>, v: Value, s: Scope)
    requires Faithful(lib) && cond == Binary(EqOp, Variable("item"), Literal(v))
    ensures FilterItems(lib, cond, l, s) == Ok(List(Kept(l, v)))
    decreases |l|
  {
    hide MayEqual, Same;
    if l != [] {
      EqualExactly(l[0], v, lib.equal(l[0], v));
      assert Eval(lib, cond, Child(s, ItemVars(l[0]))) == Ok(Compare(lib, EqOp, l[0], v));
      FilterKeeps(lib, cond, l[1..], v, s);
    }
  }

  // ----- positions -----

  /** A position counts from 1 at the front or from -1 at the back, anything else whole is out of the list
      and null; only the least 64-bit integer, to which the position is cut, panics. */
  lemma IndexMeans(list: seq<Value>, at: Num)
    requires |list| < TWO63
    ensures Index(list, at) == Err(IndexPanic) <==> at.value.den == 1 && Wrap64(at.value.num) == -TWO63
    ensures Index(list, at) != Err(IndexPanic) ==>
              Index(list, at) == Ok(var i := Wrap64(at.value.num);
                                    if at.value.den == 1 && 1 <= i <= |list| then list[i - 1]
                                    else if at.value.den == 1 && -|list| <= i <= -1 then list[|list| + i]
                                    else Null)
  {
    var i := Wrap64(at.value.num);
    if -TWO63 < i < 0 {
      assert Wrap64(-i) == -i;
    }
    assert Wrap64(TWO63) == -TWO63;
  }

  /** Such a position in an expression, whatever the list. */
  lemma LeastIndexPanics(lib: Library, list: seq<Value>, s: Scope)
    requires |list| < TWO63
    ensures Eval(lib, FilterNode(Literal(List(list)), Literal(Numeric(Whole(-TWO63)))), s) == Err(IndexPanic)
  {
    IndexMeans(list, Whole(-TWO63));
  }

  /** And no other constant position does. */
  lemma PositionPanicsExactly(lib: Library, list: seq<Value>, at: Num, s: Scope)
    requires |list| < TWO63
    ensures Eval(lib, FilterNode(Literal(List(list)), Literal(Numeric(at))), s) == Err(IndexPanic) <==> at.value.den == 1 && Wrap64(at.value.num) == -TWO63
  {
    IndexMeans(list, at);
  }
}
