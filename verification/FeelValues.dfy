/** FEEL values: their order, their equality, and three-valued logic. */
module FeelValues {

  import opened Wrappers
  import opened Rationals
  import opened FeelNumbers
  import opened FeelSyntax

  // ----- three-valued logic -----

  function And3(a: Value, b: Value): Value {
    if a == Boolean(false) || b == Boolean(false) then Boolean(false)
    else if a == Boolean(true) && b == Boolean(true) then Boolean(true)
    else Null
  }

  function Or3(a: Value, b: Value): Value {
    if a == Boolean(true) || b == Boolean(true) then Boolean(true)
    else if a == Boolean(false) && b == Boolean(false) then Boolean(false)
    else Null
  }

  function Not3(v: Value): Value {
    if v.Boolean? then Boolean(!v.b) else Null
  }

  // ----- 64-bit integers -----

  const TWO63: int := 0x8000_0000_0000_0000

  /** The two's complement value of the low 64 bits. */
  function Wrap64(x: int): (w: int)
    ensures -TWO63 <= w < TWO63
    ensures -TWO63 <= x < TWO63 ==> w == x
  {
    (x + TWO63) % (2 * TWO63) - TWO63
  }

  // ----- numbers -----

  function Whole(i: int): Num {
    WholeIsReduced(i);
    Number(Fraction(i, 1), None)
  }

  function NegatedNumber(n: Num): Num {
    NegationIsReduced(n.value);
    Number(Fraction(-n.value.num, n.value.den), None)
  }

  lemma NegationIsReduced(r: Rat)
    ensures Reduced(Fraction(-r.num, r.den))
  {
    assert Abs(-r.num) == Abs(r.num);
  }

  /** Exact sum, difference or product, with its scale. */
  function Sum(op: BinaryOp, a: Num, b: Num): Num
    requires op == AddOp || op == SubOp || op == MulOp
  {
    FeelNumbers.Compute(if op == AddOp then FeelNumbers.Plus else if op == SubOp then FeelNumbers.Minus else FeelNumbers.Times, a, b)
  }

  // ----- order -----

  function CompareInt(a: int, b: int): int {
    if a < b then -1 else if a > b then 1 else 0
  }

  function CompareRat(a: Rat, b: Rat): int {
    CompareInt(a.num * b.den, b.num * a.den)
  }

  function CompareText(a: string, b: string): (c: int)
    ensures c == 0 <==> a == b
  {
    if a == [] && b == [] then 0
    else if a == [] then -1
    else if b == [] then 1
    else if a[0] != b[0] then (if a[0] < b[0] then -1 else 1)
    else
      assert a == [a[0]] + a[1..] && b == [b[0]] + b[1..];
      CompareText(a[1..], b[1..])
  }

  /** How two values of one ordered type compare. */
  function Order(l: Value, r: Value): Option<int> {
    if l.Numeric? && r.Numeric? then Some(CompareRat(l.n.value, r.n.value))
    else if l.Text? && r.Text? then Some(CompareText(l.s, r.s))
    else if l.Date? && r.Date? then Some(CompareInt(l.instant, r.instant))
    else if l.DateTime? && r.DateTime? then Some(CompareInt(l.instant, r.instant))
    else if l.DayTime? && r.DayTime? then Some(CompareInt(l.nanos, r.nanos))
    else if l.YearMonth? && r.YearMonth? then Some(CompareInt(l.months, r.months))
    else None
  }

  // ----- equality -----

  /** Whether two values are equal, and whether they can be compared at all. */
  datatype Equality = Equality(eq: bool, ok: bool)

  function EqualScalars(l: Value, r: Value): Equality {
    if l.Null? || r.Null? then Equality(l.Null? && r.Null?, true)
    else if l.Boolean? then Equality(l.b == (r.Boolean? && r.b), r.Boolean?)
    else match Order(l, r)
      case None => Equality(true, false)
      case Some(c) => Equality(c == 0, true)
  }

  /** The answers comparing two values may give: entries of contexts are met in any order, each time
      anew, and the first unequal pair decides. */
  ghost predicate MayEqual(l: Value, r: Value, e: Equality)
    decreases l, 1, 0
  {
    if l.List? && !r.Null? then
      if !r.List? then e == Equality(false, false)
      else if |l.items| != |r.items| then e == Equality(false, true)
      else MayItems(l, r, 0, e)
    else if l.Context? && !r.Null? then
      if !r.Context? then e == Equality(false, false)
      else if |l.entries| != |r.entries| then e == Equality(false, true)
      else MayEntries(l, r, l.entries.Keys, e)
    else e == EqualScalars(l, r)
  }

  ghost predicate MayItems(l: Value, r: Value, i: nat, e: Equality)
    requires l.List? && r.List? && i <= |l.items| == |r.items|
    decreases l, 0, |l.items| - i
  {
    if i == |l.items| then e == Equality(true, true)
    else exists h :: MayEqual(l.items[i], r.items[i], h) && (if h == Equality(true, true) then MayItems(l, r, i + 1, e) else e == Equality(false, h.ok))
  }

  ghost predicate MayEntries(l: Value, r: Value, keys: set<string>, e: Equality)
    requires l.Context? && r.Context? && keys <= l.entries.Keys
    decreases l, 0, |keys|
  {
    if keys == {} then e == Equality(true, true)
    else exists k :: k in keys && MayEntry(l, r, keys, k, e)
  }

  /** The entry k is met next. */
  ghost predicate MayEntry(l: Value, r: Value, keys: set<string>, k: string, e: Equality)
    requires l.Context? && r.Context? && k in keys && keys <= l.entries.Keys
    decreases l, 0, |keys|, 0
  {
    if k !in r.entries then e == Equality(false, true)
    else exists h :: MayEqual(l.entries[k], r.entries[k], h) && (if h == Equality(true, true) then MayEntries(l, r, keys - {k}, e) else e == Equality(false, h.ok))
  }

  /** The same value: numbers whatever their scale, instants whatever their zone, lists item by item,
      contexts entry by entry. A range is not equal to anything. */
  predicate Same(l: Value, r: Value)
    decreases l
  {
    match l
    case Null => r.Null?
    case Boolean(b) => r == l
    case Text(s) => r == l
    case Numeric(n) => r.Numeric? && r.n.value == n.value
    case List(items) => r.List? && |r.items| == |items| && forall i :: 0 <= i < |items| ==> Same(items[i], r.items[i])
    case Context(entries) => r.Context? && r.entries.Keys == entries.Keys && forall k :: k in entries ==> Same(entries[k], r.entries[k])
    case Date(instant, _) => r.Date? && r.instant == instant
    case DateTime(instant, _) => r.DateTime? && r.instant == instant
    case DayTime(nanos) => r == l
    case YearMonth(months) => r == l
    case Range(_, _, _, _) => false
  }

  lemma CompareNumbers(a: Rat, b: Rat)
    ensures a.num * b.den == b.num * a.den <==> a == b
  {
    if a.num * b.den == b.num * a.den {
      SameValue(a, b);
    }
  }

  lemma EqualScalarsExactly(l: Value, r: Value)
    requires !l.List? && !l.Context?
    ensures EqualScalars(l, r) == Equality(true, true) <==> Same(l, r)
  {
    if l.Numeric? && r.Numeric? {
      CompareNumbers(l.n.value, r.n.value);
    }
  }

  /** Whatever order entries are met in, "equal and comparable" means being the same value. */
  lemma {:induction false} EqualExactly(l: Value, r: Value, e: Equality)
    requires MayEqual(l, r, e)
    ensures e == Equality(true, true) <==> Same(l, r)
    decreases l, 1, 0
  {
    if l.List? && r.List? && |l.items| == |r.items| {
      ItemsExactly(l, r, 0, e);
    } else if l.Context? && r.Context? {
      if |l.entries| == |r.entries| {
        EntriesExactly(l, r, l.entries.Keys, e);
        if l.entries.Keys <= r.entries.Keys {
          SameKeys(l.entries.Keys, r.entries.Keys);
        }
      }
    } else if !l.List? && !l.Context? {
      EqualScalarsExactly(l, r);
    }
  }

  lemma SameKeys(a: set<string>, b: set<string>)
    requires a <= b && |a| == |b|
    ensures a == b
  {
    assert b == a + (b - a);
    assert |b| == |a| + |b - a|;
    assert b - a == {};
  }

  lemma {:induction false} ItemsExactly(l: Value, r: Value, i: nat, e: Equality)
    requires l.List? && r.List? && i <= |l.items| == |r.items| && MayItems(l, r, i, e)
    ensures e == Equality(true, true) <==> forall j :: i <= j < |l.items| ==> Same(l.items[j], r.items[j])
    decreases l, 0, |l.items| - i
  {
    if i < |l.items| {
      var h :| MayEqual(l.items[i], r.items[i], h) &&
        if h == Equality(true, true) then MayItems(l, r, i + 1, e) else e == Equality(false, h.ok);
      EqualExactly(l.items[i], r.items[i], h);
      if h == Equality(true, true) {
        ItemsExactly(l, r, i + 1, e);
      }
    }
  }

  lemma {:induction false} EntriesExactly(l: Value, r: Value, keys: set<string>, e: Equality)
    requires l.Context? && r.Context? && keys <= l.entries.Keys && MayEntries(l, r, keys, e)
    ensures e == Equality(true, true) <==> forall k :: k in keys ==> k in r.entries && Same(l.entries[k], r.entries[k])
    decreases l, 0, |keys|
  {
    if keys != {} {
      var k :| k in keys && MayEntry(l, r, keys, k, e);
      if k in r.entries {
        var h :| MayEqual(l.entries[k], r.entries[k], h) &&
          if h == Equality(true, true) then MayEntries(l, r, keys - {k}, e) else e == Equality(false, h.ok);
        EqualExactly(l.entries[k], r.entries[k], h);
        if h == Equality(true, true) {
          EntriesExactly(l, r, keys - {k}, e);
        }
      }
    }
  }

  /** The comparison itself, meeting entries in an order of its own choosing. */
  method EqualValues(l: Value, r: Value) returns (e: Equality)
    ensures MayEqual(l, r, e)
    decreases l
  {
    if l.Null? || r.Null? {
      return Equality(l.Null? && r.Null?, true);
    }
    if l.List? {
      if !r.List? {
        return Equality(false, false);
      }
      if |l.items| != |r.items| {
        return Equality(false, true);
      }
      for i := 0 to |l.items|
        invariant forall x :: MayItems(l, r, i, x) ==> MayItems(l, r, 0, x)
      {
        var h := EqualValues(l.items[i], r.items[i]);
        if h != Equality(true, true) {
          assert MayItems(l, r, i, Equality(false, h.ok));
          return Equality(false, h.ok);
        }
      }
      e := Equality(true, true);
    } else if l.Context? {
      if !r.Context? {
        return Equality(false, false);
      }
      if |l.entries| != |r.entries| {
        return Equality(false, true);
      }
      var rest := l.entries.Keys;
      while rest != {}
        invariant rest <= l.entries.Keys
        invariant forall x :: MayEntries(l, r, rest, x) ==> MayEntries(l, r, l.entries.Keys, x)
        decreases |rest|
      {
        var k :| k in rest;
        if k !in r.entries {
          assert MayEntry(l, r, rest, k, Equality(false, true));
          return Equality(false, true);
        }
        var h := EqualValues(l.entries[k], r.entries[k]);
        if h != Equality(true, true) {
          assert MayEntry(l, r, rest, k, Equality(false, h.ok));
          return Equality(false, h.ok);
        }
        assert forall x :: MayEntries(l, r, rest - {k}, x) ==> MayEntry(l, r, rest, k, x);
        rest := rest - {k};
      }
      e := Equality(true, true);
    } else {
      e := EqualScalars(l, r);
    }
  }

  /** Whether contexts can be compared, though, does depend on it: "=" answers false in one order and
      null in the other. */
  lemma ComparabilityDependsOnOrder()
    ensures var l := Context(map["a" := Boolean(true), "b" := Text("x")]);
            var r := Context(map["a" := Boolean(false), "b" := Boolean(true)]);
            MayEqual(l, r, Equality(false, true)) && MayEqual(l, r, Equality(false, false))
  {
    var l := Context(map["a" := Boolean(true), "b" := Text("x")]);
    var r := Context(map["a" := Boolean(false), "b" := Boolean(true)]);
    assert l.entries.Keys == {"a", "b"} == r.entries.Keys;
    assert |l.entries| == |l.entries.Keys| && |r.entries| == |r.entries.Keys|;
    assert MayEqual(l.entries["a"], r.entries["a"], Equality(false, true));
    assert MayEntry(l, r, {"a", "b"}, "a", Equality(false, true));
    assert MayEqual(l.entries["b"], r.entries["b"], Equality(true, false));
    assert MayEntry(l, r, {"a", "b"}, "b", Equality(false, false));
  }

  /** Whether two values that are not the same can be found comparable (b) or not comparable (!b), without
      mention of any order: lists at their first differing items; contexts at any key, one the other
      context lacks being comparable. */
  ghost predicate MayDiffer(l: Value, r: Value, b: bool)
    decreases l
  {
    if l.List? && !r.Null? then
      if !r.List? then !b
      else if |l.items| != |r.items| then b
      else exists i :: 0 <= i < |l.items| && FirstDifference(l.items, r.items, i) && MayDiffer(l.items[i], r.items[i], b)
    else if l.Context? && !r.Null? then
      if !r.Context? then !b
      else if |l.entries| != |r.entries| then b
      else exists k :: k in l.entries && if k in r.entries then MayDiffer(l.entries[k], r.entries[k], b) else b
    else EqualScalars(l, r) != Equality(true, true) && EqualScalars(l, r).ok == b
  }

  ghost predicate FirstDifference(a: seq<Value>, b: seq<Value>, i: nat)
    requires i < |a| == |b|
  {
    !Same(a[i], b[i]) && forall j :: 0 <= j < i ==> Same(a[j], b[j])
  }

  /** An answer that two values are not equal, and whether they are comparable. */
  ghost predicate AnswersDiffer(l: Value, r: Value, b: bool) {
    exists e :: MayEqual(l, r, e) && e != Equality(true, true) && e.ok == b
  }

  /** Those are exactly the answers comparing two unequal values can give. */
  lemma {:induction false} DifferExactly(l: Value, r: Value, b: bool)
    ensures AnswersDiffer(l, r, b) <==> MayDiffer(l, r, b)
    decreases l, 1, 0
  {
    if l.List? && r.List? && |l.items| == |r.items| {
      ItemsDifferExactly(l, r, 0, b);
      forall e | MayItems(l, r, 0, e) ensures e.eq ==> e.ok { ItemsAnswer(l, r, 0, e); }
    } else if l.Context? && r.Context? && |l.entries| == |r.entries| {
      EntriesDiffer(l, r, b);
      forall e | MayEntries(l, r, l.entries.Keys, e) ensures e.eq ==> e.ok { EntriesAnswer(l, r, l.entries.Keys, e); }
    } else if l.List? || l.Context? {
      assert MayEqual(l, r, Equality(false, r.Null? || (l.List? && r.List?) || (l.Context? && r.Context?)));
    } else {
      assert MayEqual(l, r, EqualScalars(l, r));
    }
  }

  lemma {:induction false} SameIsSure(l: Value, r: Value)
    requires Same(l, r)
    ensures MayEqual(l, r, Equality(true, true))
    decreases l, 1, 0
  {
    if l.List? {
      SameItemsAreSure(l, r, 0);
    } else if l.Context? {
      SameEntriesAreSure(l, r, l.entries.Keys);
    } else {
      EqualScalarsExactly(l, r);
    }
  }

  lemma {:induction false} SameItemsAreSure(l: Value, r: Value, i: nat)
    requires l.List? && Same(l, r) && i <= |l.items|
    ensures MayItems(l, r, i, Equality(true, true))
    decreases l, 0, |l.items| - i
  {
    if i < |l.items| {
      SameIsSure(l.items[i], r.items[i]);
      SameItemsAreSure(l, r, i + 1);
    }
  }

  lemma {:induction false} SameEntriesAreSure(l: Value, r: Value, keys: set<string>)
    requires l.Context? && Same(l, r) && keys <= l.entries.Keys
    ensures MayEntries(l, r, keys, Equality(true, true))
    decreases l, 0, |keys|
  {
    if keys != {} {
      var k :| k in keys;
      SameIsSure(l.entries[k], r.entries[k]);
      SameEntriesAreSure(l, r, keys - {k});
      assert MayEntry(l, r, keys, k, Equality(true, true));
    }
  }

  lemma {:induction false} ItemsDifferExactly(l: Value, r: Value, i: nat, b: bool)
    requires l.List? && r.List? && i <= |l.items| == |r.items| && forall j :: 0 <= j < i ==> Same(l.items[j], r.items[j])
    ensures MayItems(l, r, i, Equality(false, b)) <==> MayDiffer(l, r, b)
    decreases l, 0, |l.items| - i
  {
    if i < |l.items| {
      if Same(l.items[i], r.items[i]) {
        SameIsSure(l.items[i], r.items[i]);
        ItemsDifferExactly(l, r, i + 1, b);
        forall h | MayEqual(l.items[i], r.items[i], h) ensures h == Equality(true, true) { EqualExactly(l.items[i], r.items[i], h); }
      } else {
        DifferExactly(l.items[i], r.items[i], b);
        forall h | MayEqual(l.items[i], r.items[i], h) ensures h != Equality(true, true) { EqualExactly(l.items[i], r.items[i], h); }
        assert FirstDifference(l.items, r.items, i);
      }
    }
  }

  lemma {:induction false} EntriesDiffer(l: Value, r: Value, b: bool)
    requires l.Context? && r.Context? && |l.entries| == |r.entries|
    ensures MayEntries(l, r, l.entries.Keys, Equality(false, b)) <==> MayDiffer(l, r, b)
    decreases l, 0, |l.entries| + 1
  {
    if MayEntries(l, r, l.entries.Keys, Equality(false, b)) {
      var k := DecidingEntry(l, r, l.entries.Keys, b);
    }
    if MayDiffer(l, r, b) {
      var k :| k in l.entries && if k in r.entries then MayDiffer(l.entries[k], r.entries[k], b) else b;
      if k in r.entries {
        DifferExactly(l.entries[k], r.entries[k], b);
      }
      assert MayEntry(l, r, l.entries.Keys, k, Equality(false, b));
    }
  }

  lemma {:induction false} ItemsAnswer(l: Value, r: Value, i: nat, e: Equality)
    requires l.List? && r.List? && i <= |l.items| == |r.items| && MayItems(l, r, i, e)
    ensures e.eq ==> e.ok
    decreases |l.items| - i
  {
    if i < |l.items| && e.eq {
      ItemsAnswer(l, r, i + 1, e);
    }
  }

  lemma {:induction false} EntriesAnswer(l: Value, r: Value, keys: set<string>, e: Equality)
    requires l.Context? && r.Context? && keys <= l.entries.Keys && MayEntries(l, r, keys, e)
    ensures e.eq ==> e.ok
    decreases |keys|
  {
    if keys != {} {
      var k :| k in keys && MayEntry(l, r, keys, k, e);
      if k in r.entries && e.eq {
        EntriesAnswer(l, r, keys - {k}, e);
      }
    }
  }

  /** The entry that decided. */
  lemma {:induction false} DecidingEntry(l: Value, r: Value, keys: set<string>, b: bool) returns (k: string)
    requires l.Context? && r.Context? && keys <= l.entries.Keys && MayEntries(l, r, keys, Equality(false, b))
    ensures k in l.entries && if k in r.entries then MayDiffer(l.entries[k], r.entries[k], b) else b
    decreases l, 0, |keys|
  {
    k :| k in keys && MayEntry(l, r, keys, k, Equality(false, b));
    if k in r.entries {
      var h :| MayEqual(l.entries[k], r.entries[k], h) &&
        if h == Equality(true, true) then MayEntries(l, r, keys - {k}, Equality(false, b)) else b == h.ok;
      if h == Equality(true, true) {
        k := DecidingEntry(l, r, keys - {k}, b);
      } else {
        DifferExactly(l.entries[k], r.entries[k], b);
      }
    }
  }

  /** What "=" makes of an answer. */
  function EqualsGives(e: Equality): Value {
    if e.ok then Boolean(e.eq) else Null
  }

  ghost predicate OneOutcome(l: Value, r: Value) {
    forall d, e :: MayEqual(l, r, d) && MayEqual(l, r, e) ==> EqualsGives(d) == EqualsGives(e)
  }

  /** "=" gives one answer, whatever orders entries are met in, exactly when the two values cannot differ
      both comparably and not. */
  lemma EqualsHasOneOutcome(l: Value, r: Value)
    ensures OneOutcome(l, r) <==> !(MayDiffer(l, r, true) && MayDiffer(l, r, false))
  {
    DifferExactly(l, r, true);
    DifferExactly(l, r, false);
    forall e | MayEqual(l, r, e) ensures e == Equality(true, true) <==> Same(l, r) { EqualExactly(l, r, e); }
    if MayDiffer(l, r, true) && MayDiffer(l, r, false) {
      var d :| MayEqual(l, r, d) && d != Equality(true, true) && d.ok;
      var e :| MayEqual(l, r, e) && e != Equality(true, true) && !e.ok;
      assert EqualsGives(d) != EqualsGives(e);
    }
  }

  // ----- an equivalence -----

  predicate RangeFree(v: Value) {
    match v
    case List(items) => forall i :: 0 <= i < |items| ==> RangeFree(items[i])
    case Context(entries) => forall k :: k in entries ==> RangeFree(entries[k])
    case Range(_, _, _, _) => false
    case _ => true
  }

  lemma {:induction false} SameReflexive(v: Value)
    ensures Same(v, v) <==> RangeFree(v)
  {
    match v
    case List(items) =>
      forall i | 0 <= i < |items| ensures Same(items[i], items[i]) <==> RangeFree(items[i]) { SameReflexive(items[i]); }
    case Context(entries) =>
      forall k | k in entries ensures Same(entries[k], entries[k]) <==> RangeFree(entries[k]) { SameReflexive(entries[k]); }
    case _ =>
  }

  lemma {:induction false} SameSymmetric(a: Value, b: Value)
    requires Same(a, b)
    ensures Same(b, a)
    decreases a
  {
    match a
    case List(items) =>
      forall i | 0 <= i < |items| ensures Same(b.items[i], items[i]) { SameSymmetric(items[i], b.items[i]); }
    case Context(entries) =>
      forall k | k in entries ensures Same(b.entries[k], entries[k]) { SameSymmetric(entries[k], b.entries[k]); }
    case _ =>
  }

  lemma {:induction false} SameTransitive(a: Value, b: Value, c: Value)
    requires Same(a, b) && Same(b, c)
    ensures Same(a, c)
    decreases a
  {
    match a
    case List(items) =>
      forall i | 0 <= i < |items| ensures Same(items[i], c.items[i]) { SameTransitive(items[i], b.items[i], c.items[i]); }
    case Context(entries) =>
      forall k | k in entries ensures Same(entries[k], c.entries[k]) { SameTransitive(entries[k], b.entries[k], c.entries[k]); }
    case _ =>
  }

  /** So being equal and comparable is an equivalence on range-free values, in whatever orders the
      comparisons meet entries; for a value with a range in it, exactly reflexivity is lost. */
  lemma EqualityIsAnEquivalence(a: Value, b: Value, c: Value, aa: Equality, ab: Equality, ba: Equality, bc: Equality, ac: Equality)
    requires MayEqual(a, a, aa) && MayEqual(a, b, ab) && MayEqual(b, a, ba) && MayEqual(b, c, bc) && MayEqual(a, c, ac)
    ensures aa == Equality(true, true) <==> RangeFree(a)
    ensures ab == Equality(true, true) <==> ba == Equality(true, true)
    ensures ab == bc == Equality(true, true) ==> ac == Equality(true, true)
  {
    EqualExactly(a, a, aa);
    EqualExactly(a, b, ab);
    EqualExactly(b, a, ba);
    EqualExactly(b, c, bc);
    EqualExactly(a, c, ac);
    SameReflexive(a);
    if Same(a, b) {
      SameSymmetric(a, b);
      if Same(b, c) {
        SameTransitive(a, b, c);
      }
    }
    if Same(b, a) {
      SameSymmetric(b, a);
    }
  }

  // ----- lists without duplicates -----

  predicate Has(l: seq<Value>, x: Value) {
    exists i :: 0 <= i < |l| && Same(l[i], x)
  }

  /** The items that are not the same as an earlier one. */
  function Firsts(l: seq<Value>): seq<Value> {
    if l == [] then []
    else
      var last, before := l[|l| - 1], l[..|l| - 1];
      Firsts(before) + if Has(before, last) then [] else [last]
  }

  lemma HasAppend(l: seq<Value>, y: Value, x: Value)
    ensures Has(l + [y], x) <==> Has(l, x) || Same(y, x)
  {
    var all := l + [y];
    if Has(l, x) {
      var i :| 0 <= i < |l| && Same(l[i], x);
      assert Same(all[i], x);
    }
    if Same(y, x) {
      assert Same(all[|l|], x);
    }
    if Has(all, x) {
      var i :| 0 <= i < |all| && Same(all[i], x);
      assert i < |l| ==> Same(l[i], x);
    }
  }

  /** A list and its distinct values have the same things in them. */
  lemma {:induction false} DistinctHasTheSame(l: seq<Value>, x: Value)
    ensures Has(Firsts(l), x) <==> Has(l, x)
    decreases |l|
  {
    if l != [] {
      var last, before := l[|l| - 1], l[..|l| - 1];
      assert l == before + [last];
      HasAppend(before, last, x);
      HasAppend(Firsts(before), last, x);
      DistinctHasTheSame(before, x);
      if Has(before, last) && Same(last, x) {
        var i :| 0 <= i < |before| && Same(before[i], last);
        SameTransitive(before[i], last, x);
      }
      assert Firsts(before) + [] == Firsts(before);
    }
  }

  /** Where the distinct values stand in the list: in its order, each at the first occurrence of a value,
      no two of them the same. */
  ghost predicate FirstPlaces(l: seq<Value>, at: seq<nat>) {
    && |at| == |Firsts(l)|
    && (forall j :: 0 <= j < |at| ==> at[j] < |l| && Firsts(l)[j] == l[at[j]])
    && (forall i, j :: 0 <= i < j < |at| ==> at[i] < at[j] && !Same(Firsts(l)[i], Firsts(l)[j]))
    && (forall i :: 0 <= i < |l| ==> (i in at <==> !Has(l[..i], l[i])))
  }

  lemma {:induction false} DistinctAreFirst(l: seq<Value>) returns (at: seq<nat>)
    ensures FirstPlaces(l, at)
    decreases |l|
  {
    hide Same, Has;
    if l == [] {
      at := [];
    } else {
      var last, before := l[|l| - 1], l[..|l| - 1];
      assert l == before + [last];
      at := DistinctAreFirst(before);
      if Has(before, last) {
        PlacesStay(before, last, at);
      } else {
        PlacesGrow(before, last, at);
        at := at + [|before|];
      }
    }
  }

  lemma PlacesStay(l: seq<Value>, x: Value, at: seq<nat>)
    requires FirstPlaces(l, at) && Has(l, x)
    ensures FirstPlaces(l + [x], at)
  {
    hide Same, Has;
    var more := l + [x];
    assert more[..|l|] == l;
    assert Firsts(more) == Firsts(l);
    assert forall i :: 0 <= i < |l| ==> more[..i] == l[..i] && more[i] == l[i];
  }

  lemma PlacesGrow(l: seq<Value>, x: Value, at: seq<nat>)
    requires FirstPlaces(l, at) && !Has(l, x)
    ensures FirstPlaces(l + [x], at + [|l|])
  {
    hide Same, Has;
    var more, places := l + [x], at + [|l|];
    assert more[..|l|] == l;
    assert Firsts(more) == Firsts(l) + [x];
    NotAmong(l, x);
    assert forall i :: 0 <= i < |l| ==> more[..i] == l[..i] && more[i] == l[i];
    assert forall i :: 0 <= i < |l| ==> (i in places <==> i in at);
    assert |l| in places;
  }

  lemma NotAmong(l: seq<Value>, x: Value)
    requires !Has(l, x)
    ensures forall i :: 0 <= i < |Firsts(l)| ==> !Same(Firsts(l)[i], x)
  {
    hide Same;
    DistinctHasTheSame(l, x);
  }

  /** distinct values: each item against those kept so far. */
  method DistinctValues(l: seq<Value>) returns (out: seq<Value>)
    ensures out == Firsts(l)
  {
    out := [];
    for i := 0 to |l|
      invariant out == Firsts(l[..i])
    {
      var dup := false;
      var j := 0;
      while j < |out|
        invariant 0 <= j <= |out| && !dup
        invariant forall k :: 0 <= k < j ==> !Same(l[i], out[k])
      {
        var e := EqualValues(l[i], out[j]);
        EqualExactly(l[i], out[j], e);
        if e.ok && e.eq {
          dup := true;
          break;
        }
        j := j + 1;
      }
      assert dup <==> Has(out, l[i]) by {
        if dup {
          SameSymmetric(l[i], out[j]);
        } else if Has(out, l[i]) {
          var k :| 0 <= k < |out| && Same(out[k], l[i]);
          SameSymmetric(out[k], l[i]);
        }
      }
      DistinctHasTheSame(l[..i], l[i]);
      assert l[..i + 1][..i] == l[..i];
      if !dup {
        out := out + [l[i]];
      }
    }
    assert l[..|l|] == l;
  }

  /** list contains. */
  method ListContains(l: seq<Value>, x: Value) returns (found: bool)
    ensures found <==> Has(l, x)
    ensures found <==> Has(Firsts(l), x)
  {
    DistinctHasTheSame(l, x);
    for i := 0 to |l|
      invariant forall k :: 0 <= k < i ==> !Same(l[k], x)
    {
      var e := EqualValues(l[i], x);
      EqualExactly(l[i], x, e);
      if e.ok && e.eq {
        return true;
      }
    }
    return false;
  }
}
