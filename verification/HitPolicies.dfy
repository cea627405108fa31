/** Decision tables: what each hit policy makes of the rules that match. */
module HitPolicies {

  import opened Wrappers

  /** How a rule turned out on the case at hand: its first output's value, which ranks it, and its
      result, one value or one of each output. */
  datatype Rule<+V> = Broken | Unmatched | Matched(first: V, result: V)

  datatype Aggregation = List | Count | Sum | Min | Max | OtherAggregation

  datatype Policy = Unique | First | Any | Priority | OutputOrder | RuleOrder | Collect(aggregation: Aggregation) | OtherPolicy

  datatype Answer<+V> = Failed | Nothing | One(result: V) | Many(results: seq<V>) | Number(number: real)

  /** What tables take from elsewhere: the number a value is, and whether a value compares equal to one
      of those listed for the first output, if any are listed. */
  datatype Values<!V> = Values(number: V -> Option<real>, listed: Option<seq<V>>, agrees: (V, V) -> bool)

  // ----- matching -----

  function Hits<V>(rules: seq<Rule<V>>): (hits: seq<Rule<V>>)
    ensures forall i :: 0 <= i < |hits| ==> hits[i].Matched?
  {
    if rules == [] then []
    else Hits(rules[..|rules| - 1]) + if rules[|rules| - 1].Matched? then [rules[|rules| - 1]] else []
  }

  predicate Sane<V>(rules: seq<Rule<V>>) {
    forall i :: 0 <= i < |rules| ==> !rules[i].Broken?
  }

  function Results<V>(hits: seq<Rule<V>>): (r: seq<V>)
    requires forall i :: 0 <= i < |hits| ==> hits[i].Matched?
    ensures |r| == |hits| && forall i :: 0 <= i < |hits| ==> r[i] == hits[i].result
  {
    seq(|hits|, i requires 0 <= i < |hits| => hits[i].result)
  }

  /** The rules tried in order, up to the first that is broken; FIRST stops at the first that matches. */
  method Match<V>(rules: seq<Rule<V>>, policy: Policy) returns (hits: Option<seq<Rule<V>>>)
    ensures hits.Some? ==> forall i :: 0 <= i < |hits.value| ==> hits.value[i].Matched?
    ensures !policy.First? ==> hits == if Sane(rules) then Some(Hits(rules)) else None
    ensures policy.First? ==> hits == FirstHit(rules)
  {
    var found := [];
    for i := 0 to |rules|
      invariant Sane(rules[..i]) && found == Hits(rules[..i])
      invariant policy.First? ==> found == [] && FirstHit(rules) == FirstHit(rules[i..])
    {
      assert rules[..i + 1][..i] == rules[..i] && rules[i..][1..] == rules[i + 1..];
      if rules[i].Broken? {
        return None;
      }
      if rules[i].Matched? {
        found := found + [rules[i]];
        if policy.First? {
          assert found == [rules[i..][0]];
          return Some(found);
        }
      }
    }
    assert rules[..|rules|] == rules && rules[|rules|..] == [];
    return Some(found);
  }

  /** The first match, if no broken rule comes before it. */
  function FirstHit<V>(rules: seq<Rule<V>>): (hits: Option<seq<Rule<V>>>)
    ensures hits.Some? ==> forall i :: 0 <= i < |hits.value| ==> hits.value[i].Matched?
  {
    if rules == [] then Some([])
    else match rules[0]
      case Broken => None
      case Matched(_, _) => Some([rules[0]])
      case Unmatched => FirstHit(rules[1..])
  }

  lemma {:induction false} FirstHitOfSane<V>(rules: seq<Rule<V>>)
    requires Sane(rules)
    ensures FirstHit(rules).Some? && FirstHit(rules).value == if Hits(rules) == [] then [] else Hits(rules)[..1]
    decreases |rules|
  {
    if rules != [] {
      HitsFromFront(rules);
      FirstHitOfSane(rules[1..]);
    }
  }

  lemma {:induction false} HitsFromFront<V>(rules: seq<Rule<V>>)
    requires rules != []
    ensures Hits(rules) == (if rules[0].Matched? then [rules[0]] else []) + Hits(rules[1..])
    decreases |rules|
  {
    if |rules| > 1 {
      HitsFromFront(rules[..|rules| - 1]);
      assert rules[..|rules| - 1][1..] == rules[1..][..|rules| - 2];
    }
  }

  // ----- ranking -----

  /** The place of a value among those listed, after all of them if it is not there. */
  function RankIn<V>(values: Values<V>, listed: seq<V>, v: V): (r: nat)
    ensures r <= |listed|
  {
    if listed == [] || values.agrees(v, listed[0]) then 0 else 1 + RankIn(values, listed[1..], v)
  }

  function Ranks<V>(values: Values<V>, hits: seq<Rule<V>>): (ranks: seq<nat>)
    requires values.listed.Some? && forall i :: 0 <= i < |hits| ==> hits[i].Matched?
    ensures |ranks| == |hits|
    ensures forall i :: 0 <= i < |hits| ==> ranks[i] == RankIn(values, values.listed.value, hits[i].first)
  {
    seq(|hits|, i requires 0 <= i < |hits| => RankIn(values, values.listed.value, hits[i].first))
  }

  /** i comes before j: by rank, and by position between equals. */
  predicate Earlier(ranks: seq<nat>, i: nat, j: nat)
    requires i < |ranks| && j < |ranks|
  {
    ranks[i] < ranks[j] || (ranks[i] == ranks[j] && i < j)
  }

  /** A stable sort of the positions 0 to n - 1 by rank: each of them once, in order of rank, and in
      their own order between equals. */
  ghost predicate StablySorted(ranks: seq<nat>, n: nat, order: seq<nat>)
    requires n <= |ranks|
  {
    && |order| == n
    && (forall k :: 0 <= k < n ==> order[k] < n)
    && (forall i :: 0 <= i < n ==> i in order)
    && (forall a, b :: 0 <= a < b < n ==> Earlier(ranks, order[a], order[b]))
  }

  /** Inserting the next position after every one it does not come before. */
  function Insert(ranks: seq<nat>, order: seq<nat>, next: nat): seq<nat>
    requires next < |ranks| && forall k :: 0 <= k < |order| ==> order[k] < |ranks|
  {
    if order == [] then [next]
    else if ranks[next] < ranks[order[0]] then [next] + order
    else [order[0]] + Insert(ranks, order[1..], next)
  }

  lemma {:induction false} InsertSorts(ranks: seq<nat>, order: seq<nat>, next: nat)
    requires next < |ranks| && forall k :: 0 <= k < |order| ==> order[k] < next
    requires forall a, b :: 0 <= a < b < |order| ==> Earlier(ranks, order[a], order[b])
    ensures var r := Insert(ranks, order, next);
            && |r| == |order| + 1 && (forall k :: 0 <= k < |r| ==> r[k] <= next)
            && (forall i :: i in r <==> i in order || i == next)
            && forall a, b :: 0 <= a < b < |r| ==> Earlier(ranks, r[a], r[b])
    decreases |order|
  {
    if order != [] && ranks[next] >= ranks[order[0]] {
      var rest := Insert(ranks, order[1..], next);
      InsertSorts(ranks, order[1..], next);
      assert order == [order[0]] + order[1..];
      forall b | 0 <= b < |rest| ensures Earlier(ranks, order[0], rest[b]) {
        assert rest[b] in rest;
      }
    }
  }

  function StableOrder(ranks: seq<nat>, n: nat): (order: seq<nat>)
    requires n <= |ranks|
    ensures StablySorted(ranks, n, order)
  {
    if n == 0 then []
    else
      InsertSorts(ranks, StableOrder(ranks, n - 1), n - 1);
      Insert(ranks, StableOrder(ranks, n - 1), n - 1)
  }

  /** There is one stable sort, whatever the algorithm. */
  lemma {:induction false} StableSortIsUnique(ranks: seq<nat>, n: nat, a: seq<nat>, b: seq<nat>, k: nat)
    requires n <= |ranks| && StablySorted(ranks, n, a) && StablySorted(ranks, n, b) && k <= n && a[..k] == b[..k]
    ensures a == b
    decreases n - k
  {
    if k < n {
      SameNext(ranks, n, a, b, k);
      SameNext(ranks, n, b, a, k);
      assert a[..k + 1] == a[..k] + [a[k]] && b[..k + 1] == b[..k] + [b[k]];
      StableSortIsUnique(ranks, n, a, b, k + 1);
    }
  }

  lemma SameNext(ranks: seq<nat>, n: nat, a: seq<nat>, b: seq<nat>, k: nat)
    requires n <= |ranks| && StablySorted(ranks, n, a) && StablySorted(ranks, n, b) && k < n && a[..k] == b[..k]
    ensures b[k] == a[k] || Earlier(ranks, a[k], b[k])
  {
    forall i | 0 <= i < k ensures a[i] == b[i] != b[k] {
      assert a[..k][i] == b[..k][i];
      assert Earlier(ranks, b[i], b[k]);
    }
    assert b[k] in a;
    var j :| 0 <= j < n && a[j] == b[k];
    assert j >= k;
  }

  /** The results in that order. */
  function Reordered<V>(results: seq<V>, order: seq<nat>): (r: seq<V>)
    requires forall k :: 0 <= k < |order| ==> order[k] < |results|
    ensures |r| == |order| && forall k :: 0 <= k < |order| ==> r[k] == results[order[k]]
  {
    seq(|order|, k requires 0 <= k < |order| => results[order[k]])
  }

  function Ranked<V>(values: Values<V>, hits: seq<Rule<V>>): seq<V>
    requires values.listed.Some? && forall i :: 0 <= i < |hits| ==> hits[i].Matched?
  {
    Reordered(Results(hits), StableOrder(Ranks(values, hits), |hits|))
  }

  // ----- collecting -----

  function Numbers<V>(values: Values<V>, results: seq<V>): Option<seq<real>> {
    if results == [] then Some([])
    else
      var n, before := values.number(results[|results| - 1]), Numbers(values, results[..|results| - 1]);
      if n.None? || before.None? then None else Some(before.value + [n.value])
  }

  function Total(ns: seq<real>): real {
    if ns == [] then 0.0 else Total(ns[..|ns| - 1]) + ns[|ns| - 1]
  }

  /** The number is in the list and none is beyond it. */
  ghost predicate Extreme(ns: seq<real>, x: real, least: bool) {
    x in ns && forall i :: 0 <= i < |ns| ==> if least then x <= ns[i] else ns[i] <= x
  }

  /** The sum of the numbers, or the least or greatest of them. */
  ghost predicate Folded(aggregation: Aggregation, ns: seq<real>, x: real) {
    if aggregation.Sum? then x == Total(ns) else Extreme(ns, x, aggregation.Min?)
  }

  /** What a collected list comes to. */
  ghost predicate Collected<V>(values: Values<V>, aggregation: Aggregation, results: seq<V>, answer: Answer<V>) {
    match aggregation
    case List => answer == Many(results)
    case Count => answer == Number(|results| as real)
    case OtherAggregation => answer == Failed
    case _ =>
      if results == [] then answer == Nothing
      else match Numbers(values, results)
        case None => answer == Failed
        case Some(ns) =>
          answer.Number? && Folded(aggregation, ns, answer.number)
  }

  method CollectResults<V>(values: Values<V>, aggregation: Aggregation, results: seq<V>) returns (answer: Answer<V>)
    ensures Collected(values, aggregation, results, answer)
  {
    if aggregation.List? {
      return Many(results);
    }
    if aggregation.Count? {
      return Number(|results| as real);
    }
    if aggregation.OtherAggregation? {
      return Failed;
    }
    if results == [] {
      return Nothing;
    }
    answer := Fold(values, aggregation, results);
  }

  /** The loop of the aggregations that need numbers. */
  method Fold<V>(values: Values<V>, aggregation: Aggregation, results: seq<V>) returns (answer: Answer<V>)
    requires results != [] && (aggregation.Sum? || aggregation.Min? || aggregation.Max?)
    ensures Collected(values, aggregation, results, answer)
  {
    hide Numbers, Folded;
    var acc := 0.0;
    ghost var ns: seq<real> := [];
    NoNumbers(values);
    for i := 0 to |results|
      invariant Numbers(values, results[..i]) == Some(ns) && |ns| == i
      invariant i > 0 ==> Folded(aggregation, ns, acc)
    {
      NumbersNext(values, results, i);
      var n := values.number(results[i]);
      if n.None? {
        NumbersOfPart(values, results, i + 1);
        return Failed;
      }
      FoldNext(aggregation, ns, acc, n.value);
      if i == 0 {
        acc := n.value;
      } else if aggregation.Sum? {
        acc := acc + n.value;
      } else if (aggregation.Min? && n.value < acc) || (aggregation.Max? && n.value > acc) {
        acc := n.value;
      }
      ns := ns + [n.value];
    }
    assert results[..|results|] == results;
    return Number(acc);
  }

  lemma NoNumbers<V>(values: Values<V>)
    ensures forall results: seq<V> :: results == [] ==> Numbers(values, results) == Some([])
  {
  }

  lemma NumbersNext<V>(values: Values<V>, results: seq<V>, i: nat)
    requires i < |results| && Numbers(values, results[..i]).Some?
    ensures Numbers(values, results[..i + 1]) ==
              match values.number(results[i]) case None => None case Some(n) => Some(Numbers(values, results[..i]).value + [n])
  {
    assert results[..i + 1][..i] == results[..i];
  }

  /** One more number: the first alone, the sum with it, or the further of the two. */
  lemma FoldNext(aggregation: Aggregation, ns: seq<real>, acc: real, n: real)
    requires ns != [] ==> Folded(aggregation, ns, acc)
    requires aggregation.Sum? || aggregation.Min? || aggregation.Max?
    ensures var next := if ns == [] then n else if aggregation.Sum? then acc + n
                        else if (aggregation.Min? && n < acc) || (aggregation.Max? && n > acc) then n else acc;
            Folded(aggregation, ns + [n], next)
  {
    var more := ns + [n];
    assert more[..|ns|] == ns && more[|ns|] == n;
    assert ns == [] ==> Total(ns) == 0.0;
    if aggregation.Sum? {
      assert Total(more) == Total(ns) + n;
    } else {
      assert n in more && forall x :: x in ns ==> x in more;
    }
  }

  lemma {:induction false} NumbersOfPart<V>(values: Values<V>, results: seq<V>, n: nat)
    requires n <= |results| && Numbers(values, results[..n]).None?
    ensures Numbers(values, results).None?
    decreases |results| - n
  {
    if n < |results| {
      assert results[..n + 1][..n] == results[..n];
      NumbersOfPart(values, results, n + 1);
    } else {
      assert results[..n] == results;
    }
  }

  // ----- the table -----

  function Head<V>(results: seq<V>): Answer<V> {
    if results == [] then Nothing else One(results[0])
  }

  /** All the matching rules give one result. */
  predicate Agreed<V(==)>(results: seq<V>) {
    forall i :: 0 < i < |results| ==> results[i] == results[0]
  }

  method Evaluate<V(==)>(values: Values<V>, rules: seq<Rule<V>>, policy: Policy) returns (answer: Answer<V>)
    ensures Answers(values, rules, policy, answer)
  {
    if Sane(rules) {
      FirstHitOfSane(rules);
    }
    var found := Match(rules, policy);
    if found.None? {
      return Failed;
    }
    var hits := found.value;
    var results := Results(hits);
    match policy {
      case Unique =>
        if |results| > 1 {
          return Failed;
        }
      case First =>
      case Any =>
        var i := 1;
        while i < |results|
          invariant forall k :: 0 < k < i && k < |results| ==> results[k] == results[0]
        {
          if results[i] != results[0] {
            return Failed;
          }
          i := i + 1;
        }
      case Priority =>
        if values.listed.None? {
          return Failed;
        }
        results := Ranked(values, hits);
      case OutputOrder =>
        return if values.listed.None? then Failed else Many(Ranked(values, hits));
      case RuleOrder =>
        return Many(results);
      case Collect(aggregation) =>
        answer := CollectResults(values, aggregation, results);
        return;
      case OtherPolicy =>
        return Failed;
    }
    answer := Head(results);
  }

  /** The answer of a table: what its policy promises, if no rule is broken. A broken rule fails every
      policy but FIRST, which does not look beyond the first match. */
  ghost predicate Answers<V>(values: Values<V>, rules: seq<Rule<V>>, policy: Policy, answer: Answer<V>) {
    && (Sane(rules) ==> Means(values, policy, Hits(rules), answer))
    && (!Sane(rules) && !policy.First? ==> answer == Failed)
    && (policy.First? ==> answer == if FirstHit(rules).None? then Failed else Head(Results(FirstHit(rules).value)))
  }

  /** What each policy promises of the rules that match, in their order. */
  ghost predicate Means<V>(values: Values<V>, policy: Policy, hits: seq<Rule<V>>, answer: Answer<V>)
    requires forall i :: 0 <= i < |hits| ==> hits[i].Matched?
  {
    var results := Results(hits);
    match policy
    case RuleOrder => answer == Many(results)
    case First => answer == Head(results)
    case Unique => answer == if |results| > 1 then Failed else Head(results)
    case Any => answer == if Agreed(results) then Head(results) else Failed
    case OutputOrder => answer == if values.listed.None? then Failed else Many(Ranked(values, hits))
    case Priority => answer == if values.listed.None? then Failed else Head(Ranked(values, hits))
    case Collect(aggregation) => Collected(values, aggregation, results, answer)
    case OtherPolicy => answer == Failed
  }

  // ----- how the policies hang together -----

  /** A rule decides: it matches or is broken, and no rule before it does. */
  ghost predicate Decides<V>(rules: seq<Rule<V>>, i: nat) {
    i < |rules| && !rules[i].Unmatched? && forall j :: 0 <= j < i ==> rules[j].Unmatched?
  }

  lemma {:induction false} FirstHitDecides<V>(rules: seq<Rule<V>>)
    ensures FirstHit(rules) == Some([]) <==> forall i :: 0 <= i < |rules| ==> rules[i].Unmatched?
    ensures forall i: nat :: Decides(rules, i) ==> FirstHit(rules) == if rules[i].Broken? then None else Some([rules[i]])
    ensures FirstHit(rules) != Some([]) ==> exists i: nat :: Decides(rules, i)
    decreases |rules|
  {
    if rules != [] {
      var rest := rules[1..];
      FirstHitDecides(rest);
      if rules[0].Unmatched? {
        forall i: nat ensures Decides(rules, i + 1) <==> Decides(rest, i) {
          assert Decides(rest, i) ==> forall j :: 0 < j < i + 1 ==> rules[j] == rest[j - 1];
          assert Decides(rules, i + 1) ==> forall j :: 0 <= j < i ==> rest[j] == rules[j + 1];
        }
        forall i: nat | Decides(rules, i) ensures i > 0 && Decides(rest, i - 1) {
          assert i > 0;
          assert Decides(rules, (i - 1) + 1);
        }
        assert forall i :: 0 < i < |rules| ==> rules[i] == rest[i - 1];
        assert forall i :: 0 <= i < |rest| ==> rest[i] == rules[i + 1];
      } else {
        assert Decides(rules, 0);
      }
    }
  }

  /** FIRST answers the one rule that decides and ignores what comes after, broken or not. */
  lemma FirstIsDecided<V>(values: Values<V>, rules: seq<Rule<V>>, first: Answer<V>)
    requires Answers(values, rules, First, first)
    ensures first == Nothing <==> forall i :: 0 <= i < |rules| ==> rules[i].Unmatched?
    ensures first == Failed <==> exists i: nat :: Decides(rules, i) && rules[i].Broken?
    ensures forall i: nat :: Decides(rules, i) && rules[i].Matched? ==> first == One(rules[i].result)
  {
    FirstHitDecides(rules);
  }

  /** The single-hit policies beside RULE ORDER, on one list of rules. RULE ORDER fails exactly on a
      broken rule; UNIQUE and ANY then fail too, while FIRST may still answer. */
  lemma SingleHitPoliciesAgree<V>(values: Values<V>, rules: seq<Rule<V>>, first: Answer<V>, other: Answer<V>, inOrder: Answer<V>, policy: Policy)
    requires Answers(values, rules, First, first) && Answers(values, rules, RuleOrder, inOrder)
    requires (policy.Unique? || policy.Any?) && Answers(values, rules, policy, other)
    ensures inOrder == Failed <==> exists i :: 0 <= i < |rules| && rules[i].Broken?
    ensures inOrder == Failed ==> other == Failed
    ensures inOrder != Failed ==> inOrder.Many? && first == Head(inOrder.results)
    ensures other != Failed ==> other == first
    ensures inOrder.Many? && policy.Unique? ==> (other == Failed <==> |inOrder.results| > 1)
    ensures inOrder.Many? && policy.Any? ==> (other == Failed <==> exists i :: 0 < i < |inOrder.results| && inOrder.results[i] != inOrder.results[0])
  {
    if Sane(rules) {
      FirstHitOfSane(rules);
    }
  }

  /** OUTPUT ORDER is the one stable sort of RULE ORDER by rank, whoever computes it, and PRIORITY its
      head. */
  lemma OutputOrderIsTheStableSort<V>(values: Values<V>, rules: seq<Rule<V>>, inOrder: Answer<V>, sorted: Answer<V>, top: Answer<V>, order: seq<nat>)
    requires values.listed.Some? && Sane(rules) && Answers(values, rules, RuleOrder, inOrder)
    requires Answers(values, rules, OutputOrder, sorted) && Answers(values, rules, Priority, top)
    requires StablySorted(Ranks(values, Hits(rules)), |Hits(rules)|, order)
    ensures inOrder.Many? && |inOrder.results| == |order| && sorted == Many(Reordered(inOrder.results, order))
    ensures multiset(sorted.results) == multiset(inOrder.results)
    ensures top == Head(sorted.results)
  {
    var hits := Hits(rules);
    var ranks := Ranks(values, hits);
    StableSortIsUnique(ranks, |hits|, StableOrder(ranks, |hits|), order, 0);
    PermutesResults(Results(hits), order, ranks);
  }

  lemma PermutesResults<V>(results: seq<V>, order: seq<nat>, ranks: seq<nat>)
    requires |ranks| == |results| && StablySorted(ranks, |results|, order)
    ensures multiset(Reordered(results, order)) == multiset(results)
  {
    forall a, b | 0 <= a < b < |order| ensures order[a] != order[b] {
      assert Earlier(ranks, order[a], order[b]);
    }
    ReorderKeeps(results, order);
  }

  /** Taking every position once keeps the multiset. */
  lemma {:induction false} ReorderKeeps<V>(results: seq<V>, order: seq<nat>)
    requires |order| == |results| && (forall i :: 0 <= i < |results| ==> i in order) && forall k :: 0 <= k < |order| ==> order[k] < |results|
    requires forall a, b :: 0 <= a < b < |order| ==> order[a] != order[b]
    ensures multiset(Reordered(results, order)) == multiset(results)
    decreases |results|
  {
    hide Reordered;
    if results != [] {
      var last := |results| - 1;
      assert last in order;
      var k :| 0 <= k < |order| && order[k] == last;
      WithoutLast(order, k);
      var fewer, less := results[..last], order[..k] + order[k + 1..];
      ReorderKeeps(fewer, less);
      ReorderOneMore(results, order, k);
      LastApart(results);
    }
  }

  lemma ReorderOneMore<V>(results: seq<V>, order: seq<nat>, k: nat)
    requires k < |order| == |results| && order[k] == |results| - 1 && forall j :: 0 <= j < |order| ==> order[j] < |results|
    requires var less := order[..k] + order[k + 1..]; forall j :: 0 <= j < |less| ==> less[j] < |results| - 1
    ensures var some := Reordered(results[..|results| - 1], order[..k] + order[k + 1..]);
            multiset(Reordered(results, order)) == multiset(some) + multiset{results[|results| - 1]}
  {
    hide Reordered;
    var some := Reordered(results[..|results| - 1], order[..k] + order[k + 1..]);
    ReorderAround(results, order, k);
    PutIn(some, k, results[|results| - 1]);
  }

  lemma LastApart<V>(s: seq<V>)
    requires s != []
    ensures multiset(s) == multiset(s[..|s| - 1]) + multiset{s[|s| - 1]}
  {
    assert s == s[..|s| - 1] + [s[|s| - 1]];
  }

  lemma ReorderAround<V>(results: seq<V>, order: seq<nat>, k: nat)
    requires k < |order| == |results| && order[k] == |results| - 1 && forall j :: 0 <= j < |order| ==> order[j] < |results|
    requires var less := order[..k] + order[k + 1..]; forall j :: 0 <= j < |less| ==> less[j] < |results| - 1
    ensures var some := Reordered(results[..|results| - 1], order[..k] + order[k + 1..]);
            Reordered(results, order) == some[..k] + [results[|results| - 1]] + some[k..]
  {
  }

  /** Positions without the last one are the positions of a shorter list. */
  lemma WithoutLast(order: seq<nat>, k: nat)
    requires k < |order| && order[k] == |order| - 1 && forall i :: 0 <= i < |order| ==> i in order
    requires forall a, b :: 0 <= a < b < |order| ==> order[a] != order[b]
    requires forall j :: 0 <= j < |order| ==> order[j] < |order|
    ensures var less := order[..k] + order[k + 1..];
            && (forall i :: 0 <= i < |order| - 1 ==> i in less) && (forall j :: 0 <= j < |less| ==> less[j] < |order| - 1)
            && forall a, b :: 0 <= a < b < |less| ==> less[a] != less[b]
  {
    var less := order[..k] + order[k + 1..];
    forall i | 0 <= i < |order| - 1 ensures i in less {
      assert i in order;
      var j :| 0 <= j < |order| && order[j] == i;
      assert if j < k then less[j] == i else less[j - 1] == i;
    }
  }

  lemma PutIn<V>(s: seq<V>, k: nat, x: V)
    requires k <= |s|
    ensures multiset(s[..k] + [x] + s[k..]) == multiset(s) + multiset{x}
  {
    assert s == s[..k] + s[k..];
  }

  /** COLLECT without aggregation is RULE ORDER, failures included; its aggregations are of the list
      RULE ORDER returns, and fail where there is none. */
  lemma CollectFoldsRuleOrder<V>(values: Values<V>, rules: seq<Rule<V>>, inOrder: Answer<V>, aggregation: Aggregation, answer: Answer<V>)
    requires Answers(values, rules, RuleOrder, inOrder) && Answers(values, rules, Collect(aggregation), answer)
    ensures inOrder == Failed ==> answer == Failed
    ensures inOrder != Failed ==> inOrder.Many? && Collected(values, aggregation, inOrder.results, answer)
    ensures aggregation.List? ==> answer == inOrder
    ensures aggregation.Sum? && answer.Number? ==> exists ns :: Numbers(values, inOrder.results) == Some(ns) && answer.number == Total(ns)
  {
  }
}
