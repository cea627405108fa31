/** The scope recorded for an element is the sub-process immediately around it, and going outward from
    scope to scope comes to an end. */
module ScopeChain {

  import opened Wrappers
  import opened ProcessScopes

  /** The ids of all sub-processes and of the elements in them, each sub-process before its contents. */
  function TreeIds(subs: seq<Process>): seq<string>
    decreases subs
  {
    if subs == [] then []
    else [subs[0].id] + OwnIds(subs[0].lists, Marked()) + TreeIds(subs[0].subs) + TreeIds(subs[1..])
  }

  ghost predicate Distinct(ids: seq<string>) {
    forall i, j :: 0 <= i < j < |ids| ==> ids[i] != ids[j]
  }

  /** Ids are unique, and no sub-process has an empty one. */
  ghost predicate UniqueIds(p: Process) {
    Distinct(TreeIds(p.subs)) && Named(p.subs)
  }

  ghost predicate Named(subs: seq<Process>)
    decreases subs
  {
    subs != [] ==> subs[0].id != "" && Named(subs[0].subs) && Named(subs[1..])
  }

  lemma DistinctParts(a: seq<string>, b: seq<string>)
    requires Distinct(a + b)
    ensures Distinct(a) && Distinct(b) && forall x :: x in a ==> x !in b
  {
    var ab := a + b;
    forall i, j | 0 <= i < j < |a| ensures a[i] != a[j] {
      assert ab[i] == a[i] && ab[j] == a[j];
    }
    forall i, j | 0 <= i < j < |b| ensures b[i] != b[j] {
      assert ab[|a| + i] == b[i] && ab[|a| + j] == b[j];
    }
    forall x | x in a ensures x !in b {
      var i :| 0 <= i < |a| && a[i] == x;
      forall j | 0 <= j < |b| ensures b[j] != x {
        assert ab[i] == x && ab[|a| + j] == b[j];
      }
    }
  }

  lemma DistinctJoin(a: seq<string>, b: seq<string>)
    requires Distinct(a) && Distinct(b) && forall x :: x in a ==> x !in b
    ensures Distinct(a + b)
  {
    var ab := a + b;
    forall i, j | 0 <= i < j < |ab| ensures ab[i] != ab[j] {
      if i < |a| <= j {
        assert ab[i] in a && ab[j] == b[j - |a|];
      }
    }
  }

  // ----- from marks to the map -----

  function MarkedIds(marks: seq<Mark>): (ids: seq<string>)
    ensures |ids| == |marks| && forall i :: 0 <= i < |marks| ==> ids[i] == marks[i].id
  {
    seq(|marks|, i requires 0 <= i < |marks| => marks[i].id)
  }

  lemma {:induction false} ApplyKeeps(m: map<string, string>, marks: seq<Mark>, id: string)
    requires forall i :: 0 <= i < |marks| ==> marks[i].id != id
    ensures var r := Apply(m, marks); (id in r <==> id in m) && (id in m ==> r[id] == m[id])
    decreases |marks|
  {
    if marks != [] {
      ApplyKeeps(m[marks[0].id := marks[0].scope], marks[1..], id);
    }
  }

  lemma {:induction false} ApplyTakes(m: map<string, string>, marks: seq<Mark>, k: nat)
    requires k < |marks| && forall i :: k < i < |marks| ==> marks[i].id != marks[k].id
    ensures var r := Apply(m, marks); marks[k].id in r && r[marks[k].id] == marks[k].scope
    decreases |marks|
  {
    var next := m[marks[0].id := marks[0].scope];
    if k == 0 {
      ApplyKeeps(next, marks[1..], marks[0].id);
    } else {
      ApplyTakes(next, marks[1..], k - 1);
    }
  }

  /** With distinct ids, the map holds exactly the marks. */
  lemma ApplyDistinct(marks: seq<Mark>, id: string, scope: string)
    requires Distinct(MarkedIds(marks))
    ensures var r := Apply(map[], marks); id in r && r[id] == scope <==> Mark(id, scope) in marks
  {
    if k :| 0 <= k < |marks| && marks[k].id == id {
      forall i | k < i < |marks| ensures marks[i].id != marks[k].id {
        assert MarkedIds(marks)[k] != MarkedIds(marks)[i];
      }
      ApplyTakes(map[], marks, k);
      if Mark(id, scope) in marks {
        var i :| 0 <= i < |marks| && marks[i] == Mark(id, scope);
        assert MarkedIds(marks)[i] == MarkedIds(marks)[k];
      }
    } else {
      ApplyKeeps(map[], marks, id);
    }
  }

  lemma {:induction false} MarksAreDistinct(subs: seq<Process>, parent: string)
    requires Distinct(TreeIds(subs))
    ensures Distinct(MarkedIds(AllMarks(subs, parent)))
    ensures forall x :: x in MarkedIds(AllMarks(subs, parent)) ==> x in TreeIds(subs)
    decreases subs
  {
    hide Marked, OwnIds;
    if subs != [] {
      var body := subs[0];
      var own := OwnIds(body.lists, Marked());
      DistinctParts([body.id] + own + TreeIds(body.subs), TreeIds(subs[1..]));
      DistinctParts([body.id] + own, TreeIds(body.subs));
      MarksAreDistinct(body.subs, body.id);
      MarksAreDistinct(subs[1..], parent);
      var head := if parent == "" then [] else [Mark(body.id, parent)];
      var inside, after := AllMarks(body.subs, body.id), AllMarks(subs[1..], parent);
      MarksJoin(head, own, body.id, inside, after);
      DistinctParts([body.id], own);
      DistinctJoin(MarkedIds(head), own);
      DistinctJoin(MarkedIds(head) + own, MarkedIds(inside));
      DistinctJoin(MarkedIds(head) + own + MarkedIds(inside), MarkedIds(after));
    }
  }

  lemma MarksJoin(head: seq<Mark>, own: seq<string>, scope: string, inside: seq<Mark>, after: seq<Mark>)
    ensures MarkedIds(head + Marks(own, scope) + inside + after) == MarkedIds(head) + own + MarkedIds(inside) + MarkedIds(after)
  {
  }

  // ----- from marks to the tree -----

  /** The walk marks exactly what stands directly in each scope with that scope. */
  lemma {:induction false} MarksFollowTheTree(subs: seq<Process>, parent: string, id: string, scope: string)
    requires Named(subs)
    ensures Mark(id, scope) in AllMarks(subs, parent) <==>
              (parent != "" && scope == parent && exists i :: 0 <= i < |subs| && subs[i].id == id)
              || exists b :: b in InnerScopes(subs) && b.id == scope && Holds(b, id)
    decreases subs
  {
    hide Marked, OwnIds;
    if subs != [] {
      var body, rest := subs[0], subs[1..];
      MarksFollowTheTree(body.subs, body.id, id, scope);
      MarksFollowTheTree(rest, parent, id, scope);
      assert InnerScopes(subs) == [body] + InnerScopes(body.subs) + InnerScopes(rest);
      assert (exists i :: 0 <= i < |subs| && subs[i].id == id) <==> body.id == id || exists i :: 0 <= i < |rest| && rest[i].id == id by {
        if i :| 0 <= i < |rest| && rest[i].id == id {
          assert subs[i + 1].id == id;
        }
        if i :| 0 <= i < |subs| && subs[i].id == id {
          assert i > 0 ==> rest[i - 1].id == id;
        }
      }
      InMarks(OwnIds(body.lists, Marked()), body.id, id, scope);
    }
  }

  lemma InMarks(ids: seq<string>, owner: string, id: string, scope: string)
    ensures Mark(id, scope) in Marks(ids, owner) <==> scope == owner && id in ids
  {
    if id in ids {
      var i :| 0 <= i < |ids| && ids[i] == id;
      assert Marks(ids, owner)[i] == Mark(id, owner);
    }
  }

  /** scopeOf, as flattening computes it, names for an id the sub-process that holds it directly, and
      nothing for what the process itself holds. */
  lemma ScopeIsImmediate(p: Process, id: string, scope: string)
    requires UniqueIds(p)
    ensures var scopeOf := Apply(map[], AllMarks(p.subs, ""));
            id in scopeOf && scopeOf[id] == scope <==> exists b :: b in Scopes(p)[1..] && b.id == scope && Holds(b, id)
  {
    MarksAreDistinct(p.subs, "");
    ApplyDistinct(AllMarks(p.subs, ""), id, scope);
    MarksFollowTheTree(p.subs, "", id, scope);
    assert Scopes(p)[1..] == InnerScopes(p.subs);
  }

  // ----- going outward -----

  /** x stands before y. */
  ghost predicate Before(ids: seq<string>, x: string, y: string) {
    exists i, j :: 0 <= i < j < |ids| && ids[i] == x && ids[j] == y
  }

  lemma BeforeIn(a: seq<string>, b: seq<string>, c: seq<string>, x: string, y: string)
    requires Before(b, x, y)
    ensures Before(a + b + c, x, y)
  {
    var i, j :| 0 <= i < j < |b| && b[i] == x && b[j] == y;
    var all := a + b + c;
    assert all[|a| + i] == x && all[|a| + j] == y;
  }

  lemma HeadBefore(x: string, rest: seq<string>, y: string)
    requires y in rest
    ensures Before([x] + rest, x, y)
  {
    var j :| 0 <= j < |rest| && rest[j] == y;
    var all := [x] + rest;
    assert all[0] == x && all[j + 1] == y;
  }

  lemma {:induction false} ScopeBefore(subs: seq<Process>, parent: string, m: Mark)
    requires m in AllMarks(subs, parent)
    ensures m.id in TreeIds(subs) && (m.scope == parent || Before(TreeIds(subs), m.scope, m.id))
    decreases subs
  {
    hide Marked, OwnIds, Before, TreeIds, AllMarks;
    MarksOfFirstSub(subs, parent, m);
    var body, rest := subs[0], TreeIds(subs[1..]);
    var own, inside := OwnIds(body.lists, Marked()), TreeIds(body.subs);
    if m in AllMarks(subs[1..], parent) {
      ScopeBefore(subs[1..], parent, m);
      if m.scope != parent {
        BeforeIn([body.id] + own + inside, rest, [], m.scope, m.id);
        assert [body.id] + own + inside + rest + [] == [body.id] + own + inside + rest;
      }
    } else if m in AllMarks(body.subs, body.id) {
      ScopeBefore(body.subs, body.id, m);
      if m.scope != body.id {
        BeforeIn([body.id] + own, inside, rest, m.scope, m.id);
      } else {
        HeadBefore(body.id, own + inside + rest, m.id);
      }
    } else if m != Mark(body.id, parent) {
      InMarks(own, body.id, m.id, m.scope);
      HeadBefore(body.id, own + inside + rest, m.id);
    }
  }

  /** Where a mark comes from, and the ids it lies among. */
  lemma MarksOfFirstSub(subs: seq<Process>, parent: string, m: Mark)
    requires m in AllMarks(subs, parent)
    ensures subs != []
    ensures var body := subs[0]; var own := OwnIds(body.lists, Marked());
            && (m == Mark(body.id, parent) || m in Marks(own, body.id) || m in AllMarks(body.subs, body.id) || m in AllMarks(subs[1..], parent))
            && TreeIds(subs) == [body.id] + own + TreeIds(body.subs) + TreeIds(subs[1..])
            && TreeIds(subs) == [body.id] + (own + TreeIds(body.subs) + TreeIds(subs[1..]))
  {
    hide Marked, OwnIds, Marks;
    if subs != [] {
      var body := subs[0];
      var own := OwnIds(body.lists, Marked());
      Regroup([body.id], own, TreeIds(body.subs), TreeIds(subs[1..]));
      InFour(if parent == "" then [] else [Mark(body.id, parent)], Marks(own, body.id), AllMarks(body.subs, body.id), AllMarks(subs[1..], parent), m);
    }
  }

  lemma Regroup(a: seq<string>, b: seq<string>, c: seq<string>, d: seq<string>)
    ensures a + b + c + d == a + (b + c + d)
  {
  }

  lemma InFour(a: seq<Mark>, b: seq<Mark>, c: seq<Mark>, d: seq<Mark>, m: Mark)
    ensures m in a + b + c + d <==> m in a || m in b || m in c || m in d
  {
  }

  /** A depth that falls from an element to the scope around it. */
  ghost predicate Ranked(scopeOf: map<string, string>, rank: map<string, nat>) {
    forall id :: id in scopeOf ==> scopeOf[id] in rank && id in rank && rank[scopeOf[id]] < rank[id]
  }

  /** The place of an id. */
  function Index(ids: seq<string>, id: string): (i: nat)
    requires id in ids
    ensures i < |ids| && ids[i] == id
  {
    if ids[0] == id then 0 else 1 + Index(ids[1..], id)
  }

  /** Every process whose ids are unique has one: the order of the walk. */
  lemma ScopesAreRanked(p: Process) returns (rank: map<string, nat>)
    requires UniqueIds(p)
    ensures Ranked(Apply(map[], AllMarks(p.subs, "")), rank)
  {
    var scopeOf, ids := Apply(map[], AllMarks(p.subs, "")), TreeIds(p.subs);
    rank := map id | id in ids :: Index(ids, id);
    MarksAreDistinct(p.subs, "");
    forall id | id in scopeOf ensures scopeOf[id] in rank && id in rank && rank[scopeOf[id]] < rank[id] {
      var scope := scopeOf[id];
      ApplyDistinct(AllMarks(p.subs, ""), id, scope);
      ScopeBefore(p.subs, "", Mark(id, scope));
      NamedScopes(p.subs, "", Mark(id, scope));
      var i, j :| 0 <= i < j < |ids| && ids[i] == scope && ids[j] == id;
      assert i == Index(ids, scope) && j == Index(ids, id);
    }
  }

  lemma {:induction false} NamedScopes(subs: seq<Process>, parent: string, m: Mark)
    requires Named(subs) && m in AllMarks(subs, parent)
    ensures m.scope != ""
    decreases subs
  {
    hide Marked, OwnIds;
    if subs != [] {
      var body := subs[0];
      if m in AllMarks(subs[1..], parent) {
        NamedScopes(subs[1..], parent, m);
      } else if m in AllMarks(body.subs, body.id) {
        NamedScopes(body.subs, body.id, m);
      } else if m in Marks(OwnIds(body.lists, Marked()), body.id) {
        InMarks(OwnIds(body.lists, Marked()), body.id, m.id, m.scope);
      }
    }
  }
}
