/** Nested sub-processes laid flat: the element lists of every scope put together, and a record of the
    scope each element came from. */
module ProcessScopes {

  import opened Wrappers

  datatype ListKind =
    | StartEvents | UserTasks | Tasks | ServiceTasks | EndEvents | ExclusiveGateways | ParallelGateways
    | InclusiveGateways | IntermediateCatchEvents | SequenceFlows | ScriptTasks | BusinessRuleTasks
    | CallActivities | EventBasedGateways | IntermediateTimerEvents | BoundaryTimerEvents
    | BoundaryErrorEvents | BoundaryMessageEvents | BoundarySignalEvents | BoundaryEvents | ManualTasks
    | SendTasks | ReceiveTasks | IntermediateThrowEvents | Associations

  /** The kinds whose elements are given a scope. Flows and associations have none; the timer, error,
      message and signal lists repeat catch and boundary events that have one already. */
  function Marked(): seq<ListKind> {
    [StartEvents, UserTasks, Tasks, ServiceTasks, EndEvents, ExclusiveGateways, ParallelGateways,
     InclusiveGateways, IntermediateCatchEvents, ScriptTasks, BusinessRuleTasks, CallActivities,
     EventBasedGateways, ManualTasks, SendTasks, ReceiveTasks, IntermediateThrowEvents, BoundaryEvents]
  }

  /** An element: its id and whatever else it carries. */
  datatype Element = Element(id: string, content: string)

  /** The element lists of one scope; a kind without elements may be missing. */
  type Lists = map<ListKind, seq<Element>>

  /** A process, or a sub-process, which is one with a mark for being triggered by an event. */
  datatype Process = Process(id: string, lists: Lists, triggeredByEvent: bool, subs: seq<Process>)

  function Of(lists: Lists, kind: ListKind): seq<Element> {
    if kind in lists then lists[kind] else []
  }

  /** Every list of one scope followed by the other's. */
  function Plus(a: Lists, b: Lists): (r: Lists)
    ensures forall k :: Of(r, k) == Of(a, k) + Of(b, k)
  {
    map k | k in a.Keys + b.Keys :: Of(a, k) + Of(b, k)
  }

  // ----- the reference traversal -----

  /** p and the body of every sub-process in it, depth first. */
  function Scopes(p: Process): (scopes: seq<Process>)
    ensures scopes != [] && scopes[0] == p
    decreases p, 0
  {
    [p] + InnerScopes(p.subs)
  }

  function InnerScopes(subs: seq<Process>): seq<Process>
    decreases subs, 1
  {
    if subs == [] then [] else Scopes(subs[0]) + InnerScopes(subs[1..])
  }

  /** One list over several scopes, in order. */
  function Gathered(scopes: seq<Process>, kind: ListKind): seq<Element> {
    if scopes == [] then [] else Of(scopes[0].lists, kind) + Gathered(scopes[1..], kind)
  }

  lemma {:induction false} GatheredAppend(a: seq<Process>, b: seq<Process>, kind: ListKind)
    ensures Gathered(a + b, kind) == Gathered(a, kind) + Gathered(b, kind)
    decreases |a|
  {
    if a == [] {
      assert a + b == b;
    } else {
      assert (a + b)[1..] == a[1..] + b;
      GatheredAppend(a[1..], b, kind);
    }
  }

  // ----- what belongs where -----

  function Ids(elements: seq<Element>): seq<string> {
    seq(|elements|, i requires 0 <= i < |elements| => elements[i].id)
  }

  /** The ids of the elements directly in a scope that are given one, list by list. */
  function OwnIds(lists: Lists, kinds: seq<ListKind>): seq<string> {
    if kinds == [] then [] else Ids(Of(lists, kinds[0])) + OwnIds(lists, kinds[1..])
  }

  /** A scope holds an id directly: one of its elements' or of its sub-processes'. */
  predicate Holds(scope: Process, id: string) {
    id in OwnIds(scope.lists, Marked()) || exists i :: 0 <= i < |scope.subs| && scope.subs[i].id == id
  }

  /** An id with the scope it belongs to. */
  datatype Mark = Mark(id: string, scope: string)

  function Marks(ids: seq<string>, scope: string): (ms: seq<Mark>)
    ensures |ms| == |ids| && forall i :: 0 <= i < |ids| ==> ms[i] == Mark(ids[i], scope)
  {
    seq(|ids|, i requires 0 <= i < |ids| => Mark(ids[i], scope))
  }

  /** All that the sub-processes of a scope and those in them are marked with, in the order of the
      walk; sub-processes of the process itself (parent "") are not. */
  function AllMarks(subs: seq<Process>, parent: string): seq<Mark>
    decreases subs
  {
    if subs == [] then [] else
    var body := subs[0];
    (if parent == "" then [] else [Mark(body.id, parent)]) + Marks(OwnIds(body.lists, Marked()), body.id)
      + AllMarks(body.subs, body.id) + AllMarks(subs[1..], parent)
  }

  function Apply(m: map<string, string>, marks: seq<Mark>): map<string, string>
    decreases |marks|
  {
    if marks == [] then m else Apply(m[marks[0].id := marks[0].scope], marks[1..])
  }

  lemma {:induction false} ApplyAppend(m: map<string, string>, a: seq<Mark>, b: seq<Mark>)
    ensures Apply(m, a + b) == Apply(Apply(m, a), b)
    decreases |a|
  {
    if a == [] {
      assert a + b == b;
    } else {
      assert (a + b)[1..] == a[1..] + b;
      ApplyAppend(m[a[0].id := a[0].scope], a[1..], b);
    }
  }

  // ----- the walk -----

  /** One sub-process as the walk records it. */
  datatype Info = Info(id: string, parent: string, event: bool)

  function Infos(subs: seq<Process>, parent: string): seq<Info>
    decreases subs
  {
    if subs == [] then [] else
    [Info(subs[0].id, parent, subs[0].triggeredByEvent)] + Infos(subs[0].subs, subs[0].id) + Infos(subs[1..], parent)
  }

  class Flattening {
    var lists: Lists
    var scopeOf: map<string, string>
    var infos: seq<Info>

    /** Starts from the process's own lists. */
    constructor (p: Process)
      ensures lists == p.lists && scopeOf == map[] && infos == []
    {
      lists, scopeOf, infos := p.lists, map[], [];
    }

    /** Appends every list of a scope, and marks its elements as belonging to it. */
    method AppendScope(body: Process)
      modifies this
      ensures lists == Plus(old(lists), body.lists)
      ensures scopeOf == Apply(old(scopeOf), Marks(OwnIds(body.lists, Marked()), body.id))
      ensures infos == old(infos)
    {
      hide Marked;
      var kinds := Marked();
      for i := 0 to |kinds|
        invariant scopeOf == Apply(old(scopeOf), Marks(OwnIds(body.lists, kinds[..i]), body.id))
        invariant lists == old(lists) && infos == old(infos)
      {
        MarkAll(Of(body.lists, kinds[i]), body.id);
        MarksOfNext(old(scopeOf), body, kinds, i);
      }
      assert kinds[..|kinds|] == kinds;
      lists := Plus(lists, body.lists);
    }

    method MarkAll(elements: seq<Element>, scope: string)
      modifies this`scopeOf
      ensures scopeOf == Apply(old(scopeOf), Marks(Ids(elements), scope))
    {
      for i := 0 to |elements|
        invariant scopeOf == Apply(old(scopeOf), Marks(Ids(elements[..i]), scope))
      {
        assert Marks(Ids(elements[..i + 1]), scope) == Marks(Ids(elements[..i]), scope) + [Mark(elements[i].id, scope)];
        ApplyAppend(old(scopeOf), Marks(Ids(elements[..i]), scope), [Mark(elements[i].id, scope)]);
        assert [Mark(elements[i].id, scope)][1..] == [];
        scopeOf := scopeOf[elements[i].id := scope];
      }
      assert elements[..|elements|] == elements;
    }

    /** The sub-processes of one scope, each with all that is in it. */
    method Walk(subs: seq<Process>, parent: string)
      modifies this
      ensures forall k :: Of(lists, k) == old(Of(lists, k)) + Gathered(InnerScopes(subs), k)
      ensures scopeOf == Apply(old(scopeOf), AllMarks(subs, parent))
      ensures infos == old(infos) + Infos(subs, parent)
      decreases subs
    {
      hide Marked, Marks, OwnIds, Gathered, InnerScopes, AllMarks, Apply, Infos, Of;
      if subs == [] {
        NothingInside(old(scopeOf), parent);
        return;
      }
      var body := subs[0];
      infos := infos + [Info(body.id, parent, body.triggeredByEvent)];
      if parent != "" {
        scopeOf := scopeOf[body.id := parent];
      }
      AppendScope(body);
      ghost var appended := lists;
      Walk(body.subs, body.id);
      ghost var inside := lists;
      Walk(subs[1..], parent);
      MarksOfFirst(old(scopeOf), subs, parent);
      ListsOfFirst(old(lists), appended, inside, lists, subs);
      InfosOfFirst(old(infos), subs, parent);
    }
  }

  lemma NothingInside(m: map<string, string>, parent: string)
    ensures Apply(m, AllMarks([], parent)) == m && Infos([], parent) == [] && forall k :: Gathered(InnerScopes([]), k) == []
  {
  }

  lemma InfosOfFirst(before: seq<Info>, subs: seq<Process>, parent: string)
    requires subs != []
    ensures before + Infos(subs, parent) ==
              before + [Info(subs[0].id, parent, subs[0].triggeredByEvent)] + Infos(subs[0].subs, subs[0].id) + Infos(subs[1..], parent)
  {
  }

  lemma ListsOfFirst(before: Lists, appended: Lists, inside: Lists, after: Lists, subs: seq<Process>)
    requires subs != [] && appended == Plus(before, subs[0].lists)
    requires forall k :: Of(inside, k) == Of(appended, k) + Gathered(InnerScopes(subs[0].subs), k)
    requires forall k :: Of(after, k) == Of(inside, k) + Gathered(InnerScopes(subs[1..]), k)
    ensures forall k :: Of(after, k) == Of(before, k) + Gathered(InnerScopes(subs), k)
  {
    hide InnerScopes, Gathered, Of, Plus;
    GatheredFirst(subs);
    forall k ensures Of(after, k) == Of(before, k) + Gathered(InnerScopes(subs), k) {
      Regroup(Of(before, k), Of(subs[0].lists, k), Gathered(InnerScopes(subs[0].subs), k), Gathered(InnerScopes(subs[1..]), k));
    }
  }

  lemma Regroup(a: seq<Element>, b: seq<Element>, c: seq<Element>, d: seq<Element>)
    ensures ((a + b) + c) + d == a + ((b + c) + d)
  {
  }

  lemma MarksOfNext(m: map<string, string>, body: Process, kinds: seq<ListKind>, i: nat)
    requires i < |kinds|
    ensures Apply(Apply(m, Marks(OwnIds(body.lists, kinds[..i]), body.id)), Marks(Ids(Of(body.lists, kinds[i])), body.id))
              == Apply(m, Marks(OwnIds(body.lists, kinds[..i + 1]), body.id))
  {
    var before, next := OwnIds(body.lists, kinds[..i]), Ids(Of(body.lists, kinds[i]));
    OwnIdsLast(body.lists, kinds[..i + 1]);
    assert kinds[..i + 1][..i] == kinds[..i];
    assert Marks(before + next, body.id) == Marks(before, body.id) + Marks(next, body.id);
    ApplyAppend(m, Marks(before, body.id), Marks(next, body.id));
  }

  lemma MarksOfFirst(m: map<string, string>, subs: seq<Process>, parent: string)
    requires subs != []
    ensures var own := if parent == "" then m else m[subs[0].id := parent];
            var inside := Apply(own, Marks(OwnIds(subs[0].lists, Marked()), subs[0].id));
            Apply(m, AllMarks(subs, parent)) == Apply(Apply(inside, AllMarks(subs[0].subs, subs[0].id)), AllMarks(subs[1..], parent))
  {
    hide Marked, Marks, OwnIds;
    var body := subs[0];
    var own := if parent == "" then [] else [Mark(body.id, parent)];
    assert parent != "" ==> own[1..] == [];
    var marks := Marks(OwnIds(body.lists, Marked()), body.id);
    ApplyAppend(m, own, marks);
    ApplyAppend(m, own + marks, AllMarks(body.subs, body.id));
    ApplyAppend(m, own + marks + AllMarks(body.subs, body.id), AllMarks(subs[1..], parent));
  }

  lemma GatheredFirst(subs: seq<Process>)
    requires subs != []
    ensures forall k :: Gathered(InnerScopes(subs), k) == Of(subs[0].lists, k) + Gathered(InnerScopes(subs[0].subs), k) + Gathered(InnerScopes(subs[1..]), k)
  {
    forall k ensures Gathered(InnerScopes(subs), k) == Of(subs[0].lists, k) + Gathered(InnerScopes(subs[0].subs), k) + Gathered(InnerScopes(subs[1..]), k) {
      GatheredAppend(Scopes(subs[0]), InnerScopes(subs[1..]), k);
      assert Scopes(subs[0])[1..] == InnerScopes(subs[0].subs);
    }
  }

  lemma {:induction false} OwnIdsLast(lists: Lists, kinds: seq<ListKind>)
    requires kinds != []
    ensures OwnIds(lists, kinds) == OwnIds(lists, kinds[..|kinds| - 1]) + Ids(Of(lists, kinds[|kinds| - 1]))
  {
    if |kinds| > 1 {
      OwnIdsLast(lists, kinds[1..]);
      assert kinds[1..][..|kinds| - 2] == kinds[..|kinds| - 1][1..];
    }
  }

  /** The whole of flattening: each list is that list over all scopes in order, whatever the nesting. */
  method Flatten(p: Process) returns (lists: Lists, scopeOf: map<string, string>, infos: seq<Info>)
    ensures forall k :: Of(lists, k) == Gathered(Scopes(p), k)
    ensures scopeOf == Apply(map[], AllMarks(p.subs, ""))
    ensures infos == Infos(p.subs, "")
  {
    var f := new Flattening(p);
    f.Walk(p.subs, "");
    forall k ensures Of(f.lists, k) == Gathered(Scopes(p), k) {
      assert Scopes(p)[1..] == InnerScopes(p.subs);
    }
    return f.lists, f.scopeOf, f.infos;
  }
}
