/** Who catches an error or an escalation: the search outward from the element that throws it. */
module Catchers {

  import opened Wrappers
  import opened ProcessScopes
  import opened ScopeChain

  datatype Kind = ErrorKind | EscalationKind

  /** What a node can catch: a boundary event on an element, or an event sub-process with such a
      trigger; with an empty code it catches every code. */
  datatype Role = Boundary(kind: Kind, attachedTo: string, code: string) | EventSub(kind: Kind, code: string) | Other

  datatype Node = Node(id: string, role: Role, parent: string)

  /** The process graph: nodes by id. */
  type Graph = map<string, Node>

  // ----- one place -----

  datatype Place = OnBoundary(element: string) | InScope(scope: string, except: string)

  predicate Stands(n: Node, kind: Kind, place: Place) {
    match place
    case OnBoundary(element) => n.role.Boundary? && n.role.kind == kind && n.role.attachedTo == element
    case InScope(scope, except) => n.role.EventSub? && n.role.kind == kind && n.parent == scope && n.id != except
  }

  predicate Exact(n: Node, kind: Kind, place: Place, code: string) {
    Stands(n, kind, place) && n.role.code == code
  }

  predicate CatchAll(n: Node, kind: Kind, place: Place) {
    Stands(n, kind, place) && n.role.code == ""
  }

  ghost predicate Nobody(g: Graph, kind: Kind, place: Place, code: string) {
    forall id :: id in g ==> !Exact(g[id], kind, place, code) && !CatchAll(g[id], kind, place)
  }

  /** The node catches the code at the place: with that code, or with none if nobody there has it. */
  ghost predicate Best(g: Graph, kind: Kind, place: Place, code: string, n: Node) {
    && n in g.Values
    && (Exact(n, kind, place, code) || (CatchAll(n, kind, place) && forall id :: id in g ==> !Exact(g[id], kind, place, code)))
  }

  /** The search of one place, over the nodes in any order. */
  method FindAt(g: Graph, kind: Kind, place: Place, code: string) returns (found: Option<Node>)
    ensures found.Some? ==> Best(g, kind, place, code, found.value)
    ensures found.None? <==> Nobody(g, kind, place, code)
  {
    found := None;
    var rest := g.Keys;
    while rest != {}
      invariant rest <= g.Keys
      invariant forall id :: id in g && id !in rest ==> !Exact(g[id], kind, place, code)
      invariant found.None? ==> forall id :: id in g && id !in rest ==> !CatchAll(g[id], kind, place)
      invariant found.Some? ==> found.value in g.Values && CatchAll(found.value, kind, place)
      decreases |rest|
    {
      var id :| id in rest;
      rest := rest - {id};
      var n := g[id];
      if Stands(n, kind, place) {
        if n.role.code == code {
          return Some(n);
        }
        if n.role.code == "" {
          found := Some(n);
        }
      }
    }
  }

  // ----- the search -----

  /** Parents lie outward: their rank is lower. */
  ghost predicate Outward(g: Graph, rank: map<string, nat>) {
    forall id :: id in g && g[id].parent != "" ==> id in rank && g[id].parent in rank && rank[g[id].parent] < rank[id]
  }

  ghost function Depth(rank: map<string, nat>, scope: string): nat {
    if scope == "" then 0 else if scope in rank then rank[scope] + 2 else 1
  }

  /** The places searched from a scope on, with the scope reported for each: in the scope, except for
      where the search comes from; on the scope's own boundary; and so on in the scope around it. */
  ghost function PlacesFrom(g: Graph, rank: map<string, nat>, from: string, scope: string): seq<(Place, string)>
    requires Outward(g, rank)
    decreases Depth(rank, scope)
  {
    [(InScope(scope, from), scope)] +
    if scope == "" then []
    else [(OnBoundary(scope), scope)] + if scope in g then PlacesFrom(g, rank, scope, g[scope].parent) else []
  }

  function ScopeAround(g: Graph, element: string): string {
    if element in g then g[element].parent else ""
  }

  /** All places, innermost first; a boundary event on the element itself is reported with no scope. */
  ghost function Places(g: Graph, rank: map<string, nat>, element: string): seq<(Place, string)>
    requires Outward(g, rank)
  {
    [(OnBoundary(element), "")] + PlacesFrom(g, rank, element, ScopeAround(g, element))
  }

  /** What is found is the best of the first place that has anybody; nothing is found exactly when no
      place does. */
  ghost predicate Found(g: Graph, kind: Kind, places: seq<(Place, string)>, code: string, catcher: Option<Node>, scope: string) {
    if places == [] then catcher == None
    else if Nobody(g, kind, places[0].0, code) then Found(g, kind, places[1..], code, catcher, scope)
    else catcher.Some? && Best(g, kind, places[0].0, code, catcher.value) && scope == places[0].1
  }

  /** The node is the best at the k-th place, and nobody stands at an earlier one. */
  ghost predicate FirstAt(g: Graph, kind: Kind, places: seq<(Place, string)>, k: nat, code: string, n: Node, scope: string)
    requires k < |places|
  {
    && Best(g, kind, places[k].0, code, n) && scope == places[k].1
    && forall j :: 0 <= j < k ==> Nobody(g, kind, places[j].0, code)
  }

  lemma {:induction false} FoundMeans(g: Graph, kind: Kind, places: seq<(Place, string)>, code: string, catcher: Option<Node>, scope: string)
    requires Found(g, kind, places, code, catcher, scope)
    ensures catcher.None? <==> forall k :: 0 <= k < |places| ==> Nobody(g, kind, places[k].0, code)
    ensures catcher.Some? ==> exists k :: 0 <= k < |places| && FirstAt(g, kind, places, k, code, catcher.value, scope)
    decreases |places|
  {
    if places != [] {
      if Nobody(g, kind, places[0].0, code) {
        FoundMeans(g, kind, places[1..], code, catcher, scope);
        if catcher.Some? {
          var k :| 0 <= k < |places[1..]| && FirstAt(g, kind, places[1..], k, code, catcher.value, scope);
          forall j | 0 <= j < k + 1 ensures Nobody(g, kind, places[j].0, code) {
            assert j > 0 ==> places[j] == places[1..][j - 1];
          }
          assert FirstAt(g, kind, places, k + 1, code, catcher.value, scope);
        } else {
          forall k | 0 <= k < |places| ensures Nobody(g, kind, places[k].0, code) {
            assert k > 0 ==> places[k] == places[1..][k - 1];
          }
        }
      } else {
        assert FirstAt(g, kind, places, 0, code, catcher.value, scope);
      }
    }
  }

  lemma FoundNext(g: Graph, kind: Kind, place: Place, at: string, rest: seq<(Place, string)>, code: string, catcher: Option<Node>, scope: string)
    ensures Found(g, kind, [(place, at)] + rest, code, catcher, scope) <==>
              if Nobody(g, kind, place, code) then Found(g, kind, rest, code, catcher, scope)
              else catcher.Some? && Best(g, kind, place, code, catcher.value) && scope == at
  {
    assert ([(place, at)] + rest)[1..] == rest;
  }

  /** The search of a scope, of its boundary and of what lies beyond, one after the other. */
  lemma FoundFrom(g: Graph, kind: Kind, rank: map<string, nat>, from: string, scope: string, code: string, catcher: Option<Node>, at: string)
    requires Outward(g, rank)
    ensures Found(g, kind, PlacesFrom(g, rank, from, scope), code, catcher, at) <==>
              if !Nobody(g, kind, InScope(scope, from), code) then catcher.Some? && Best(g, kind, InScope(scope, from), code, catcher.value) && at == scope
              else if scope == "" then catcher == None
              else if !Nobody(g, kind, OnBoundary(scope), code) then catcher.Some? && Best(g, kind, OnBoundary(scope), code, catcher.value) && at == scope
              else if scope !in g then catcher == None
              else Found(g, kind, PlacesFrom(g, rank, scope, g[scope].parent), code, catcher, at)
  {
    hide Nobody, Best;
    var beyond := if scope in g then PlacesFrom(g, rank, scope, g[scope].parent) else [];
    var onward := if scope == "" then [] else [(OnBoundary(scope), scope)] + beyond;
    FoundNext(g, kind, InScope(scope, from), scope, onward, code, catcher, at);
    FoundNext(g, kind, OnBoundary(scope), scope, beyond, code, catcher, at);
  }

  /** The walk outward. The rank is only there to show that it ends. */
  method FindCatcher(g: Graph, kind: Kind, element: string, code: string, ghost rank: map<string, nat>)
    returns (catcher: Option<Node>, scope: string)
    requires Outward(g, rank)
    ensures Found(g, kind, Places(g, rank, element), code, catcher, scope)
  {
    hide Nobody, Best, Found, PlacesFrom;
    ghost var places := Places(g, rank, element);
    ghost var beyond := PlacesFrom(g, rank, element, ScopeAround(g, element));
    catcher := FindAt(g, kind, OnBoundary(element), code);
    if catcher.Some? {
      FoundNext(g, kind, OnBoundary(element), "", beyond, code, catcher, "");
      return catcher, "";
    }
    var from := element;
    scope := ScopeAround(g, element);
    forall c, at ensures Found(g, kind, beyond, code, c, at) ==> Found(g, kind, places, code, c, at) {
      FoundNext(g, kind, OnBoundary(element), "", beyond, code, c, at);
    }
    while true
      invariant forall c, at :: Found(g, kind, PlacesFrom(g, rank, from, scope), code, c, at) ==> Found(g, kind, places, code, c, at)
      decreases Depth(rank, scope)
    {
      catcher := FindAt(g, kind, InScope(scope, from), code);
      if catcher.Some? {
        FoundFrom(g, kind, rank, from, scope, code, catcher, scope);
        return catcher, scope;
      }
      if scope == "" {
        FoundFrom(g, kind, rank, from, scope, code, None, "");
        return None, "";
      }
      catcher := FindAt(g, kind, OnBoundary(scope), code);
      if catcher.Some? {
        FoundFrom(g, kind, rank, from, scope, code, catcher, scope);
        return catcher, scope;
      }
      if scope !in g {
        FoundFrom(g, kind, rank, from, scope, code, None, "");
        return None, "";
      }
      forall c, at ensures Found(g, kind, PlacesFrom(g, rank, scope, g[scope].parent), code, c, at) ==> Found(g, kind, places, code, c, at) {
        FoundFrom(g, kind, rank, from, scope, code, c, at);
      }
      from, scope := scope, g[scope].parent;
    }
  }

  // ----- on flattened processes -----

  /** Every node carries the scope recorded for it; the process's own nodes carry none. */
  ghost predicate Stamped(g: Graph, scopeOf: map<string, string>) {
    forall id :: id in g ==> g[id].parent == if id in scopeOf then scopeOf[id] else ""
  }

  /** Stamping: every recorded scope goes onto its node, in any order; other nodes stay as they are. */
  method Stamp(g: Graph, scopeOf: map<string, string>) returns (stamped: Graph)
    ensures stamped.Keys == g.Keys
    ensures forall id :: id in g ==> stamped[id] == if id in scopeOf then g[id].(parent := scopeOf[id]) else g[id]
  {
    stamped := g;
    var rest := scopeOf.Keys;
    while rest != {}
      invariant rest <= scopeOf.Keys && stamped.Keys == g.Keys
      invariant forall id :: id in g ==> stamped[id] == if id in scopeOf && id !in rest then g[id].(parent := scopeOf[id]) else g[id]
      decreases |rest|
    {
      var id :| id in rest;
      rest := rest - {id};
      if id in stamped {
        stamped := stamped[id := stamped[id].(parent := scopeOf[id])];
      }
    }
  }

  /** A sub-process of that id holds the element directly. */
  ghost predicate HeldBy(p: Process, id: string, scope: string) {
    exists b :: b in Scopes(p)[1..] && b.id == scope && ProcessScopes.Holds(b, id)
  }

  /** The graph of a process with unique ids has a rank, so that the search always ends; and each scope
      it moves to is the sub-process holding the last one directly, until there is none. */
  lemma SearchGoesOutward(p: Process, g: Graph) returns (rank: map<string, nat>)
    requires UniqueIds(p) && Stamped(g, Apply(map[], AllMarks(p.subs, "")))
    ensures Outward(g, rank)
    ensures forall id, scope :: id in g ==> (HeldBy(p, id, scope) <==> scope != "" && g[id].parent == scope)
  {
    hide Apply, AllMarks, Scopes;
    var scopeOf := Apply(map[], AllMarks(p.subs, ""));
    rank := ScopesAreRanked(p);
    forall id | id in g && g[id].parent != "" ensures id in scopeOf && g[id].parent == scopeOf[id] {}
    forall id, scope | id in g ensures HeldBy(p, id, scope) <==> scope != "" && g[id].parent == scope {
      ScopeIsImmediate(p, id, scope);
      if id in scopeOf && scopeOf[id] == scope {
        MarksAreDistinct(p.subs, "");
        ApplyDistinct(AllMarks(p.subs, ""), id, scope);
        NamedScopes(p.subs, "", Mark(id, scope));
      }
    }
  }
}
