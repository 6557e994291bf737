// The REST content manager (src/REST/HNRESTContent.cpp:620-972): a map from object IDs to objects beside an
// undirected graph whose vertices carry the same IDs and whose edges are named relationships.

module Content {
  import opened Basics
  import opened Text

  /** A vertex descriptor; the graph never hands out the same one twice. */
  type Vertex = nat

  datatype Edge = Edge(a: Vertex, b: Vertex, rel: string)

  datatype Graph = Graph(names: map<Vertex, string>, edges: seq<Edge>, nextVertex: Vertex)

  datatype Node = Node(id: string, kind: nat, vertex: Vertex)

  datatype Store = Store(objMap: map<string, Node>, graph: Graph, nextID: nat)

  const EMPTY_GRAPH := Graph(map[], [], 0)

  // ---- the graph library ----

  function AddVertex(g: Graph, id: string): (Graph, Vertex) {
    (g.(names := g.names[g.nextVertex := id], nextVertex := g.nextVertex + 1), g.nextVertex)
  }

  predicate Touches(e: Edge, v: Vertex) {
    e.a == v || e.b == v
  }

  /** The edges that do not touch v, in order. */
  function Without(edges: seq<Edge>, v: Vertex): (r: seq<Edge>)
    ensures forall e :: e in r <==> e in edges && !Touches(e, v)
  {
    if edges == [] then []
    else (if Touches(edges[0], v) then [] else [edges[0]]) + Without(edges[1..], v)
  }

  /** clear_vertex and remove_vertex. */
  function RemoveVertex(g: Graph, v: Vertex): Graph {
    g.(names := g.names - {v}, edges := Without(g.edges, v))
  }

  /** All edges and vertices go; descriptors are still not reused. */
  function ClearGraph(g: Graph): Graph {
    g.(names := map[], edges := [])
  }

  datatype OutEdge = OutEdge(target: Vertex, rel: string)

  /** An edge as v sees it; an edge from v to itself is seen twice. */
  function Seen(e: Edge, v: Vertex): seq<OutEdge> {
    (if e.a == v then [OutEdge(e.b, e.rel)] else []) + (if e.b == v then [OutEdge(e.a, e.rel)] else [])
  }

  /** The edges at v, oldest first. */
  function OutEdges(edges: seq<Edge>, v: Vertex): seq<OutEdge> {
    if edges == [] then [] else Seen(edges[0], v) + OutEdges(edges[1..], v)
  }

  predicate Joins(e: Edge, v: Vertex, o: OutEdge) {
    e.rel == o.rel && ((e.a == v && e.b == o.target) || (e.b == v && e.a == o.target))
  }

  lemma {:induction false} OutEdgesAre(edges: seq<Edge>, v: Vertex, o: OutEdge)
    ensures o in OutEdges(edges, v) <==> exists e :: e in edges && Joins(e, v, o)
  {
    if edges != [] {
      OutEdgesAre(edges[1..], v, o);
      assert o in Seen(edges[0], v) <==> Joins(edges[0], v, o);
    }
  }

  // ---- the manager ----

  /** A new vertex, and a map entry unless the ID already has one. */
  function InsertNode(s: Store, kind: nat, id: string): Store {
    var (g, v) := AddVertex(s.graph, id);
    s.(graph := g, objMap := if id in s.objMap then s.objMap else s.objMap[id := Node(id, kind, v)])
  }

  /** init: the root object and its vertex. */
  function Init(s: Store): Store {
    InsertNode(s, 0, "root")
  }

  function Start(): Store {
    Init(Store(map[], EMPTY_GRAPH, 0))
  }

  /** Whether newObject knows the kind is up to the application. */
  function AddObj(s: Store, kind: nat, id: string, made: bool): Store {
    if made then InsertNode(s, kind, id) else s
  }

  // ---- fresh IDs ----

  function ObjID(prefix: string, n: nat): string {
    prefix + Decimal(n)
  }

  lemma ObjIDInjective(prefix: string, m: nat, n: nat)
    requires ObjID(prefix, m) == ObjID(prefix, n)
    ensures m == n
  {
    assert ObjID(prefix, m)[|prefix|..] == Decimal(m) && ObjID(prefix, n)[|prefix|..] == Decimal(n);
    DecimalInjective(m, n);
  }

  lemma NotTheRoot(prefix: string, n: nat)
    ensures ObjID(prefix, n) != "root"
  {
    DecimalDigits(n);
    var id := ObjID(prefix, n);
    assert IsDigit(id[|id| - 1]);
  }

  /** The counter at which the search stops: every taken ID can stop it from doing so only once. */
  function FreshFrom(keys: set<string>, prefix: string, n: nat): nat
    decreases |keys|
  {
    if ObjID(prefix, n + 1) in keys then FreshFrom(keys - {ObjID(prefix, n + 1)}, prefix, n + 1) else n + 1
  }

  lemma ObjIDApart(prefix: string, m: nat, n: nat)
    ensures ObjID(prefix, m) == ObjID(prefix, n) ==> m == n
  {
    if ObjID(prefix, m) == ObjID(prefix, n) { ObjIDInjective(prefix, m, n); }
  }

  /** m is where the search from n stops. */
  ghost predicate StopsAt(keys: set<string>, prefix: string, n: nat, m: nat) {
    && n < m <= n + |keys| + 1 && ObjID(prefix, m) !in keys
    && forall i :: n < i < m ==> ObjID(prefix, i) in keys
  }

  lemma StopsLater(keys: set<string>, prefix: string, n: nat, m: nat)
    requires ObjID(prefix, n + 1) in keys && StopsAt(keys - {ObjID(prefix, n + 1)}, prefix, n + 1, m)
    ensures StopsAt(keys, prefix, n, m)
  {
    ObjIDApart(prefix, m, n + 1);
  }

  /** The search ends, within one more step than there are objects, at the first ID that is not taken. */
  lemma {:induction false} FreshIsFirst(keys: set<string>, prefix: string, n: nat)
    ensures StopsAt(keys, prefix, n, FreshFrom(keys, prefix, n))
    decreases |keys|
  {
    var k := ObjID(prefix, n + 1);
    if k in keys {
      FreshIsFirst(keys - {k}, prefix, n + 1);
      StopsLater(keys, prefix, n, FreshFrom(keys, prefix, n));
    }
  }

  // ---- operations ----

  function CreateObj(s: Store, kind: nat, prefix: string, made: bool): (Store, string) {
    var n := FreshFrom(s.objMap.Keys, prefix, s.nextID);
    (AddObj(s.(nextID := n), kind, ObjID(prefix, n), made), ObjID(prefix, n))
  }

  /** removeObjByID and deleteObjByID differ only in who frees the object. */
  function RemoveObj(s: Store, id: string): Store {
    if id in s.objMap then s.(graph := RemoveVertex(s.graph, s.objMap[id].vertex), objMap := s.objMap - {id}) else s
  }

  function RemoveAll(s: Store): Store {
    s.(graph := ClearGraph(s.graph), objMap := map[])
  }

  function Clear(s: Store): Store {
    Init(RemoveAll(s))
  }

  function AddRelationship(s: Store, rel: string, parent: string, child: string): Store {
    if parent in s.objMap && child in s.objMap then
      s.(graph := s.graph.(edges := s.graph.edges + [Edge(s.objMap[parent].vertex, s.objMap[child].vertex, rel)]))
    else s
  }

  predicate HasRelationship(s: Store, parent: string, child: string, rel: string) {
    && parent in s.objMap
    && exists o :: o in OutEdges(s.graph.edges, s.objMap[parent].vertex) && o.rel == rel &&
        o.target in s.graph.names && s.graph.names[o.target] == child
  }

  /** The IDs at the far ends of the edges with this name. */
  function IDsOf(names: map<Vertex, string>, out: seq<OutEdge>, rel: string): (r: seq<string>)
    requires forall o :: o in out ==> o.target in names
    ensures forall id :: id in r <==> exists o :: o in out && o.rel == rel && names[o.target] == id
  {
    if out == [] then []
    else (if out[0].rel == rel then [names[out[0].target]] else []) + IDsOf(names, out[1..], rel)
  }

  /** Every edge joins two live vertices. */
  ghost predicate EdgesOk(g: Graph) {
    forall e :: e in g.edges ==> e.a in g.names && e.b in g.names
  }

  lemma OutEdgesLive(g: Graph, v: Vertex)
    requires EdgesOk(g)
    ensures forall o :: o in OutEdges(g.edges, v) ==> o.target in g.names
  {
    forall o | o in OutEdges(g.edges, v) ensures o.target in g.names { OutEdgesAre(g.edges, v, o); }
  }

  function IDList(s: Store, parent: string, rel: string): seq<string>
    requires EdgesOk(s.graph)
  {
    OutEdgesLive(s.graph, if parent in s.objMap then s.objMap[parent].vertex else 0);
    if parent in s.objMap then IDsOf(s.graph.names, OutEdges(s.graph.edges, s.objMap[parent].vertex), rel) else []
  }

  // ---- what every operation keeps ----

  /** Object IDs and vertices are in bijection. */
  ghost predicate Matched(s: Store) {
    && (forall k :: k in s.objMap ==>
      s.objMap[k].id == k && s.objMap[k].vertex in s.graph.names && s.graph.names[s.objMap[k].vertex] == k)
    && (forall v :: v in s.graph.names ==> s.graph.names[v] in s.objMap && s.objMap[s.graph.names[v]].vertex == v)
    && (forall v :: v in s.graph.names ==> v < s.graph.nextVertex)
  }

  ghost predicate StoreOk(s: Store) {
    Matched(s) && EdgesOk(s.graph)
  }

  /** A new object keeps the store in order exactly when its ID is not taken. */
  lemma InsertKeepsIffUnused(s: Store, kind: nat, id: string)
    requires StoreOk(s)
    ensures StoreOk(InsertNode(s, kind, id)) <==> id !in s.objMap
  {
    var t := InsertNode(s, kind, id);
    if id in s.objMap {
      var v := s.graph.nextVertex;
      assert t.graph.names[v] == id && t.objMap[id].vertex != v;
    }
  }

  lemma CreateKeeps(s: Store, kind: nat, prefix: string, made: bool)
    requires StoreOk(s)
    ensures var (t, id) := CreateObj(s, kind, prefix, made);
            && StoreOk(t) && id !in s.objMap && (made <==> id in t.objMap)
  {
    FreshIsFirst(s.objMap.Keys, prefix, s.nextID);
    var n := FreshFrom(s.objMap.Keys, prefix, s.nextID);
    if made { InsertKeepsIffUnused(s.(nextID := n), kind, ObjID(prefix, n)); }
  }

  /** Removing an object takes exactly its own edges with it. */
  lemma RemoveKeeps(s: Store, id: string)
    requires StoreOk(s)
    ensures var t := RemoveObj(s, id);
            && StoreOk(t) && id !in t.objMap && t.objMap == s.objMap - {id}
            && t.graph.edges == if id in s.objMap then Without(s.graph.edges, s.objMap[id].vertex) else s.graph.edges
  {
    var t := RemoveObj(s, id);
    if id in s.objMap {
      forall v | v in t.graph.names ensures t.graph.names[v] in t.objMap && t.objMap[t.graph.names[v]].vertex == v {
        assert s.graph.names[v] in s.objMap;
      }
    }
  }

  lemma ClearKeeps(s: Store)
    requires StoreOk(s)
    ensures StoreOk(RemoveAll(s)) && StoreOk(Clear(s)) && Clear(s).objMap.Keys == {"root"} && Clear(s).graph.edges == []
  {
    InsertKeepsIffUnused(RemoveAll(s), 0, "root");
  }

  lemma StartOk()
    ensures StoreOk(Start()) && "root" in Start().objMap
  {
    InsertKeepsIffUnused(Store(map[], EMPTY_GRAPH, 0), 0, "root");
  }

  datatype Event =
    | Create(kind: nat, prefix: string, made: bool)
    | Add(kind: nat, id: string, made: bool)
    | Remove(id: string)
    | Relate(rel: string, parent: string, child: string)
    | RemoveEverything
    | Reset

  function Step(s: Store, e: Event): Store {
    match e
    case Create(kind, prefix, made) => CreateObj(s, kind, prefix, made).0
    case Add(kind, id, made) => AddObj(s, kind, id, made)
    case Remove(id) => RemoveObj(s, id)
    case Relate(rel, p, c) => AddRelationship(s, rel, p, c)
    case RemoveEverything => RemoveAll(s)
    case Reset => Clear(s)
  }

  function Run(s: Store, es: seq<Event>): Store
    decreases es
  {
    if es == [] then s else Run(Step(s, es[0]), es[1..])
  }

  /** addObj is only ever given an ID that is free at that moment. */
  predicate Careful(s: Store, es: seq<Event>)
    decreases es
  {
    es == [] || ((es[0].Add? && es[0].made ==> es[0].id !in s.objMap) && Careful(Step(s, es[0]), es[1..]))
  }

  lemma StepKeeps(s: Store, e: Event)
    requires StoreOk(s)
    ensures StoreOk(Step(s, e)) <==> !(e.Add? && e.made && e.id in s.objMap)
  {
    match e
    case Create(kind, prefix, made) => CreateKeeps(s, kind, prefix, made);
    case Add(kind, id, made) => InsertKeepsIffUnused(s, kind, id);
    case Remove(id) => RemoveKeeps(s, id);
    case Relate(rel, p, c) =>
    case RemoveEverything => ClearKeeps(s);
    case Reset => ClearKeeps(s);
  }

  /** After every run that gives addObj only free IDs, IDs and vertices are in bijection and every edge joins two
      live objects. */
  lemma {:induction false} RunKeeps(s: Store, es: seq<Event>)
    requires StoreOk(s) && Careful(s, es)
    ensures StoreOk(Run(s, es))
    decreases es
  {
    if es != [] {
      StepKeeps(s, es[0]);
      RunKeeps(Step(s, es[0]), es[1..]);
    }
  }

  // ---- relationships ----

  /** Two live objects are joined by an edge of this name. */
  ghost predicate Joined(s: Store, x: string, y: string, rel: string) {
    && x in s.objMap && y in s.objMap
    && exists e :: e in s.graph.edges && e.rel == rel &&
        ((e.a == s.objMap[x].vertex && e.b == s.objMap[y].vertex)
          || (e.a == s.objMap[y].vertex && e.b == s.objMap[x].vertex))
  }

  lemma HasIsJoined(s: Store, parent: string, child: string, rel: string)
    requires StoreOk(s)
    ensures HasRelationship(s, parent, child, rel) <==> Joined(s, parent, child, rel)
  {
    if parent in s.objMap {
      var out := OutEdges(s.graph.edges, s.objMap[parent].vertex);
      if Joined(s, parent, child, rel) {
        var o := OutEdge(s.objMap[child].vertex, rel);
        OutEdgesAre(s.graph.edges, s.objMap[parent].vertex, o);
        assert s.graph.names[o.target] == child;
      }
      if HasRelationship(s, parent, child, rel) {
        var o :| o in out && o.rel == rel && o.target in s.graph.names && s.graph.names[o.target] == child;
        OutEdgesAre(s.graph.edges, s.objMap[parent].vertex, o);
        assert s.objMap[child].vertex == o.target;
      }
    }
  }

  /** hasRelationship says what the graph says, agrees with the ID list, and does not know parent from child. */
  lemma RelationshipIsJoin(s: Store, parent: string, child: string, rel: string)
    requires StoreOk(s)
    ensures HasRelationship(s, parent, child, rel) <==> Joined(s, parent, child, rel)
    ensures HasRelationship(s, parent, child, rel) <==> child in IDList(s, parent, rel)
    ensures HasRelationship(s, parent, child, rel) <==> HasRelationship(s, child, parent, rel)
  {
    HasIsJoined(s, parent, child, rel);
    HasIsJoined(s, child, parent, rel);
    if parent in s.objMap { OutEdgesLive(s.graph, s.objMap[parent].vertex); }
  }

  // ---- what the operations do to relationships ----

  /** A removed object loses its relationships, and only those go. */
  lemma RemoveUnlinks(s: Store, id: string, x: string, y: string, rel: string)
    requires StoreOk(s)
    ensures Joined(RemoveObj(s, id), x, y, rel) <==> Joined(s, x, y, rel) && x != id && y != id
  {
    var t := RemoveObj(s, id);
    if Joined(s, x, y, rel) && x != id && y != id && id in s.objMap {
      var e :| e in s.graph.edges && e.rel == rel &&
        ((e.a == s.objMap[x].vertex && e.b == s.objMap[y].vertex)
          || (e.a == s.objMap[y].vertex && e.b == s.objMap[x].vertex));
      assert s.objMap[x].vertex != s.objMap[id].vertex && s.objMap[y].vertex != s.objMap[id].vertex;
      assert e in t.graph.edges;
    }
  }

  lemma {:induction false} WithoutCounts(edges: seq<Edge>, v: Vertex, e: Edge)
    ensures multiset(Without(edges, v))[e] == if Touches(e, v) then 0 else multiset(edges)[e]
  {
    if edges != [] {
      assert edges == [edges[0]] + edges[1..];
      WithoutCounts(edges[1..], v, e);
    }
  }

  /** A new relationship is one more, between exactly these two. */
  lemma AddLinks(s: Store, rel: string, p: string, c: string, x: string, y: string, r: string)
    requires StoreOk(s)
    ensures Joined(AddRelationship(s, rel, p, c), x, y, r) <==>
            Joined(s, x, y, r) || (r == rel && p in s.objMap && c in s.objMap
              && ((x == p && y == c) || (x == c && y == p)))
  {
    var t := AddRelationship(s, rel, p, c);
    if p in s.objMap && c in s.objMap {
      var n := Edge(s.objMap[p].vertex, s.objMap[c].vertex, rel);
      assert t.graph.edges == s.graph.edges + [n];
      assert n in t.graph.edges;
      if Joined(t, x, y, r) && !Joined(s, x, y, r) {
        var e :| e in t.graph.edges && e.rel == r &&
          ((e.a == s.objMap[x].vertex && e.b == s.objMap[y].vertex)
            || (e.a == s.objMap[y].vertex && e.b == s.objMap[x].vertex));
        assert e == n;
      }
    }
  }

  lemma {:induction false} OutEdgesAppend(edges: seq<Edge>, e: Edge, v: Vertex)
    ensures OutEdges(edges + [e], v) == OutEdges(edges, v) + Seen(e, v)
  {
    if edges == [] {
      assert edges + [e] == [e];
    } else {
      HeadApart(edges, [e]);
      assert (edges + [e])[1..] == edges[1..] + [e];
      OutEdgesAppend(edges[1..], e, v);
      Assoc(Seen(edges[0], v), OutEdges(edges[1..], v), Seen(e, v));
    }
  }

  lemma {:induction false} IDsOfAppend(names: map<Vertex, string>, out: seq<OutEdge>, more: seq<OutEdge>, rel: string)
    requires forall o :: o in out + more ==> o.target in names
    ensures (forall o :: o in out ==> o.target in names) && (forall o :: o in more ==> o.target in names)
    ensures IDsOf(names, out + more, rel) == IDsOf(names, out, rel) + IDsOf(names, more, rel)
  {
    forall o | o in out || o in more ensures o.target in names { assert o in out + more; }
    if out == [] {
      assert out + more == more;
    } else {
      HeadApart(out, more);
      assert (out + more)[1..] == out[1..] + more;
      IDsOfAppend(names, out[1..], more, rel);
      Assoc(if out[0].rel == rel then [names[out[0].target]] else [],
            IDsOf(names, out[1..], rel), IDsOf(names, more, rel));
    }
  }

  lemma IDsOfNext(names: map<Vertex, string>, out: seq<OutEdge>, i: nat, rel: string)
    requires i < |out| && forall o :: o in out ==> o.target in names
    ensures IDsOf(names, out[..i + 1], rel) ==
            IDsOf(names, out[..i], rel) + if out[i].rel == rel then [names[out[i].target]] else []
  {
    assert out[..i + 1] == out[..i] + [out[i]];
    IDsOfAppend(names, out[..i], [out[i]], rel);
  }

  lemma {:induction false} IDsOfSame(names: map<Vertex, string>, names': map<Vertex, string>, out: seq<OutEdge>,
      rel: string)
    requires forall o :: o in out ==> o.target in names && o.target in names' && names[o.target] == names'[o.target]
    ensures IDsOf(names, out, rel) == IDsOf(names', out, rel)
  {
    if out != [] { IDsOfSame(names, names', out[1..], rel); }
  }

  /** A relationship to an object that had none is listed last under its parent, and nowhere else among the
      objects there were. */
  lemma AddLists(s: Store, rel: string, p: string, c: string, x: string, r: string)
    requires StoreOk(s) && p in s.objMap && c in s.objMap && x in s.objMap && x != c && p != c
    ensures StoreOk(AddRelationship(s, rel, p, c))
    ensures IDList(AddRelationship(s, rel, p, c), x, r) == IDList(s, x, r) + if x == p && r == rel then [c] else []
  {
    var e := Edge(s.objMap[p].vertex, s.objMap[c].vertex, rel);
    var v := s.objMap[x].vertex;
    OutEdgesAppend(s.graph.edges, e, v);
    var more := Seen(e, v);
    assert e.b != v && (e.a == v <==> x == p);
    OutEdgesLive(AddRelationship(s, rel, p, c).graph, v);
    IDsOfAppend(s.graph.names, OutEdges(s.graph.edges, v), more, r);
  }

  /** Making an object changes nothing about the others. */
  lemma InsertLists(s: Store, kind: nat, id: string, x: string, r: string)
    requires StoreOk(s) && id !in s.objMap && x in s.objMap
    ensures StoreOk(InsertNode(s, kind, id)) && IDList(InsertNode(s, kind, id), x, r) == IDList(s, x, r)
  {
    InsertKeepsIffUnused(s, kind, id);
    OutEdgesLive(s.graph, s.objMap[x].vertex);
    IDsOfSame(s.graph.names, InsertNode(s, kind, id).graph.names, OutEdges(s.graph.edges, s.objMap[x].vertex), r);
  }
}
