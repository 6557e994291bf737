// What requests to the content store are answered with (src/REST/HNRESTResource.cpp:372-760): the first error in the
// order in which errors are met, and lists that say which objects there are.

module ContentAnswers {
  import opened Basics
  import opened Text
  import opened Content
  import opened ContentRequests

  // ---- errors ----

  /** The first error, and if there is none what comes after. */
  function Then(error: Option<nat>, next: Option<nat>): Option<nat> {
    if error.Some? then error else next
  }

  /** What a request meets when its walk from the root fails. */
  function Unrelated(s: Store, stack: seq<Hop>, params: map<string, string>): Option<nat> {
    if Check(s, stack, params).None? then Some(10000) else None
  }

  /** The errors of a POST are met while its body is read, at its walk, and while the object is made, filled in and
      announced, in this order; nothing is filled in when the application does not know the type. */
  function PostError(s: Store, stack: seq<Hop>, params: map<string, string>, h: Hooks): Option<nat> {
    Then(h.parse, Then(Unrelated(s, stack, params), Then(h.make, Then(if h.known then h.update else None, h.notify))))
  }

  /** An answer carries the first error that is met, and is of the request's own kind exactly when none is. */
  lemma AnswersFirstError(s: Store, stack: seq<Hop>, params: map<string, string>, kind: nat, prefix: string,
      list: string, h: Hooks, code: nat)
    requires StoreOk(s)
    ensures var (response, error) := (Post(s, stack, params, kind, prefix, list, h).1, PostError(s, stack, params, h));
            && (response == BadRequest(code) <==> error == Some(code))
            && (response.Created? <==> error.None?)
    ensures var (response, error) := (GetList(s, stack, params, list, h),
              Then(h.parse, Then(Unrelated(s, stack, params), h.render)));
            && (response == BadRequest(code) <==> error == Some(code))
            && (response.Ids? <==> error.None?)
    ensures var (response, error) := (Delete(s, stack, params, h).1, Then(Unrelated(s, stack, params), h.notify));
            && (response == BadRequest(code) <==> error == Some(code))
            && (response.Ok? <==> error.None?)
  {
  }

  // ---- lists ----

  /** The IDs in an answer are those of the objects joined to the end of the walk by relationships of this name. */
  lemma GetListIs(s: Store, stack: seq<Hop>, params: map<string, string>, list: string, h: Hooks, id: string)
    requires StoreOk(s)
    ensures var response := GetList(s, stack, params, list, h);
            response.Ids? ==>
              && Check(s, stack, params).Some?
              && (id in response.ids <==> Joined(s, Check(s, stack, params).value, id, list))
  {
    if Check(s, stack, params).Some? { RelationshipIsJoin(s, Check(s, stack, params).value, id, list); }
  }

  /** What a POST leaves of every walk: it ends where it did. */
  lemma PostKeepsWalk(s: Store, stack: seq<Hop>, params: map<string, string>, kind: nat, prefix: string, list: string,
      stack': seq<Hop>, params': map<string, string>)
    requires StoreOk(s) && Check(s, stack, params).Some? && Check(s, stack, params).value in s.objMap
    requires Check(s, stack', params').Some?
    ensures Check(Post(s, stack, params, kind, prefix, list, NO_ERRORS).0, stack', params') == Check(s, stack', params')
  {
    var t := Post(s, stack, params, kind, prefix, list, NO_ERRORS).0;
    PostLists(s, stack, params, kind, prefix, list, Check(s, stack, params).value, list);
    var ids := WalkFindsChain(s, stack', params', "root");
    forall i | 0 <= i < |stack'| ensures IsHop(t, stack'[i], params', ids[i], ids[i + 1]) {
      assert IsHop(s, stack'[i], params', ids[i], ids[i + 1]);
      PostKeepsJoins(s, stack, params, kind, prefix, list, ids[i], ids[i + 1], stack'[i].list);
    }
    ChainIsWalked(t, stack', params', ids);
  }

  /** After a POST the same list is answered with the new ID last; the object has the kind that was asked for. */
  lemma GetAfterPost(s: Store, stack: seq<Hop>, params: map<string, string>, kind: nat, prefix: string, list: string)
    requires StoreOk(s) && Check(s, stack, params).Some? && Check(s, stack, params).value in s.objMap
    ensures var (t, response) := Post(s, stack, params, kind, prefix, list, NO_ERRORS);
            && StoreOk(t) && response.Created?
            && var (earlier, later) := (GetList(s, stack, params, list, NO_ERRORS),
              GetList(t, stack, params, list, NO_ERRORS));
            && earlier.Ids? && later == Ids(earlier.ids + [response.id]) && response.id !in earlier.ids
            && response.id in t.objMap && t.objMap[response.id].kind == kind
  {
    var (t, response) := Post(s, stack, params, kind, prefix, list, NO_ERRORS);
    var parent := Check(s, stack, params).value;
    PostLists(s, stack, params, kind, prefix, list, parent, list);
    PostKeepsWalk(s, stack, params, kind, prefix, list, stack, params);
    GetListIs(s, stack, params, list, NO_ERRORS, response.id);
  }

  // ---- lists after a removal ----

  function Dropping(ids: seq<string>, id: string): seq<string> {
    if ids == [] then [] else (if ids[0] == id then [] else [ids[0]]) + Dropping(ids[1..], id)
  }

  lemma {:induction false} DroppingJoins(a: seq<string>, b: seq<string>, id: string)
    ensures Dropping(a + b, id) == Dropping(a, id) + Dropping(b, id)
  {
    if a == [] {
      assert a + b == b;
    } else {
      HeadApart(a, b);
      assert (a + b)[1..] == a[1..] + b;
      DroppingJoins(a[1..], b, id);
      Assoc(if a[0] == id then [] else [a[0]], Dropping(a[1..], id), Dropping(b, id));
    }
  }

  ghost predicate DifferentNames(names: map<Vertex, string>) {
    forall x, y :: x in names && y in names && names[x] == names[y] ==> x == y
  }

  ghost predicate Live(names: map<Vertex, string>, out: seq<OutEdge>) {
    forall o :: o in out ==> o.target in names
  }

  lemma OneSeen(names: map<Vertex, string>, o: OutEdge, v: Vertex, rel: string)
    requires v in names && o.target in names && DifferentNames(names)
    ensures IDsOf(names, [o], rel) == if o.rel == rel then [names[o.target]] else []
    ensures Dropping(IDsOf(names, [o], rel), names[v]) == if o.target == v then [] else IDsOf(names, [o], rel)
    ensures o.target != v ==> IDsOf(names - {v}, [o], rel) == IDsOf(names, [o], rel)
  {
    assert [o][1..] == [] && [names[o.target]][1..] == [];
  }

  /** An edge as w sees it, with v there and without. */
  lemma SeenWithout(names: map<Vertex, string>, e: Edge, v: Vertex, w: Vertex, rel: string)
    requires v in names && w in names && v != w && e.a in names && e.b in names && DifferentNames(names)
    ensures var (seen, left) := (Seen(e, w), if Touches(e, v) then [] else Seen(e, w));
            && Live(names, seen) && Live(names - {v}, left)
            && IDsOf(names - {v}, left, rel) == Dropping(IDsOf(names, seen, rel), names[v])
  {
    var (o, o') := (OutEdge(e.b, e.rel), OutEdge(e.a, e.rel));
    OneSeen(names, o, v, rel);
    OneSeen(names, o', v, rel);
    if e.a == w && e.b == w {
      assert Seen(e, w) == [o] + [o'];
      IDsOfAppend(names, [o], [o'], rel);
      IDsOfAppend(names - {v}, [o], [o'], rel);
      DroppingJoins(IDsOf(names, [o], rel), IDsOf(names, [o'], rel), names[v]);
    } else if e.a == w || e.b == w {
      assert Seen(e, w) == [if e.a == w then o else o'];
    } else {
      assert Seen(e, w) == [];
    }
  }

  lemma FirstEdge(e: Edge, rest: seq<Edge>, w: Vertex)
    ensures OutEdges([e] + rest, w) == Seen(e, w) + OutEdges(rest, w)
  {
    assert ([e] + rest)[0] == e && ([e] + rest)[1..] == rest;
  }

  lemma WithoutFirst(edges: seq<Edge>, v: Vertex)
    requires edges != []
    ensures var rest := Without(edges[1..], v);
            Without(edges, v) == if Touches(edges[0], v) then rest else [edges[0]] + rest
  {
  }

  /** Without the edges at v the vertex w sees what it saw, less v. */
  lemma {:induction false} ListWithout(names: map<Vertex, string>, edges: seq<Edge>, v: Vertex, w: Vertex, rel: string)
    requires v in names && w in names && v != w && DifferentNames(names)
    requires forall e :: e in edges ==> e.a in names && e.b in names
    ensures Live(names, OutEdges(edges, w)) && Live(names - {v}, OutEdges(Without(edges, v), w))
    ensures IDsOf(names - {v}, OutEdges(Without(edges, v), w), rel) ==
            Dropping(IDsOf(names, OutEdges(edges, w), rel), names[v])
  {
    if edges != [] {
      var (seen, left) := (Seen(edges[0], w), if Touches(edges[0], v) then [] else Seen(edges[0], w));
      var (out, out') := (OutEdges(edges[1..], w), OutEdges(Without(edges[1..], v), w));
      SeenWithout(names, edges[0], v, w, rel);
      ListWithout(names, edges[1..], v, w, rel);
      WithoutFirst(edges, v);
      FirstEdge(edges[0], Without(edges[1..], v), w);
      IDsOfAppend(names, seen, out, rel);
      IDsOfAppend(names - {v}, left, out', rel);
      DroppingJoins(IDsOf(names, seen, rel), IDsOf(names, out, rel), names[v]);
    }
  }

  lemma {:induction false} DroppingNone(ids: seq<string>, id: string)
    requires id !in ids
    ensures Dropping(ids, id) == ids
  {
    if ids != [] { DroppingNone(ids[1..], id); }
  }

  /** After an object is removed every list of another object is what it was, less the removed one. */
  lemma ListAfterRemoval(s: Store, id: string, x: string, rel: string)
    requires StoreOk(s) && x in s.objMap && x != id
    ensures StoreOk(RemoveObj(s, id)) && IDList(RemoveObj(s, id), x, rel) == Dropping(IDList(s, x, rel), id)
  {
    RemoveKeeps(s, id);
    if id in s.objMap {
      ListWithout(s.graph.names, s.graph.edges, s.objMap[id].vertex, s.objMap[x].vertex, rel);
    } else {
      RelationshipIsJoin(s, x, id, rel);
      DroppingNone(IDList(s, x, rel), id);
    }
  }

  /** After a DELETE a list whose walk does not lead through the object is answered with what it was, less the
      object. */
  lemma GetAfterDelete(s: Store, stack: seq<Hop>, params: map<string, string>, h: Hooks, stack': seq<Hop>,
      params': map<string, string>, ids: seq<string>, list: string)
    requires StoreOk(s) && Check(s, stack, params).Some?
    requires IsChain(s, stack', params', ids) && ids[0] == "root" && "root" in s.objMap
    requires Check(s, stack, params).value !in ids
    ensures var t := Delete(s, stack, params, h).0;
            && StoreOk(t)
            && var (earlier, later) := (GetList(s, stack', params', list, NO_ERRORS),
              GetList(t, stack', params', list, NO_ERRORS));
            earlier.Ids? && later == Ids(Dropping(earlier.ids, Check(s, stack, params).value))
  {
    var (t, id) := (Delete(s, stack, params, h).0, Check(s, stack, params).value);
    ChainIsWalked(s, stack', params', ids);
    CheckIsChain(s, stack', params', ids[|stack'|]);
    if stack' != [] { DeletedIsUnreachable(s, stack, params, stack', params', ids, h); }
    ListAfterRemoval(s, id, ids[|stack'|], list);
    ChainIsWalked(t, stack', params', ids);
  }
}
