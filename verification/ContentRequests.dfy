// Requests against the content manager (src/REST/HNRESTResource.cpp:372-760): the walk along relationships from
// the root object, and the POST, GET and DELETE handlers of lists and objects.

module ContentRequests {
  import opened Basics
  import opened Content
  import opened Text

  /** One step of a resource's walk: the list to look in, and the URL parameter that names the child. */
  datatype Hop = Hop(list: string, param: string)

  function Walk(s: Store, stack: seq<Hop>, params: map<string, string>, from: string): Option<string> {
    if stack == [] then Some(from)
    else if stack[0].param !in params then None
    else
      var id := params[stack[0].param];
      if HasRelationship(s, from, id, stack[0].list) then Walk(s, stack[1..], params, id) else None
  }

  /** checkObjectRelationships: the walk starts at the root object. */
  function Check(s: Store, stack: seq<Hop>, params: map<string, string>): Option<string> {
    Walk(s, stack, params, "root")
  }

  ghost predicate IsHop(s: Store, hop: Hop, params: map<string, string>, x: string, y: string) {
    hop.param in params && y == params[hop.param] && Joined(s, x, y, hop.list)
  }

  /** Objects one after the other, each joined to the next by the named relationship and named by its parameter. */
  ghost predicate IsChain(s: Store, stack: seq<Hop>, params: map<string, string>, ids: seq<string>) {
    && |ids| == |stack| + 1
    && forall i :: 0 <= i < |stack| ==> IsHop(s, stack[i], params, ids[i], ids[i + 1])
  }

  lemma {:induction false} WalkFindsChain(s: Store, stack: seq<Hop>, params: map<string, string>, from: string)
      returns (ids: seq<string>)
    requires StoreOk(s) && Walk(s, stack, params, from).Some?
    ensures IsChain(s, stack, params, ids) && ids[0] == from && ids[|stack|] == Walk(s, stack, params, from).value
    decreases |stack|
  {
    if stack == [] {
      ids := [from];
    } else {
      var id := params[stack[0].param];
      HasIsJoined(s, from, id, stack[0].list);
      var rest := WalkFindsChain(s, stack[1..], params, id);
      ids := [from] + rest;
      forall i | 0 <= i < |stack| ensures IsHop(s, stack[i], params, ids[i], ids[i + 1]) {
        if i > 0 { assert IsHop(s, stack[1..][i - 1], params, rest[i - 1], rest[i]); }
      }
    }
  }

  lemma {:induction false} ChainIsWalked(s: Store, stack: seq<Hop>, params: map<string, string>, ids: seq<string>)
    requires StoreOk(s) && IsChain(s, stack, params, ids)
    ensures Walk(s, stack, params, ids[0]) == Some(ids[|stack|])
    decreases |stack|
  {
    if stack != [] {
      assert IsHop(s, stack[0], params, ids[0], ids[1]);
      HasIsJoined(s, ids[0], ids[1], stack[0].list);
      forall i | 0 <= i < |stack[1..]| ensures IsHop(s, stack[1..][i], params, ids[1..][i], ids[1..][i + 1]) {
        assert IsHop(s, stack[i + 1], params, ids[i + 1], ids[i + 2]);
      }
      ChainIsWalked(s, stack[1..], params, ids[1..]);
    }
  }

  /** The check succeeds exactly when the parameters name a chain of relationships from the root, and then it
      gives the end of the chain, which is live - unless there is no step to take and the root is gone. */
  lemma CheckIsChain(s: Store, stack: seq<Hop>, params: map<string, string>, t: string)
    requires StoreOk(s)
    ensures Check(s, stack, params) == Some(t) <==>
            exists ids :: IsChain(s, stack, params, ids) && ids[0] == "root" && ids[|stack|] == t
    ensures Check(s, stack, params) == Some(t) ==> (t in s.objMap <==> stack != [] || "root" in s.objMap)
  {
    if Check(s, stack, params) == Some(t) {
      var ids := WalkFindsChain(s, stack, params, "root");
      if stack != [] {
        var n := |stack| - 1;
        assert IsHop(s, stack[n], params, ids[n], ids[n + 1]) && IsHop(s, stack[0], params, ids[0], ids[1]);
      }
    }
    if ids :| IsChain(s, stack, params, ids) && ids[0] == "root" && ids[|stack|] == t {
      ChainIsWalked(s, stack, params, ids);
    }
  }

  // ---- the handlers ----

  /** Error codes are those inside the response body. */
  datatype Response = Created(id: string) | Ids(ids: seq<string>) | Ok | BadRequest(code: nat)

  /** The code of the catch-all handler. It also answers a failed check, which throws the address of its exception. */
  const INTERNAL_ERROR := 10000

  /** What the content helpers and the application do during a request: whether the application knows the object
      type, and the code with which each of them throws, if it does. */
  datatype Hooks = Hooks(parse: Option<nat>, make: Option<nat>, known: bool, update: Option<nat>, notify: Option<nat>,
    render: Option<nat>)

  const NO_ERRORS := Hooks(None, None, true, None, None, None)

  /** POST to a list. */
  function Post(s: Store, stack: seq<Hop>, params: map<string, string>, kind: nat, prefix: string, list: string,
      h: Hooks): (Store, Response)
  {
    if h.parse.Some? then (s, BadRequest(h.parse.value))
    else
      match Check(s, stack, params)
      case None => (s, BadRequest(INTERNAL_ERROR))
      case Some(parent) =>
        var (t, id) := CreateObj(s, kind, prefix, h.make.None? && h.known);
        if h.make.Some? then (t, BadRequest(h.make.value))
        else if h.known && h.update.Some? then (t, BadRequest(h.update.value))
        else
          var u := AddRelationship(t, list, parent, id);
          (u, if h.notify.Some? then BadRequest(h.notify.value) else Created(id))
  }

  function GetList(s: Store, stack: seq<Hop>, params: map<string, string>, list: string, h: Hooks): Response
    requires StoreOk(s)
  {
    if h.parse.Some? then BadRequest(h.parse.value)
    else
      match Check(s, stack, params)
      case None => BadRequest(INTERNAL_ERROR)
      case Some(parent) => if h.render.Some? then BadRequest(h.render.value) else Ids(IDList(s, parent, list))
  }

  /** DELETE of an object. */
  function Delete(s: Store, stack: seq<Hop>, params: map<string, string>, h: Hooks): (Store, Response) {
    match Check(s, stack, params)
    case None => (s, BadRequest(INTERNAL_ERROR))
    case Some(id) => (RemoveObj(s, id), if h.notify.Some? then BadRequest(h.notify.value) else Ok)
  }

  lemma ParentLives(s: Store, stack: seq<Hop>, params: map<string, string>)
    requires StoreOk(s) && Check(s, stack, params).Some?
    ensures Check(s, stack, params).value in s.objMap || (stack == [] && Check(s, stack, params).value == "root")
  {
    CheckIsChain(s, stack, params, Check(s, stack, params).value);
  }

  /** The list entries that appear when id is made and listed under parent. */
  lemma MadeLists(s: Store, u: Store, parent: string, list: string, id: string, x: string, r: string)
    requires StoreOk(s) && StoreOk(u) && id !in s.objMap && id in u.objMap && parent in s.objMap && x in s.objMap
    requires x in u.objMap && parent in u.objMap && IDList(u, x, r) == IDList(s, x, r)
    ensures var t := AddRelationship(u, list, parent, id);
            StoreOk(t) && IDList(t, x, r) == IDList(s, x, r) + if x == parent && r == list then [id] else []
  {
    AddLists(u, list, parent, id, x, r);
  }

  lemma CreateLists(s: Store, kind: nat, prefix: string, made: bool, x: string, r: string)
    requires StoreOk(s) && x in s.objMap
    ensures var t := CreateObj(s, kind, prefix, made).0;
            StoreOk(t) && x in t.objMap && IDList(t, x, r) == IDList(s, x, r)
  {
    CreateKeeps(s, kind, prefix, made);
    var n := FreshFrom(s.objMap.Keys, prefix, s.nextID);
    if made {
      InsertLists(s.(nextID := n), kind, ObjID(prefix, n), x, r);
    }
  }

  /** A POST that answers with an ID has made a new one, and lists it last under its parent and nowhere else. */
  lemma PostLists(s: Store, stack: seq<Hop>, params: map<string, string>, kind: nat, prefix: string, list: string,
      x: string, r: string)
    requires StoreOk(s) && Check(s, stack, params).Some? && Check(s, stack, params).value in s.objMap && x in s.objMap
    ensures var (t, response) := Post(s, stack, params, kind, prefix, list, NO_ERRORS);
            && StoreOk(t) && response.Created? && response.id !in s.objMap && response.id in t.objMap
            && IDList(t, x, r) == IDList(s, x, r) + if x == Check(s, stack, params).value && r == list
              then [response.id] else []
  {
    var parent := Check(s, stack, params).value;
    var (u, id) := CreateObj(s, kind, prefix, true);
    CreateKeeps(s, kind, prefix, true);
    CreateLists(s, kind, prefix, true, x, r);
    CreateLists(s, kind, prefix, true, parent, list);
    MadeLists(s, u, parent, list, id, x, r);
  }

  /** An object that was not made, or whose parent is not there, is not listed. */
  lemma NotListed(s: Store, kind: nat, prefix: string, list: string, parent: string, made: bool)
    requires StoreOk(s) && parent != CreateObj(s, kind, prefix, made).1 && !(made && parent in s.objMap)
    ensures var (t, id) := CreateObj(s, kind, prefix, made);
            AddRelationship(t, list, parent, id) == t && id !in IDList(t, parent, list)
  {
    var (t, id) := CreateObj(s, kind, prefix, made);
    CreateKeeps(s, kind, prefix, made);
    RelationshipIsJoin(t, parent, id, list);
  }

  /** The ID in the answer is listed under the parent exactly when the application knows the type and the parent
      lives; the parent of a walk with at least one step always does. */
  lemma PostListedIff(s: Store, stack: seq<Hop>, params: map<string, string>, kind: nat, prefix: string, list: string,
      h: Hooks)
    requires StoreOk(s) && Post(s, stack, params, kind, prefix, list, h).1.Created?
    ensures Check(s, stack, params).Some?
    ensures var (t, response) := Post(s, stack, params, kind, prefix, list, h);
            var parent := Check(s, stack, params).value;
            && StoreOk(t) && response.id !in s.objMap
            && (response.id in IDList(t, parent, list) <==> h.known && parent in s.objMap)
            && (stack != [] ==> parent in s.objMap)
  {
    var parent := Check(s, stack, params).value;
    ParentLives(s, stack, params);
    CreateKeeps(s, kind, prefix, h.known);
    NotTheRoot(prefix, FreshFrom(s.objMap.Keys, prefix, s.nextID));
    if h.known && parent in s.objMap {
      PostLists(s, stack, params, kind, prefix, list, parent, list);
    } else {
      NotListed(s, kind, prefix, list, parent, h.known);
    }
  }

  /** A resource without relationships names the root, whatever the parameters. Deleting it takes the root away, and
      from then on no walk with a step in it succeeds. */
  lemma RootDeleted(s: Store, params: map<string, string>, h: Hooks, stack: seq<Hop>, params': map<string, string>)
    requires StoreOk(s)
    ensures var t := Delete(s, [], params, h).0;
            && StoreOk(t) && t.objMap == s.objMap - {"root"}
            && (Check(t, stack, params').Some? <==> stack == [])
  {
    var t := RemoveObj(s, "root");
    RemoveKeeps(s, "root");
    if stack != [] && stack[0].param in params' {
      HasIsJoined(t, "root", params'[stack[0].param], stack[0].list);
    }
  }

  // ---- requests that fail ----

  predicate SameContents(s: Store, t: Store) {
    t.objMap == s.objMap && t.graph.names == s.graph.names && t.graph.edges == s.graph.edges
  }

  lemma CreateContents(s: Store, kind: nat, prefix: string, made: bool)
    requires StoreOk(s)
    ensures var (t, id) := CreateObj(s, kind, prefix, made);
            && id !in s.objMap && (if made then t.objMap.Keys == s.objMap.Keys + {id} else SameContents(s, t))
  {
    CreateKeeps(s, kind, prefix, made);
  }

  lemma RelateContents(s: Store, t: Store, kind: nat, prefix: string, list: string, parent: string, id: string,
      made: bool)
    requires StoreOk(s) && (t, id) == CreateObj(s, kind, prefix, made)
    ensures var u := AddRelationship(t, list, parent, id);
            if made then u.objMap.Keys == s.objMap.Keys + {id} else SameContents(s, u)
  {
    CreateContents(s, kind, prefix, made);
  }

  /** An object that has just been made is in no list. */
  lemma MadeIsUnrelated(s: Store, kind: nat, prefix: string, x: string, r: string)
    requires StoreOk(s)
    ensures var (t, id) := CreateObj(s, kind, prefix, true);
            id !in IDList(t, x, r)
  {
    var (t, id) := CreateObj(s, kind, prefix, true);
    CreateKeeps(s, kind, prefix, true);
    RelationshipIsJoin(t, x, id, r);
    assert t.objMap[id].vertex !in s.graph.names;
  }

  /** A POST that fails leaves objects and relationships as they were exactly when it fails before an object is
      made. An object that could not be filled in stays in the store, in no list. */
  lemma FailedPost(s: Store, stack: seq<Hop>, params: map<string, string>, kind: nat, prefix: string, list: string,
      h: Hooks)
    requires StoreOk(s) && Post(s, stack, params, kind, prefix, list, h).1.BadRequest?
    ensures var t := Post(s, stack, params, kind, prefix, list, h).0;
            && StoreOk(t)
            && (SameContents(s, t) <==> h.parse.Some? || Check(s, stack, params).None? || h.make.Some? || !h.known)
            && (!SameContents(s, t) ==>
              var (id, parent) := (ObjID(prefix, FreshFrom(s.objMap.Keys, prefix, s.nextID)),
                Check(s, stack, params).value);
              && id !in s.objMap && t.objMap.Keys == s.objMap.Keys + {id}
              && (id in IDList(t, parent, list) <==> h.update.None? && parent in s.objMap))
  {
    if h.parse.None? && Check(s, stack, params).Some? {
      var parent := Check(s, stack, params).value;
      var made := h.make.None? && h.known;
      var (t, id) := CreateObj(s, kind, prefix, made);
      CreateKeeps(s, kind, prefix, made);
      CreateContents(s, kind, prefix, made);
      RelateContents(s, t, kind, prefix, list, parent, id, made);
      if made && h.update.None? {
        PostListedIff(s, stack, params, kind, prefix, list, NO_ERRORS);
      } else if made {
        MadeIsUnrelated(s, kind, prefix, parent, list);
      } else if h.make.None? {
        var u := AddRelationship(t, list, parent, id);
        assert u == t;
      }
    }
  }

  /** A DELETE that fails leaves the store as it was exactly when its check fails, or names the root when that is
      gone already. */
  lemma FailedDelete(s: Store, stack: seq<Hop>, params: map<string, string>, h: Hooks)
    requires StoreOk(s) && Delete(s, stack, params, h).1.BadRequest?
    ensures var (t, checked) := (Delete(s, stack, params, h).0, Check(s, stack, params));
            && (t == s <==> checked.None? || checked.value !in s.objMap)
            && (checked.Some? ==> checked.value !in t.objMap)
  {
    if Check(s, stack, params).Some? { RemoveKeeps(s, Check(s, stack, params).value); }
  }

  /** An error answer carries the code of an error that was thrown. */
  predicate FromHooks(response: Response, h: Hooks) {
    response.BadRequest? ==> Some(response.code) in {h.parse, h.make, h.update, h.notify, h.render}
  }

  /** The codes of failing answers: a request whose parameters name no chain of relationships from the root is
      answered with the code of the catch-all handler, never with the 1004 that is thrown; every other code
      is one that a helper or the application has thrown. */
  lemma FailureCodes(s: Store, stack: seq<Hop>, params: map<string, string>, kind: nat, prefix: string, list: string,
      h: Hooks)
    requires StoreOk(s)
    ensures (forall ids :: IsChain(s, stack, params, ids) ==> ids[0] != "root") ==>
            var code := if h.parse.Some? then h.parse.value else INTERNAL_ERROR;
            && Post(s, stack, params, kind, prefix, list, h) == (s, BadRequest(code))
            && GetList(s, stack, params, list, h) == BadRequest(code)
            && Delete(s, stack, params, h) == (s, BadRequest(INTERNAL_ERROR))
    ensures (exists ids :: IsChain(s, stack, params, ids) && ids[0] == "root") ==>
            && FromHooks(Post(s, stack, params, kind, prefix, list, h).1, h)
            && FromHooks(GetList(s, stack, params, list, h), h)
            && FromHooks(Delete(s, stack, params, h).1, h)
  {
    if ids :| IsChain(s, stack, params, ids) && ids[0] == "root" {
      ChainIsWalked(s, stack, params, ids);
    } else if Check(s, stack, params).Some? {
      var ids := WalkFindsChain(s, stack, params, "root");
    }
  }

  lemma ChainGrows(s: Store, t: Store, stack: seq<Hop>, params: map<string, string>, ids: seq<string>, hop: Hop,
      id: string)
    requires IsChain(s, stack, params, ids) && StoreOk(t)
    requires forall i :: 0 <= i < |stack| ==> stack[i].param != hop.param
    requires forall i :: 0 <= i < |stack| ==> Joined(t, ids[i], ids[i + 1], stack[i].list)
    requires Joined(t, ids[|stack|], id, hop.list)
    ensures Walk(t, stack + [hop], params[hop.param := id], ids[0]) == Some(id)
  {
    var stack', params', ids' := stack + [hop], params[hop.param := id], ids + [id];
    forall i | 0 <= i < |stack'| ensures IsHop(t, stack'[i], params', ids'[i], ids'[i + 1]) {
      if i < |stack| { assert IsHop(s, stack[i], params, ids[i], ids[i + 1]); }
    }
    ChainIsWalked(t, stack', params', ids');
  }

  lemma CreateJoins(s: Store, kind: nat, prefix: string, x: string, y: string, r: string)
    requires StoreOk(s) && Joined(s, x, y, r)
    ensures Joined(CreateObj(s, kind, prefix, true).0, x, y, r)
  {
  }

  lemma PostKeepsJoins(s: Store, stack: seq<Hop>, params: map<string, string>, kind: nat, prefix: string, list: string,
                       x: string, y: string, r: string)
    requires StoreOk(s) && Check(s, stack, params).Some? && Joined(s, x, y, r)
    ensures Joined(Post(s, stack, params, kind, prefix, list, NO_ERRORS).0, x, y, r)
  {
    var (u, id) := CreateObj(s, kind, prefix, true);
    CreateKeeps(s, kind, prefix, true);
    CreateJoins(s, kind, prefix, x, y, r);
    AddLinks(u, list, Check(s, stack, params).value, id, x, y, r);
  }

  /** The object a POST has made is reached by one more step from its parent. */
  lemma PostedIsReachable(s: Store, stack: seq<Hop>, params: map<string, string>, kind: nat, prefix: string,
      list: string, param: string)
    requires StoreOk(s) && Check(s, stack, params).Some? && Check(s, stack, params).value in s.objMap
    requires forall i :: 0 <= i < |stack| ==> stack[i].param != param
    ensures var (t, response) := Post(s, stack, params, kind, prefix, list, NO_ERRORS);
            response.Created? && Check(t, stack + [Hop(list, param)], params[param := response.id]) == Some(response.id)
  {
    var (t, response) := Post(s, stack, params, kind, prefix, list, NO_ERRORS);
    var parent := Check(s, stack, params).value;
    PostLists(s, stack, params, kind, prefix, list, parent, list);
    RelationshipIsJoin(t, parent, response.id, list);
    var ids := WalkFindsChain(s, stack, params, "root");
    forall i | 0 <= i < |stack| ensures Joined(t, ids[i], ids[i + 1], stack[i].list) {
      assert IsHop(s, stack[i], params, ids[i], ids[i + 1]);
      PostKeepsJoins(s, stack, params, kind, prefix, list, ids[i], ids[i + 1], stack[i].list);
    }
    ChainGrows(s, t, stack, params, ids, Hop(list, param), response.id);
  }

  /** After a DELETE no chain goes through the object, and every chain that did not still holds. */
  lemma DeletedIsUnreachable(s: Store, stack: seq<Hop>, params: map<string, string>,
                             stack': seq<Hop>, params': map<string, string>, ids: seq<string>, h: Hooks)
    requires StoreOk(s) && Check(s, stack, params).Some? && stack' != []
    ensures var t := Delete(s, stack, params, h).0;
            && StoreOk(t) && Check(s, stack, params).value !in t.objMap
            && (IsChain(t, stack', params', ids) <==>
              IsChain(s, stack', params', ids) && Check(s, stack, params).value !in ids)
  {
    var id := Check(s, stack, params).value;
    RemoveKeeps(s, id);
    var t := RemoveObj(s, id);
    if |ids| == |stack'| + 1 {
      forall i | 0 <= i < |stack'|
        ensures IsHop(t, stack'[i], params', ids[i], ids[i + 1]) <==>
                IsHop(s, stack'[i], params', ids[i], ids[i + 1]) && ids[i] != id && ids[i + 1] != id
      {
        RemoveUnlinks(s, id, ids[i], ids[i + 1], stack'[i].list);
      }
      if IsChain(t, stack', params', ids) {
        forall k | 0 <= k < |ids| ensures ids[k] != id {
          if k < |stack'| {
            assert IsHop(t, stack'[k], params', ids[k], ids[k + 1]);
          } else {
            assert IsHop(t, stack'[k - 1], params', ids[k - 1], ids[k]);
          }
        }
      }
    }
  }

  lemma {:induction false} WithoutNone(edges: seq<Edge>, v: Vertex)
    requires forall e :: e in edges ==> !Touches(e, v)
    ensures Without(edges, v) == edges
  {
    if edges != [] {
      assert edges[0] in edges;
      WithoutNone(edges[1..], v);
    }
  }

  lemma {:induction false} WithoutLast(edges: seq<Edge>, e: Edge, v: Vertex)
    requires Touches(e, v)
    ensures Without(edges + [e], v) == Without(edges, v)
  {
    if edges == [] {
      assert edges + [e] == [e];
    } else {
      HeadApart(edges, [e]);
      assert (edges + [e])[1..] == edges[1..] + [e];
      WithoutLast(edges[1..], e, v);
    }
  }

  lemma PutRemove<K, V>(m: map<K, V>, k: K, v: V)
    requires k !in m
    ensures m[k := v] - {k} == m
  {
  }

  lemma InsertThenRemove(s: Store, kind: nat, id: string, edges: seq<Edge>)
    requires StoreOk(s) && id !in s.objMap && Without(edges, s.graph.nextVertex) == s.graph.edges
    ensures var t := InsertNode(s, kind, id);
            var u := RemoveObj(t.(graph := t.graph.(edges := edges)), id);
            u.objMap == s.objMap && u.graph.names == s.graph.names && u.graph.edges == s.graph.edges
  {
    PutRemove(s.objMap, id, Node(id, kind, s.graph.nextVertex));
    PutRemove(s.graph.names, s.graph.nextVertex, id);
  }

  /** Deleting what a POST has made restores the objects, the vertices and the relationships. */
  lemma PostThenDelete(s: Store, stack: seq<Hop>, params: map<string, string>, kind: nat, prefix: string, list: string)
    requires StoreOk(s) && Check(s, stack, params).Some?
    ensures var (t, response) := Post(s, stack, params, kind, prefix, list, NO_ERRORS);
            && response.Created?
            && var u := RemoveObj(t, response.id);
            u.objMap == s.objMap && u.graph.names == s.graph.names && u.graph.edges == s.graph.edges
  {
    var parent := Check(s, stack, params).value;
    var n := FreshFrom(s.objMap.Keys, prefix, s.nextID);
    var id := ObjID(prefix, n);
    var v := s.graph.nextVertex;
    CreateKeeps(s, kind, prefix, true);
    ParentLives(s, stack, params);
    NotTheRoot(prefix, n);
    WithoutNone(s.graph.edges, v);
    var s' := s.(nextID := n);
    if parent in s.objMap {
      var e := Edge(s.objMap[parent].vertex, v, list);
      WithoutLast(s.graph.edges, e, v);
      InsertThenRemove(s', kind, id, s.graph.edges + [e]);
    } else {
      InsertThenRemove(s', kind, id, s.graph.edges);
    }
  }
}
