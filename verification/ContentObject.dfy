// The content manager as an object (src/REST/HNRESTContent.cpp), and the resources that use it
// (src/REST/HNRESTResource.cpp). Every method is proved to have the effect Content and ContentRequests give it.

module ContentObject {
  import opened Basics
  import opened Text
  import opened ContentRequests
  import C = Content

  class ContentManager {
    var objMap: map<string, C.Node>
    var refGraph: C.Graph
    var nextID: nat

    ghost function Value(): C.Store
      reads this
    {
      C.Store(objMap, refGraph, nextID)
    }

    constructor ()
      ensures Value() == C.Start()
    {
      nextID := 0;
      objMap, refGraph := map[], C.EMPTY_GRAPH;
      new;
      Init();
    }

    /** std::map insert: an existing entry stays. */
    method Insert(key: string, node: C.Node)
      modifies this`objMap
      ensures objMap == if key in old(objMap) then old(objMap) else old(objMap)[key := node]
    {
      if key !in objMap { objMap := objMap[key := node]; }
    }

    method Init()
      modifies this
      ensures Value() == C.Init(old(Value()))
    {
      var (g, vertex) := C.AddVertex(refGraph, "root");
      refGraph := g;
      Insert("root", C.Node("root", 0, vertex));
    }

    /** Counts up until the ID is free: at most once for every object there is, and once more. */
    method GetUniqueObjID(prefix: string) returns (idStr: string)
      modifies this`nextID
      ensures nextID == C.FreshFrom(objMap.Keys, prefix, old(nextID)) && idStr == C.ObjID(prefix, nextID)
      ensures idStr !in objMap && nextID <= old(nextID) + |objMap| + 1
    {
      C.FreshIsFirst(objMap.Keys, prefix, nextID);
      ghost var last := C.FreshFrom(objMap.Keys, prefix, nextID);
      nextID := nextID + 1;
      idStr := prefix + Decimal(nextID);
      while idStr in objMap
        invariant old(nextID) < nextID <= last && idStr == C.ObjID(prefix, nextID)
        invariant forall i :: old(nextID) < i < nextID ==> C.ObjID(prefix, i) in objMap
        decreases last - nextID
      {
        nextID := nextID + 1;
        idStr := prefix + Decimal(nextID);
      }
    }

    method AddObj(kind: nat, objID: string, made: bool)
      modifies this`objMap, this`refGraph
      ensures Value() == C.AddObj(old(Value()), kind, objID, made)
    {
      if !made { return; }
      var (g, vertex) := C.AddVertex(refGraph, objID);
      refGraph := g;
      Insert(objID, C.Node(objID, kind, vertex));
    }

    method CreateObj(kind: nat, prefix: string, made: bool) returns (objID: string)
      modifies this
      ensures (Value(), objID) == C.CreateObj(old(Value()), kind, prefix, made)
    {
      objID := GetUniqueObjID(prefix);
      AddObj(kind, objID, made);
    }

    method RemoveObjByID(objID: string)
      modifies this
      ensures Value() == C.RemoveObj(old(Value()), objID)
    {
      if objID in objMap {
        var vertex := objMap[objID].vertex;
        refGraph := C.RemoveVertex(refGraph, vertex);
        objMap := objMap - {objID};
      }
    }

    method Clear()
      modifies this
      ensures Value() == C.Clear(old(Value()))
    {
      objMap := map[];
      refGraph := C.ClearGraph(refGraph);
      Init();
    }

    method AddRelationship(relID: string, parentID: string, childID: string)
      modifies this`refGraph
      ensures Value() == C.AddRelationship(old(Value()), relID, parentID, childID)
    {
      if parentID !in objMap { return; }
      if childID !in objMap { return; }
      refGraph := refGraph.(edges := refGraph.edges + [C.Edge(objMap[parentID].vertex, objMap[childID].vertex, relID)]);
    }

    /** The scan of the edges at the parent's vertex. */
    method HasRelationship(parentID: string, childID: string, listID: string) returns (found: bool)
      requires C.EdgesOk(refGraph)
      ensures found <==> C.HasRelationship(Value(), parentID, childID, listID)
    {
      if parentID !in objMap { return false; }
      var outEdges := C.OutEdges(refGraph.edges, objMap[parentID].vertex);
      C.OutEdgesLive(refGraph, objMap[parentID].vertex);
      var i := 0;
      while i < |outEdges|
        invariant i <= |outEdges|
        invariant forall k :: 0 <= k < i ==>
                  !(outEdges[k].rel == listID && refGraph.names[outEdges[k].target] == childID)
      {
        assert outEdges[i] in outEdges;
        if outEdges[i].rel == listID && refGraph.names[outEdges[i].target] == childID { return true; }
        i := i + 1;
      }
      found := false;
    }

    static method CollectIDs(names: map<C.Vertex, string>, outEdges: seq<C.OutEdge>, relID: string)
        returns (idList: seq<string>)
      requires forall o :: o in outEdges ==> o.target in names
      ensures idList == C.IDsOf(names, outEdges, relID)
    {
      idList := [];
      var i := 0;
      while i < |outEdges|
        invariant i <= |outEdges| && idList == C.IDsOf(names, outEdges[..i], relID)
      {
        C.IDsOfNext(names, outEdges, i, relID);
        if outEdges[i].rel == relID { idList := idList + [names[outEdges[i].target]]; }
        i := i + 1;
      }
      assert outEdges[..i] == outEdges;
    }

    method GetIDListForRelationship(parentID: string, relID: string) returns (idList: seq<string>)
      requires C.EdgesOk(refGraph)
      ensures idList == C.IDList(Value(), parentID, relID)
    {
      if parentID !in objMap { return []; }
      C.OutEdgesLive(refGraph, objMap[parentID].vertex);
      idList := CollectIDs(refGraph.names, C.OutEdges(refGraph.edges, objMap[parentID].vertex), relID);
    }

    // ---- requests ----

    /** The loop over the relationship stack; None is the failure result. */
    method CheckObjectRelationships(stack: seq<Hop>, params: map<string, string>) returns (terminalID: Option<string>)
      requires C.EdgesOk(refGraph)
      ensures terminalID == Check(Value(), stack, params)
    {
      var curRootID := "root";
      var i := 0;
      while i < |stack|
        invariant i <= |stack|
        invariant Check(Value(), stack, params) == Walk(Value(), stack[i..], params, curRootID)
      {
        if stack[i].param !in params { return None; }
        var paramID := params[stack[i].param];
        var related := HasRelationship(curRootID, paramID, stack[i].list);
        if !related { return None; }
        assert stack[i..][1..] == stack[i + 1..];
        curRootID := paramID;
        i := i + 1;
      }
      terminalID := Some(curRootID);
    }

    method RestPost(stack: seq<Hop>, params: map<string, string>, kind: nat, prefix: string, list: string, h: Hooks)
      returns (response: Response)
      requires C.EdgesOk(refGraph)
      modifies this
      ensures (Value(), response) == Post(old(Value()), stack, params, kind, prefix, list, h)
    {
      if h.parse.Some? { return BadRequest(h.parse.value); }
      var parentID := CheckObjectRelationships(stack, params);
      if parentID.None? { return BadRequest(INTERNAL_ERROR); }
      var objID := CreateObj(kind, prefix, h.make.None? && h.known);
      if h.make.Some? { return BadRequest(h.make.value); }
      if h.known && h.update.Some? { return BadRequest(h.update.value); }
      AddRelationship(list, parentID.value, objID);
      if h.notify.Some? { return BadRequest(h.notify.value); }
      response := Created(objID);
    }

    method RestGetList(stack: seq<Hop>, params: map<string, string>, list: string, h: Hooks)
        returns (response: Response)
      requires C.StoreOk(Value())
      ensures response == GetList(Value(), stack, params, list, h)
    {
      if h.parse.Some? { return BadRequest(h.parse.value); }
      var parentID := CheckObjectRelationships(stack, params);
      if parentID.None? { return BadRequest(INTERNAL_ERROR); }
      var idList := GetIDListForRelationship(parentID.value, list);
      if h.render.Some? { return BadRequest(h.render.value); }
      response := Ids(idList);
    }

    method RestDelete(stack: seq<Hop>, params: map<string, string>, h: Hooks) returns (response: Response)
      requires C.EdgesOk(refGraph)
      modifies this
      ensures (Value(), response) == Delete(old(Value()), stack, params, h)
    {
      var objID := CheckObjectRelationships(stack, params);
      if objID.None? { return BadRequest(INTERNAL_ERROR); }
      RemoveObjByID(objID.value);
      if h.notify.Some? { return BadRequest(h.notify.value); }
      response := Ok;
    }
  }
}
