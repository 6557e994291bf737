// The request, resource and daemon objects of the REST layer (src/REST/HNRESTRequest.cpp,
// src/REST/HNRESTResource.cpp, src/REST/HNRESTDeamon.cpp), proved against Routing and RoutingDispatch.

module RoutingObject {
  import opened Basics
  import opened Text
  import opened Routing
  import opened RoutingDispatch

  datatype SegmentResult = Mismatch | Matched | WildcardMatched

  class RESTRequest {
    var reqMethod: Method
    var url: string
    var uriParam: map<string, string>
    var wildcardElems: seq<string>
    var link: Option<Resource>

    constructor (reqMethod: Method, url: string)
      ensures this.reqMethod == reqMethod && this.url == url && uriParam == map[] && wildcardElems == [] && link == None
    {
      this.reqMethod, this.url, uriParam, wildcardElems, link := reqMethod, url, map[], [], None;
    }

    method SetURIParameter(name: string, value: string)
      modifies this`uriParam
      ensures uriParam == Bind(old(uriParam), name, value)
    {
      if name !in uriParam { uriParam := uriParam[name := value]; }
    }

    method GetWildcardURL() returns (result: string)
      ensures result == JoinURL(wildcardElems)
    {
      result := "";
      var i := 0;
      while i < |wildcardElems|
        invariant i <= |wildcardElems| && result == JoinURL(wildcardElems[..i])
      {
        assert wildcardElems[..i + 1][..i] == wildcardElems[..i];
        result := result + "/";
        result := result + wildcardElems[i];
        i := i + 1;
      }
      assert wildcardElems[..i] == wildcardElems;
    }
  }

  class RESTResource {
    var patternElements: seq<Elem>
    var wildcard: bool
    var methods: set<Method>

    function Value(): Resource
      reads this
    {
      Resource(patternElements, methods)
    }

    predicate Valid()
      reads this
    {
      Terminal(patternElements) && wildcard == HasWild(patternElements)
    }

    constructor (pattern: string, methodFlags: set<Method>)
      ensures Valid() && Value() == Resource(ParseTokens(Segments(pattern)), methodFlags)
    {
      patternElements, wildcard, methods := [], false, {};
      new;
      SetURLPattern(pattern, methodFlags);
    }

    static method ParseElements(tokens: seq<string>) returns (elems: seq<Elem>, wild: bool)
      ensures elems == ParseTokens(tokens) && wild == HasWild(elems)
    {
      elems, wild := [], false;
      var index := 0;
      while index < |tokens|
        invariant index <= |tokens| && !wild
        invariant forall i :: 0 <= i < |elems| ==> !elems[i].Wild?
        invariant ParseTokens(tokens) == elems + ParseTokens(tokens[index..])
      {
        ParseNext(tokens, index);
        var elem := ParseToken(tokens[index]);
        Assoc(elems, [elem], ParseTokens(tokens[index + 1..]));
        elems := elems + [elem];
        if elem.Wild? { return elems, true; }
        index := index + 1;
      }
    }

    /** Appends the elements of the pattern, up to and with its first wildcard; each resource calls it once. */
    method SetURLPattern(pattern: string, methodFlags: set<Method>)
      modifies this
      ensures patternElements == old(patternElements) + ParseTokens(Segments(pattern)) && methods == methodFlags
      ensures wildcard == HasWild(ParseTokens(Segments(pattern)))
    {
      methods := methodFlags;
      var elems, wild := ParseElements(Segments(pattern));
      patternElements, wildcard := patternElements + elems, wild;
    }

    /** One segment against one element: a mismatch, a match, or the wildcard. */
    method MatchSegment(request: RESTRequest, index: nat, it: string, ghost rest: seq<string>)
        returns (result: SegmentResult)
      requires Valid() && index < |patternElements|
      modifies request`uriParam, request`wildcardElems
      ensures Walk(patternElements[index..], [it] + rest, old(request.uriParam)) ==
              match result
              case Mismatch => Attempt(false, request.uriParam, [])
              case Matched => Walk(patternElements[index + 1..], rest, request.uriParam)
              case WildcardMatched => Attempt(true, request.uriParam, [it] + rest)
      ensures request.wildcardElems == if result == WildcardMatched then old(request.wildcardElems) + [it]
              else old(request.wildcardElems)
      ensures result == Matched ==> index + 1 <= Fixed(patternElements)
    {
      assert ([it] + rest)[1..] == rest && patternElements[index..][1..] == patternElements[index + 1..];
      match patternElements[index] {
        case Lit(text) => result := if it == text then Matched else Mismatch;
        case Param(name) =>
          request.SetURIParameter(name, it);
          result := Matched;
        case Wild =>
          request.wildcardElems := request.wildcardElems + [it];
          result := WildcardMatched;
      }
    }

    /** One segment that is not empty. */
    method TakeSegment(request: RESTRequest, index: nat, wildcardMatch: bool, it: string, ghost rest: seq<string>)
      returns (failed: bool, next: nat, wild: bool)
      requires Valid() && index <= |patternElements|
      requires !wildcardMatch ==> index <= Fixed(patternElements) && request.wildcardElems == []
      modifies request`uriParam, request`wildcardElems
      ensures failed ==> request.wildcardElems == []
      ensures failed ==>
        Remaining(patternElements, index, wildcardMatch, [it] + rest,
                  old(request.uriParam), old(request.wildcardElems)) ==
        Attempt(false, request.uriParam, [])
      ensures !failed ==>
              && next <= |patternElements|
              && (!wild ==> next <= Fixed(patternElements) && request.wildcardElems == [])
      ensures !failed ==>
        Remaining(patternElements, index, wildcardMatch, [it] + rest,
                  old(request.uriParam), old(request.wildcardElems)) ==
        Remaining(patternElements, next, wild, rest, request.uriParam, request.wildcardElems)
    {
      failed, next, wild := false, index, wildcardMatch;
      if wildcardMatch {
        Assoc(request.wildcardElems, [it], rest);
        request.wildcardElems := request.wildcardElems + [it];
      } else if index >= |patternElements| {
        failed := true;
      } else {
        var result := MatchSegment(request, index, it, rest);
        match result {
          case Mismatch => failed := true;
          case Matched => next := index + 1;
          case WildcardMatched => next, wild := index + 1, true;
        }
      }
    }

    /** The walk over the segments of the request's URL, in which empty ones are passed over. */
    method WalkSegments(request: RESTRequest, strs: seq<string>) returns (ok: bool)
      requires Valid() && request.wildcardElems == []
      modifies request`uriParam, request`wildcardElems
      ensures Walk(patternElements, NonEmpty(strs), old(request.uriParam)) ==
              Attempt(ok, request.uriParam, request.wildcardElems)
    {
      var index: nat, wildcardMatch, failed := 0, false, false;
      var i := 0;
      assert strs[0..] == strs && patternElements[0..] == patternElements;
      while i < |strs|
        invariant i <= |strs| && index <= |patternElements|
        invariant !wildcardMatch ==> request.wildcardElems == [] && index <= Fixed(patternElements)
        invariant Walk(patternElements, NonEmpty(strs), old(request.uriParam)) ==
                  Remaining(patternElements, index, wildcardMatch, NonEmpty(strs[i..]), request.uriParam,
                    request.wildcardElems)
      {
        NonEmptyFrom(strs, i);
        if strs[i] != [] {
          failed, index, wildcardMatch := TakeSegment(request, index, wildcardMatch, strs[i], NonEmpty(strs[i + 1..]));
          if failed { return false; }
        }
        i := i + 1;
      }
      assert NonEmpty(strs[i..]) == [];
      if wildcardMatch { return true; }
      WalkEnds(patternElements, index, request.uriParam);
      ok := index == |patternElements| - (if wildcard then 1 else 0);
    }

    method LinkRequest(request: RESTRequest) returns (linked: bool)
      requires Valid()
      modifies request
      ensures request.reqMethod == old(request.reqMethod) && request.url == old(request.url)
      ensures var a := Routing.LinkRequest(Value(), request.reqMethod, Segments(request.url), old(request.uriParam),
              old(request.wildcardElems));
              && linked == a.ok && request.uriParam == a.params && request.wildcardElems == a.wildcard
              && request.link == if linked then Some(Value()) else old(request.link)
    {
      if request.reqMethod == NoMethod || request.reqMethod !in methods { return false; }
      request.wildcardElems := [];
      linked := WalkSegments(request, Split(request.url, '/'));
      if linked { request.link := Some(Value()); }
    }
  }

  class RESTDaemon {
    var resourceList: seq<RESTResource>

    static ghost predicate AllValid(list: seq<RESTResource>)
      reads list
    {
      forall r :: r in list ==> r.Valid()
    }

    ghost predicate Valid()
      reads this, resourceList
    {
      AllValid(resourceList)
    }

    static ghost function Values(list: seq<RESTResource>): (rs: seq<Resource>)
      reads list
      ensures |rs| == |list| && forall i :: 0 <= i < |list| ==> rs[i] == list[i].Value()
    {
      seq(|list|, i requires 0 <= i < |list| reads list => list[i].Value())
    }

    static lemma ValuesJoin(a: seq<RESTResource>, b: seq<RESTResource>)
      ensures Values(a + b) == Values(a) + Values(b)
    {
      assert |Values(a + b)| == |Values(a) + Values(b)|;
    }

    constructor ()
      ensures Valid() && resourceList == []
    {
      resourceList := [];
    }

    /** The comparison handed to the list's sort. */
    static method SortFunc(a: RESTResource, b: RESTResource) returns (before: bool)
      requires a.Valid() && b.Valid()
      ensures before == Before(a.Value(), b.Value())
    {
      if |a.patternElements| > |b.patternElements| {
        return true;
      } else if |a.patternElements| == |b.patternElements| {
        if a.wildcard && !b.wildcard { return false; }
        else if !a.wildcard && b.wildcard { return true; }
      }
      before := false;
    }

    static lemma ValuesInsert(list: seq<RESTResource>, p: nat, r: RESTResource)
      requires p <= |list|
      ensures Values(list[..p] + [r] + list[p..]) == Values(list)[..p] + [r.Value()] + Values(list)[p..]
    {
      ValuesJoin(list[..p], [r]);
      ValuesJoin(list[..p] + [r], list[p..]);
      assert Values(list[..p]) == Values(list)[..p] && Values(list[p..]) == Values(list)[p..]
        && Values([r]) == [r.Value()];
    }

    /** Where r belongs: behind everything that does not have to come after it. */
    static method FindPlace(list: seq<RESTResource>, r: RESTResource) returns (p: nat)
      requires r.Valid() && AllValid(list)
      ensures p <= |list| && (forall k :: 0 <= k < p ==> !Before(r.Value(), Values(list)[k]))
      ensures p < |list| ==> Before(r.Value(), Values(list)[p])
    {
      p := 0;
      while p < |list|
        invariant p <= |list| && forall k :: 0 <= k < p ==> !Before(r.Value(), Values(list)[k])
      {
        assert list[p] in list;
        var before := SortFunc(r, list[p]);
        if before { return; }
        p := p + 1;
      }
    }

    /** One step of the library's stable sort, which is modelled as an insertion sort. */
    static method InsertSorted(list: seq<RESTResource>, r: RESTResource) returns (result: seq<RESTResource>)
      requires r.Valid() && AllValid(list)
      ensures Values(result) == Insert(Values(list), r.Value()) && AllValid(result)
    {
      var p := FindPlace(list, r);
      InsertAt(Values(list), r.Value(), p);
      ValuesInsert(list, p, r);
      result := list[..p] + [r] + list[p..];
    }

    static method Sort(list: seq<RESTResource>) returns (result: seq<RESTResource>)
      requires AllValid(list)
      ensures Values(result) == StableSort(Values(list)) && AllValid(result)
    {
      result := [];
      var i := 0;
      while i < |list|
        invariant i <= |list| && AllValid(result) && Values(result) == StableSort(Values(list)[..i])
      {
        assert Values(list)[..i + 1][..i] == Values(list)[..i];
        result := InsertSorted(result, list[i]);
        i := i + 1;
      }
      assert Values(list)[..i] == Values(list);
    }

    method RegisterResource(resource: RESTResource)
      requires Valid() && resource.Valid()
      modifies this
      ensures Valid() && Values(resourceList) == Register(old(Values(resourceList)), resource.Value())
    {
      ValuesJoin(resourceList, [resource]);
      resourceList := resourceList + [resource];
      resourceList := Sort(resourceList);
    }

    /** The scan for a resource that takes the request. */
    method NewRequest(request: RESTRequest) returns (handled: bool)
      requires Valid() && request.uriParam == map[] && request.wildcardElems == [] && request.link == None
      modifies request
      ensures var o := RoutingDispatch.NewRequest(Values(resourceList), old(request.reqMethod),
              Segments(old(request.url)));
              && handled == o.link.Some? && request.link == o.link
              && request.uriParam == o.params && request.wildcardElems == o.wildcard
    {
      ghost var segs := Segments(request.url);
      ghost var vs := Values(resourceList);
      var i := 0;
      assert vs[0..] == vs;
      while i < |resourceList|
        invariant i <= |resourceList| && request.reqMethod == old(request.reqMethod) && request.url == old(request.url)
                  && request.link == None
        invariant RoutingDispatch.NewRequest(vs, request.reqMethod, segs) ==
                  TryAll(vs[i..], request.reqMethod, segs, request.uriParam, request.wildcardElems)
      {
        assert resourceList[i] in resourceList && vs[i..][1..] == vs[i + 1..];
        var linked := resourceList[i].LinkRequest(request);
        if linked { return true; }
        i := i + 1;
      }
      assert vs[i..] == [];
      handled := false;
    }
  }
}
