// URL routing of the REST layer: patterns and their matching (src/REST/HNRESTResource.cpp:106-264), parameters
// and the wildcard rest of a URL (src/REST/HNRESTRequest.cpp:213-237, src/REST/HNRESTRepresentation.cpp:302-320).

module Routing {
  import opened Basics
  import opened Text

  datatype Method = NoMethod | Get | Put | Post | Delete

  datatype Elem = Lit(text: string) | Param(name: string) | Wild

  /** A pattern is parsed when the resource is made; a wildcard can only be its last element. */
  datatype Resource = Resource(pattern: seq<Elem>, methods: set<Method>)

  // ---- URLs as segments ----

  /** Those that are not empty. */
  function NonEmpty(ts: seq<string>): (r: seq<string>)
    ensures forall t :: t in r ==> t != [] && t in ts
  {
    if ts == [] then [] else (if ts[0] == [] then [] else [ts[0]]) + NonEmpty(ts[1..])
  }

  /** What both the tokenizer of patterns and the splitter of requests leave of a URL. */
  function Segments(url: string): seq<string> {
    NonEmpty(Split(url, '/'))
  }

  /** getWildcardURL: every element with a slash before it. */
  function JoinURL(elems: seq<string>): string {
    if elems == [] then [] else JoinURL(elems[..|elems| - 1]) + "/" + elems[|elems| - 1]
  }

  lemma {:induction false} JoinAppend(a: seq<string>, b: seq<string>)
    ensures JoinURL(a) + JoinURL(b) == JoinURL(a + b)
    decreases |b|
  {
    if b == [] {
      assert a + b == a;
    } else {
      var front, last := b[..|b| - 1], b[|b| - 1];
      JoinAppend(a, front);
      assert (a + b)[..|a + b| - 1] == a + front;
      Assoc(JoinURL(a), JoinURL(front) + "/", last);
      Assoc(JoinURL(a), JoinURL(front), "/");
    }
  }

  lemma JoinFirst(elems: seq<string>)
    requires elems != []
    ensures JoinURL(elems) == "/" + (elems[0] + JoinURL(elems[1..]))
  {
    JoinAppend([elems[0]], elems[1..]);
    assert [elems[0]] + elems[1..] == elems;
    assert JoinURL([elems[0]]) == "/" + elems[0] by {
      assert [elems[0]][..0] == [];
    }
    Assoc("/", elems[0], JoinURL(elems[1..]));
  }

  predicate ArePlain(elems: seq<string>) {
    forall t :: t in elems ==> t != [] && '/' !in t
  }

  lemma SplitSlash(tail: string)
    ensures Split("/" + tail, '/') == [""] + Split(tail, '/')
  {
    SplitFirst("", tail, '/');
    assert "" + ['/'] + tail == "/" + tail;
  }

  lemma SplitElem(x: string, tail: string)
    requires '/' !in x
    ensures Split(x + ("/" + tail), '/') == [x] + Split(tail, '/')
  {
    SplitFirst(x, tail, '/');
    Assoc(x, "/", tail);
  }

  lemma NonEmptyFirst(x: string, ts: seq<string>)
    ensures NonEmpty([x] + ts) == (if x == [] then [] else [x]) + NonEmpty(ts)
  {
    assert ([x] + ts)[1..] == ts;
  }

  lemma NonEmptyFrom(ts: seq<string>, i: nat)
    requires i < |ts|
    ensures NonEmpty(ts[i..]) == if ts[i] == [] then NonEmpty(ts[i + 1..]) else [ts[i]] + NonEmpty(ts[i + 1..])
  {
    assert ts[i..][1..] == ts[i + 1..];
  }

  /** A URL joined from elements splits into them again, so its plain form is the same URL to the router. */
  lemma {:induction false} SegmentsOfJoin(elems: seq<string>)
    requires ArePlain(elems)
    ensures Segments(JoinURL(elems)) == elems
    decreases |elems|
  {
    if elems != [] {
      var x, rest := elems[0], elems[1..];
      assert x in elems;
      forall t | t in rest ensures t != [] && '/' !in t { assert t in elems; }
      SegmentsOfJoin(rest);
      JoinFirst(elems);
      SplitSlash(x + JoinURL(rest));
      NonEmptyFirst("", Split(x + JoinURL(rest), '/'));
      if rest == [] {
        assert x + JoinURL(rest) == x;
        SplitFirst(x, "", '/');
      } else {
        assert rest[0] in elems;
        JoinFirst(rest);
        var tail := rest[0] + JoinURL(rest[1..]);
        SplitElem(x, tail);
        SplitSlash(tail);
        NonEmptyFirst(x, Split(tail, '/'));
        NonEmptyFirst("", Split(tail, '/'));
      }
    }
  }

  /** The elements of any URL are plain, and joining them makes a URL with the same elements. */
  lemma PlainForm(url: string)
    ensures ArePlain(Segments(url)) && Segments(JoinURL(Segments(url))) == Segments(url)
  {
    forall t | t in Segments(url) ensures t != [] && '/' !in t {
      assert t in Split(url, '/');
    }
    SegmentsOfJoin(Segments(url));
  }

  // ---- patterns ----

  predicate IsNameChar(c: char) {
    'A' <= c <= 'Z' || 'a' <= c <= 'z' || '0' <= c <= '9' || c == '-'
  }

  /** The two regular expressions: braces around one or more name characters, and a lone asterisk. */
  function ParseToken(t: string): Elem {
    if |t| >= 3 && t[0] == '{' && t[|t| - 1] == '}' && (forall k :: 0 < k < |t| - 1 ==> IsNameChar(t[k]))
    then Param(t[1..|t| - 1])
    else if t == "*" then Wild
    else Lit(t)
  }

  /** A wildcard ends the pattern. */
  predicate Terminal(pattern: seq<Elem>) {
    forall i :: 0 <= i < |pattern| - 1 ==> !pattern[i].Wild?
  }

  /** The elements of the tokens up to the first wildcard. */
  function ParseTokens(ts: seq<string>): (r: seq<Elem>)
    ensures Terminal(r)
  {
    if ts == [] then []
    else
      var e := ParseToken(ts[0]);
      if e.Wild? then [e] else [e] + ParseTokens(ts[1..])
  }

  lemma ParseNext(ts: seq<string>, i: nat)
    requires i < |ts|
    ensures var e := ParseToken(ts[i]);
            ParseTokens(ts[i..]) == if e.Wild? then [e] else [e] + ParseTokens(ts[i + 1..])
  {
    assert ts[i..][1..] == ts[i + 1..];
  }

  predicate HasWild(pattern: seq<Elem>) {
    pattern != [] && pattern[|pattern| - 1].Wild?
  }

  /** The elements that each take exactly one segment. */
  function Fixed(pattern: seq<Elem>): nat {
    |pattern| - if HasWild(pattern) then 1 else 0
  }

  /** Matching, said without the algorithm: one segment for every fixed element, literals equal, and more
      segments only where there is a wildcard to take them. */
  ghost predicate Matches(pattern: seq<Elem>, segs: seq<string>) {
    && (if HasWild(pattern) then |segs| >= Fixed(pattern) else |segs| == Fixed(pattern))
    && forall i :: 0 <= i < Fixed(pattern) ==> (pattern[i].Lit? ==> segs[i] == pattern[i].text)
  }

  // ---- matching as it is done ----

  datatype Attempt = Attempt(ok: bool, params: map<string, string>, wildcard: seq<string>)

  /** std::map insert keeps an earlier value. */
  function Bind(params: map<string, string>, name: string, value: string): map<string, string> {
    if name in params then params else params[name := value]
  }

  /** The walk over the segments; a mismatch ends it with the parameters bound so far. */
  function Walk(pattern: seq<Elem>, segs: seq<string>, params: map<string, string>): Attempt
    decreases |segs|
  {
    if segs == [] then Attempt(|pattern| == (if HasWild(pattern) then 1 else 0), params, [])
    else if pattern == [] then Attempt(false, params, [])
    else
      match pattern[0]
      case Lit(t) => if segs[0] == t then Walk(pattern[1..], segs[1..], params) else Attempt(false, params, [])
      case Param(name) => Walk(pattern[1..], segs[1..], Bind(params, name, segs[0]))
      case Wild => Attempt(true, params, segs)
  }

  /** What is still to come of a walk that stands at this element, or has met the wildcard. */
  function Remaining(pattern: seq<Elem>, index: nat, wildcardMatch: bool, segs: seq<string>,
      params: map<string, string>, wild: seq<string>): Attempt
    requires index <= |pattern|
  {
    if wildcardMatch then Attempt(true, params, wild + segs) else Walk(pattern[index..], segs, params)
  }

  lemma WalkEnds(pattern: seq<Elem>, index: nat, params: map<string, string>)
    requires Terminal(pattern) && index <= Fixed(pattern)
    ensures Walk(pattern[index..], [], params) == Attempt(index == Fixed(pattern), params, [])
  {
    assert index < |pattern| ==> HasWild(pattern[index..]) == HasWild(pattern);
  }

  lemma MatchesTail(pattern: seq<Elem>, segs: seq<string>)
    requires Terminal(pattern) && segs != [] && pattern != [] && !pattern[0].Wild?
    ensures Matches(pattern, segs) <==>
            (pattern[0].Lit? ==> segs[0] == pattern[0].text) && Matches(pattern[1..], segs[1..])
    ensures Fixed(pattern) == Fixed(pattern[1..]) + 1
  {
    assert HasWild(pattern[1..]) == HasWild(pattern);
    if Matches(pattern, segs) {
      forall i | 0 <= i < Fixed(pattern[1..]) ensures pattern[1..][i].Lit? ==> segs[1..][i] == pattern[1..][i].text {
        assert pattern[i + 1] == pattern[1..][i];
      }
    }
    if (pattern[0].Lit? ==> segs[0] == pattern[0].text) && Matches(pattern[1..], segs[1..]) {
      forall i | 0 <= i < Fixed(pattern) ensures pattern[i].Lit? ==> segs[i] == pattern[i].text {
        if i > 0 { assert pattern[1..][i - 1] == pattern[i]; }
      }
    }
  }

  /** The walk succeeds exactly on the URLs the pattern describes, whatever is bound already, and the wildcard
      takes what the fixed elements leave. */
  lemma {:induction false} WalkMatches(pattern: seq<Elem>, segs: seq<string>, params: map<string, string>)
    requires Terminal(pattern)
    ensures Walk(pattern, segs, params).ok <==> Matches(pattern, segs)
    ensures Walk(pattern, segs, params).ok ==> Walk(pattern, segs, params).wildcard == segs[Fixed(pattern)..]
    decreases |segs|
  {
    if segs != [] && pattern != [] && !pattern[0].Wild? {
      assert HasWild(pattern[1..]) == HasWild(pattern);
      var params' := if pattern[0].Param? then Bind(params, pattern[0].name, segs[0]) else params;
      WalkMatches(pattern[1..], segs[1..], params');
      MatchesTail(pattern, segs);
    }
  }

  /** The matched segments and the wildcard URL give the request's URL back, in its plain form. */
  lemma WildcardRebuilds(pattern: seq<Elem>, segs: seq<string>, params: map<string, string>)
    requires Terminal(pattern) && Walk(pattern, segs, params).ok
    ensures Fixed(pattern) <= |segs|
    ensures JoinURL(segs[..Fixed(pattern)]) + JoinURL(Walk(pattern, segs, params).wildcard) == JoinURL(segs)
  {
    WalkMatches(pattern, segs, params);
    JoinAppend(segs[..Fixed(pattern)], segs[Fixed(pattern)..]);
    assert segs[..Fixed(pattern)] + segs[Fixed(pattern)..] == segs;
  }

  // ---- parameters ----

  /** What a walk binds, in order, also when it fails. */
  function Bindings(pattern: seq<Elem>, segs: seq<string>): seq<(string, string)>
    decreases |segs|
  {
    if segs == [] || pattern == [] then []
    else
      match pattern[0]
      case Lit(t) => if segs[0] == t then Bindings(pattern[1..], segs[1..]) else []
      case Param(name) => [(name, segs[0])] + Bindings(pattern[1..], segs[1..])
      case Wild => []
  }

  function BindAll(params: map<string, string>, bs: seq<(string, string)>): map<string, string>
    decreases |bs|
  {
    if bs == [] then params else BindAll(Bind(params, bs[0].0, bs[0].1), bs[1..])
  }

  lemma {:induction false} WalkBinds(pattern: seq<Elem>, segs: seq<string>, params: map<string, string>)
    ensures Walk(pattern, segs, params).params == BindAll(params, Bindings(pattern, segs))
    decreases |segs|
  {
    if segs != [] && pattern != [] {
      match pattern[0]
      case Lit(t) => if segs[0] == t { WalkBinds(pattern[1..], segs[1..], params); }
      case Param(name) =>
        WalkBinds(pattern[1..], segs[1..], Bind(params, name, segs[0]));
        assert ([(name, segs[0])] + Bindings(pattern[1..], segs[1..]))[1..] == Bindings(pattern[1..], segs[1..]);
      case Wild =>
    }
  }

  /** The first value bound to a name, if any. */
  function FirstOf(bs: seq<(string, string)>, name: string): Option<string>
    decreases |bs|
  {
    if bs == [] then None else if bs[0].0 == name then Some(bs[0].1) else FirstOf(bs[1..], name)
  }

  /** A parameter has the value it was given first. */
  lemma {:induction false} BoundIsFirst(params: map<string, string>, bs: seq<(string, string)>, name: string)
    ensures name in params ==> name in BindAll(params, bs) && BindAll(params, bs)[name] == params[name]
    ensures name !in params ==>
            match FirstOf(bs, name)
            case None => name !in BindAll(params, bs)
            case Some(v) => name in BindAll(params, bs) && BindAll(params, bs)[name] == v
    decreases |bs|
  {
    if bs != [] { BoundIsFirst(Bind(params, bs[0].0, bs[0].1), bs[1..], name); }
  }

  lemma {:induction false} FirstOfAppend(a: seq<(string, string)>, b: seq<(string, string)>, name: string)
    ensures FirstOf(a + b, name) == if FirstOf(a, name).Some? then FirstOf(a, name) else FirstOf(b, name)
    decreases |a|
  {
    if a == [] {
      assert a + b == b;
    } else {
      assert (a + b)[1..] == a[1..] + b;
      FirstOfAppend(a[1..], b, name);
    }
  }

  predicate DistinctNames(pattern: seq<Elem>) {
    forall i, j :: 0 <= i < j < |pattern| && pattern[i].Param? && pattern[j].Param? ==>
      pattern[i].name != pattern[j].name
  }

  /** On a URL that matches, every parameter of the pattern is bound to its own segment, and nothing else is. */
  lemma {:induction false} MatchBinds(pattern: seq<Elem>, segs: seq<string>, name: string)
    requires Terminal(pattern) && DistinctNames(pattern) && Matches(pattern, segs)
    ensures forall i :: 0 <= i < |pattern| && pattern[i] == Param(name) ==>
            i < |segs| && FirstOf(Bindings(pattern, segs), name) == Some(segs[i])
    ensures FirstOf(Bindings(pattern, segs), name).Some? ==> Param(name) in pattern
    decreases |segs|
  {
    if segs != [] && pattern != [] && !pattern[0].Wild? {
      MatchesTail(pattern, segs);
      MatchBinds(pattern[1..], segs[1..], name);
      assert forall i :: 0 < i < |pattern| ==>
        pattern[1..][i - 1] == pattern[i] && (i < |segs| ==> segs[1..][i - 1] == segs[i]);
      if pattern[0].Param? {
        assert ([(pattern[0].name, segs[0])] + Bindings(pattern[1..], segs[1..]))[1..] ==
          Bindings(pattern[1..], segs[1..]);
      }
    }
  }

  // ---- linking a request ----

  predicate Permits(r: Resource, m: Method) {
    m != NoMethod && m in r.methods
  }

  /** linkRequest on the segments of the URL. */
  function LinkRequest(r: Resource, m: Method, segs: seq<string>, params: map<string, string>,
      wildcard: seq<string>): Attempt
  {
    if !Permits(r, m) then Attempt(false, params, wildcard) else Walk(r.pattern, segs, params)
  }

  predicate ResourceOk(r: Resource) {
    Terminal(r.pattern)
  }

  /** A permitted request links exactly when its URL matches; starting from no parameters, every parameter is
      then bound to its own segment and no other name is bound. */
  lemma LinksIffMatches(r: Resource, m: Method, segs: seq<string>, params: map<string, string>, wildcard: seq<string>)
    requires ResourceOk(r)
    ensures LinkRequest(r, m, segs, params, wildcard).ok <==>
            m != NoMethod && m in r.methods && Matches(r.pattern, segs)
  {
    WalkMatches(r.pattern, segs, params);
  }

  lemma LinkedParameters(r: Resource, m: Method, segs: seq<string>, i: nat)
    requires ResourceOk(r) && DistinctNames(r.pattern) && LinkRequest(r, m, segs, map[], []).ok
    ensures var params := LinkRequest(r, m, segs, map[], []).params;
            && (i < |r.pattern| && r.pattern[i].Param? ==>
              i < |segs| && r.pattern[i].name in params && params[r.pattern[i].name] == segs[i])
            && forall name :: name in params ==> Param(name) in r.pattern
  {
    WalkMatches(r.pattern, segs, map[]);
    WalkBinds(r.pattern, segs, map[]);
    var params := LinkRequest(r, m, segs, map[], []).params;
    if i < |r.pattern| && r.pattern[i].Param? {
      MatchBinds(r.pattern, segs, r.pattern[i].name);
      BoundIsFirst(map[], Bindings(r.pattern, segs), r.pattern[i].name);
    }
    forall name | name in params ensures Param(name) in r.pattern {
      MatchBinds(r.pattern, segs, name);
      BoundIsFirst(map[], Bindings(r.pattern, segs), name);
    }
  }
}
