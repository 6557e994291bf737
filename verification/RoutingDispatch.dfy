// Choosing the resource for a request (src/REST/HNRESTDeamon.cpp:146-157 and 285-319).

module RoutingDispatch {
  import opened Basics
  import opened Routing

  /** resourceSortFunc: longer patterns first, and among equally long ones those without a wildcard. */
  predicate Before(a: Resource, b: Resource) {
    || |a.pattern| > |b.pattern|
    || (|a.pattern| == |b.pattern| && !HasWild(a.pattern) && HasWild(b.pattern))
  }

  predicate Tied(a: Resource, b: Resource) {
    !Before(a, b) && !Before(b, a)
  }

  /** What std::list::sort requires of it: a strict order whose ties are an equivalence. */
  lemma StrictWeakOrder(a: Resource, b: Resource, c: Resource)
    ensures !Before(a, a)
    ensures Before(a, b) ==> !Before(b, a)
    ensures Before(a, b) && Before(b, c) ==> Before(a, c)
    ensures Tied(a, b) && Tied(b, c) ==> Tied(a, c)
  {
  }

  /** r goes behind everything that does not have to come after it. */
  function Insert(list: seq<Resource>, r: Resource): seq<Resource> {
    if list == [] then [r]
    else if Before(r, list[0]) then [r] + list
    else [list[0]] + Insert(list[1..], r)
  }

  function StableSort(list: seq<Resource>): seq<Resource> {
    if list == [] then [] else Insert(StableSort(list[..|list| - 1]), list[|list| - 1])
  }

  ghost predicate Sorted(list: seq<Resource>) {
    forall i, j :: 0 <= i < j < |list| ==> !Before(list[j], list[i])
  }

  /** The resources that tie with key, in order. */
  function TiedWith(list: seq<Resource>, key: Resource): seq<Resource> {
    if list == [] then [] else (if Tied(list[0], key) then [list[0]] else []) + TiedWith(list[1..], key)
  }

  lemma {:induction false} InsertHas(list: seq<Resource>, r: Resource)
    ensures multiset(Insert(list, r)) == multiset(list) + multiset{r}
    ensures forall x :: x in Insert(list, r) <==> x in list || x == r
    decreases |list|
  {
    if list != [] && !Before(r, list[0]) {
      InsertHas(list[1..], r);
      assert list == [list[0]] + list[1..];
    }
  }

  lemma {:induction false} InsertSorts(list: seq<Resource>, r: Resource)
    requires Sorted(list)
    ensures Sorted(Insert(list, r))
    decreases |list|
  {
    if list != [] && !Before(r, list[0]) {
      InsertSorts(list[1..], r);
      InsertHas(list[1..], r);
      var rest := Insert(list[1..], r);
      forall j | 0 <= j < |rest| ensures !Before(rest[j], list[0]) {
        assert rest[j] in rest;
      }
    }
  }

  lemma {:induction false} TiedAppend(a: seq<Resource>, b: seq<Resource>, key: Resource)
    ensures TiedWith(a + b, key) == TiedWith(a, key) + TiedWith(b, key)
    decreases |a|
  {
    if a == [] {
      assert a + b == b;
    } else {
      HeadApart(a, b);
      assert (a + b)[1..] == a[1..] + b;
      TiedAppend(a[1..], b, key);
      Assoc(if Tied(a[0], key) then [a[0]] else [], TiedWith(a[1..], key), TiedWith(b, key));
    }
  }

  lemma {:induction false} NoneTied(list: seq<Resource>, r: Resource, key: Resource)
    requires Tied(r, key) && forall x :: x in list ==> Before(r, x)
    ensures TiedWith(list, key) == []
    decreases |list|
  {
    if list != [] {
      assert list[0] in list;
      NoneTied(list[1..], r, key);
    }
  }

  /** Inserting puts r behind the resources it ties with and disturbs no other tie. */
  lemma {:induction false} InsertIsStable(list: seq<Resource>, r: Resource, key: Resource)
    requires Sorted(list)
    ensures TiedWith(Insert(list, r), key) == TiedWith(list, key) + if Tied(r, key) then [r] else []
    decreases |list|
  {
    if list == [] {
      assert [r][1..] == [];
    } else if Before(r, list[0]) {
      forall x | x in list ensures Before(r, x) { }
      if Tied(r, key) { NoneTied(list, r, key); }
      assert ([r] + list)[1..] == list;
    } else {
      InsertIsStable(list[1..], r, key);
      assert ([list[0]] + Insert(list[1..], r))[1..] == Insert(list[1..], r);
      Assoc(if Tied(list[0], key) then [list[0]] else [], TiedWith(list[1..], key), if Tied(r, key) then [r] else []);
    }
  }

  lemma {:induction false} StableSortSorts(list: seq<Resource>)
    ensures Sorted(StableSort(list)) && multiset(StableSort(list)) == multiset(list)
    decreases |list|
  {
    if list != [] {
      var front, last := list[..|list| - 1], list[|list| - 1];
      StableSortSorts(front);
      InsertSorts(StableSort(front), last);
      InsertHas(StableSort(front), last);
      assert list == front + [last];
    }
  }

  lemma TiedLast(list: seq<Resource>, key: Resource)
    requires list != []
    ensures TiedWith(list, key) ==
            TiedWith(list[..|list| - 1], key) + if Tied(list[|list| - 1], key) then [list[|list| - 1]] else []
  {
    var last := list[|list| - 1];
    assert list == list[..|list| - 1] + [last];
    TiedAppend(list[..|list| - 1], [last], key);
    assert TiedWith([last], key) == if Tied(last, key) then [last] else [] by { assert [last][1..] == []; }
  }

  lemma StableSortStep(list: seq<Resource>, key: Resource)
    requires list != []
    ensures TiedWith(StableSort(list), key) ==
            TiedWith(StableSort(list[..|list| - 1]), key) + if Tied(list[|list| - 1], key) then [list[|list| - 1]]
              else []
  {
    StableSortSorts(list[..|list| - 1]);
    InsertIsStable(StableSort(list[..|list| - 1]), list[|list| - 1], key);
  }

  lemma {:induction false} StableSortTies(list: seq<Resource>, key: Resource)
    ensures TiedWith(StableSort(list), key) == TiedWith(list, key)
    decreases |list|
  {
    if list != [] {
      StableSortTies(list[..|list| - 1], key);
      StableSortStep(list, key);
      TiedLast(list, key);
    }
  }

  /** The sort sorts, keeps every resource, and keeps the order among those that tie. */
  lemma StableSortIs(list: seq<Resource>, key: Resource)
    ensures Sorted(StableSort(list)) && multiset(StableSort(list)) == multiset(list)
    ensures TiedWith(StableSort(list), key) == TiedWith(list, key)
  {
    StableSortSorts(list);
    StableSortTies(list, key);
  }

  lemma {:induction false} InsertLast(list: seq<Resource>, r: Resource)
    requires forall x :: x in list ==> !Before(r, x)
    ensures Insert(list, r) == list + [r]
    decreases |list|
  {
    if list != [] {
      assert list[0] in list;
      InsertLast(list[1..], r);
      assert list == [list[0]] + list[1..];
    }
  }

  /** A sorted list is left as it is. */
  lemma {:induction false} SortedIsFixed(list: seq<Resource>)
    requires Sorted(list)
    ensures StableSort(list) == list
    decreases |list|
  {
    if list != [] {
      var front, last := list[..|list| - 1], list[|list| - 1];
      SortedIsFixed(front);
      InsertLast(front, last);
      assert list == front + [last];
    }
  }

  lemma {:induction false} InsertAt(list: seq<Resource>, r: Resource, p: nat)
    requires p <= |list| && (forall k :: 0 <= k < p ==> !Before(r, list[k])) && (p < |list| ==> Before(r, list[p]))
    ensures Insert(list, r) == list[..p] + [r] + list[p..]
    decreases |list|
  {
    if p == 0 {
      if list == [] { assert list[..p] + [r] + list[p..] == [r]; }
    } else {
      InsertAt(list[1..], r, p - 1);
      assert list[..p] == [list[0]] + list[1..][..p - 1] && list[1..][p - 1..] == list[p..];
    }
  }

  /** registerResource: at the end, then the whole list is sorted. */
  function Register(list: seq<Resource>, r: Resource): seq<Resource> {
    StableSort(list + [r])
  }

  function RegisterAll(rs: seq<Resource>): seq<Resource> {
    if rs == [] then [] else Register(RegisterAll(rs[..|rs| - 1]), rs[|rs| - 1])
  }

  /** After any registrations the list is their stable sort. */
  lemma {:induction false} RegisteredIsSorted(rs: seq<Resource>)
    ensures RegisterAll(rs) == StableSort(rs)
    decreases |rs|
  {
    if rs != [] {
      var front, last := rs[..|rs| - 1], rs[|rs| - 1];
      RegisteredIsSorted(front);
      StableSortIs(front, last);
      var list := StableSort(front);
      SortedIsFixed(list);
      assert (list + [last])[..|list|] == list;
    }
  }

  // ---- the first resource that links ----

  /** The walk over the resource list; parameters bound by attempts that fail stay bound. */
  datatype Outcome = Outcome(link: Option<Resource>, params: map<string, string>, wildcard: seq<string>)

  function TryAll(list: seq<Resource>, m: Method, segs: seq<string>, params: map<string, string>,
      wildcard: seq<string>): Outcome
  {
    if list == [] then Outcome(None, params, wildcard)
    else
      var a := LinkRequest(list[0], m, segs, params, wildcard);
      if a.ok then Outcome(Some(list[0]), a.params, a.wildcard) else TryAll(list[1..], m, segs, a.params, a.wildcard)
  }

  function NewRequest(list: seq<Resource>, m: Method, segs: seq<string>): Outcome {
    TryAll(list, m, segs, map[], [])
  }

  ghost predicate Serves(r: Resource, m: Method, segs: seq<string>) {
    Permits(r, m) && Matches(r.pattern, segs)
  }

  ghost function FirstServing(list: seq<Resource>, m: Method, segs: seq<string>): Option<Resource> {
    if list == [] then None else if Serves(list[0], m, segs) then Some(list[0]) else FirstServing(list[1..], m, segs)
  }

  ghost predicate AllOk(list: seq<Resource>) {
    forall r :: r in list ==> ResourceOk(r)
  }

  /** Failed attempts do not change which resource is chosen. */
  lemma {:induction false} TryAllFindsFirst(list: seq<Resource>, m: Method, segs: seq<string>,
      params: map<string, string>, wildcard: seq<string>)
    requires AllOk(list)
    ensures TryAll(list, m, segs, params, wildcard).link == FirstServing(list, m, segs)
    decreases |list|
  {
    if list != [] {
      assert list[0] in list;
      LinksIffMatches(list[0], m, segs, params, wildcard);
      var a := LinkRequest(list[0], m, segs, params, wildcard);
      TryAllFindsFirst(list[1..], m, segs, a.params, a.wildcard);
    }
  }

  /** What the choice becomes when r joins the list. */
  ghost function Better(chosen: Option<Resource>, r: Resource, m: Method, segs: seq<string>): Option<Resource> {
    if !Serves(r, m, segs) then chosen
    else if chosen.Some? && !Before(r, chosen.value) then chosen
    else Some(r)
  }

  lemma {:induction false} FirstServingIn(list: seq<Resource>, m: Method, segs: seq<string>)
    ensures FirstServing(list, m, segs).Some? ==> FirstServing(list, m, segs).value in list
    decreases |list|
  {
    if list != [] { FirstServingIn(list[1..], m, segs); }
  }

  lemma {:induction false} InsertChooses(list: seq<Resource>, r: Resource, m: Method, segs: seq<string>)
    requires Sorted(list)
    ensures FirstServing(Insert(list, r), m, segs) == Better(FirstServing(list, m, segs), r, m, segs)
    decreases |list|
  {
    if list == [] {
      assert [r][1..] == [];
    } else if Before(r, list[0]) {
      assert ([r] + list)[1..] == list;
      FirstServingIn(list, m, segs);
      if FirstServing(list, m, segs).Some? {
        assert FirstServing(list, m, segs).value in list;
      }
    } else {
      InsertChooses(list[1..], r, m, segs);
      assert ([list[0]] + Insert(list[1..], r))[1..] == Insert(list[1..], r);
    }
  }

  /** r is the best of rs for the request: it serves it, nothing that serves it has to come before r, and of
      those that tie with it none was registered earlier. */
  ghost predicate IsBest(rs: seq<Resource>, i: nat, m: Method, segs: seq<string>) {
    && i < |rs| && Serves(rs[i], m, segs)
    && forall j :: 0 <= j < |rs| && Serves(rs[j], m, segs) ==> Before(rs[i], rs[j]) || (!Before(rs[j], rs[i]) && i <= j)
  }

  /** The best so far stays the best when the newcomer does not serve or need not come before it. */
  lemma KeepsBest(rs: seq<Resource>, i: nat, m: Method, segs: seq<string>)
    requires rs != [] && IsBest(rs[..|rs| - 1], i, m, segs)
    requires !Serves(rs[|rs| - 1], m, segs) || !Before(rs[|rs| - 1], rs[i])
    ensures IsBest(rs, i, m, segs)
  {
    var front := rs[..|rs| - 1];
    forall j | 0 <= j < |rs| && Serves(rs[j], m, segs)
      ensures Before(rs[i], rs[j]) || (!Before(rs[j], rs[i]) && i <= j)
    {
      if j < |front| { assert front[j] == rs[j] && front[i] == rs[i]; }
    }
  }

  /** A newcomer that serves is the best if nothing served before, or it comes before the best. */
  lemma BecomesBest(rs: seq<Resource>, i: nat, m: Method, segs: seq<string>)
    requires rs != [] && Serves(rs[|rs| - 1], m, segs)
    requires || (forall r :: r in rs[..|rs| - 1] ==> !Serves(r, m, segs))
             || (IsBest(rs[..|rs| - 1], i, m, segs) && Before(rs[|rs| - 1], rs[i]))
    ensures IsBest(rs, |rs| - 1, m, segs)
  {
    var front, last := rs[..|rs| - 1], rs[|rs| - 1];
    forall j | 0 <= j < |rs| && Serves(rs[j], m, segs)
      ensures Before(last, rs[j]) || (!Before(rs[j], last) && |rs| - 1 <= j)
    {
      if j < |front| {
        assert front[j] == rs[j] && front[j] in front;
        assert front[i] == rs[i] && !Before(rs[j], rs[i]);
      }
    }
  }

  /** The first that serves in the sorted list is the best of those registered; i is where. */
  ghost predicate ChoiceOk(rs: seq<Resource>, i: nat, m: Method, segs: seq<string>) {
    match FirstServing(StableSort(rs), m, segs)
    case None => forall r :: r in rs ==> !Serves(r, m, segs)
    case Some(r) => i < |rs| && rs[i] == r && IsBest(rs, i, m, segs)
  }

  /** How the choice changes with the last registration. */
  lemma ChoiceStep(rs: seq<Resource>, m: Method, segs: seq<string>)
    requires rs != []
    ensures FirstServing(StableSort(rs), m, segs) ==
            Better(FirstServing(StableSort(rs[..|rs| - 1]), m, segs), rs[|rs| - 1], m, segs)
  {
    StableSortIs(rs[..|rs| - 1], rs[|rs| - 1]);
    InsertChooses(StableSort(rs[..|rs| - 1]), rs[|rs| - 1], m, segs);
  }

  lemma NoneServe(rs: seq<Resource>, m: Method, segs: seq<string>)
    requires rs != [] && !Serves(rs[|rs| - 1], m, segs) && forall r :: r in rs[..|rs| - 1] ==> !Serves(r, m, segs)
    ensures forall r :: r in rs ==> !Serves(r, m, segs)
  {
    assert rs == rs[..|rs| - 1] + [rs[|rs| - 1]];
  }

  lemma NextChoice(rs: seq<Resource>, i: nat, m: Method, segs: seq<string>) returns (k: nat)
    requires rs != [] && ChoiceOk(rs[..|rs| - 1], i, m, segs)
    ensures ChoiceOk(rs, k, m, segs)
  {
    var last := rs[|rs| - 1];
    ChoiceStep(rs, m, segs);
    var chosen := FirstServing(StableSort(rs[..|rs| - 1]), m, segs);
    if Serves(last, m, segs) && (chosen.None? || Before(last, chosen.value)) {
      BecomesBest(rs, i, m, segs);
      k := |rs| - 1;
    } else if chosen.Some? {
      KeepsBest(rs, i, m, segs);
      k := i;
    } else {
      NoneServe(rs, m, segs);
      k := 0;
    }
  }

  lemma {:induction false} ChoiceIsBest(rs: seq<Resource>, m: Method, segs: seq<string>) returns (i: nat)
    ensures ChoiceOk(rs, i, m, segs)
    decreases |rs|
  {
    if rs == [] {
      i := 0;
    } else {
      var k := ChoiceIsBest(rs[..|rs| - 1], m, segs);
      i := NextChoice(rs, k, m, segs);
    }
  }

  /** The dispatch: after any registrations a request goes to the serving resource with the most pattern
      elements, without a wildcard before one with it, and then to the earliest registered; it is turned away
      exactly when no resource serves it. Failed attempts on the way make no difference. */
  lemma RequestGoesToBest(rs: seq<Resource>, m: Method, segs: seq<string>) returns (i: nat)
    requires AllOk(rs)
    ensures match NewRequest(RegisterAll(rs), m, segs).link
            case None => forall r :: r in rs ==> !Serves(r, m, segs)
            case Some(r) => i < |rs| && rs[i] == r && IsBest(rs, i, m, segs)
  {
    RegisteredIsSorted(rs);
    forall r | r in StableSort(rs) ensures ResourceOk(r) {
      StableSortIs(rs, r);
      assert r in multiset(rs);
    }
    TryAllFindsFirst(RegisterAll(rs), m, segs, map[], []);
    i := ChoiceIsBest(rs, m, segs);
  }

  lemma {:induction false} TryAllWildcard(list: seq<Resource>, m: Method, segs: seq<string>,
      params: map<string, string>, wildcard: seq<string>)
    requires AllOk(list) && TryAll(list, m, segs, params, wildcard).link.Some?
    ensures var o := TryAll(list, m, segs, params, wildcard);
            Fixed(o.link.value.pattern) <= |segs| && o.wildcard == segs[Fixed(o.link.value.pattern)..]
    decreases |list|
  {
    assert list[0] in list;
    var a := LinkRequest(list[0], m, segs, params, wildcard);
    if Permits(list[0], m) { WalkMatches(list[0].pattern, segs, params); }
    if !a.ok { TryAllWildcard(list[1..], m, segs, a.params, a.wildcard); }
  }

  lemma JoinedAgain(segs: seq<string>, n: nat)
    requires n <= |segs|
    ensures JoinURL(segs[..n]) + JoinURL(segs[n..]) == JoinURL(segs)
  {
    JoinAppend(segs[..n], segs[n..]);
    assert segs[..n] + segs[n..] == segs;
  }

  /** A dispatched request has as its wildcard what the fixed elements of the chosen pattern leave of the URL, whatever
      was tried before; with what they take it makes the URL again. */
  lemma WildcardOfRequest(list: seq<Resource>, m: Method, segs: seq<string>)
    requires AllOk(list) && NewRequest(list, m, segs).link.Some?
    ensures var o := NewRequest(list, m, segs);
            var n := Fixed(o.link.value.pattern);
            && n <= |segs| && o.wildcard == segs[n..] && JoinURL(segs[..n]) + JoinURL(o.wildcard) == JoinURL(segs)
  {
    TryAllWildcard(list, m, segs, map[], []);
    var n := Fixed(NewRequest(list, m, segs).link.value.pattern);
    JoinedAgain(segs, n);
  }

  // ---- the parameters of a dispatched request ----

  /** What the attempts on these resources bind. */
  function AttemptBindings(list: seq<Resource>, m: Method, segs: seq<string>): seq<(string, string)> {
    if list == [] then []
    else (if Permits(list[0], m) then Bindings(list[0].pattern, segs) else []) + AttemptBindings(list[1..], m, segs)
  }

  lemma {:induction false} BindAllAppend(params: map<string, string>, a: seq<(string, string)>,
      b: seq<(string, string)>)
    ensures BindAll(params, a + b) == BindAll(BindAll(params, a), b)
    decreases |a|
  {
    if a == [] {
      assert a + b == b;
    } else {
      assert (a + b)[1..] == a[1..] + b;
      BindAllAppend(Bind(params, a[0].0, a[0].1), a[1..], b);
    }
  }

  /** Up to and with the resource at position k, which is the first to link, the bindings pile up. */
  lemma {:induction false} TryAllBinds(list: seq<Resource>, k: nat, m: Method, segs: seq<string>,
      params: map<string, string>, wildcard: seq<string>)
    requires AllOk(list) && k < |list| && Serves(list[k], m, segs)
    requires forall j :: 0 <= j < k ==> !Serves(list[j], m, segs)
    ensures TryAll(list, m, segs, params, wildcard).params ==
            BindAll(params, AttemptBindings(list[..k], m, segs) + Bindings(list[k].pattern, segs))
    decreases |list|
  {
    assert list[0] in list;
    LinksIffMatches(list[0], m, segs, params, wildcard);
    var a := LinkRequest(list[0], m, segs, params, wildcard);
    if Permits(list[0], m) { WalkBinds(list[0].pattern, segs, params); }
    if k == 0 {
      assert list[..0] == [];
      assert [] + Bindings(list[0].pattern, segs) == Bindings(list[0].pattern, segs);
    } else {
      var first := if Permits(list[0], m) then Bindings(list[0].pattern, segs) else [];
      TryAllBinds(list[1..], k - 1, m, segs, a.params, a.wildcard);
      assert list[..k][1..] == list[1..][..k - 1] && list[..k][0] == list[0];
      Assoc(first, AttemptBindings(list[1..][..k - 1], m, segs), Bindings(list[k].pattern, segs));
      BindAllAppend(params, first, AttemptBindings(list[1..][..k - 1], m, segs) + Bindings(list[k].pattern, segs));
    }
  }

  /** The pattern has a parameter of this name at position p, and everything before it lets the URL pass. */
  predicate ParamAt(pattern: seq<Elem>, segs: seq<string>, name: string, p: nat) {
    && p < |pattern| && p < |segs| && pattern[p] == Param(name)
    && forall q :: 0 <= q < p ==> !pattern[q].Wild? && (pattern[q].Lit? ==> segs[q] == pattern[q].text)
  }

  lemma ParamAtTail(pattern: seq<Elem>, segs: seq<string>, name: string, p: nat)
    requires pattern != [] && segs != [] && !pattern[0].Wild? && (pattern[0].Lit? ==> segs[0] == pattern[0].text)
    ensures ParamAt(pattern, segs, name, p + 1) <==> ParamAt(pattern[1..], segs[1..], name, p)
  {
    if ParamAt(pattern[1..], segs[1..], name, p) {
      forall q | 0 <= q < p + 1 ensures !pattern[q].Wild? && (pattern[q].Lit? ==> segs[q] == pattern[q].text) {
        if q > 0 { assert pattern[q] == pattern[1..][q - 1] && segs[q] == segs[1..][q - 1]; }
      }
    }
    if ParamAt(pattern, segs, name, p + 1) {
      forall q | 0 <= q < p
        ensures !pattern[1..][q].Wild? && (pattern[1..][q].Lit? ==> segs[1..][q] == pattern[1..][q].text)
      {
        assert pattern[1..][q] == pattern[q + 1] && segs[1..][q] == segs[q + 1];
      }
    }
  }

  /** The value a walk first binds to a name stands at the first position where the pattern has it. */
  ghost predicate FirstAt(bound: Option<string>, pattern: seq<Elem>, segs: seq<string>, name: string, p: nat) {
    match bound
    case None => forall q: nat :: !ParamAt(pattern, segs, name, q)
    case Some(v) =>
      ParamAt(pattern, segs, name, p) && v == segs[p] && forall q: nat :: q < p ==> !ParamAt(pattern, segs, name, q)
  }

  lemma FirstAtTail(pattern: seq<Elem>, segs: seq<string>, name: string, p: nat, bound: Option<string>)
    requires pattern != [] && segs != [] && !pattern[0].Wild? && (pattern[0].Lit? ==> segs[0] == pattern[0].text)
    requires pattern[0] != Param(name) && FirstAt(bound, pattern[1..], segs[1..], name, p)
    ensures FirstAt(bound, pattern, segs, name, p + 1)
  {
    forall q: nat | q > 0 ensures ParamAt(pattern, segs, name, q) <==> ParamAt(pattern[1..], segs[1..], name, q - 1) {
      ParamAtTail(pattern, segs, name, q - 1);
    }
    ParamAtTail(pattern, segs, name, p);
    assert !ParamAt(pattern, segs, name, 0);
  }

  lemma {:induction false} FirstPosition(pattern: seq<Elem>, segs: seq<string>, name: string) returns (p: nat)
    ensures FirstAt(FirstOf(Bindings(pattern, segs), name), pattern, segs, name, p)
    decreases |segs|
  {
    p := 0;
    if segs != [] && pattern != [] && !pattern[0].Wild? && (pattern[0].Lit? ==> segs[0] == pattern[0].text) {
      if pattern[0] != Param(name) {
        p := FirstPosition(pattern[1..], segs[1..], name);
        FirstAtTail(pattern, segs, name, p, FirstOf(Bindings(pattern[1..], segs[1..]), name));
        p := p + 1;
      }
      if pattern[0].Param? {
        assert ([(pattern[0].name, segs[0])] + Bindings(pattern[1..], segs[1..]))[1..] ==
          Bindings(pattern[1..], segs[1..]);
      }
    }
  }

  /** The attempt on resource j binds the name at position p of its pattern. */
  predicate BindsAt(list: seq<Resource>, m: Method, segs: seq<string>, name: string, j: nat, p: nat) {
    j < |list| && Permits(list[j], m) && ParamAt(list[j].pattern, segs, name, p)
  }

  /** No attempt before that on resource j binds the name, nor does that one before position p. */
  ghost predicate NoneBefore(list: seq<Resource>, m: Method, segs: seq<string>, name: string, j: nat, p: nat) {
    && (forall i: nat, q: nat :: i < j ==> !BindsAt(list, m, segs, name, i, q))
    && (forall q: nat :: q < p ==> !BindsAt(list, m, segs, name, j, q))
  }

  /** What these attempts first bind to a name is what the first of them that has it finds there. */
  ghost predicate FirstIn(bound: Option<string>, list: seq<Resource>, m: Method, segs: seq<string>, name: string,
      j: nat, p: nat)
  {
    match bound
    case None => forall i: nat, q: nat :: !BindsAt(list, m, segs, name, i, q)
    case Some(v) => BindsAt(list, m, segs, name, j, p) && v == segs[p] && NoneBefore(list, m, segs, name, j, p)
  }

  lemma BindsAtTail(list: seq<Resource>, m: Method, segs: seq<string>, name: string, j: nat, p: nat)
    requires list != []
    ensures BindsAt(list, m, segs, name, j + 1, p) <==> BindsAt(list[1..], m, segs, name, j, p)
  {
  }

  lemma FirstInTail(list: seq<Resource>, m: Method, segs: seq<string>, name: string, j: nat, p: nat,
      bound: Option<string>)
    requires list != [] && FirstIn(bound, list[1..], m, segs, name, j, p)
    requires forall q: nat :: !BindsAt(list, m, segs, name, 0, q)
    ensures FirstIn(bound, list, m, segs, name, j + 1, p)
  {
    forall i: nat, q: nat | i > 0
      ensures BindsAt(list, m, segs, name, i, q) <==> BindsAt(list[1..], m, segs, name, i - 1, q)
    {
      BindsAtTail(list, m, segs, name, i - 1, q);
    }
    BindsAtTail(list, m, segs, name, j, p);
  }

  lemma {:induction false} FirstAttempt(list: seq<Resource>, m: Method, segs: seq<string>, name: string)
      returns (j: nat, p: nat)
    ensures FirstIn(FirstOf(AttemptBindings(list, m, segs), name), list, m, segs, name, j, p)
    decreases |list|
  {
    j, p := 0, 0;
    if list != [] {
      var first := if Permits(list[0], m) then Bindings(list[0].pattern, segs) else [];
      FirstOfAppend(first, AttemptBindings(list[1..], m, segs), name);
      p := FirstPosition(list[0].pattern, segs, name);
      if FirstOf(first, name).None? {
        j, p := FirstAttempt(list[1..], m, segs, name);
        FirstInTail(list, m, segs, name, j, p, FirstOf(AttemptBindings(list[1..], m, segs), name));
        j := j + 1;
      }
    }
  }

  /** There is only one first. */
  lemma OnlyFirst(list: seq<Resource>, k: nat, m: Method, segs: seq<string>, name: string, j: nat, p: nat,
      bound: Option<string>, own: string)
    requires k <= |list| && FirstIn(bound, list[..k], m, segs, name, j, p)
    requires forall i: nat, q: nat :: i < k ==>
             (BindsAt(list[..k], m, segs, name, i, q) <==> BindsAt(list, m, segs, name, i, q))
    ensures bound !in {None, Some(own)} <==>
            exists i: nat, q: nat :: i < k && BindsAt(list, m, segs, name, i, q)
              && NoneBefore(list, m, segs, name, i, q) && segs[q] != own
  {
    if bound.Some? {
      assert j < k && BindsAt(list, m, segs, name, j, p) && NoneBefore(list, m, segs, name, j, p);
    }
  }

  /** The value of a parameter is what the attempts before first bound to its name, and else its own segment. */
  lemma TriedBinds(list: seq<Resource>, k: nat, m: Method, segs: seq<string>, i: nat)
    requires AllOk(list) && k < |list| && Serves(list[k], m, segs) && DistinctNames(list[k].pattern)
    requires forall j :: 0 <= j < k ==> !Serves(list[j], m, segs)
    requires i < |list[k].pattern| && list[k].pattern[i].Param?
    ensures var name := list[k].pattern[i].name;
            var params := NewRequest(list, m, segs).params;
            var bound := FirstOf(AttemptBindings(list[..k], m, segs), name);
            && i < |segs| && name in params && params[name] == if bound.Some? then bound.value else segs[i]
  {
    var name := list[k].pattern[i].name;
    var before := AttemptBindings(list[..k], m, segs);
    assert list[k] in list;
    TryAllBinds(list, k, m, segs, map[], []);
    MatchBinds(list[k].pattern, segs, name);
    FirstOfAppend(before, Bindings(list[k].pattern, segs), name);
    BoundIsFirst(map[], before + Bindings(list[k].pattern, segs), name);
  }

  /** A parameter of the linked resource has a wrong value exactly when, of the permitted patterns tried before, one
      has a parameter of that name where the URL gets to, the first to have it, and the segment there is another. */
  lemma ParameterRightIff(list: seq<Resource>, k: nat, m: Method, segs: seq<string>, i: nat)
    requires AllOk(list) && k < |list| && Serves(list[k], m, segs) && DistinctNames(list[k].pattern)
    requires forall j :: 0 <= j < k ==> !Serves(list[j], m, segs)
    requires i < |list[k].pattern| && list[k].pattern[i].Param?
    ensures var name := list[k].pattern[i].name;
            var params := NewRequest(list, m, segs).params;
            && i < |segs| && name in params
            && (params[name] != segs[i] <==>
                exists j: nat, p: nat :: j < k && BindsAt(list, m, segs, name, j, p)
                  && NoneBefore(list, m, segs, name, j, p) && segs[p] != segs[i])
  {
    var name := list[k].pattern[i].name;
    var before := list[..k];
    TriedBinds(list, k, m, segs, i);
    var j, p := FirstAttempt(before, m, segs, name);
    assert forall i: nat, q: nat :: i < k ==>
      (BindsAt(before, m, segs, name, i, q) <==> BindsAt(list, m, segs, name, i, q));
    OnlyFirst(list, k, m, segs, name, j, p, FirstOf(AttemptBindings(before, m, segs), name), segs[i]);
  }

  /** It can go wrong: registered in this order, /{id}/x binds id to "a" before it fails on /a/b, and /a/{id},
      which then links, keeps that value. */
  lemma StaleParameter()
    ensures var rs := [Resource([Param("id"), Lit("x")], {Get}), Resource([Lit("a"), Param("id")], {Get})];
            var o := NewRequest(RegisterAll(rs), Get, ["a", "b"]);
            o.link == Some(rs[1]) && "id" in o.params && o.params["id"] == "a" != ["a", "b"][1]
  {
    var r0, r1 := Resource([Param("id"), Lit("x")], {Get}), Resource([Lit("a"), Param("id")], {Get});
    var rs := [r0, r1];
    RegisteredIsSorted(rs);
    assert Sorted(rs);
    SortedIsFixed(rs);
    var segs := ["a", "b"];
    assert segs[1..] == ["b"] && ["b"][1..] == [];
    assert r0.pattern[1..] == [Lit("x")] && r1.pattern[1..] == [Param("id")] && [Param("id")][1..] == [];
    assert [r0, r1][1..] == [r1];
  }
}
