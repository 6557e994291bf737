// What objects are made of over whole runs (src/REST/HNRESTContent.cpp:616-738): kinds, and IDs that do not come back.

module ContentHistory {
  import opened Basics
  import opened Text
  import opened Content

  /** A created object has the kind that was asked for and its own ID; every other object stays as it was. */
  lemma CreatedObject(s: Store, kind: nat, prefix: string, made: bool)
    ensures var (t, id) := CreateObj(s, kind, prefix, made);
            && id !in s.objMap
            && (made ==>
              && t.objMap.Keys == s.objMap.Keys + {id} && t.objMap[id].kind == kind && t.objMap[id].id == id
              && forall k :: k in s.objMap ==> t.objMap[k] == s.objMap[k])
            && (!made ==> t.objMap == s.objMap && t.graph == s.graph)
  {
    FreshIsFirst(s.objMap.Keys, prefix, s.nextID);
  }

  /** addObj with an ID that is taken leaves the object that has it, and the vertex it adds is nobody's. */
  lemma TakenID(s: Store, kind: nat, id: string)
    requires StoreOk(s) && id in s.objMap
    ensures var t := AddObj(s, kind, id, true);
            && t.objMap == s.objMap && s.graph.nextVertex in t.graph.names && t.graph.names[s.graph.nextVertex] == id
            && t.graph.edges == s.graph.edges && forall k :: k in t.objMap ==> t.objMap[k].vertex != s.graph.nextVertex
  {
  }

  /** A new manager holds the root and nothing else, and its first ID is number one. */
  lemma StartIs(kind: nat, prefix: string)
    ensures Start().objMap.Keys == {"root"} && Start().objMap["root"].id == "root" && Start().graph.edges == []
            && Start().nextID == 0
    ensures CreateObj(Start(), kind, prefix, true).1 == prefix + Decimal(1)
  {
    FreshIsFirst(Start().objMap.Keys, prefix, 0);
    NotTheRoot(prefix, 1);
    assert ObjID(prefix, 1) !in Start().objMap.Keys;
  }

  /** A relationship event joins the two objects it names, child last in the list of the parent. */
  lemma RelateIs(s: Store, list: string, parent: string, child: string, x: string, y: string)
    requires StoreOk(s) && parent in s.objMap && child in s.objMap && parent != child
    ensures var t := Step(s, Relate(list, parent, child));
            && StoreOk(t) && IDList(t, parent, list) == IDList(s, parent, list) + [child]
            && (Joined(t, x, y, list) <==>
              Joined(s, x, y, list) || (x == parent && y == child) || (x == child && y == parent))
  {
    AddLists(s, list, parent, child, parent, list);
    AddLinks(s, list, parent, child, x, y, list);
  }

  // ---- IDs do not come back ----

  lemma StepCounts(s: Store, e: Event)
    ensures Step(s, e).nextID >= s.nextID && (e.Create? ==> Step(s, e).nextID > s.nextID)
    ensures e.Create? ==> CreateObj(s, e.kind, e.prefix, e.made).1 == ObjID(e.prefix, Step(s, e).nextID)
  {
    if e.Create? { FreshIsFirst(s.objMap.Keys, e.prefix, s.nextID); }
  }

  lemma {:induction false} RunCounts(s: Store, es: seq<Event>)
    ensures Run(s, es).nextID >= s.nextID
    decreases es
  {
    if es != [] {
      StepCounts(s, es[0]);
      RunCounts(Step(s, es[0]), es[1..]);
    }
  }

  /** The prefix p is the prefix q and then a number. */
  predicate Continues(q: string, p: string) {
    |q| < |p| && p[..|q|] == q && p[|q|] != '0' && forall k :: |q| <= k < |p| ==> IsDigit(p[k])
  }

  lemma {:induction false} DecimalLonger(m: nat, n: nat)
    requires m <= n
    ensures |Decimal(m)| <= |Decimal(n)|
  {
    if m >= 10 { DecimalLonger(m / 10, n / 10); }
  }

  /** When two numbers give one ID, the prefix of the smaller is that of the larger and the digits it lacks. */
  lemma SameID(p: string, m: nat, q: string, n: nat)
    requires m < n && ObjID(p, m) == ObjID(q, n)
    ensures Continues(q, p)
  {
    DecimalLonger(m, n);
    DecimalDigits(n);
    var id, more := ObjID(p, m), Decimal(n);
    assert id[..|p|] == p && id[..|q|] == q && id[|q|..] == more;
    if |q| == |p| {
      ObjIDInjective(p, m, n);
    } else {
      forall k | |q| <= k < |p| ensures p[k] == more[k - |q|] { assert p[k] == id[k] == id[|q|..][k - |q|]; }
    }
  }

  /** These two creations make the same ID. */
  ghost predicate MakesAgain(s: Store, first: Event, es: seq<Event>, second: Event) {
    && first.Create? && second.Create?
    && var t := Run(Step(s, first), es);
       CreateObj(s, first.kind, first.prefix, first.made).1 == CreateObj(t, second.kind, second.prefix, second.made).1
  }

  lemma NotAgain(s: Store, first: Event, es: seq<Event>, second: Event)
    requires MakesAgain(s, first, es, second)
    ensures Continues(second.prefix, first.prefix)
  {
    var t := Run(Step(s, first), es);
    StepCounts(s, first);
    RunCounts(Step(s, first), es);
    StepCounts(t, second);
    SameID(first.prefix, Step(s, first).nextID, second.prefix, Step(t, second).nextID);
  }

  /** Digits that do not start with a zero are how their value is printed. */
  lemma {:induction false} PrintedDigits(t: string) returns (n: nat)
    requires t != "" && t[0] != '0' && forall k :: 0 <= k < |t| ==> IsDigit(t[k])
    ensures Decimal(n) == t && n >= 1 && (|t| > 1 ==> n >= 10)
    decreases |t|
  {
    var d := t[|t| - 1] as int - '0' as int;
    if |t| == 1 {
      n := d;
      assert Decimal(d) == t;
    } else {
      var front := PrintedDigits(t[..|t| - 1]);
      n := front * 10 + d;
      assert n / 10 == front && n % 10 == d && Decimal(n) == Decimal(front) + [DigitChar(d)];
    }
  }

  /** Creations that fail only move the counter. */
  function Skip(k: nat): seq<Event> {
    if k == 0 then [] else [Create(0, "", false)] + Skip(k - 1)
  }

  lemma {:induction false} SkipIs(s: Store, k: nat)
    requires s.objMap.Keys == {"root"}
    ensures Run(s, Skip(k)) == s.(nextID := s.nextID + k)
    decreases k
  {
    if k > 0 {
      DecimalDigits(s.nextID + 1);
      assert ObjID("", s.nextID + 1)[0] == Decimal(s.nextID + 1)[0];
      assert Step(s, Create(0, "", false)) == s.(nextID := s.nextID + 1);
      assert Skip(k)[1..] == Skip(k - 1);
      SkipIs(s.(nextID := s.nextID + 1), k - 1);
    }
  }

  /** The counter can be brought to any number, with nothing but the root in the store. */
  lemma FirstGone(kind: nat, p: string, k: nat)
    ensures var (s, id) := CreateObj(Start(), kind, p, true);
            && id == ObjID(p, 1) && s == Step(Start(), Create(kind, p, true))
            && var t := Run(s, [Remove(id)] + Skip(k));
               t.objMap.Keys == {"root"} && t.nextID == 1 + k
  {
    var (s, id) := CreateObj(Start(), kind, p, true);
    StartIs(kind, p);
    CreatedObject(Start(), kind, p, true);
    StepCounts(Start(), Create(kind, p, true));
    assert ([Remove(id)] + Skip(k))[0] == Remove(id) && ([Remove(id)] + Skip(k))[1..] == Skip(k);
    var u := RemoveObj(s, id);
    assert u.objMap.Keys == {"root"};
    SkipIs(u, k);
  }

  lemma NextID(t: Store, kind: nat, q: string, n: nat)
    requires t.objMap.Keys == {"root"} && t.nextID + 1 == n
    ensures CreateObj(t, kind, q, true).1 == ObjID(q, n)
  {
    NotTheRoot(q, n);
  }

  lemma SplitID(p: string, q: string) returns (n: nat)
    requires Continues(q, p)
    ensures n >= 2 && ObjID(q, n) == ObjID(p, 1)
  {
    var digits := p[|q|..];
    n := PrintedDigits(digits + "1");
    assert Decimal(1) == "1" && p == q + digits;
    Assoc(q, digits, "1");
  }

  lemma ComesBack(kind: nat, other: nat, p: string, q: string) returns (es: seq<Event>)
    requires Continues(q, p)
    ensures MakesAgain(Start(), Create(kind, p, true), es, Create(other, q, true))
  {
    var n := SplitID(p, q);
    FirstGone(kind, p, n - 2);
    es := [Remove(ObjID(p, 1))] + Skip(n - 2);
    NextID(Run(Step(Start(), Create(kind, p, true)), es), other, q, n);
  }

  /** No ID is ever made again, also after its object is removed or everything is cleared, exactly when the prefix that
      comes first is not the later one and a number behind it; so never with one and the same prefix. */
  lemma NeverAgainIff(p: string, q: string)
    ensures Continues(q, p) <==>
            exists s, first, es, second :: MakesAgain(s, first, es, second) && first.prefix == p && second.prefix == q
    ensures !Continues(p, p)
  {
    if Continues(q, p) {
      var es := ComesBack(0, 0, p, q);
      assert MakesAgain(Start(), Create(0, p, true), es, Create(0, q, true));
    }
    if s, first, es, second :| MakesAgain(s, first, es, second) && first.prefix == p && second.prefix == q {
      NotAgain(s, first, es, second);
    }
  }
}
