// What each client of the server sees of a run of the server (src/hnode-srvobj.c): its client object goes through
// exactly its own events, and so does what the client machine promises hold of every client of the server.

module ServerClients {
  import opened Basics
  import opened Mgmt
  import opened P = Provider
  import C = ClientReport
  import S = Server

  // ---- events of one client ----

  /** A provider that is READY now and was not. */
  predicate Becomes(ps: seq<Provider>, qs: seq<Provider>, i: nat)
    requires i < |qs|
  {
    qs[i].txState == Ready && (i < |ps| ==> ps[i].txState != Ready)
  }

  /** Those of the first n providers, in list order, as additions. */
  function Additions(ps: seq<Provider>, qs: seq<Provider>, n: nat): seq<C.Event>
    requires n <= |qs|
  {
    if n == 0 then [] else Additions(ps, qs, n - 1) + if Becomes(ps, qs, n - 1) then [C.Add(n - 1)] else []
  }

  /** What event e of the server is for the client at place k: the providers that become READY, the requests and
      completions of its own link, and every debug frame. */
  function Own(s: S.Server, e: S.Event, k: nat): seq<C.Event>
    requires S.Enabled(s, e)
  {
    var qs := S.Step(s, e).0.providers;
    match e
    case UdpRx(_, _) => Additions(s.providers, qs, |qs|)
    case Request(j, t, g) => if j == k then [C.Rx(t, g)] else []
    case Sent(j) => if j == k then [C.TxDone] else []
    case DebugRx(f) => [C.Forward(f)]
    case _ => []
  }

  /** What a client goes through when its connection is accepted. */
  function Joining(ps: seq<Provider>): seq<C.Event> {
    Additions([], ps, |ps|) + [C.Start]
  }

  /** The place at which the client at place k stood before event e. */
  function Before(e: S.Event, k: nat): nat {
    if e.Closed? && k >= e.k then k + 1 else k
  }

  // ---- one event ----

  lemma {:induction false} NoAdditions(ps: seq<Provider>, qs: seq<Provider>, n: nat)
    requires n <= |qs| && forall i :: 0 <= i < n ==> !Becomes(ps, qs, i)
    ensures Additions(ps, qs, n) == []
  {
    if n > 0 { NoAdditions(ps, qs, n - 1); }
  }

  lemma {:induction false} OneAddition(ps: seq<Provider>, qs: seq<Provider>, n: nat, i: nat)
    requires i < n <= |qs| && Becomes(ps, qs, i) && forall j :: 0 <= j < n && j != i ==> !Becomes(ps, qs, j)
    ensures Additions(ps, qs, n) == [C.Add(i)]
  {
    if n - 1 == i { NoAdditions(ps, qs, n - 1); } else { OneAddition(ps, qs, n - 1, i); }
  }

  lemma OneEvent(c: C.Report, e: C.Event)
    requires C.Enabled(c, e)
    ensures C.IsRun(c, [e]) && C.Run(c, [e]) == C.Step(c, e)
  {
    assert [e][1..] == [];
  }

  ghost predicate Follows(c: C.Report, es: seq<C.Event>, d: C.Report) {
    C.IsRun(c, es) && C.Run(c, es) == d
  }

  lemma ReplyIsOwn(s: S.Server, from: SockAddr, r: Reply, k: nat)
    requires S.ServerInv(s) && S.CanReceive(s, from, r) && k < |s.clients|
    ensures var (e, t) := (S.UdpRx(from, r), S.HNodeRx(s, from, r).0);
            && |t.clients| == |s.clients| && Follows(s.clients[k], Own(s, e, k), t.clients[k])
  {
    var e, t, i := S.UdpRx(from, r), S.HNodeRx(s, from, r).0, S.Claimant(s.providers, from);
    if i < |s.providers| {
      S.ProviderRxReady(s, i, r);
      if s.providers[i].txState == WaitSysInfoAck {
        OneAddition(s.providers, t.providers, |t.providers|, i);
        OneEvent(s.clients[k], C.Add(i));
      } else {
        NoAdditions(s.providers, t.providers, |t.providers|);
      }
    } else {
      NoAdditions(s.providers, t.providers, |t.providers|);
    }
  }

  lemma LinkIsOwn(s: S.Server, e: S.Event, k: nat)
    requires S.Enabled(s, e) && k < |s.clients| && (e.Request? || e.Sent? || e.DebugRx?)
    ensures var t := S.Step(s, e).0;
            |t.clients| == |s.clients| && Follows(s.clients[k], Own(s, e, k), t.clients[k])
  {
    match e
    case Request(j, t, g) => if j == k { OneEvent(s.clients[k], C.Rx(t, g)); }
    case Sent(j) => if j == k { OneEvent(s.clients[k], C.TxDone); }
    case DebugRx(f) => OneEvent(s.clients[k], C.Forward(f));
  }

  /** One event of the server changes each client that stays by the client's own events. */
  lemma StepIsOwn(s: S.Server, e: S.Event, k: nat)
    requires S.ServerInv(s) && S.Enabled(s, e) && k < |S.Step(s, e).0.clients|
    requires !(e.Connected? && k == |s.clients|)
    ensures Before(e, k) < |s.clients|
    ensures Follows(s.clients[Before(e, k)], Own(s, e, Before(e, k)), S.Step(s, e).0.clients[k])
  {
    if e.UdpRx? {
      ReplyIsOwn(s, e.from, e.r, k);
    } else if e.Request? || e.Sent? || e.DebugRx? {
      LinkIsOwn(s, e, k);
    }
  }

  lemma {:induction false} RunThen(c: C.Report, a: seq<C.Event>, b: seq<C.Event>)
    requires C.IsRun(c, a) && C.IsRun(C.Run(c, a), b)
    ensures Follows(c, a + b, C.Run(C.Run(c, a), b))
    decreases a
  {
    if a == [] {
      assert a + b == b;
    } else {
      RunThen(C.Step(c, a[0]), a[1..], b);
      HeadApart(a, b);
      assert (a + b)[1..] == a[1..] + b;
    }
  }

  lemma {:induction false} WithReadyIs(ps: seq<Provider>, n: nat)
    requires n <= |ps|
    ensures Follows(C.FRESH, Additions([], ps, n), S.WithReady(ps, n))
  {
    if n > 0 {
      WithReadyIs(ps, n - 1);
      assert Additions([], ps, n - 1) + [] == Additions([], ps, n - 1);
      if ps[n - 1].txState == Ready {
        OneEvent(S.WithReady(ps, n - 1), C.Add(n - 1));
        RunThen(C.FRESH, Additions([], ps, n - 1), [C.Add(n - 1)]);
      }
    }
  }

  /** A new client comes last, and has been given the READY providers in list order and then started. */
  lemma JoinedIs(s: S.Server)
    requires S.ServerInv(s)
    ensures var t := S.NewSrc(s);
            && |t.clients| == |s.clients| + 1
            && Follows(C.FRESH, Joining(s.providers), t.clients[|s.clients|])
  {
    var n := |s.providers|;
    WithReadyIs(s.providers, n);
    S.WithReadyLists(s.providers, n);
    OneEvent(S.WithReady(s.providers, n), C.Start);
    RunThen(C.FRESH, Additions([], s.providers, n), [C.Start]);
  }

  // ---- whole runs ----

  lemma {:induction false} RunFront(s: S.Server, es: seq<S.Event>)
    requires S.IsRun(s, es) && es != []
    ensures var n := |es| - 1;
            && S.IsRun(s, es[..n]) && S.Enabled(S.Run(s, es[..n]), es[n])
            && S.Run(s, es) == S.Step(S.Run(s, es[..n]), es[n]).0
    decreases es
  {
    if |es| > 1 {
      RunFront(S.Step(s, es[0]).0, es[1..]);
      assert es[..|es| - 1][1..] == es[1..][..|es| - 2];
    } else {
      assert es[1..] == [];
    }
  }

  /** All that has happened to the client that stands at place k after this run. */
  function Trace(s: S.Server, es: seq<S.Event>, k: nat): seq<C.Event>
    requires S.ServerInv(s) && s.clients == [] && S.IsRun(s, es) && k < |S.Run(s, es).clients|
    decreases |es|
  {
    if es == [] then []
    else
      RunFront(s, es);
      var (front, e) := (es[..|es| - 1], es[|es| - 1]);
      var now := S.Run(s, front);
      S.ServerRunKeeps(s, front);
      if e.Connected? && k == |now.clients| then Joining(now.providers)
      else
        StepIsOwn(now, e, k);
        Trace(s, front, Before(e, k)) + Own(now, e, Before(e, k))
  }

  /** In every run of the server each client object is exactly what the client machine makes of the client's own
      events: its requests and completions, the providers that become READY, and the debug frames. */
  lemma {:induction false} ClientIsItsTrace(s: S.Server, es: seq<S.Event>, k: nat)
    requires S.ServerInv(s) && s.clients == [] && S.IsRun(s, es) && k < |S.Run(s, es).clients|
    ensures Follows(C.FRESH, Trace(s, es, k), S.Run(s, es).clients[k])
    decreases |es|
  {
    if es != [] {
      RunFront(s, es);
      var (front, e) := (es[..|es| - 1], es[|es| - 1]);
      var now := S.Run(s, front);
      S.ServerRunKeeps(s, front);
      if e.Connected? && k == |now.clients| {
        JoinedIs(now);
      } else {
        StepIsOwn(now, e, k);
        ClientIsItsTrace(s, front, Before(e, k));
        RunThen(C.FRESH, Trace(s, front, Before(e, k)), Own(now, e, Before(e, k)));
      }
    }
  }

  /** So a client's acknowledgements answer its own requests, whatever the other clients ask for, and its reporting,
      debugging and events are on exactly when it has asked for them itself. */
  lemma ClientsAreApart(debugPort: u16, eventPort: u16, es: seq<S.Event>, k: nat)
    requires S.IsRun(S.Initial(debugPort, eventPort), es) && k < |S.Run(S.Initial(debugPort, eventPort), es).clients|
    ensures var (c, own) := (S.Run(S.Initial(debugPort, eventPort), es).clients[k],
              Trace(S.Initial(debugPort, eventPort), es, k));
            && C.AckTags(c.sent) == C.RequestTags(own)
            && (c.reportNodes <==> exists e :: e in own && C.IsRequest(e, 2))
            && (c.debug <==> exists e :: e in own && C.IsRequest(e, 5))
            && (c.event <==> exists e :: e in own && C.IsRequest(e, 6))
  {
    ClientIsItsTrace(S.Initial(debugPort, eventPort), es, k);
    C.RequestsAreAnswered(Trace(S.Initial(debugPort, eventPort), es, k));
  }
}
