// The management server (src/hnode-srvobj.c): providers, clients, object IDs, and the fan-out between them.

module Server {
  import opened Basics
  import opened Mgmt
  import opened ClientReport
  import opened P = Provider

  datatype Datagram = Datagram(to: SockAddr, request: Request)

  /** The server's lists; a ProviderRef is a position in `providers`, from which nothing is ever removed. */
  datatype Server = Server(providers: seq<Provider>, clients: seq<Report>, nextProviderID: nat, debugPort: u16,
    eventPort: u16)

  function Initial(debugPort: u16, eventPort: u16): Server {
    Server([], [], 0, debugPort, eventPort)
  }

  // ---- the handlers ----

  function Outgoing(p: Provider, m: Option<Request>): seq<Datagram> {
    if m.Some? then [Datagram(p.addr, m.value)] else []
  }

  /** g_hnode_server_resolve_callback: a service has been resolved at addr. */
  function Resolved(s: Server, addr: SockAddr): (Server, seq<Datagram>) {
    var (p, m) := GenerateTxRequest(P.Start(NewProvider(addr)).0);
    (s.(providers := s.providers + [p]), Outgoing(p, m))
  }

  /** The first provider that claims a packet from this address, or the number of providers. */
  function Claimant(ps: seq<Provider>, from: SockAddr): (i: nat)
    ensures i <= |ps|
    ensures i < |ps| ==> ps[i].addr == from
  {
    if ps == [] || ps[0].addr == from then 0 else 1 + Claimant(ps[1..], from)
  }

  function TellAll(clients: seq<Report>, node: ProviderRef): (r: seq<Report>)
    ensures |r| == |clients|
    ensures forall k :: 0 <= k < |clients| ==> r[k] == AddNode(clients[k], node)
  {
    if clients == [] then [] else TellAll(clients[..|clients| - 1], node) + [AddNode(clients[|clients| - 1], node)]
  }

  function Stored(s: Server, i: nat, p: Provider): Server
    requires i < |s.providers|
  {
    s.(providers := s.providers[i := p])
  }

  /** What the server does when provider i signals: a completed provider is claimed with the next object ID, a
      READY one is passed to every client. */
  function OnSignal(s: Server, i: nat, signal: Signal): (Server, seq<Datagram>)
    requires i < |s.providers|
  {
    match signal
    case Quiet => (s, [])
    case TxRequest =>
      var (q, m) := GenerateTxRequest(s.providers[i]);
      (Stored(s, i, q), Outgoing(q, m))
    case InfoComplete =>
      var (q, m) := GenerateTxRequest(Claim(s.providers[i], s.nextProviderID, s.debugPort, s.eventPort).0);
      (Stored(s, i, q).(nextProviderID := s.nextProviderID + 1), Outgoing(q, m))
    case NowReady => (s.(clients := TellAll(s.clients, i)), [])
  }

  /** A reply for provider i, with the signals it sets off acted on before anything else. */
  function ProviderRx(s: Server, i: nat, r: Reply): (Server, seq<Datagram>)
    requires i < |s.providers| && CanProcess(s.providers[i], r)
  {
    var (p, signal) := ProcessRxReply(s.providers[i], r);
    OnSignal(Stored(s, i, p), i, signal)
  }

  predicate CanReceive(s: Server, from: SockAddr, r: Reply) {
    var i := Claimant(s.providers, from);
    i < |s.providers| ==> CanProcess(s.providers[i], r)
  }

  function HNodeRx(s: Server, from: SockAddr, r: Reply): (Server, seq<Datagram>)
    requires CanReceive(s, from, r)
  {
    var i := Claimant(s.providers, from);
    if i < |s.providers| then ProviderRx(s, i, r) else (s, [])
  }

  /** A new client is given the first n providers, those of them that are READY, in list order. */
  function WithReady(ps: seq<Provider>, n: nat): Report
    requires n <= |ps|
  {
    if n == 0 then FRESH
    else if ps[n - 1].txState == Ready then AddNode(WithReady(ps, n - 1), n - 1)
    else WithReady(ps, n - 1)
  }

  function NewSrc(s: Server): Server {
    var c := WithReady(s.providers, |s.providers|);
    s.(clients := s.clients + [c.(state := Idle)])
  }

  function ForwardAll(clients: seq<Report>, frame: DebugFrame): (r: seq<Report>)
    ensures |r| == |clients|
    ensures forall k :: 0 <= k < |clients| ==> r[k] == ForwardDebug(clients[k], frame)
  {
    if clients == [] then []
    else ForwardAll(clients[..|clients| - 1], frame) + [ForwardDebug(clients[|clients| - 1], frame)]
  }

  datatype Event =
    | Found(addr: SockAddr)
    | UdpRx(from: SockAddr, r: Reply)
    | Connected
    | Closed(k: nat)
    | Request(k: nat, reqType: u32, ioTag: u32)
    | Sent(k: nat)
    | DebugRx(frame: DebugFrame)

  predicate Enabled(s: Server, e: Event) {
    match e
    case UdpRx(from, r) => CanReceive(s, from, r)
    case Closed(k) => k < |s.clients|
    case Request(k, t, g) => k < |s.clients| && ClientReport.Enabled(s.clients[k], Rx(t, g))
    case Sent(k) => k < |s.clients| && ClientReport.Enabled(s.clients[k], TxDone)
    case _ => true
  }

  function Step(s: Server, e: Event): (Server, seq<Datagram>)
    requires Enabled(s, e)
  {
    match e
    case Found(addr) => Resolved(s, addr)
    case UdpRx(from, r) => HNodeRx(s, from, r)
    case Connected => (NewSrc(s), [])
    case Closed(k) => (s.(clients := s.clients[..k] + s.clients[k + 1..]), [])
    case Request(k, t, g) => (s.(clients := s.clients[k := ClientReport.Step(s.clients[k], Rx(t, g))]), [])
    case Sent(k) => (s.(clients := s.clients[k := ClientReport.Step(s.clients[k], TxDone)]), [])
    case DebugRx(frame) => (s.(clients := ForwardAll(s.clients, frame)), [])
  }

  predicate IsRun(s: Server, es: seq<Event>)
    decreases es
  {
    es == [] || (Enabled(s, es[0]) && IsRun(Step(s, es[0]).0, es[1..]))
  }

  function Run(s: Server, es: seq<Event>): Server
    requires IsRun(s, es)
    decreases es
  {
    if es == [] then s else Run(Step(s, es[0]).0, es[1..])
  }

  // ---- object IDs ----

  predicate IsClaimed(p: Provider) {
    p.txState in {SendSysInfo, WaitSysInfoAck, Ready}
  }

  ghost predicate IdsOk(ps: seq<Provider>, next: nat) {
    && (forall i :: 0 <= i < |ps| && IsClaimed(ps[i]) ==> ps[i].serverObjID < next)
    && (forall i, j :: 0 <= i < j < |ps| && IsClaimed(ps[i]) && IsClaimed(ps[j]) ==>
      ps[i].serverObjID != ps[j].serverObjID)
  }

  ghost predicate Waiting(ps: seq<Provider>) {
    forall i :: 0 <= i < |ps| ==> ps[i].txState in {WaitPInfoRpy, WaitEPointRpy, WaitSysInfoAck, Ready}
  }

  // ---- agreement between the providers and a client's list ----

  ghost predicate Holds(c: Report, i: ProviderRef) {
    exists k :: 0 <= k < |c.nodeList| && c.nodeList[k].node == i
  }

  ghost predicate Lists(c: Report, ps: seq<Provider>) {
    && (forall k :: 0 <= k < |c.nodeList| ==> c.nodeList[k].node < |ps| && ps[c.nodeList[k].node].txState == Ready)
    && (forall k, m :: 0 <= k < m < |c.nodeList| ==> c.nodeList[k].node != c.nodeList[m].node)
    && (forall i :: 0 <= i < |ps| && ps[i].txState == Ready ==> Holds(c, i))
  }

  /** The nodes of d are those of c, in the same places. */
  ghost predicate SameNodes(c: Report, d: Report) {
    && |d.nodeList| == |c.nodeList|
    && forall k :: 0 <= k < |c.nodeList| ==> d.nodeList[k].node == c.nodeList[k].node
  }

  ghost predicate AddsNode(c: Report, d: Report, i: ProviderRef) {
    && |d.nodeList| == |c.nodeList| + 1 && d.nodeList[|c.nodeList|].node == i
    && forall k :: 0 <= k < |c.nodeList| ==> d.nodeList[k].node == c.nodeList[k].node
  }

  lemma AddNodeAdds(c: Report, i: ProviderRef)
    ensures AddsNode(c, AddNode(c, i), i) && ((AddNode(c, i).state == Stopped) <==> (c.state == Stopped))
  {
  }

  lemma SameNodesList(c: Report, d: Report, ps: seq<Provider>)
    requires Lists(c, ps) && SameNodes(c, d)
    ensures Lists(d, ps)
  {
    forall i | 0 <= i < |ps| && ps[i].txState == Ready ensures Holds(d, i) {
      assert Holds(c, i);
      var k :| 0 <= k < |c.nodeList| && c.nodeList[k].node == i;
      assert d.nodeList[k].node == i;
    }
  }

  lemma NewlyReadyLists(c: Report, d: Report, ps: seq<Provider>, qs: seq<Provider>, i: ProviderRef)
    requires Lists(c, ps) && AddsNode(c, d, i) && i < |ps| && |qs| == |ps|
    requires ps[i].txState != Ready && qs[i].txState == Ready
    requires forall j :: 0 <= j < |ps| && j != i ==> qs[j] == ps[j]
    ensures Lists(d, qs)
  {
    forall j | 0 <= j < |qs| && qs[j].txState == Ready ensures Holds(d, j) {
      if j == i {
        assert d.nodeList[|c.nodeList|].node == j;
      } else {
        assert Holds(c, j);
        var k :| 0 <= k < |c.nodeList| && c.nodeList[k].node == j;
        assert d.nodeList[k].node == j;
      }
    }
  }

  ghost predicate ClientOk(c: Report, ps: seq<Provider>) {
    c.state != Stopped && Inv(c) && LogOk(c) && Lists(c, ps)
  }

  ghost predicate ServerInv(s: Server) {
    && Waiting(s.providers) && IdsOk(s.providers, s.nextProviderID)
    && forall k :: 0 <= k < |s.clients| ==> ClientOk(s.clients[k], s.providers)
  }

  // ---- one event at a time ----

  /** A change of provider i that leaves the READY providers as they are. */
  ghost predicate ReadyKept(ps: seq<Provider>, qs: seq<Provider>) {
    && |ps| <= |qs|
    && (forall j :: 0 <= j < |ps| ==> (qs[j].txState == Ready <==> ps[j].txState == Ready))
    && (forall j :: |ps| <= j < |qs| ==> qs[j].txState != Ready)
  }

  lemma ReadyKeptLists(c: Report, ps: seq<Provider>, qs: seq<Provider>)
    requires Lists(c, ps) && ReadyKept(ps, qs)
    ensures Lists(c, qs)
  {
  }

  lemma SameIds(ps: seq<Provider>, i: nat, q: Provider, next: nat)
    requires i < |ps| && IdsOk(ps, next) && (IsClaimed(q) ==> IsClaimed(ps[i]) && q.serverObjID == ps[i].serverObjID)
    ensures IdsOk(ps[i := q], next)
  {
  }

  lemma NextId(ps: seq<Provider>, i: nat, q: Provider, next: nat)
    requires i < |ps| && IdsOk(ps, next) && !IsClaimed(ps[i]) && q.serverObjID == next
    ensures IdsOk(ps[i := q], next + 1)
  {
  }

  /** What a reply does to the provider it is for, and whether it takes an object ID. */
  lemma ReplyIds(s: Server, i: nat, r: Reply)
    requires i < |s.providers| && CanProcess(s.providers[i], r)
    requires s.providers[i].txState in {WaitPInfoRpy, WaitEPointRpy, WaitSysInfoAck, Ready}
    ensures var (t, p) := (ProviderRx(s, i, r).0, s.providers[i]);
            && |t.providers| == |s.providers|
            && var q := t.providers[i];
            && t.providers == s.providers[i := q]
            && q.txState in {WaitPInfoRpy, WaitEPointRpy, WaitSysInfoAck, Ready}
            && (t.nextProviderID == s.nextProviderID ==>
              (IsClaimed(q) ==> IsClaimed(p) && q.serverObjID == p.serverObjID))
            && (t.nextProviderID != s.nextProviderID ==>
              t.nextProviderID == s.nextProviderID + 1 && !IsClaimed(p) && q.serverObjID == s.nextProviderID)
  {
  }

  lemma ProviderRxIds(s: Server, i: nat, r: Reply)
    requires i < |s.providers| && CanProcess(s.providers[i], r) && Waiting(s.providers)
             && IdsOk(s.providers, s.nextProviderID)
    ensures var t := ProviderRx(s, i, r).0;
            Waiting(t.providers) && IdsOk(t.providers, t.nextProviderID)
  {
    ReplyIds(s, i, r);
    var t := ProviderRx(s, i, r).0;
    if t.nextProviderID == s.nextProviderID {
      SameIds(s.providers, i, t.providers[i], s.nextProviderID);
    } else {
      NextId(s.providers, i, t.providers[i], s.nextProviderID);
    }
  }

  /** Only the reply that ends the acknowledgement wait makes a provider READY; nothing changes one that is. */
  lemma ProviderRxReady(s: Server, i: nat, r: Reply)
    requires i < |s.providers| && CanProcess(s.providers[i], r) && Waiting(s.providers)
    ensures var t := ProviderRx(s, i, r).0;
            && |t.providers| == |s.providers|
            && (forall j :: 0 <= j < |s.providers| && j != i ==> t.providers[j] == s.providers[j])
            && (s.providers[i].txState == Ready ==> t == s)
            && (s.providers[i].txState == WaitSysInfoAck ==>
              t.providers[i].txState == Ready && t.clients == TellAll(s.clients, i))
            && (s.providers[i].txState != WaitSysInfoAck ==>
              ReadyKept(s.providers, t.providers) && t.clients == s.clients)
  {
  }

  lemma ProviderRxKeeps(s: Server, i: nat, r: Reply)
    requires ServerInv(s) && i < |s.providers| && CanProcess(s.providers[i], r)
    ensures ServerInv(ProviderRx(s, i, r).0)
  {
    var t := ProviderRx(s, i, r).0;
    ProviderRxIds(s, i, r);
    ProviderRxReady(s, i, r);
    forall k | 0 <= k < |t.clients| ensures ClientOk(t.clients[k], t.providers) {
      assert ClientOk(s.clients[k], s.providers);
      if s.providers[i].txState == WaitSysInfoAck {
        AddNodeAdds(s.clients[k], i);
        AddNodeKeeps(s.clients[k], i);
        AddNodeLogs(s.clients[k], i);
        NewlyReadyLists(s.clients[k], t.clients[k], s.providers, t.providers, i);
      } else {
        ReadyKeptLists(s.clients[k], s.providers, t.providers);
      }
    }
  }

  lemma ResolvedKeeps(s: Server, addr: SockAddr)
    requires ServerInv(s)
    ensures ServerInv(Resolved(s, addr).0)
  {
    var t := Resolved(s, addr).0;
    forall k | 0 <= k < |t.clients| ensures ClientOk(t.clients[k], t.providers) {
      ReadyKeptLists(s.clients[k], s.providers, t.providers);
    }
  }

  ghost predicate ListsPrefix(c: Report, ps: seq<Provider>, n: nat)
    requires n <= |ps|
  {
    && (forall k :: 0 <= k < |c.nodeList| ==> c.nodeList[k].node < n && ps[c.nodeList[k].node].txState == Ready)
    && (forall k, m :: 0 <= k < m < |c.nodeList| ==> c.nodeList[k].node != c.nodeList[m].node)
    && (forall i :: 0 <= i < n && ps[i].txState == Ready ==> Holds(c, i))
  }

  ghost predicate HasReady(c: Report, ps: seq<Provider>, n: nat)
    requires n <= |ps|
  {
    c.state == Stopped && Inv(c) && LogOk(c) && ListsPrefix(c, ps, n)
  }

  lemma GrowPrefix(c: Report, d: Report, ps: seq<Provider>, n: nat)
    requires n < |ps| && ListsPrefix(c, ps, n) && ps[n].txState == Ready && AddsNode(c, d, n)
    ensures ListsPrefix(d, ps, n + 1)
  {
    forall i | 0 <= i < n + 1 && ps[i].txState == Ready ensures Holds(d, i) {
      if i == n {
        assert d.nodeList[|c.nodeList|].node == i;
      } else {
        assert Holds(c, i);
        var k :| 0 <= k < |c.nodeList| && c.nodeList[k].node == i;
        assert d.nodeList[k].node == i;
      }
    }
  }

  lemma AddReady(c: Report, ps: seq<Provider>, n: nat)
    requires n < |ps| && HasReady(c, ps, n) && ps[n].txState == Ready
    ensures HasReady(AddNode(c, n), ps, n + 1)
  {
    AddNodeKeeps(c, n);
    AddNodeLogs(c, n);
    AddNodeAdds(c, n);
    GrowPrefix(c, AddNode(c, n), ps, n);
  }

  lemma SkipUnready(c: Report, ps: seq<Provider>, n: nat)
    requires n < |ps| && HasReady(c, ps, n) && ps[n].txState != Ready
    ensures HasReady(c, ps, n + 1)
  {
  }

  lemma WithReadyNext(ps: seq<Provider>, n: nat, c: Report, d: Report)
    requires n < |ps| && c == WithReady(ps, n) && d == WithReady(ps, n + 1) && HasReady(c, ps, n)
    ensures HasReady(d, ps, n + 1)
  {
    if ps[n].txState == Ready { AddReady(c, ps, n); } else { SkipUnready(c, ps, n); }
  }

  lemma NoneReady(ps: seq<Provider>)
    ensures HasReady(FRESH, ps, 0)
  {
  }

  lemma {:induction false} WithReadyLists(ps: seq<Provider>, n: nat)
    requires n <= |ps|
    ensures HasReady(WithReady(ps, n), ps, n)
  {
    if n == 0 {
      NoneReady(ps);
    } else {
      WithReadyLists(ps, n - 1);
      WithReadyNext(ps, n - 1, WithReady(ps, n - 1), WithReady(ps, n));
    }
  }

  lemma PrefixIsAll(c: Report, ps: seq<Provider>)
    requires ListsPrefix(c, ps, |ps|)
    ensures Lists(c, ps)
  {
  }

  lemma WithReadyOk(ps: seq<Provider>)
    ensures ClientOk(WithReady(ps, |ps|).(state := Idle), ps)
  {
    WithReadyLists(ps, |ps|);
    var c := WithReady(ps, |ps|);
    StepKeeps(c, ClientReport.Start);
    StepLogs(c, ClientReport.Start);
    PrefixIsAll(c, ps);
    SameNodesList(c, c.(state := Idle), ps);
  }

  lemma NewSrcKeeps(s: Server)
    requires ServerInv(s)
    ensures ServerInv(NewSrc(s))
  {
    WithReadyOk(s.providers);
    var t := NewSrc(s);
    forall k | 0 <= k < |t.clients| ensures ClientOk(t.clients[k], t.providers) {
      if k < |s.clients| { assert t.clients[k] == s.clients[k]; }
    }
  }

  lemma ClientStepNodes(c: Report, e: ClientReport.Event)
    requires ClientReport.Enabled(c, e) && (e.Rx? || e.TxDone? || e.Forward?) && c.state != Stopped
    ensures SameNodes(c, ClientReport.Step(c, e)) && ClientReport.Step(c, e).state != Stopped
  {
  }

  lemma ClientStepKeeps(c: Report, e: ClientReport.Event, ps: seq<Provider>)
    requires ClientOk(c, ps) && ClientReport.Enabled(c, e) && (e.Rx? || e.TxDone? || e.Forward?)
    ensures ClientOk(ClientReport.Step(c, e), ps)
  {
    StepKeeps(c, e);
    StepLogs(c, e);
    ClientStepNodes(c, e);
    SameNodesList(c, ClientReport.Step(c, e), ps);
  }

  lemma ServerStepKeeps(s: Server, e: Event)
    requires ServerInv(s) && Enabled(s, e)
    ensures ServerInv(Step(s, e).0)
  {
    match e
    case Found(addr) => ResolvedKeeps(s, addr);
    case UdpRx(from, r) =>
      var i := Claimant(s.providers, from);
      if i < |s.providers| { ProviderRxKeeps(s, i, r); }
    case Connected => NewSrcKeeps(s);
    case Closed(k) =>
    case Request(k, t, g) => ClientStepKeeps(s.clients[k], Rx(t, g), s.providers);
    case Sent(k) => ClientStepKeeps(s.clients[k], TxDone, s.providers);
    case DebugRx(frame) =>
      forall k | 0 <= k < |s.clients| ensures ClientOk(ForwardAll(s.clients, frame)[k], s.providers) {
        ClientStepKeeps(s.clients[k], Forward(frame), s.providers);
      }
  }

  lemma {:induction false} ServerRunKeeps(s: Server, es: seq<Event>)
    requires ServerInv(s) && IsRun(s, es)
    ensures ServerInv(Run(s, es))
    decreases es
  {
    if es != [] {
      ServerStepKeeps(s, es[0]);
      ServerRunKeeps(Step(s, es[0]).0, es[1..]);
    }
  }

  /** Claimed providers carry the server's own ports. */
  ghost predicate PortsOk(s: Server) {
    forall i :: 0 <= i < |s.providers| && IsClaimed(s.providers[i]) ==>
      s.providers[i].debugPort == s.debugPort && s.providers[i].eventPort == s.eventPort
  }

  lemma ReplyPorts(s: Server, i: nat, r: Reply)
    requires i < |s.providers| && CanProcess(s.providers[i], r) && PortsOk(s)
    requires s.providers[i].txState in {WaitPInfoRpy, WaitEPointRpy, WaitSysInfoAck, Ready}
    ensures PortsOk(ProviderRx(s, i, r).0)
    ensures ProviderRx(s, i, r).0.debugPort == s.debugPort && ProviderRx(s, i, r).0.eventPort == s.eventPort
  {
  }

  lemma StepPorts(s: Server, e: Event)
    requires ServerInv(s) && PortsOk(s) && Enabled(s, e)
    ensures PortsOk(Step(s, e).0) && Step(s, e).0.debugPort == s.debugPort && Step(s, e).0.eventPort == s.eventPort
  {
    if e.UdpRx? {
      var i := Claimant(s.providers, e.from);
      if i < |s.providers| { ReplyPorts(s, i, e.r); }
    }
  }

  lemma {:induction false} RunPorts(s: Server, es: seq<Event>)
    requires ServerInv(s) && PortsOk(s) && IsRun(s, es)
    ensures PortsOk(Run(s, es)) && Run(s, es).debugPort == s.debugPort && Run(s, es).eventPort == s.eventPort
    decreases es
  {
    if es != [] {
      ServerStepKeeps(s, es[0]);
      StepPorts(s, es[0]);
      RunPorts(Step(s, es[0]).0, es[1..]);
    }
  }

  /** In every reachable state each connected client lists each READY provider exactly once and no other,
      no two claimed providers share a server object ID, and all carry the server's ports. */
  lemma ServerAgreement(debugPort: u16, eventPort: u16, es: seq<Event>)
    requires IsRun(Initial(debugPort, eventPort), es)
    ensures var s := Run(Initial(debugPort, eventPort), es);
            forall k, i :: 0 <= k < |s.clients| && 0 <= i < |s.providers| ==>
              (s.providers[i].txState == Ready <==> Holds(s.clients[k], i))
    ensures var s := Run(Initial(debugPort, eventPort), es);
            forall k, a, b :: 0 <= k < |s.clients| && 0 <= a < b < |s.clients[k].nodeList| ==>
              s.clients[k].nodeList[a].node != s.clients[k].nodeList[b].node
    ensures var s := Run(Initial(debugPort, eventPort), es);
            forall k, a :: 0 <= k < |s.clients| && 0 <= a < |s.clients[k].nodeList| ==>
              s.clients[k].nodeList[a].node < |s.providers|
    ensures var s := Run(Initial(debugPort, eventPort), es);
            forall i, j :: 0 <= i < j < |s.providers| && IsClaimed(s.providers[i]) && IsClaimed(s.providers[j]) ==>
              s.providers[i].serverObjID != s.providers[j].serverObjID
    ensures var s := Run(Initial(debugPort, eventPort), es);
            forall i :: 0 <= i < |s.providers| && IsClaimed(s.providers[i]) ==>
              s.providers[i].debugPort == debugPort && s.providers[i].eventPort == eventPort
  {
    RunPorts(Initial(debugPort, eventPort), es);
    ServerRunKeeps(Initial(debugPort, eventPort), es);
    var s := Run(Initial(debugPort, eventPort), es);
    forall k, i | 0 <= k < |s.clients| && 0 <= i < |s.providers|
      ensures s.providers[i].txState == Ready <==> Holds(s.clients[k], i)
    {
      assert ClientOk(s.clients[k], s.providers);
    }
    forall k, a, b | 0 <= k < |s.clients| && 0 <= a < b < |s.clients[k].nodeList|
      ensures s.clients[k].nodeList[a].node != s.clients[k].nodeList[b].node
    {
      assert ClientOk(s.clients[k], s.providers);
    }
    forall k, a | 0 <= k < |s.clients| && 0 <= a < |s.clients[k].nodeList|
      ensures s.clients[k].nodeList[a].node < |s.providers|
    {
      assert ClientOk(s.clients[k], s.providers);
    }
  }

  /** A READY provider never changes again, so what was reported about it stays true. */
  lemma ReadyIsFinal(s: Server, e: Event, i: ProviderRef)
    requires ServerInv(s) && Enabled(s, e) && i < |s.providers| && s.providers[i].txState == Ready
    ensures var t := Step(s, e).0;
            i < |t.providers| && t.providers[i] == s.providers[i]
  {
    match e
    case UdpRx(from, r) =>
      var j := Claimant(s.providers, from);
      if j < |s.providers| { ProviderRxReady(s, j, r); }
    case _ =>
  }
}
