// The discovery and claim handshake of one provider and its node, over a network that loses, duplicates and
// reorders datagrams.

module Handshake {
  import opened Basics
  import opened NodeCodec
  import opened Provider

  /** What the server decides for this provider when it claims it. */
  datatype Claiming = Claiming(serverObjID: nat, debugPort: u16, eventPort: u16)

  datatype Message = ToNode(request: Request) | ToServer(reply: Reply)

  /** One provider, its node, and the datagrams between them. */
  datatype System = System(p: Provider, n: Node, net: multiset<Message>)

  function Transmit(p: Provider): (Provider, multiset<Message>) {
    var (q, m) := GenerateTxRequest(p);
    (q, if m.Some? then multiset{ToNode(m.value)} else multiset{})
  }

  /** The server's handling of one reply, with the signals it sets off acted on at once. */
  function ServerReceives(p: Provider, r: Reply, c: Claiming): (Provider, multiset<Message>)
    requires CanProcess(p, r)
  {
    var (q, signal) := ProcessRxReply(p, r);
    match signal
    case TxRequest => Transmit(q)
    case InfoComplete =>
      var (claimed, s) := Claim(q, c.serverObjID, c.debugPort, c.eventPort);
      if s == TxRequest then Transmit(claimed) else (claimed, multiset{})
    case _ => (q, multiset{})
  }

  function Started(addr: SockAddr, n: Node): System {
    var (p, out) := Transmit(Start(NewProvider(addr)).0);
    System(p, n, out)
  }

  /** The network may deliver a datagram to either end, lose it, or make a second copy of it; order is free. */
  datatype Event = NodeGets(q: Request) | ServerGets(r: Reply) | Lost(m: Message) | Copied(m: Message)

  predicate Enabled(s: System, e: Event) {
    match e
    case NodeGets(q) => ToNode(q) in s.net && CanAnswer(s.n, q)
    case ServerGets(r) => ToServer(r) in s.net && CanProcess(s.p, r)
    case Lost(m) => m in s.net
    case Copied(m) => m in s.net
  }

  function Step(s: System, e: Event, c: Claiming): System
    requires Enabled(s, e)
  {
    match e
    case NodeGets(q) =>
      var (n, r) := Answer(s.n, q);
      System(s.p, n, s.net - multiset{ToNode(q)} + multiset{ToServer(r)})
    case ServerGets(r) =>
      var (p, out) := ServerReceives(s.p, r, c);
      System(p, s.n, s.net - multiset{ToServer(r)} + out)
    case Lost(m) => s.(net := s.net - multiset{m})
    case Copied(m) => s.(net := s.net + multiset{m})
  }

  predicate IsRun(s: System, es: seq<Event>, c: Claiming)
    decreases es
  {
    es == [] || (Enabled(s, es[0]) && IsRun(Step(s, es[0], c), es[1..], c))
  }

  function Run(s: System, es: seq<Event>, c: Claiming): System
    requires IsRun(s, es, c)
    decreases es
  {
    if es == [] then s else Run(Step(s, es[0], c), es[1..], c)
  }

  // ---- safety: loss, duplication and reordering allowed ----

  ghost predicate Safe(s: System) {
    && NodeOk(s.n) && s.n.endpoints != []
    && Sound(s.p, s.n)
    && (forall q :: ToNode(q) in s.net ==> CanAnswer(s.n, q))
    && (forall r :: ToServer(r) in s.net ==> Authentic(s.n, r))
    && s.p.txState in {WaitPInfoRpy, WaitEPointRpy, WaitSysInfoAck, Ready}
  }

  lemma ServerReceivesSafely(p: Provider, n: Node, r: Reply, c: Claiming)
    requires Sound(p, n) && Authentic(n, r) && NodeOk(n) && n.endpoints != []
    requires p.txState in {WaitPInfoRpy, WaitEPointRpy, WaitSysInfoAck, Ready}
    ensures CanProcess(p, r)
    ensures var (q, out) := ServerReceives(p, r, c);
            && Sound(q, n) && q.txState in {WaitPInfoRpy, WaitEPointRpy, WaitSysInfoAck, Ready}
            && forall m :: m in out ==> m.ToNode? && CanAnswer(n, m.request)
  {
    SoundReply(p, n, r);
    var (q, signal) := ProcessRxReply(p, r);
    SoundRequest(q, n);
    if signal == InfoComplete {
      var claimed := Claim(q, c.serverObjID, c.debugPort, c.eventPort).0;
      assert Agrees(claimed, n);
      SoundRequest(claimed, n);
    }
  }

  lemma NodeGetsSafely(s: System, q: Request, c: Claiming)
    requires Safe(s) && Enabled(s, NodeGets(q))
    ensures Safe(Step(s, NodeGets(q), c))
  {
    AnswerIsAuthentic(s.n, q);
    var t := Step(s, NodeGets(q), c);
    forall r | ToServer(r) in t.net ensures Authentic(t.n, r) {
      if r != Answer(s.n, q).1 { assert ToServer(r) in s.net; }
    }
  }

  lemma ServerGetsSafely(s: System, r: Reply, c: Claiming)
    requires Safe(s) && Enabled(s, ServerGets(r))
    ensures Safe(Step(s, ServerGets(r), c))
  {
    ServerReceivesSafely(s.p, s.n, r, c);
  }

  lemma StepSafe(s: System, e: Event, c: Claiming)
    requires Safe(s) && Enabled(s, e)
    ensures Safe(Step(s, e, c))
    ensures Step(s, e, c).n.head == s.n.head && Step(s, e, c).n.endpoints == s.n.endpoints
  {
    match e
    case NodeGets(q) => NodeGetsSafely(s, q, c);
    case ServerGets(r) => ServerGetsSafely(s, r, c);
    case Lost(m) =>
    case Copied(m) =>
  }

  lemma {:induction false} RunSafe(s: System, es: seq<Event>, c: Claiming)
    requires Safe(s) && IsRun(s, es, c)
    ensures Safe(Run(s, es, c))
    ensures Run(s, es, c).n.head == s.n.head && Run(s, es, c).n.endpoints == s.n.endpoints
    decreases es
  {
    if es != [] {
      StepSafe(s, es[0], c);
      RunSafe(Step(s, es[0], c), es[1..], c);
    }
  }

  /** On a network that loses, duplicates and reorders: the provider's picture of the node is always right as
      far as it goes, complete whenever it is claimed and from then on, and neither side ever indexes outside
      its endpoint array. */
  lemma HandshakeSafety(addr: SockAddr, n: Node, es: seq<Event>, c: Claiming)
    requires NodeOk(n) && n.endpoints != [] && IsRun(Started(addr, n), es, c)
    ensures var s := Run(Started(addr, n), es, c);
            && (s.p.txState in {WaitSysInfoAck, Ready} ==> Agrees(s.p, n))
            && (s.p.txState == WaitEPointRpy ==>
              s.p.reqEndPoint < |s.p.endPoints| && EndpointsAgree(s.p, n, s.p.reqEndPoint))
    ensures var s := Run(Started(addr, n), es, c);
            && (forall q :: ToNode(q) in s.net ==> CanAnswer(n, q))
            && (forall r :: ToServer(r) in s.net ==> CanProcess(s.p, r))
    ensures var s := Run(Started(addr, n), es, c);
            forall r :: ToServer(r) in s.net && CanProcess(s.p, r) && ProcessRxReply(s.p, r).1 == InfoComplete ==>
              ProcessRxReply(s.p, r).0.txState == WaitClaim && Agrees(ProcessRxReply(s.p, r).0, n)
  {
    RunSafe(Started(addr, n), es, c);
    var s := Run(Started(addr, n), es, c);
    forall r | ToServer(r) in s.net
      ensures CanProcess(s.p, r)
      ensures ProcessRxReply(s.p, r).1 == InfoComplete ==>
              ProcessRxReply(s.p, r).0.txState == WaitClaim && Agrees(ProcessRxReply(s.p, r).0, n)
    {
      SoundReply(s.p, s.n, r);
    }
  }

  // ---- a node without endpoints ----

  /** After the reply of a node without endpoints the provider asks for endpoint 0 all the same. */
  lemma ZeroEndpointsAsked(addr: SockAddr, n: Node, c: Claiming)
    requires NodeOk(n) && n.endpoints == []
    ensures var es := [NodeGets(PInfoReq(0)), ServerGets(PInfoRpy(0, n.head))];
            && IsRun(Started(addr, n), es, c)
            && ToNode(EPInfoReq(1, 0)) in Run(Started(addr, n), es, c).net
            && !CanAnswer(n, EPInfoReq(1, 0))
  {
    var s0 := Started(addr, n);
    var e0, e1 := NodeGets(PInfoReq(0)), ServerGets(PInfoRpy(0, n.head));
    var s1 := Step(s0, e0, c);
    var s2 := Step(s1, e1, c);
    assert IsRun(s1, [e1], c) && Run(s1, [e1], c) == s2;
    assert [e0, e1][1..] == [e1];
  }

  /** Every request a node ever gets is one it can answer exactly when it has an endpoint. */
  lemma AnswerableIffSomeEndpoint(addr: SockAddr, n: Node, c: Claiming)
    requires NodeOk(n)
    ensures n.endpoints != [] <==>
            forall es | IsRun(Started(addr, n), es, c) ::
              forall q :: ToNode(q) in Run(Started(addr, n), es, c).net ==> CanAnswer(n, q)
  {
    if n.endpoints == [] {
      ZeroEndpointsAsked(addr, n, c);
    } else {
      forall es | IsRun(Started(addr, n), es, c)
        ensures forall q :: ToNode(q) in Run(Started(addr, n), es, c).net ==> CanAnswer(n, q)
      {
        HandshakeSafety(addr, n, es, c);
      }
    }
  }
}
