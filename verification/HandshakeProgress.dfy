// What the handshake of one provider and its node reaches on a reliable network.

module HandshakeProgress {
  import opened Basics
  import opened NodeCodec
  import opened Provider
  import opened Handshake

  /** The request a waiting provider has last sent. */
  function Outstanding(p: Provider): Request
    requires p.txState in {WaitPInfoRpy, WaitEPointRpy, WaitSysInfoAck}
  {
    match p.txState
    case WaitPInfoRpy => PInfoReq(p.reqTag)
    case WaitEPointRpy => EPInfoReq(p.reqTag, p.reqEndPoint)
    case _ => SysInfoReq(p.reqTag, p.debugPort, p.eventPort, p.serverObjID)
  }

  /** The node has been told the identity and ports this provider was claimed with. */
  predicate Claimed(n: Node, p: Provider) {
    n.serverValid && n.serverObjID == p.serverObjID && n.debugPort == p.debugPort && n.eventPort == p.eventPort
  }

  /** The node knows the very identity and ports the server has claimed it with. */
  predicate KnowsClaim(n: Node, c: Claiming) {
    n.serverValid && n.serverObjID == c.serverObjID && n.debugPort == c.debugPort && n.eventPort == c.eventPort
  }

  predicate Reliable(e: Event) { e.NodeGets? || e.ServerGets? }

  ghost predicate RequestInFlight(s: System) {
    && s.p.txState in {WaitPInfoRpy, WaitEPointRpy, WaitSysInfoAck}
    && s.net == multiset{ToNode(Outstanding(s.p))}
  }

  ghost predicate AnswerInFlight(s: System) {
    && s.p.txState in {WaitPInfoRpy, WaitEPointRpy, WaitSysInfoAck}
    && CanAnswer(s.n, Outstanding(s.p))
    && s.net == multiset{ToServer(Answer(s.n, Outstanding(s.p)).1)}
    && (s.p.txState == WaitSysInfoAck ==> Claimed(s.n, s.p))
  }

  /** Without duplication there is never more than one datagram: the outstanding request or its answer. */
  ghost predicate OneInFlight(s: System) {
    && Safe(s)
    && (s.p.txState == Ready ==> s.net == multiset{} && Claimed(s.n, s.p))
    && (s.p.txState != Ready ==>
      || s.net == multiset{}
      || RequestInFlight(s)
      || AnswerInFlight(s))
  }

  lemma NodeAnswers(s: System, q: Request, c: Claiming)
    requires OneInFlight(s) && Enabled(s, NodeGets(q))
    ensures RequestInFlight(s) && q == Outstanding(s.p)
    ensures OneInFlight(Step(s, NodeGets(q), c)) && AnswerInFlight(Step(s, NodeGets(q), c))
  {
    NodeGetsSafely(s, q, c);
    assert RequestInFlight(s);
    assert ToNode(q) in multiset{ToNode(Outstanding(s.p))};
    var t := Step(s, NodeGets(q), c);
    assert t.net == multiset{ToServer(Answer(s.n, q).1)};
  }

  /** Exchanges still to come before READY. */
  function Exchanges(s: System): int {
    match s.p.txState
    case WaitPInfoRpy => |s.n.endpoints| + 2
    case WaitEPointRpy => |s.n.endpoints| - s.p.reqEndPoint + 1
    case WaitSysInfoAck => 1
    case _ => 0
  }

  // What the server makes of the answer it is waiting for, state by state.

  lemma AfterHead(p: Provider, h: Head, c: Claiming)
    requires p.txState == WaitPInfoRpy && h.endPointCount > 0
    ensures var (q, out) := ServerReceives(p, PInfoRpy(p.reqTag, h), c);
            && q == AcceptHead(p, h).(txState := WaitEPointRpy)
            && out == multiset{ToNode(EPInfoReq(p.reqTag + 1, 0))}
  {
  }

  lemma AfterEndpoint(p: Provider, e: EndpointRecord, c: Claiming)
    requires p.txState == WaitEPointRpy && p.reqEndPoint < |p.endPoints|
    ensures var (q, out) := ServerReceives(p, EPInfoRpy(p.reqTag, p.reqEndPoint, e), c);
            && q.reqTag == p.reqTag + 1 && q.reqEndPoint == p.reqEndPoint + 1 && |q.endPoints| == |p.endPoints|
            && (if p.reqEndPoint + 1 < |p.endPoints| then
              && q.txState == WaitEPointRpy
              && out == multiset{ToNode(EPInfoReq(p.reqTag + 1, p.reqEndPoint + 1))}
            else
              && q.txState == WaitSysInfoAck
              && q.serverObjID == c.serverObjID && q.debugPort == c.debugPort && q.eventPort == c.eventPort
              && out == multiset{ToNode(SysInfoReq(p.reqTag + 1, c.debugPort, c.eventPort, c.serverObjID))})
  {
  }

  lemma AfterAnything(p: Provider, r: Reply, c: Claiming)
    requires p.txState == WaitSysInfoAck
    ensures ServerReceives(p, r, c) == (p.(reqTag := p.reqTag + 1, txState := Ready), multiset{})
  {
  }

  lemma ServerReceivesOutstanding(p: Provider, n: Node, c: Claiming)
    requires p.txState in {WaitPInfoRpy, WaitEPointRpy, WaitSysInfoAck} && CanAnswer(n, Outstanding(p))
    requires NodeOk(n) && n.endpoints != [] && Sound(p, n)
    ensures CanProcess(p, Answer(n, Outstanding(p)).1)
    ensures var (q, out) := ServerReceives(p, Answer(n, Outstanding(p)).1, c);
            && q.reqTag == p.reqTag + 1
            && (if p.txState == WaitSysInfoAck then q.txState == Ready && out == multiset{}
                else q.txState in {WaitEPointRpy, WaitSysInfoAck} && out == multiset{ToNode(Outstanding(q))})
    ensures var (q, out) := ServerReceives(p, Answer(n, Outstanding(p)).1, c);
            && (p.txState == WaitPInfoRpy ==> q.txState == WaitEPointRpy && q.reqEndPoint == 0)
            && (p.txState == WaitEPointRpy ==> q.reqEndPoint == p.reqEndPoint + 1)
            && (p.txState == WaitEPointRpy ==>
              q.txState == (if q.reqEndPoint < |n.endpoints| then WaitEPointRpy else WaitSysInfoAck))
            && (p.txState == WaitSysInfoAck ==>
              q.serverObjID == p.serverObjID && q.debugPort == p.debugPort && q.eventPort == p.eventPort)
  {
    if p.txState == WaitPInfoRpy {
      AfterHead(p, n.head, c);
    } else if p.txState == WaitEPointRpy {
      AfterEndpoint(p, n.endpoints[p.reqEndPoint], c);
    } else {
      AfterAnything(p, Answer(n, Outstanding(p)).1, c);
    }
  }

  lemma OnlyAnswer(s: System, r: Reply)
    requires OneInFlight(s) && ToServer(r) in s.net
    ensures AnswerInFlight(s) && r == Answer(s.n, Outstanding(s.p)).1 && s.net == multiset{ToServer(r)}
  {
    assert AnswerInFlight(s);
    assert ToServer(r) in multiset{ToServer(Answer(s.n, Outstanding(s.p)).1)};
  }

  lemma TakenFromNet(s: System, r: Reply, c: Claiming)
    requires Enabled(s, ServerGets(r)) && s.net == multiset{ToServer(r)}
    ensures var (q, out) := ServerReceives(s.p, r, c);
            Step(s, ServerGets(r), c) == System(q, s.n, out)
  {
    assert s.net - multiset{ToServer(r)} == multiset{};
  }

  /** The answer moves the provider on: to its next request, or to READY. */
  lemma ServerMovesOn(s: System, r: Reply, c: Claiming)
    requires OneInFlight(s) && Enabled(s, ServerGets(r))
    ensures var t := Step(s, ServerGets(r), c);
            && OneInFlight(t) && t.p.reqTag == s.p.reqTag + 1
            && (if s.p.txState == WaitSysInfoAck then t.p.txState == Ready else RequestInFlight(t))
            && Exchanges(t) == Exchanges(s) - 1
  {
    OnlyAnswer(s, r);
    ServerGetsSafely(s, r, c);
    ServerReceivesOutstanding(s.p, s.n, c);
    TakenFromNet(s, r, c);
  }

  lemma StartOneInFlight(addr: SockAddr, n: Node)
    requires NodeOk(n) && n.endpoints != []
    ensures OneInFlight(Started(addr, n)) && RequestInFlight(Started(addr, n))
    ensures Exchanges(Started(addr, n)) == |n.endpoints| + 2 && Started(addr, n).p.reqTag == 0
  {
  }

  // ---- progress ----

  /** Deliveries still to come before READY. */
  ghost function Deliveries(s: System): int {
    2 * Exchanges(s) - if AnswerInFlight(s) then 1 else 0
  }

  ghost predicate OnTrack(s: System) {
    && OneInFlight(s)
    && (s.p.txState != Ready ==> RequestInFlight(s) || AnswerInFlight(s))
    && s.p.reqTag + Exchanges(s) == |s.n.endpoints| + 2
  }

  /** The one delivery that can happen next. */
  ghost function NextDelivery(s: System): Event
    requires OnTrack(s) && s.p.txState != Ready
  {
    if RequestInFlight(s) then NodeGets(Outstanding(s.p)) else ServerGets(Answer(s.n, Outstanding(s.p)).1)
  }

  lemma NeverStuck(s: System)
    requires OnTrack(s) && s.p.txState != Ready
    ensures Enabled(s, NextDelivery(s)) && Reliable(NextDelivery(s))
    ensures Deliveries(s) > 0
  {
    var e := NextDelivery(s);
    if RequestInFlight(s) {
      assert ToNode(Outstanding(s.p)) in s.net;
    } else {
      assert ToServer(e.r) in s.net;
      SoundReply(s.p, s.n, e.r);
    }
  }

  lemma NotBoth(s: System)
    ensures !(RequestInFlight(s) && AnswerInFlight(s))
    ensures s.p.txState == Ready ==> !AnswerInFlight(s)
  {
    if RequestInFlight(s) { assert s.net[ToNode(Outstanding(s.p))] == 1; }
  }

  lemma DeliveryAdvances(s: System, e: Event, c: Claiming)
    requires OnTrack(s) && Enabled(s, e) && Reliable(e)
    ensures OnTrack(Step(s, e, c)) && Deliveries(Step(s, e, c)) == Deliveries(s) - 1
    ensures Step(s, e, c).n.head == s.n.head && Step(s, e, c).n.endpoints == s.n.endpoints
  {
    StepSafe(s, e, c);
    match e
    case NodeGets(q) =>
      NodeAnswers(s, q, c);
      NotBoth(s);
    case ServerGets(r) =>
      ServerMovesOn(s, r, c);
      NotBoth(Step(s, e, c));
  }

  lemma {:induction false} RunOnTrack(s: System, es: seq<Event>, c: Claiming)
    requires OnTrack(s) && IsRun(s, es, c) && forall e :: e in es ==> Reliable(e)
    ensures OnTrack(Run(s, es, c)) && Deliveries(Run(s, es, c)) == Deliveries(s) - |es|
    ensures Run(s, es, c).n.endpoints == s.n.endpoints
    decreases es
  {
    if es != [] {
      DeliveryAdvances(s, es[0], c);
      RunOnTrack(Step(s, es[0], c), es[1..], c);
    }
  }

  /** A claimed provider carries the identity and ports the server has claimed it with. */
  predicate Carries(p: Provider, c: Claiming) {
    p.txState in {WaitSysInfoAck, Ready} ==>
      p.serverObjID == c.serverObjID && p.debugPort == c.debugPort && p.eventPort == c.eventPort
  }

  lemma ServerCarries(p: Provider, r: Reply, c: Claiming)
    requires CanProcess(p, r) && p.txState in {WaitPInfoRpy, WaitEPointRpy, WaitSysInfoAck, Ready} && Carries(p, c)
    ensures Carries(ServerReceives(p, r, c).0, c)
  {
  }

  lemma StepCarries(s: System, e: Event, c: Claiming)
    requires Safe(s) && Enabled(s, e) && Carries(s.p, c)
    ensures Carries(Step(s, e, c).p, c)
  {
    if e.ServerGets? { ServerCarries(s.p, e.r, c); }
  }

  lemma {:induction false} RunCarries(s: System, es: seq<Event>, c: Claiming)
    requires Safe(s) && IsRun(s, es, c) && Carries(s.p, c)
    ensures Carries(Run(s, es, c).p, c)
    decreases es
  {
    if es != [] {
      StepSafe(s, es[0], c);
      StepCarries(s, es[0], c);
      RunCarries(Step(s, es[0], c), es[1..], c);
    }
  }

  /** On a reliable network every run is at most EndPointCount+2 exchanges long, can go on until then, and at
      that point the provider is READY with that request tag and the node is claimed. */
  lemma HandshakeProgress(addr: SockAddr, n: Node, es: seq<Event>, c: Claiming)
    requires NodeOk(n) && n.endpoints != [] && IsRun(Started(addr, n), es, c)
    requires forall e :: e in es ==> Reliable(e)
    ensures |es| <= 2 * (|n.endpoints| + 2)
    ensures var s := Run(Started(addr, n), es, c);
            && (s.p.txState == Ready <==> |es| == 2 * (|n.endpoints| + 2))
            && (|es| < 2 * (|n.endpoints| + 2) ==> exists e :: Enabled(s, e) && Reliable(e))
            && (s.p.txState == Ready ==> s.p.reqTag == |n.endpoints| + 2 && KnowsClaim(s.n, c))
  {
    StartOneInFlight(addr, n);
    NotBoth(Started(addr, n));
    RunOnTrack(Started(addr, n), es, c);
    RunCarries(Started(addr, n), es, c);
    var s := Run(Started(addr, n), es, c);
    NotBoth(s);
    if s.p.txState != Ready { NeverStuck(s); }
  }
}
