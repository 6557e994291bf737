// When a provider can still become READY. While a datagram that it acts on, or the request for one, is on the network,
// deliveries to and from its node take it there, and no other event can keep it from it; as long as none of its node's
// datagrams is lost there always is one. After a loss only finding its address again can help, and that only before
// the first reply and in the acknowledgement wait: a loss between them can never be repaired.

module WholeSystemProgress {
  import opened Basics
  import opened NodeCodec
  import opened WholeSystem
  import opened WholeSystemLinks
  import opened P = Provider
  import H = Handshake
  import HP = HandshakeProgress
  import S = Server
  import T = TxStream

  // ---- the datagrams that move a provider on ----

  /** The replies that the provider acts on. */
  predicate Wants(p: Provider, r: Reply) {
    match p.txState
    case WaitPInfoRpy => r.PInfoRpy? && r.tag == p.reqTag
    case WaitEPointRpy => r.EPInfoRpy? && r.tag == p.reqTag && r.index == p.reqEndPoint
    case WaitSysInfoAck => true
    case _ => false
  }

  /** The requests whose answers the provider acts on. */
  predicate WantsAnswer(p: Provider, q: Request) {
    match p.txState
    case WaitPInfoRpy => q == PInfoReq(p.reqTag)
    case WaitEPointRpy => q == EPInfoReq(p.reqTag, p.reqEndPoint)
    case WaitSysInfoAck => true
    case _ => false
  }

  predicate Helps(p: Provider, m: Envelope) {
    match m
    case ToNode(a, q) => a == p.addr && WantsAnswer(p, q)
    case ToServer(a, r) => a == p.addr && Wants(p, r)
  }

  ghost predicate Helped(p: Provider, net: multiset<Envelope>) {
    exists m :: m in net && Helps(p, m)
  }

  /** There is a node at the address of provider i, and of the providers at that address i gets its packets. */
  predicate Listens(w: World, i: nat) {
    i < |w.s.providers| && w.s.providers[i].addr in w.nodes && S.Claimant(w.s.providers, w.s.providers[i].addr) == i
  }

  predicate IsReady(w: World, i: nat) {
    i < |w.s.providers| && w.s.providers[i].txState == Ready
  }

  /** Provider i is READY, or on its way to it. */
  ghost predicate OnTheWay(w: World, i: nat) {
    IsReady(w, i) || (Listens(w, i) && Helped(w.s.providers[i], w.net))
  }

  lemma AnswerIsWanted(p: Provider, n: Node, q: Request)
    requires CanAnswer(n, q)
    ensures Wants(p, Answer(n, q).1) <==> WantsAnswer(p, q)
  {
  }

  lemma OutstandingHelps(p: Provider)
    requires p.txState in {WaitPInfoRpy, WaitEPointRpy, WaitSysInfoAck}
    ensures Helps(p, ToNode(p.addr, HP.Outstanding(p)))
  {
  }

  /** Before the acknowledgement wait a wanted reply is the node's answer to the outstanding request. */
  lemma WantedIsAnswer(p: Provider, n: Node, r: Reply)
    requires Wants(p, r) && Authentic(n, r) && p.txState in {WaitPInfoRpy, WaitEPointRpy}
    ensures CanAnswer(n, HP.Outstanding(p)) && r == Answer(n, HP.Outstanding(p)).1
  {
  }

  // ---- what one event does to a provider ----

  function ExchangesLeft(p: Provider, n: Node): int {
    HP.Exchanges(H.System(p, n, multiset{}))
  }

  /** What a wanted reply does: the provider is READY, or has sent its next request; one exchange less is left. */
  lemma WantedMovesOn(p: Provider, n: Node, r: Reply, c: H.Claiming)
    requires NodeOk(n) && n.endpoints != [] && Sound(p, n) && Authentic(n, r) && Wants(p, r)
    ensures CanProcess(p, r)
    ensures var (q, out) := H.ServerReceives(p, r, c);
            && ExchangesLeft(q, n) == ExchangesLeft(p, n) - 1
            && (q.txState == Ready <==> p.txState == WaitSysInfoAck)
            && (if q.txState == Ready then out == multiset{}
                else q.txState in {WaitEPointRpy, WaitSysInfoAck} && out == multiset{H.ToNode(HP.Outstanding(q))})
  {
    if p.txState == WaitSysInfoAck {
      HP.AfterAnything(p, r, c);
    } else {
      WantedIsAnswer(p, n, r);
      HP.ServerReceivesOutstanding(p, n, c);
    }
  }

  /** An unwanted reply does nothing. */
  lemma UnwantedIsDropped(p: Provider, r: Reply, c: H.Claiming)
    requires CanProcess(p, r) && !Wants(p, r)
    ensures H.ServerReceives(p, r, c) == (p, multiset{})
  {
  }

  lemma {:induction false} ClaimantSame(ps: seq<Provider>, qs: seq<Provider>, a: SockAddr)
    requires |ps| <= |qs| && (forall i :: 0 <= i < |ps| ==> ps[i].addr == qs[i].addr) && S.Claimant(ps, a) < |ps|
    ensures S.Claimant(ps, a) == S.Claimant(qs, a)
    decreases |ps|
  {
    if ps[0].addr != a { ClaimantSame(ps[1..], qs[1..], a); }
  }

  lemma {:induction false} ClaimantExists(ps: seq<Provider>, i: nat)
    requires i < |ps|
    ensures S.Claimant(ps, ps[i].addr) <= i
    decreases |ps|
  {
    if i > 0 { ClaimantExists(ps[1..], i - 1); }
  }

  /** Providers are only ever added, and keep their addresses. */
  ghost predicate AddrsKept(w: World, u: World) {
    && |w.s.providers| <= |u.s.providers| && u.nodes.Keys == w.nodes.Keys
    && forall i :: 0 <= i < |w.s.providers| ==> u.s.providers[i].addr == w.s.providers[i].addr
  }

  lemma ListensKept(w: World, u: World, i: nat)
    requires AddrsKept(w, u) && i < |w.s.providers|
    ensures Listens(u, i) <==> Listens(w, i)
  {
    ClaimantExists(w.s.providers, i);
    ClaimantSame(w.s.providers, u.s.providers, w.s.providers[i].addr);
  }

  /** The server's handling of a reply for provider j, whose node is n. */
  lemma ReplyMovesOn(s: S.Server, j: nat, n: Node, r: Reply)
    requires j < |s.providers| && NodeOk(n) && n.endpoints != [] && Sound(s.providers[j], n) && Authentic(n, r)
    ensures CanProcess(s.providers[j], r)
    ensures var (t, out) := S.ProviderRx(s, j, r);
            && |t.providers| == |s.providers| && t.providers == s.providers[j := t.providers[j]]
            && var (p, q) := (s.providers[j], t.providers[j]);
            && q.addr == p.addr && (forall d :: d in out ==> d.to == p.addr) && |out| <= 1
            && (!Wants(p, r) ==> q == p && out == [])
            && (Wants(p, r) ==>
              && ExchangesLeft(q, n) == ExchangesLeft(p, n) - 1
              && (q.txState == Ready <==> p.txState == WaitSysInfoAck)
              && q.txState in {WaitEPointRpy, WaitSysInfoAck, Ready}
              && out == if q.txState == Ready then [] else [S.Datagram(p.addr, HP.Outstanding(q))])
  {
    var p := s.providers[j];
    var c := H.Claiming(s.nextProviderID, s.debugPort, s.eventPort);
    SoundReply(p, n, r);
    RxIsHandshake(s, j, r);
    var (q, msgs) := H.ServerReceives(p, r, c);
    if Wants(p, r) {
      WantedMovesOn(p, n, r, c);
      if q.txState != Ready { assert H.ToNode(HP.Outstanding(q)) in msgs; }
    } else {
      UnwantedIsDropped(p, r, c);
    }
  }

  /** A delivery to the server, seen from its providers and the network. */
  lemma ServerGetsIs(w: World, a: SockAddr, r: Reply)
    requires WorldInv(w) && Enabled(w, ServerGets(a, r))
    ensures a in w.nodes && Authentic(w.nodes[a], r) && S.CanReceive(w.s, a, r)
    ensures var u := Step(w, ServerGets(a, r));
            var (t, out) := S.HNodeRx(w.s, a, r);
            u.nodes == w.nodes && u.s.providers == t.providers
              && u.net == w.net - multiset{ToServer(a, r)} + Envelopes(out)
  {
    assert EnvelopeOk(ToServer(a, r), w.nodes);
  }

  /** What a reply that the claimant of its address does not want, or that nobody claims, does. */
  lemma ReplyDropped(w: World, a: SockAddr, r: Reply)
    requires WorldInv(w) && Enabled(w, ServerGets(a, r))
    requires var j := S.Claimant(w.s.providers, a); j < |w.s.providers| ==> !Wants(w.s.providers[j], r)
    ensures var u := Step(w, ServerGets(a, r));
            u.s.providers == w.s.providers && u.nodes == w.nodes && u.net == w.net - multiset{ToServer(a, r)}
  {
    ServerGetsIs(w, a, r);
    var j := S.Claimant(w.s.providers, a);
    if j < |w.s.providers| {
      assert ProviderOk(w.s.providers[j], w.nodes);
      ReplyMovesOn(w.s, j, w.nodes[a], r);
    }
    assert Envelopes([]) == multiset{};
  }

  /** What a provider that has just taken a reply has sent: its next request, or nothing more. */
  function Asked(p: Provider): multiset<Envelope> {
    if p.txState in {WaitEPointRpy, WaitSysInfoAck} then multiset{ToNode(p.addr, HP.Outstanding(p))} else multiset{}
  }

  lemma EnvelopesOf(ds: seq<S.Datagram>, d: S.Datagram)
    requires ds == [d]
    ensures Envelopes(ds) == multiset{ToNode(d.to, d.request)}
  {
    assert ds[1..] == [];
  }

  /** What a reply that the claimant of its address wants does. */
  lemma ReplyTaken(w: World, a: SockAddr, r: Reply)
    requires WorldInv(w) && Enabled(w, ServerGets(a, r))
    requires S.Claimant(w.s.providers, a) < |w.s.providers| && Wants(w.s.providers[S.Claimant(w.s.providers, a)], r)
    ensures a in w.nodes
    ensures var u := Step(w, ServerGets(a, r));
            var j := S.Claimant(w.s.providers, a);
            && |u.s.providers| == |w.s.providers| && u.s.providers == w.s.providers[j := u.s.providers[j]]
            && u.nodes == w.nodes
            && var (p, q) := (w.s.providers[j], u.s.providers[j]);
            && q.addr == a && q.txState in {WaitEPointRpy, WaitSysInfoAck, Ready}
            && (q.txState == Ready <==> p.txState == WaitSysInfoAck)
            && ExchangesLeft(q, w.nodes[a]) == ExchangesLeft(p, w.nodes[a]) - 1
            && u.net == w.net - multiset{ToServer(a, r)} + Asked(q)
  {
    ServerGetsIs(w, a, r);
    var j := S.Claimant(w.s.providers, a);
    assert ProviderOk(w.s.providers[j], w.nodes);
    ReplyMovesOn(w.s, j, w.nodes[a], r);
    var (t, out) := S.ProviderRx(w.s, j, r);
    if t.providers[j].txState != Ready { EnvelopesOf(out, out[0]); } else { assert Envelopes(out) == multiset{}; }
  }

  lemma AskedHelps(p: Provider, net: multiset<Envelope>)
    requires p.txState in {WaitEPointRpy, WaitSysInfoAck}
    ensures Helped(p, net + Asked(p))
  {
    OutstandingHelps(p);
    assert ToNode(p.addr, HP.Outstanding(p)) in net + Asked(p);
  }

  /** A service that is found is added, and its request sent. */
  lemma FoundStep(w: World, a: SockAddr)
    requires WorldInv(w)
    ensures Enabled(w, Local(S.Found(a)))
    ensures var u := Step(w, Local(S.Found(a)));
            var n := |w.s.providers|;
            && u.nodes == w.nodes && |u.s.providers| == n + 1 && u.s.providers == w.s.providers + [u.s.providers[n]]
            && u.s.providers[n].addr == a && u.s.providers[n].txState == WaitPInfoRpy && u.s.providers[n].reqTag == 0
            && u.net == w.net + multiset{ToNode(a, PInfoReq(0))} && Helped(u.s.providers[n], u.net)
  {
    var (t, out) := S.Resolved(w.s, a);
    var d := S.Datagram(a, PInfoReq(0));
    assert out == [d];
    assert [d][1..] == [];
    assert Envelopes([d]) == multiset{ToNode(a, PInfoReq(0))};
    OutstandingHelps(t.providers[|w.s.providers|]);
  }

  lemma LocalQuiet(s: S.Server, e: S.Event)
    requires S.Enabled(s, e) && !e.UdpRx? && !e.Found?
    ensures S.Step(s, e).0.providers == s.providers && S.Step(s, e).1 == []
  {
  }

  /** Other events inside the server, and those on the links, leave the providers and the network alone. */
  lemma LocalStep(w: World, e: Event)
    requires WorldInv(w) && Enabled(w, e) && (e.LinkOut? || (e.Local? && !e.e.Found?))
    ensures Step(w, e).nodes == w.nodes && Step(w, e).s.providers == w.s.providers && Step(w, e).net == w.net
  {
    if e.Local? {
      LocalQuiet(w.s, e.e);
      assert Envelopes([]) == multiset{};
    } else if T.Completes(w.links[e.k], e.n) {
      LocalQuiet(w.s, S.Sent(e.k));
    }
  }

  // ---- nothing but a loss takes a provider off its way ----

  function AddrOf(m: Envelope): SockAddr {
    if m.ToNode? then m.to else m.from
  }

  predicate Loses(e: Event, a: SockAddr) {
    e.Lost? && AddrOf(e.m) == a
  }

  predicate Finds(e: Event, a: SockAddr) {
    e == Local(S.Found(a))
  }

  lemma NodeGetsHelps(p: Provider, net: multiset<Envelope>, n: Node, a: SockAddr, q: Request)
    requires ToNode(a, q) in net && CanAnswer(n, q)
    ensures Helped(p, net) <==> Helped(p, net - multiset{ToNode(a, q)} + multiset{ToServer(a, Answer(n, q).1)})
  {
    var answer := ToServer(a, Answer(n, q).1);
    var net' := net - multiset{ToNode(a, q)} + multiset{answer};
    AnswerIsWanted(p, n, q);
    if m :| m in net && Helps(p, m) {
      if m == ToNode(a, q) { assert answer in net' && Helps(p, answer); } else { assert m in net'; }
    }
    if m :| m in net' && Helps(p, m) {
      if m == answer { assert Helps(p, ToNode(a, q)); } else { assert m in net; }
    }
  }

  /** A datagram that does not help makes no difference. */
  lemma UselessTaken(p: Provider, net: multiset<Envelope>, m: Envelope)
    requires !Helps(p, m)
    ensures Helped(p, net) <==> Helped(p, net - multiset{m})
    ensures Helped(p, net) <==> Helped(p, net + multiset{m})
  {
    if x :| x in net && Helps(p, x) { assert x in net - multiset{m} && x in net + multiset{m}; }
  }

  lemma HelpedMore(p: Provider, net: multiset<Envelope>, net': multiset<Envelope>)
    requires Helped(p, net) && net <= net'
    ensures Helped(p, net')
  {
    var m :| m in net && Helps(p, m);
    assert m in net';
  }

  /** Whether provider i is on its way depends on what may help it only. */
  lemma SameWay(w: World, u: World, i: nat)
    requires AddrsKept(w, u) && i < |w.s.providers| && u.s.providers[i] == w.s.providers[i]
    ensures (Helped(w.s.providers[i], w.net) ==> Helped(w.s.providers[i], u.net)) ==> OnTheWay(w, i) ==> OnTheWay(u, i)
    ensures (Helped(w.s.providers[i], u.net) ==> Helped(w.s.providers[i], w.net)) ==> OnTheWay(u, i) ==> OnTheWay(w, i)
  {
    ListensKept(w, u, i);
  }

  /** A reply that provider i takes keeps it on its way. */
  lemma TakenOnTheWay(w: World, r: Reply, i: nat)
    requires WorldInv(w) && Listens(w, i) && Wants(w.s.providers[i], r)
             && Enabled(w, ServerGets(w.s.providers[i].addr, r))
    ensures OnTheWay(Step(w, ServerGets(w.s.providers[i].addr, r)), i)
  {
    var a := w.s.providers[i].addr;
    var u := Step(w, ServerGets(a, r));
    ReplyTaken(w, a, r);
    ListensKept(w, u, i);
    if u.s.providers[i].txState != Ready { AskedHelps(u.s.providers[i], w.net - multiset{ToServer(a, r)}); }
  }

  /** Datagrams from and to other addresses do not matter. */
  lemma NotForIt(p: Provider, net: multiset<Envelope>, r: Reply, q: Provider)
    requires q.addr != p.addr
    ensures Helped(p, net) <==> Helped(p, net - multiset{ToServer(q.addr, r)} + Asked(q))
  {
    var rest := net - multiset{ToServer(q.addr, r)};
    UselessTaken(p, net, ToServer(q.addr, r));
    if Asked(q) != multiset{} {
      UselessTaken(p, rest, ToNode(q.addr, HP.Outstanding(q)));
    } else {
      assert rest + Asked(q) == rest;
    }
  }

  /** A reply that another provider takes is no help to provider i, and no hindrance. */
  lemma OthersReply(w: World, a: SockAddr, r: Reply, i: nat)
    requires WorldInv(w) && Enabled(w, ServerGets(a, r)) && i < |w.s.providers|
    requires S.Claimant(w.s.providers, a) < |w.s.providers| && Wants(w.s.providers[S.Claimant(w.s.providers, a)], r)
    requires S.Claimant(w.s.providers, a) != i
    ensures OnTheWay(Step(w, ServerGets(a, r)), i) <==> OnTheWay(w, i)
  {
    var u := Step(w, ServerGets(a, r));
    ReplyTaken(w, a, r);
    SameWay(w, u, i);
    ListensKept(w, u, i);
    if Listens(w, i) { NotForIt(w.s.providers[i], w.net, r, u.s.providers[S.Claimant(w.s.providers, a)]); }
  }

  /** Nor is one that is dropped. */
  lemma DroppedReply(w: World, a: SockAddr, r: Reply, i: nat)
    requires WorldInv(w) && Enabled(w, ServerGets(a, r)) && i < |w.s.providers|
    requires var j := S.Claimant(w.s.providers, a); j < |w.s.providers| ==> !Wants(w.s.providers[j], r)
    ensures OnTheWay(Step(w, ServerGets(a, r)), i) <==> OnTheWay(w, i)
  {
    var u := Step(w, ServerGets(a, r));
    ReplyDropped(w, a, r);
    SameWay(w, u, i);
    ListensKept(w, u, i);
    if Listens(w, i) { UselessTaken(w.s.providers[i], w.net, ToServer(a, r)); }
  }

  lemma NodeGetsOnTheWay(w: World, a: SockAddr, q: Request, i: nat)
    requires WorldInv(w) && Enabled(w, NodeGets(a, q)) && i < |w.s.providers|
    ensures var u := Step(w, NodeGets(a, q));
            AddrsKept(w, u) && (OnTheWay(u, i) <==> OnTheWay(w, i))
  {
    NodeGetsHelps(w.s.providers[i], w.net, w.nodes[a], a, q);
    SameWay(w, Step(w, NodeGets(a, q)), i);
  }

  lemma LostOnTheWay(w: World, m: Envelope, i: nat)
    requires WorldInv(w) && m in w.net && i < |w.s.providers|
    ensures var u := w.(net := w.net - multiset{m});
            && AddrsKept(w, u) && (OnTheWay(u, i) ==> OnTheWay(w, i))
            && (OnTheWay(w, i) && AddrOf(m) != w.s.providers[i].addr ==> OnTheWay(u, i))
  {
    var p, u := w.s.providers[i], w.(net := w.net - multiset{m});
    SameWay(w, u, i);
    if AddrOf(m) != p.addr { UselessTaken(p, w.net, m); }
    if x :| x in u.net && Helps(p, x) { assert x in w.net; }
  }

  /** One more datagram on the network. */
  lemma MoreOnTheWay(w: World, u: World, m: Envelope, i: nat)
    requires AddrsKept(w, u) && i < |w.s.providers| && u.s.providers[i] == w.s.providers[i]
             && u.net == w.net + multiset{m}
    ensures OnTheWay(w, i) ==> OnTheWay(u, i)
    ensures !OnTheWay(w, i) && (m in w.net || !Helps(w.s.providers[i], m)) ==> !OnTheWay(u, i)
  {
    var p := w.s.providers[i];
    SameWay(w, u, i);
    if Helped(p, w.net) {
      HelpedMore(p, w.net, u.net);
    } else if !Helps(p, m) {
      UselessTaken(p, w.net, m);
    }
  }

  lemma CopiedOnTheWay(w: World, m: Envelope, i: nat)
    requires WorldInv(w) && m in w.net && i < |w.s.providers|
    ensures var u := w.(net := w.net + multiset{m});
            AddrsKept(w, u) && (OnTheWay(u, i) <==> OnTheWay(w, i))
  {
    MoreOnTheWay(w, w.(net := w.net + multiset{m}), m, i);
  }

  lemma LocalOnTheWay(w: World, e: Event, i: nat)
    requires WorldInv(w) && Enabled(w, e) && (e.LinkOut? || (e.Local? && !e.e.Found?)) && i < |w.s.providers|
    ensures AddrsKept(w, Step(w, e)) && (OnTheWay(Step(w, e), i) <==> OnTheWay(w, i))
  {
    LocalStep(w, e);
    SameWay(w, Step(w, e), i);
  }

  lemma ServerGetsOnTheWay(w: World, a: SockAddr, r: Reply, i: nat)
    requires WorldInv(w) && Enabled(w, ServerGets(a, r)) && i < |w.s.providers|
    ensures OnTheWay(w, i) <==> OnTheWay(Step(w, ServerGets(a, r)), i)
  {
    var j := S.Claimant(w.s.providers, a);
    if j >= |w.s.providers| || !Wants(w.s.providers[j], r) {
      DroppedReply(w, a, r, i);
    } else if i != j {
      OthersReply(w, a, r, i);
    } else {
      ServerGetsIs(w, a, r);
      TakenOnTheWay(w, r, i);
      assert Helps(w.s.providers[i], ToServer(a, r));
    }
  }

  lemma ServerKeepsAddrs(w: World, a: SockAddr, r: Reply)
    requires WorldInv(w) && Enabled(w, ServerGets(a, r))
    ensures AddrsKept(w, Step(w, ServerGets(a, r)))
  {
    ServerGetsIs(w, a, r);
    var j := S.Claimant(w.s.providers, a);
    if j < |w.s.providers| && Wants(w.s.providers[j], r) { ReplyTaken(w, a, r); } else { ReplyDropped(w, a, r); }
  }

  lemma FoundOnTheWay(w: World, a: SockAddr, i: nat)
    requires WorldInv(w) && i < |w.s.providers|
    ensures var u := Step(w, Local(S.Found(a)));
            && AddrsKept(w, u) && (OnTheWay(w, i) ==> OnTheWay(u, i))
            && (!OnTheWay(w, i) && a != w.s.providers[i].addr ==> !OnTheWay(u, i))
  {
    FoundStep(w, a);
    MoreOnTheWay(w, Step(w, Local(S.Found(a))), ToNode(a, PInfoReq(0)), i);
  }

  /** The network can only take a provider off its way by losing a datagram of its node, and only finding its
      address again can bring it back on its way. */
  lemma StepOnTheWay(w: World, e: Event, i: nat)
    requires WorldInv(w) && Enabled(w, e) && i < |w.s.providers|
    ensures OnTheWay(w, i) && !Loses(e, w.s.providers[i].addr) ==> OnTheWay(Step(w, e), i)
    ensures !OnTheWay(w, i) && !Finds(e, w.s.providers[i].addr) ==> !OnTheWay(Step(w, e), i)
    ensures AddrsKept(w, Step(w, e))
  {
    match e
    case NodeGets(a, q) => NodeGetsOnTheWay(w, a, q, i);
    case ServerGets(a, r) =>
      ServerKeepsAddrs(w, a, r);
      ServerGetsOnTheWay(w, a, r, i);
    case Lost(m) => LostOnTheWay(w, m, i);
    case Copied(m) => CopiedOnTheWay(w, m, i);
    case Local(l) =>
      if l.Found? { FoundOnTheWay(w, l.addr, i); } else { LocalOnTheWay(w, e, i); }
    case LinkOut(k, n) => LocalOnTheWay(w, e, i);
  }

  // ---- whole runs ----

  predicate NothingLost(es: seq<Event>, a: SockAddr) {
    forall e :: e in es ==> !Loses(e, a)
  }

  /** As long as no datagram of its node is lost, a provider stays on its way. */
  lemma {:induction false} RunOnTheWay(w: World, es: seq<Event>, i: nat)
    requires WorldInv(w) && IsRun(w, es) && OnTheWay(w, i) && NothingLost(es, w.s.providers[i].addr)
    ensures OnTheWay(Run(w, es), i)
    decreases es
  {
    if es != [] {
      StepKeepsWorld(w, es[0]);
      StepOnTheWay(w, es[0], i);
      RunOnTheWay(Step(w, es[0]), es[1..], i);
    }
  }

  lemma StepUnheard(w: World, e: Event, i: nat)
    requires WorldInv(w) && Enabled(w, e) && i < |w.s.providers| && !Listens(w, i) && !IsReady(w, i)
    ensures i < |Step(w, e).s.providers| && !Listens(Step(w, e), i) && !IsReady(Step(w, e), i)
  {
    StepOnTheWay(w, e, i);
    ListensKept(w, Step(w, e), i);
    if Finds(e, w.s.providers[i].addr) { FoundStep(w, w.s.providers[i].addr); }
  }

  /** A provider without a node at its address, or with an earlier provider there, never becomes READY at all. */
  lemma {:induction false} UnheardNeverReady(w: World, es: seq<Event>, i: nat)
    requires WorldInv(w) && IsRun(w, es) && i < |w.s.providers| && !Listens(w, i) && !IsReady(w, i)
    ensures !IsReady(Run(w, es), i)
    decreases es
  {
    if es != [] {
      StepKeepsWorld(w, es[0]);
      StepUnheard(w, es[0], i);
      UnheardNeverReady(Step(w, es[0]), es[1..], i);
    }
  }

  /** Every provider that gets the packets of a node at this address is on its way. */
  ghost predicate AllOnTheWay(w: World, a: SockAddr) {
    forall i :: 0 <= i < |w.s.providers| && w.s.providers[i].addr == a && Listens(w, i) ==> OnTheWay(w, i)
  }

  /** A provider that has just been added waits for the answer to a request on the network. */
  lemma NewProviders(w: World, e: Event)
    requires WorldInv(w) && Enabled(w, e)
    ensures var u := Step(w, e);
            forall i :: |w.s.providers| <= i < |u.s.providers| ==> Helped(u.s.providers[i], u.net)
  {
    match e
    case NodeGets(a, q) =>
    case ServerGets(a, r) =>
      var j := S.Claimant(w.s.providers, a);
      ServerGetsIs(w, a, r);
      if j < |w.s.providers| && Wants(w.s.providers[j], r) { ReplyTaken(w, a, r); } else { ReplyDropped(w, a, r); }
    case Lost(m) =>
    case Copied(m) =>
    case Local(l) => if l.Found? { FoundStep(w, l.addr); } else { LocalStep(w, e); }
    case LinkOut(k, n) => LocalStep(w, e);
  }

  lemma StepAllOnTheWay(w: World, e: Event, a: SockAddr)
    requires WorldInv(w) && Enabled(w, e) && AllOnTheWay(w, a) && !Loses(e, a)
    ensures AllOnTheWay(Step(w, e), a)
  {
    var u := Step(w, e);
    NewProviders(w, e);
    forall i | 0 <= i < |u.s.providers| && u.s.providers[i].addr == a && Listens(u, i) ensures OnTheWay(u, i) {
      if i < |w.s.providers| {
        StepOnTheWay(w, e, i);
        ListensKept(w, u, i);
      }
    }
  }

  lemma {:induction false} RunAllOnTheWay(w: World, es: seq<Event>, a: SockAddr)
    requires WorldInv(w) && IsRun(w, es) && AllOnTheWay(w, a) && NothingLost(es, a)
    ensures AllOnTheWay(Run(w, es), a)
    decreases es
  {
    if es != [] {
      assert es[0] in es;
      StepKeepsWorld(w, es[0]);
      StepAllOnTheWay(w, es[0], a);
      RunAllOnTheWay(Step(w, es[0]), es[1..], a);
    }
  }

  /** In every run in which no datagram from or to an address is lost, with any copies and in any order, the
      provider that gets the packets of the node there is READY or on its way. */
  lemma UnlostIsOnTheWay(nodes: map<SockAddr, Node>, debugPort: u16, eventPort: u16, es: seq<Event>, i: nat)
    requires NodesOk(nodes) && IsRun(Begin(nodes, debugPort, eventPort), es)
    requires Listens(Run(Begin(nodes, debugPort, eventPort), es), i)
    requires NothingLost(es, Run(Begin(nodes, debugPort, eventPort), es).s.providers[i].addr)
    ensures OnTheWay(Run(Begin(nodes, debugPort, eventPort), es), i)
  {
    var start := Begin(nodes, debugPort, eventPort);
    BeginOk(nodes, debugPort, eventPort);
    RunAllOnTheWay(start, es, Run(start, es).s.providers[i].addr);
  }

  // ---- the way to READY ----

  /** Only datagrams to and from the node at this address are delivered. */
  predicate OnlyDeliveries(es: seq<Event>, a: SockAddr) {
    forall e :: e in es ==> (e.NodeGets? && e.to == a) || (e.ServerGets? && e.from == a)
  }

  lemma DeliveriesJoin(es: seq<Event>, fs: seq<Event>, a: SockAddr)
    requires OnlyDeliveries(es, a) && OnlyDeliveries(fs, a)
    ensures OnlyDeliveries(es + fs, a)
  {
  }

  /** Exchanges still to come for provider i. */
  function Remaining(w: World, i: nat): int {
    if i < |w.s.providers| && w.s.providers[i].addr in w.nodes
      then ExchangesLeft(w.s.providers[i], w.nodes[w.s.providers[i].addr])
    else 0
  }

  lemma SomethingLeft(w: World, i: nat)
    requires WorldInv(w) && i < |w.s.providers| && w.s.providers[i].addr in w.nodes && w.s.providers[i].txState != Ready
    ensures Remaining(w, i) > 0
  {
    assert ProviderOk(w.s.providers[i], w.nodes);
  }

  /** At most provider i has changed, and its address has not. */
  ghost predicate OnlyThis(w: World, u: World, i: nat) {
    && i < |w.s.providers| == |u.s.providers| && u.s.providers == w.s.providers[i := u.s.providers[i]]
    && u.s.providers[i].addr == w.s.providers[i].addr
  }

  /** The node gets a request whose answer helps. */
  lemma HelpfulRequest(w: World, i: nat, q: Request) returns (r: Reply)
    requires WorldInv(w) && Listens(w, i) && WantsAnswer(w.s.providers[i], q)
             && ToNode(w.s.providers[i].addr, q) in w.net
    ensures var e := NodeGets(w.s.providers[i].addr, q);
            && Enabled(w, e) && WorldInv(Step(w, e)) && Step(w, e).s == w.s && Listens(Step(w, e), i)
            && Remaining(Step(w, e), i) == Remaining(w, i)
            && ToServer(w.s.providers[i].addr, r) in Step(w, e).net && Wants(w.s.providers[i], r)
  {
    var a := w.s.providers[i].addr;
    assert EnvelopeOk(ToNode(a, q), w.nodes);
    r := Answer(w.nodes[a], q).1;
    AnswerIsWanted(w.s.providers[i], w.nodes[a], q);
    AnswerIsAuthentic(w.nodes[a], q);
    StepKeepsWorld(w, NodeGets(a, q));
  }

  /** The server gets a reply that helps. */
  lemma HelpfulReply(w: World, i: nat, r: Reply)
    requires WorldInv(w) && Listens(w, i) && Wants(w.s.providers[i], r) && ToServer(w.s.providers[i].addr, r) in w.net
    ensures var e := ServerGets(w.s.providers[i].addr, r);
            && Enabled(w, e) && WorldInv(Step(w, e)) && OnlyThis(w, Step(w, e), i)
            && OnTheWay(Step(w, e), i) && Remaining(Step(w, e), i) == Remaining(w, i) - 1
  {
    var a := w.s.providers[i].addr;
    assert EnvelopeOk(ToServer(a, r), w.nodes);
    assert ProviderOk(w.s.providers[i], w.nodes);
    SoundReply(w.s.providers[i], w.nodes[a], r);
    StepKeepsWorld(w, ServerGets(a, r));
    ReplyTaken(w, a, r);
    TakenOnTheWay(w, r, i);
  }

  /** One more step of provider i. */
  ghost predicate Advanced(w: World, u: World, i: nat) {
    WorldInv(u) && OnlyThis(w, u, i) && OnTheWay(u, i) && Remaining(u, i) == Remaining(w, i) - 1
  }

  lemma AfterRequest(w: World, i: nat, q: Request) returns (es: seq<Event>)
    requires WorldInv(w) && Listens(w, i) && WantsAnswer(w.s.providers[i], q)
             && ToNode(w.s.providers[i].addr, q) in w.net
    ensures IsRun(w, es) && OnlyDeliveries(es, w.s.providers[i].addr) && Advanced(w, Run(w, es), i)
  {
    var a := w.s.providers[i].addr;
    var r := HelpfulRequest(w, i, q);
    var e, f := NodeGets(a, q), ServerGets(a, r);
    HelpfulReply(Step(w, e), i, r);
    TwoSteps(w, Step(w, e), e, f);
    es := [e, f];
  }

  lemma AfterReply(w: World, i: nat, r: Reply) returns (es: seq<Event>)
    requires WorldInv(w) && Listens(w, i) && Wants(w.s.providers[i], r) && ToServer(w.s.providers[i].addr, r) in w.net
    ensures IsRun(w, es) && OnlyDeliveries(es, w.s.providers[i].addr) && Advanced(w, Run(w, es), i)
  {
    HelpfulReply(w, i, r);
    es := [ServerGets(w.s.providers[i].addr, r)];
    OneStep(w, es[0]);
  }

  /** One exchange, or what is left of it. */
  lemma ExchangeOnce(w: World, i: nat) returns (es: seq<Event>)
    requires WorldInv(w) && OnTheWay(w, i) && !IsReady(w, i)
    ensures IsRun(w, es) && OnlyDeliveries(es, w.s.providers[i].addr) && Advanced(w, Run(w, es), i)
  {
    var m :| m in w.net && Helps(w.s.providers[i], m);
    if m.ToServer? { es := AfterReply(w, i, m.reply); } else { es := AfterRequest(w, i, m.request); }
  }

  lemma OnlyThisTwice(w: World, v: World, u: World, i: nat)
    requires OnlyThis(w, v, i) && OnlyThis(v, u, i)
    ensures OnlyThis(w, u, i)
  {
  }

  /** From every state in which it is on its way, whatever else is going on, a provider is brought to READY by
      deliveries to and from its own node, one exchange for every step that is left; no other provider changes. */
  lemma {:induction false} BecomesReady(w: World, i: nat) returns (es: seq<Event>)
    requires WorldInv(w) && OnTheWay(w, i)
    ensures IsRun(w, es) && OnlyDeliveries(es, w.s.providers[i].addr)
    ensures WorldInv(Run(w, es)) && OnlyThis(w, Run(w, es), i) && IsReady(Run(w, es), i)
    decreases Remaining(w, i)
  {
    es := [];
    if !IsReady(w, i) {
      SomethingLeft(w, i);
      es := ExchangeOnce(w, i);
      var u := Run(w, es);
      var rest := BecomesReady(u, i);
      RunsJoin(w, es, rest);
      DeliveriesJoin(es, rest, w.s.providers[i].addr);
      OnlyThisTwice(w, u, Run(u, rest), i);
      es := es + rest;
    }
  }

  // ---- exactly when a provider can become READY ----

  /** Without help, a provider that gets its node's packets stays what it is. */
  lemma UnhelpedStays(w: World, e: Event, i: nat)
    requires WorldInv(w) && Enabled(w, e) && Listens(w, i) && !Helped(w.s.providers[i], w.net)
    ensures i < |Step(w, e).s.providers| && Step(w, e).s.providers[i] == w.s.providers[i]
  {
    match e
    case NodeGets(a, q) =>
    case ServerGets(a, r) =>
      var j := S.Claimant(w.s.providers, a);
      if j < |w.s.providers| && Wants(w.s.providers[j], r) {
        ReplyTaken(w, a, r);
        assert Helps(w.s.providers[j], ToServer(a, r));
      } else {
        ReplyDropped(w, a, r);
      }
    case Lost(m) =>
    case Copied(m) =>
    case Local(l) => if l.Found? { FoundStep(w, l.addr); } else { LocalStep(w, e); }
    case LinkOut(k, n) => LocalStep(w, e);
  }

  /** Provider i waits for an endpoint of its node, and nothing on the network will ever answer it. */
  ghost predicate LostInEndpoints(w: World, i: nat) {
    Listens(w, i) && w.s.providers[i].txState == WaitEPointRpy && !Helped(w.s.providers[i], w.net)
  }

  /** Not even finding its address again: the request of the new provider is for something else. */
  lemma StepLost(w: World, e: Event, i: nat)
    requires WorldInv(w) && Enabled(w, e) && LostInEndpoints(w, i)
    ensures LostInEndpoints(Step(w, e), i)
  {
    var u := Step(w, e);
    UnhelpedStays(w, e, i);
    StepOnTheWay(w, e, i);
    ListensKept(w, u, i);
    if Finds(e, w.s.providers[i].addr) {
      FoundStep(w, w.s.providers[i].addr);
      UselessTaken(w.s.providers[i], w.net, ToNode(w.s.providers[i].addr, PInfoReq(0)));
    }
  }

  lemma {:induction false} RunLost(w: World, es: seq<Event>, i: nat)
    requires WorldInv(w) && IsRun(w, es) && LostInEndpoints(w, i)
    ensures LostInEndpoints(Run(w, es), i)
    decreases es
  {
    if es != [] {
      StepKeepsWorld(w, es[0]);
      StepLost(w, es[0], i);
      RunLost(Step(w, es[0]), es[1..], i);
    }
  }

  /** A provider that waits for its first reply is as it was made, and so is one that gets no packets. */
  ghost predicate Started(w: World) {
    forall i {:trigger w.s.providers[i]} :: 0 <= i < |w.s.providers| ==>
      && (w.s.providers[i].txState == WaitPInfoRpy ==> w.s.providers[i].reqTag == 0)
      && (!Listens(w, i) ==> w.s.providers[i].txState == WaitPInfoRpy)
  }

  lemma StartedKept(w: World, u: World, i: nat)
    requires Started(w) && AddrsKept(w, u) && i < |w.s.providers| && u.s.providers[i] == w.s.providers[i]
    ensures u.s.providers[i].txState == WaitPInfoRpy ==> u.s.providers[i].reqTag == 0
    ensures !Listens(u, i) ==> u.s.providers[i].txState == WaitPInfoRpy
  {
    ListensKept(w, u, i);
  }

  /** Provider j has changed, and waits for its first reply no longer. */
  lemma ChangedStarted(w: World, u: World, j: nat)
    requires Started(w) && AddrsKept(w, u) && |u.s.providers| == |w.s.providers| && Listens(w, j)
    requires u.s.providers == w.s.providers[j := u.s.providers[j]] && u.s.providers[j].txState != WaitPInfoRpy
    ensures Started(u)
  {
    ListensKept(w, u, j);
    forall i | 0 <= i < |u.s.providers| && i != j
      ensures u.s.providers[i].txState == WaitPInfoRpy ==> u.s.providers[i].reqTag == 0
      ensures !Listens(u, i) ==> u.s.providers[i].txState == WaitPInfoRpy
    {
      StartedKept(w, u, i);
    }
  }

  /** Nothing has happened to the providers, but that some may have been added that have just been made. */
  lemma SameStarted(w: World, u: World)
    requires Started(w) && |w.s.providers| <= |u.s.providers| && u.s.providers[..|w.s.providers|] == w.s.providers
    requires u.nodes.Keys == w.nodes.Keys
    requires forall i :: |w.s.providers| <= i < |u.s.providers| ==>
      u.s.providers[i].txState == WaitPInfoRpy && u.s.providers[i].reqTag == 0
    ensures Started(u)
  {
    forall i | 0 <= i < |w.s.providers| ensures u.s.providers[i] == w.s.providers[i] {
      assert u.s.providers[..|w.s.providers|][i] == u.s.providers[i];
    }
    forall i | 0 <= i < |w.s.providers|
      ensures u.s.providers[i].txState == WaitPInfoRpy ==> u.s.providers[i].reqTag == 0
      ensures !Listens(u, i) ==> u.s.providers[i].txState == WaitPInfoRpy
    {
      StartedKept(w, u, i);
    }
  }

  lemma ReplyStarted(w: World, a: SockAddr, r: Reply)
    requires WorldInv(w) && Started(w) && Enabled(w, ServerGets(a, r))
    ensures Started(Step(w, ServerGets(a, r)))
  {
    var u := Step(w, ServerGets(a, r));
    var j := S.Claimant(w.s.providers, a);
    ServerKeepsAddrs(w, a, r);
    if j < |w.s.providers| && Wants(w.s.providers[j], r) {
      ReplyTaken(w, a, r);
      ChangedStarted(w, u, j);
    } else {
      ReplyDropped(w, a, r);
      SameStarted(w, u);
    }
  }

  lemma FoundStarted(w: World, a: SockAddr)
    requires WorldInv(w) && Started(w)
    ensures Started(Step(w, Local(S.Found(a))))
  {
    FoundStep(w, a);
    SameStarted(w, Step(w, Local(S.Found(a))));
  }

  lemma SameProvidersStarted(w: World, u: World)
    requires Started(w) && u.s.providers == w.s.providers && u.nodes.Keys == w.nodes.Keys
    ensures Started(u)
  {
    SameStarted(w, u);
  }

  lemma StepStarted(w: World, e: Event)
    requires WorldInv(w) && Started(w) && Enabled(w, e)
    ensures Started(Step(w, e))
  {
    match e
    case NodeGets(a, q) => SameProvidersStarted(w, Step(w, e));
    case ServerGets(a, r) => ReplyStarted(w, a, r);
    case Lost(m) => SameProvidersStarted(w, Step(w, e));
    case Copied(m) => SameProvidersStarted(w, Step(w, e));
    case Local(l) =>
      if l.Found? {
        FoundStarted(w, l.addr);
      } else {
        LocalStep(w, e);
        SameProvidersStarted(w, Step(w, e));
      }
    case LinkOut(k, n) =>
      LocalStep(w, e);
      SameProvidersStarted(w, Step(w, e));
  }

  lemma {:induction false} RunStarted(w: World, es: seq<Event>)
    requires WorldInv(w) && Started(w) && IsRun(w, es)
    ensures Started(Run(w, es))
    decreases es
  {
    if es != [] {
      StepKeepsWorld(w, es[0]);
      StepStarted(w, es[0]);
      RunStarted(Step(w, es[0]), es[1..]);
    }
  }

  /** Before the first reply, and in the acknowledgement wait, finding the address again helps. */
  predicate Repairable(w: World, i: nat) {
    Listens(w, i) && w.s.providers[i].txState in {WaitPInfoRpy, WaitSysInfoAck}
  }

  /** The answer to the new provider's first request is taken by the old one. */
  lemma FoundRepairs(w: World, i: nat)
    requires WorldInv(w) && Started(w) && Repairable(w, i)
    ensures var e := Local(S.Found(w.s.providers[i].addr));
            Enabled(w, e) && WorldInv(Step(w, e)) && OnTheWay(Step(w, e), i)
  {
    var a := w.s.providers[i].addr;
    var u := Step(w, Local(S.Found(a)));
    FoundStep(w, a);
    StepKeepsWorld(w, Local(S.Found(a)));
    ListensKept(w, u, i);
    assert ToNode(a, PInfoReq(0)) in u.net && Helps(u.s.providers[i], ToNode(a, PInfoReq(0)));
  }

  lemma RepairedRun(w: World, i: nat) returns (es: seq<Event>)
    requires WorldInv(w) && Started(w) && Repairable(w, i)
    ensures IsRun(w, es) && IsReady(Run(w, es), i)
  {
    var found := [Local(S.Found(w.s.providers[i].addr))];
    FoundRepairs(w, i);
    OneStep(w, found[0]);
    var rest := BecomesReady(Step(w, found[0]), i);
    RunsJoin(w, found, rest);
    es := found + rest;
  }

  lemma NeverReady(w: World, es: seq<Event>, i: nat)
    requires WorldInv(w) && IsRun(w, es) && i < |w.s.providers| && !OnTheWay(w, i) && !Repairable(w, i)
    ensures !IsReady(Run(w, es), i)
  {
    if Listens(w, i) {
      assert LostInEndpoints(w, i) by { assert w.s.providers[i].txState != Ready; }
      RunLost(w, es, i);
    } else {
      UnheardNeverReady(w, es, i);
    }
  }

  ghost predicate ReadyRun(w: World, more: seq<Event>, i: nat) {
    IsRun(w, more) && IsReady(Run(w, more), i)
  }

  lemma ReadyRunIff(w: World, i: nat)
    requires WorldInv(w) && Started(w) && i < |w.s.providers|
    ensures OnTheWay(w, i) || Repairable(w, i) <==> exists more :: ReadyRun(w, more, i)
  {
    if OnTheWay(w, i) {
      var more := BecomesReady(w, i);
      assert ReadyRun(w, more, i);
    } else if Repairable(w, i) {
      var more := RepairedRun(w, i);
      assert ReadyRun(w, more, i);
    } else {
      forall more | ReadyRun(w, more, i) ensures false { NeverReady(w, more, i); }
    }
  }

  /** Exactly when a provider can become READY: from a reachable state some run makes it so if and only if it is READY
      or on its way, or it gets its node's packets and still waits for the first of them, or for the acknowledgement -
      then finding its address again makes up for what has been lost. */
  lemma CanBecomeReadyIff(nodes: map<SockAddr, Node>, debugPort: u16, eventPort: u16, es: seq<Event>, i: nat)
    requires NodesOk(nodes) && IsRun(Begin(nodes, debugPort, eventPort), es)
    requires i < |Run(Begin(nodes, debugPort, eventPort), es).s.providers|
    ensures var w := Run(Begin(nodes, debugPort, eventPort), es);
            OnTheWay(w, i) || Repairable(w, i) <==> exists more :: ReadyRun(w, more, i)
  {
    var start := Begin(nodes, debugPort, eventPort);
    var w := Run(start, es);
    BeginOk(nodes, debugPort, eventPort);
    RunKeepsWorld(start, es);
    RunStarted(start, es);
    ReadyRunIff(w, i);
  }

  lemma {:induction false} RunAddr(w: World, es: seq<Event>, i: nat)
    requires WorldInv(w) && IsRun(w, es) && i < |w.s.providers|
    ensures i < |Run(w, es).s.providers| && Run(w, es).s.providers[i].addr == w.s.providers[i].addr
    decreases es
  {
    if es != [] {
      StepKeepsWorld(w, es[0]);
      StepOnTheWay(w, es[0], i);
      RunAddr(Step(w, es[0]), es[1..], i);
    }
  }

  /** A datagram lost while a node's endpoints are asked for cannot be made up for: whatever happens, no provider at
      this address, old or new, ever becomes READY, so the node is never reported. */
  lemma LostForGood(nodes: map<SockAddr, Node>, debugPort: u16, eventPort: u16, es: seq<Event>, more: seq<Event>,
      i: nat, x: nat)
    requires NodesOk(nodes) && IsRun(Begin(nodes, debugPort, eventPort), es)
    requires LostInEndpoints(Run(Begin(nodes, debugPort, eventPort), es), i)
    requires IsRun(Run(Begin(nodes, debugPort, eventPort), es), more)
    requires IsReady(Run(Run(Begin(nodes, debugPort, eventPort), es), more), x)
    ensures var w := Run(Begin(nodes, debugPort, eventPort), es);
            Run(w, more).s.providers[x].addr != w.s.providers[i].addr
  {
    var start := Begin(nodes, debugPort, eventPort);
    var w := Run(start, es);
    BeginOk(nodes, debugPort, eventPort);
    RunKeepsWorld(start, es);
    RunStarted(start, es);
    RunLost(w, more, i);
    RunStarted(w, more);
    RunAddr(w, more, i);
    assert Listens(Run(w, more), x);
  }

  lemma {:induction false} NewClaimant(ps: seq<Provider>, p: Provider)
    requires S.Claimant(ps, p.addr) == |ps|
    ensures S.Claimant(ps + [p], p.addr) == |ps|
    decreases |ps|
  {
    if ps != [] {
      assert (ps + [p])[1..] == ps[1..] + [p];
      NewClaimant(ps[1..], p);
    }
  }

  /** A service resolved at an address that no provider has yet: its provider is on its way at once. */
  lemma FoundIsOnTheWay(w: World, a: SockAddr)
    requires WorldInv(w) && a in w.nodes && S.Claimant(w.s.providers, a) == |w.s.providers|
    ensures Enabled(w, Local(S.Found(a)))
    ensures var u := Step(w, Local(S.Found(a)));
            && WorldInv(u) && |u.s.providers| == |w.s.providers| + 1 && u.s.clients == w.s.clients
            && u.s.providers[|w.s.providers|].addr == a && OnTheWay(u, |w.s.providers|)
  {
    FoundStep(w, a);
    StepKeepsWorld(w, Local(S.Found(a)));
    NewClaimant(w.s.providers, Step(w, Local(S.Found(a))).s.providers[|w.s.providers|]);
  }
}
