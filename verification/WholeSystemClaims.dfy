// Whose claim a node holds, and when READY can be trusted, in the whole system: nodes at several addresses, services
// found again and again, datagrams lost, copied and reordered.

module WholeSystemClaims {
  import opened Basics
  import opened NodeCodec
  import opened WholeSystem
  import opened WholeSystemLinks
  import opened WholeSystemProgress
  import opened P = Provider
  import H = Handshake
  import HP = HandshakeProgress
  import S = Server

  // ---- what one address sees ----

  /** The provider that gets the packets from this address. */
  function ClaimantOf(w: World, a: SockAddr): (p: Option<Provider>)
    ensures p.Some? ==> p.value.addr == a
  {
    var j := S.Claimant(w.s.providers, a);
    if j < |w.s.providers| then Some(w.s.providers[j]) else None
  }

  /** The same claimant, the same node, and as many of each datagram. */
  ghost predicate SameView(w: World, u: World, a: SockAddr) {
    && ClaimantOf(u, a) == ClaimantOf(w, a)
    && (a in u.nodes <==> a in w.nodes) && (a in w.nodes ==> u.nodes[a] == w.nodes[a])
    && forall m :: AddrOf(m) == a ==> u.net[m] == w.net[m]
  }

  /** The address that an event is about, if it is about one. */
  function EventAddr(e: Event): Option<SockAddr> {
    match e
    case NodeGets(a, _) => Some(a)
    case ServerGets(a, _) => Some(a)
    case Lost(m) => Some(AddrOf(m))
    case Copied(m) => Some(AddrOf(m))
    case Local(l) => if l.Found? then Some(l.addr) else None
    case LinkOut(_, _) => None
  }

  lemma {:induction false} ClaimantByAddr(ps: seq<Provider>, qs: seq<Provider>, a: SockAddr)
    requires |ps| == |qs| && forall i :: 0 <= i < |ps| ==> ps[i].addr == qs[i].addr
    ensures S.Claimant(ps, a) == S.Claimant(qs, a)
    decreases |ps|
  {
    if ps != [] { ClaimantByAddr(ps[1..], qs[1..], a); }
  }

  lemma {:induction false} ClaimantGrown(ps: seq<Provider>, p: Provider, a: SockAddr)
    ensures S.Claimant(ps + [p], a) ==
            if S.Claimant(ps, a) < |ps| then S.Claimant(ps, a) else if p.addr == a then |ps| else |ps| + 1
    decreases |ps|
  {
    if ps != [] {
      assert (ps + [p])[1..] == ps[1..] + [p];
      ClaimantGrown(ps[1..], p, a);
    }
  }

  lemma OtherFound(w: World, b: SockAddr, a: SockAddr)
    requires WorldInv(w) && (b != a || ClaimantOf(w, a).Some?)
    ensures var u := Step(w, Local(S.Found(b)));
            && ClaimantOf(u, a) == ClaimantOf(w, a) && u.nodes == w.nodes
            && u.net == w.net + multiset{ToNode(b, PInfoReq(0))}
  {
    FoundStep(w, b);
    ClaimantGrown(w.s.providers, Step(w, Local(S.Found(b))).s.providers[|w.s.providers|], a);
  }

  lemma OtherFoundView(w: World, b: SockAddr, a: SockAddr)
    requires WorldInv(w) && b != a
    ensures SameView(w, Step(w, Local(S.Found(b))), a)
  {
    OtherFound(w, b, a);
  }

  /** Provider j, at address b, has changed. */
  lemma OneProvider(w: World, u: World, j: nat, a: SockAddr)
    requires j < |w.s.providers| == |u.s.providers| && u.s.providers == w.s.providers[j := u.s.providers[j]]
    requires u.s.providers[j].addr == w.s.providers[j].addr && j == S.Claimant(w.s.providers, w.s.providers[j].addr)
    ensures ClaimantOf(u, a) == if a == w.s.providers[j].addr then Some(u.s.providers[j]) else ClaimantOf(w, a)
  {
    ClaimantByAddr(w.s.providers, u.s.providers, a);
  }

  /** A reply that is wanted at address b. */
  ghost predicate IsWanted(w: World, b: SockAddr, r: Reply) {
    ClaimantOf(w, b).Some? && Wants(ClaimantOf(w, b).value, r)
  }

  lemma WantedReply(w: World, b: SockAddr, r: Reply, a: SockAddr)
    requires WorldInv(w) && Enabled(w, ServerGets(b, r)) && IsWanted(w, b, r)
    ensures var u := Step(w, ServerGets(b, r));
            && u.nodes == w.nodes && b in w.nodes && (a != b ==> ClaimantOf(u, a) == ClaimantOf(w, a))
            && ClaimantOf(u, b).Some?
            && var (p, q) := (ClaimantOf(w, b).value, ClaimantOf(u, b).value);
            && q.txState in {WaitEPointRpy, WaitSysInfoAck, Ready}
              && (q.txState == Ready <==> p.txState == WaitSysInfoAck)
            && u.net == w.net - multiset{ToServer(b, r)} + Asked(q)
  {
    var u := Step(w, ServerGets(b, r));
    var j := S.Claimant(w.s.providers, b);
    ReplyTaken(w, b, r);
    OneProvider(w, u, j, a);
    OneProvider(w, u, j, b);
  }

  lemma UnwantedReply(w: World, b: SockAddr, r: Reply, a: SockAddr)
    requires WorldInv(w) && Enabled(w, ServerGets(b, r)) && !IsWanted(w, b, r)
    ensures var u := Step(w, ServerGets(b, r));
            u.nodes == w.nodes && ClaimantOf(u, a) == ClaimantOf(w, a) && u.net == w.net - multiset{ToServer(b, r)}
  {
    ReplyDropped(w, b, r);
  }

  lemma OtherReply(w: World, b: SockAddr, r: Reply, a: SockAddr)
    requires WorldInv(w) && Enabled(w, ServerGets(b, r)) && b != a
    ensures SameView(w, Step(w, ServerGets(b, r)), a)
  {
    if IsWanted(w, b, r) { WantedReply(w, b, r, a); } else { UnwantedReply(w, b, r, a); }
  }

  lemma OtherNode(w: World, b: SockAddr, q: Request, a: SockAddr)
    requires Enabled(w, NodeGets(b, q)) && b != a
    ensures SameView(w, Step(w, NodeGets(b, q)), a)
  {
  }

  lemma OtherLocal(w: World, e: Event, a: SockAddr)
    requires WorldInv(w) && Enabled(w, e) && (e.LinkOut? || (e.Local? && !e.e.Found?))
    ensures SameView(w, Step(w, e), a)
  {
    LocalStep(w, e);
  }

  /** An event that is not about this address makes no difference to it. */
  lemma Elsewhere(w: World, e: Event, a: SockAddr)
    requires WorldInv(w) && Enabled(w, e) && EventAddr(e) != Some(a)
    ensures SameView(w, Step(w, e), a)
  {
    match e
    case NodeGets(b, q) => OtherNode(w, b, q, a);
    case ServerGets(b, r) => OtherReply(w, b, r, a);
    case Lost(m) =>
    case Copied(m) =>
    case Local(l) => if l.Found? { OtherFoundView(w, l.addr, a); } else { OtherLocal(w, e, a); }
    case LinkOut(k, n) => OtherLocal(w, e, a);
  }

  // ---- a node only ever holds the claim of its own provider ----

  predicate Past(p: Provider) {
    p.txState in {WaitSysInfoAck, Ready}
  }

  /** The request carries the identity and ports of this provider, which has been claimed. */
  predicate Carried(p: Provider, q: Request)
    requires q.SysInfoReq?
  {
    Past(p) && q.serverObjID == p.serverObjID && q.debugPort == p.debugPort && q.eventPort == p.eventPort
  }

  /** The node at this address has taken the claim of the provider that gets its packets. */
  predicate Holds(w: World, a: SockAddr) {
    a in w.nodes && ClaimantOf(w, a).Some? && Past(ClaimantOf(w, a).value)
      && HP.Claimed(w.nodes[a], ClaimantOf(w, a).value)
  }

  /** Claims on their way to this node are its provider's, and acknowledgements from it follow them. */
  ghost predicate OwnClaims(w: World, a: SockAddr) {
    && (forall q :: ToNode(a, q) in w.net && q.SysInfoReq? ==>
      ClaimantOf(w, a).Some? && Carried(ClaimantOf(w, a).value, q))
    && (forall r :: ToServer(a, r) in w.net && r.SysInfoAck? ==> Holds(w, a))
  }

  lemma SameOwnClaims(w: World, u: World, a: SockAddr)
    requires SameView(w, u, a)
    ensures Holds(u, a) <==> Holds(w, a)
    ensures OwnClaims(w, a) ==> OwnClaims(u, a)
  {
    if OwnClaims(w, a) {
      forall q | ToNode(a, q) in u.net && q.SysInfoReq? ensures ToNode(a, q) in w.net {
        assert AddrOf(ToNode(a, q)) == a;
      }
      forall r | ToServer(a, r) in u.net && r.SysInfoAck? ensures ToServer(a, r) in w.net {
        assert AddrOf(ToServer(a, r)) == a;
      }
    }
  }

  predicate SameClaim(p: Provider, q: Provider) {
    q.serverObjID == p.serverObjID && q.debugPort == p.debugPort && q.eventPort == p.eventPort
  }

  /** Once claimed a provider keeps its identity; when it is, it takes the server's next one and the server's ports. */
  predicate ClaimStep(s: S.Server, t: S.Server, p: Provider, q: Provider) {
    && (Past(p) ==> Past(q) && SameClaim(p, q))
    && (!Past(p) && Past(q) ==>
      && q.txState == WaitSysInfoAck && q.serverObjID == s.nextProviderID
      && q.debugPort == s.debugPort && q.eventPort == s.eventPort)
    && t.debugPort == s.debugPort && t.eventPort == s.eventPort
    && t.nextProviderID == s.nextProviderID + if !Past(p) && Past(q) then 1 else 0
  }

  lemma RxClaims(s: S.Server, j: nat, r: Reply)
    requires j < |s.providers| && CanProcess(s.providers[j], r)
    requires s.providers[j].txState in {WaitPInfoRpy, WaitEPointRpy, WaitSysInfoAck, Ready}
    ensures var t := S.ProviderRx(s, j, r).0;
            && |t.providers| == |s.providers| && t.providers == s.providers[j := t.providers[j]]
            && t.providers[j].addr == s.providers[j].addr && ClaimStep(s, t, s.providers[j], t.providers[j])
  {
  }

  lemma ReplyClaims(w: World, a: SockAddr, r: Reply)
    requires WorldInv(w) && Enabled(w, ServerGets(a, r)) && ClaimantOf(w, a).Some?
    ensures var u := Step(w, ServerGets(a, r));
            ClaimantOf(u, a).Some? && ClaimStep(w.s, u.s, ClaimantOf(w, a).value, ClaimantOf(u, a).value)
  {
    ServerGetsIs(w, a, r);
    var j := S.Claimant(w.s.providers, a);
    assert ProviderOk(w.s.providers[j], w.nodes);
    RxClaims(w.s, j, r);
    ClaimantByAddr(w.s.providers, Step(w, ServerGets(a, r)).s.providers, a);
  }

  lemma NodeGetsClaims(w: World, a: SockAddr, q: Request)
    requires WorldInv(w) && OwnClaims(w, a) && Enabled(w, NodeGets(a, q))
    ensures var u := Step(w, NodeGets(a, q));
            && OwnClaims(u, a) && (Holds(w, a) || q.SysInfoReq? ==> Holds(u, a))
            && (!q.SysInfoReq? ==> u.nodes == w.nodes)
  {
    var u := Step(w, NodeGets(a, q));
    assert ToNode(a, q) in w.net;
    assert !q.SysInfoReq? ==> u.nodes == w.nodes;
    forall r | ToServer(a, r) in u.net && r.SysInfoAck? ensures Holds(u, a) {
      if ToServer(a, r) !in w.net { assert q.SysInfoReq?; }
    }
  }

  /** Claims and acknowledgements stay good. */
  ghost predicate ClaimsKept(w: World, u: World, a: SockAddr) {
    OwnClaims(u, a) && (Holds(w, a) ==> Holds(u, a))
  }

  /** The provider's identity is kept or new, and only a new one is sent. */
  lemma TakenClaims(w: World, u: World, a: SockAddr, r: Reply)
    requires OwnClaims(w, a) && ClaimantOf(w, a).Some? && ClaimantOf(u, a).Some? && u.nodes == w.nodes
    requires ClaimStep(w.s, u.s, ClaimantOf(w, a).value, ClaimantOf(u, a).value)
    requires Past(ClaimantOf(w, a).value) ==> ClaimantOf(u, a).value.txState == Ready
    requires u.net == w.net - multiset{ToServer(a, r)} + Asked(ClaimantOf(u, a).value)
    ensures ClaimsKept(w, u, a)
  {
    var p, q := ClaimantOf(w, a).value, ClaimantOf(u, a).value;
    forall x | ToNode(a, x) in u.net && x.SysInfoReq? ensures Carried(q, x) {
      if ToNode(a, x) in Asked(q) { assert x == HP.Outstanding(q); } else { assert ToNode(a, x) in w.net; }
    }
    forall x | ToServer(a, x) in u.net && x.SysInfoAck? ensures Holds(u, a) {
      assert ToServer(a, x) in w.net;
    }
  }

  /** Nothing has changed but that datagrams are gone or there more than once. */
  lemma FewerClaims(w: World, u: World, a: SockAddr)
    requires OwnClaims(w, a) && ClaimantOf(u, a) == ClaimantOf(w, a) && u.nodes == w.nodes
    requires forall m :: m in u.net ==> m in w.net
    ensures ClaimsKept(w, u, a)
  {
  }

  lemma ServerGetsClaims(w: World, a: SockAddr, r: Reply)
    requires WorldInv(w) && OwnClaims(w, a) && Enabled(w, ServerGets(a, r))
    ensures ClaimsKept(w, Step(w, ServerGets(a, r)), a) && Step(w, ServerGets(a, r)).nodes == w.nodes
  {
    var u := Step(w, ServerGets(a, r));
    if IsWanted(w, a, r) {
      WantedReply(w, a, r, a);
      ReplyClaims(w, a, r);
      TakenClaims(w, u, a, r);
    } else {
      UnwantedReply(w, a, r, a);
      FewerClaims(w, u, a);
    }
  }

  lemma FoundClaims(w: World, a: SockAddr)
    requires WorldInv(w) && OwnClaims(w, a)
    ensures ClaimsKept(w, Step(w, Local(S.Found(a))), a) && Step(w, Local(S.Found(a))).nodes == w.nodes
  {
    FoundStep(w, a);
    if ClaimantOf(w, a).Some? { OtherFound(w, a, a); }
  }

  lemma ElsewhereClaims(w: World, e: Event, a: SockAddr)
    requires WorldInv(w) && OwnClaims(w, a) && Enabled(w, e) && EventAddr(e) != Some(a) && a in w.nodes
    ensures ClaimsKept(w, Step(w, e), a) && a in Step(w, e).nodes && Step(w, e).nodes[a] == w.nodes[a]
  {
    Elsewhere(w, e, a);
    SameOwnClaims(w, Step(w, e), a);
  }

  predicate TakesClaim(e: Event, a: SockAddr) {
    e.NodeGets? && e.to == a && e.q.SysInfoReq?
  }

  /** What happens to the provider and the datagrams of this address, but for the node itself. */
  lemma AtServerClaims(w: World, e: Event, a: SockAddr)
    requires WorldInv(w) && OwnClaims(w, a) && Enabled(w, e) && EventAddr(e) == Some(a) && !e.NodeGets?
    ensures ClaimsKept(w, Step(w, e), a) && Step(w, e).nodes == w.nodes
  {
    match e
    case ServerGets(_, r) => ServerGetsClaims(w, a, r);
    case Lost(m) => FewerClaims(w, Step(w, e), a);
    case Copied(m) => FewerClaims(w, Step(w, e), a);
    case Local(l) => FoundClaims(w, a);
  }

  /** A node takes no claim but its own provider's, and keeps it from then on. */
  lemma StepClaims(w: World, e: Event, a: SockAddr)
    requires WorldInv(w) && OwnClaims(w, a) && Enabled(w, e) && a in w.nodes
    ensures OwnClaims(Step(w, e), a) && a in Step(w, e).nodes
    ensures Holds(w, a) || TakesClaim(e, a) ==> Holds(Step(w, e), a)
    ensures !TakesClaim(e, a) ==> Step(w, e).nodes[a] == w.nodes[a]
  {
    if EventAddr(e) != Some(a) {
      ElsewhereClaims(w, e, a);
    } else if e.NodeGets? {
      NodeGetsClaims(w, a, e.q);
    } else {
      AtServerClaims(w, e, a);
    }
  }

  lemma {:induction false} RunClaims(w: World, es: seq<Event>, a: SockAddr)
    requires WorldInv(w) && OwnClaims(w, a) && IsRun(w, es) && a in w.nodes
    ensures OwnClaims(Run(w, es), a) && a in Run(w, es).nodes
    ensures Holds(w, a) || (exists e :: e in es && TakesClaim(e, a)) ==> Holds(Run(w, es), a)
    ensures (forall e :: e in es ==> !TakesClaim(e, a)) ==> Run(w, es).nodes[a] == w.nodes[a]
    decreases es
  {
    if es != [] {
      StepKeepsWorld(w, es[0]);
      StepClaims(w, es[0], a);
      RunClaims(Step(w, es[0]), es[1..], a);
      assert forall e :: e in es <==> e == es[0] || e in es[1..];
    }
  }

  /** Whatever happens to datagrams, and however often services are found: a node that has taken a claim in this run
      holds the identity and ports of the one provider that gets its packets; until then it is as it was. An
      acknowledgement on the network means that it has. */
  lemma NodeHoldsOwnClaim(nodes: map<SockAddr, Node>, debugPort: u16, eventPort: u16, es: seq<Event>, a: SockAddr)
    requires NodesOk(nodes) && IsRun(Begin(nodes, debugPort, eventPort), es) && a in nodes
    ensures var w := Run(Begin(nodes, debugPort, eventPort), es);
            && (if exists e :: e in es && TakesClaim(e, a) then Holds(w, a) else a in w.nodes && w.nodes[a] == nodes[a])
            && (forall r :: ToServer(a, r) in w.net && r.SysInfoAck? ==> Holds(w, a))
  {
    var start := Begin(nodes, debugPort, eventPort);
    BeginOk(nodes, debugPort, eventPort);
    RunClaims(start, es, a);
  }
}
