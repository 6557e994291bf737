// The bytes on the links of the whole system, in every run: what each link carries is what its client has queued,
// built from providers that have not changed since.

module WholeSystemLinks {
  import opened Basics
  import opened Mgmt
  import opened WholeSystem
  import opened P = Provider
  import C = ClientReport
  import S = Server
  import T = TxStream

  // ---- what one event does to a client's queue ----

  ghost predicate Grows(c: C.Report, d: C.Report) {
    d.sent == c.sent + NewPkts(c, d) && d.queue == c.queue + NewPkts(c, d)
  }

  ghost predicate Shifts(c: C.Report, d: C.Report) {
    c.queue != [] && d.sent == c.sent + NewPkts(c, d) && d.queue == c.queue[1..] + NewPkts(c, d)
  }

  lemma NewPktsAre(c: C.Report, d: C.Report, more: seq<MgmtPkt>)
    requires d.sent == c.sent + more
    ensures NewPkts(c, d) == more
  {
  }

  lemma BuildGrows(c: C.Report)
    ensures Grows(c, C.BuildUpdate(c))
  {
    var i := C.FirstNew(c.nodeList);
    if c.updateNodeCount == 0 || i == |c.nodeList| {
      NewPktsAre(c, c, []);
    } else {
      NewPktsAre(c, C.BuildUpdate(c), [NodePkt(c.nextIOTag, c.nodeList[i].nodeID, c.nodeList[i].node)]);
    }
  }

  lemma GrowsFrom(c: C.Report, b: C.Report, d: C.Report)
    requires b.sent == c.sent && b.queue == c.queue && Grows(b, d)
    ensures Grows(c, d)
  {
  }

  lemma AddGrows(c: C.Report, n: ProviderRef)
    ensures Grows(c, C.AddNode(c, n))
  {
    var b := C.AppendNode(c, n);
    BuildGrows(b);
    NewPktsAre(b, b, []);
    GrowsFrom(c, b, C.AddNode(c, n));
  }

  lemma RxGrows(c: C.Report, t: u32, g: u32)
    ensures Grows(c, C.ClientRx(c, t, g))
  {
    var d := C.ClientRx(c, t, g);
    if t == MGMT_REQ_PINFO { NewPktsAre(c, d, [Ack(g)]); } else { NewPktsAre(c, d, []); }
  }

  lemma ForwardGrows(c: C.Report, f: DebugFrame)
    ensures Grows(c, C.ForwardDebug(c, f))
  {
    var d := C.ForwardDebug(c, f);
    if !c.debug || c.state == C.Idle { NewPktsAre(c, d, []); } else { NewPktsAre(c, d, [DebugPkt(f)]); }
  }

  lemma TxShifts(c: C.Report)
    requires C.Enabled(c, C.TxDone)
    ensures Shifts(c, C.Step(c, C.TxDone))
  {
    var b := C.EndUpdate(c.(queue := c.queue[1..]));
    BuildGrows(b);
    NewPktsAre(b, b, []);
    assert b.sent == c.sent && b.queue == c.queue[1..];
  }

  /** Every event but a completion only adds to a client's queue. */
  lemma ClientsGrow(s: S.Server, e: S.Event, k: nat)
    requires S.Enabled(s, e) && k < |s.clients| && !e.Closed? && !e.Sent?
    ensures var t := S.Step(s, e).0;
            k < |t.clients| && (e.Connected? || |t.clients| == |s.clients|) && Grows(s.clients[k], t.clients[k])
  {
    var c := s.clients[k];
    NewPktsAre(c, c, []);
    match e
    case UdpRx(from, r) =>
      var i := S.Claimant(s.providers, from);
      if i < |s.providers| { AddGrows(c, i); }
    case Request(j, t, g) => RxGrows(c, t, g);
    case DebugRx(f) => ForwardGrows(c, f);
    case _ =>
  }

  // ---- packets stay what they were ----

  lemma PayloadsAppend(ps: seq<Provider>, a: seq<MgmtPkt>, b: seq<MgmtPkt>)
    ensures Payloads(ps, a + b) == Payloads(ps, a) + Payloads(ps, b)
  {
    MapAppend(Encoder(ps), a, b);
  }

  lemma PayloadsTail(ps: seq<Provider>, a: seq<MgmtPkt>)
    requires a != []
    ensures Payloads(ps, a)[1..] == Payloads(ps, a[1..])
  {
  }

  ghost predicate ReadyStable(ps: seq<Provider>, ps': seq<Provider>) {
    forall i {:trigger ps[i]} :: 0 <= i < |ps| && ps[i].txState == Ready ==> i < |ps'| && ps'[i] == ps[i]
  }

  ghost predicate AboutReady(ps: seq<Provider>, pkt: MgmtPkt) {
    pkt.NodePkt? ==> pkt.node < |ps| && ps[pkt.node].txState == Ready
  }

  lemma PayloadStable(ps: seq<Provider>, ps': seq<Provider>, pkt: MgmtPkt)
    requires ReadyStable(ps, ps') && AboutReady(ps, pkt)
    ensures Payload(ps', pkt) == Payload(ps, pkt)
  {
    if pkt.NodePkt? { assert ps'[pkt.node] == ps[pkt.node]; }
  }

  lemma PayloadsStable(ps: seq<Provider>, ps': seq<Provider>, pkts: seq<MgmtPkt>)
    requires ReadyStable(ps, ps') && forall p :: p in pkts ==> AboutReady(ps, p)
    ensures Payloads(ps', pkts) == Payloads(ps, pkts)
  {
    forall i | 0 <= i < |pkts| ensures Payloads(ps', pkts)[i] == Payloads(ps, pkts)[i] {
      PayloadStable(ps, ps', pkts[i]);
    }
  }

  lemma {:induction false} IsNodePkt(log: seq<MgmtPkt>, p: MgmtPkt)
    requires p in log && p.NodePkt?
    ensures p in C.NodePkts(log)
  {
    if p != log[|log| - 1] { IsNodePkt(log[..|log| - 1], p); }
  }

  /** Every node packet a client has queued is about a provider that is READY. */
  lemma SentAboutReady(c: C.Report, ps: seq<Provider>, p: MgmtPkt)
    requires S.ClientOk(c, ps) && p in c.sent
    ensures AboutReady(ps, p)
  {
    if p.NodePkt? {
      IsNodePkt(c.sent, p);
      var pkts := C.NodePkts(c.sent);
      var j :| 0 <= j < |pkts| && pkts[j] == p;
      assert p == NodePkt(j, j, c.nodeList[j].node);
    }
  }

  lemma ReadyStays(s: S.Server, e: S.Event)
    requires S.ServerInv(s) && S.Enabled(s, e)
    ensures ReadyStable(s.providers, S.Step(s, e).0.providers)
  {
    forall i | 0 <= i < |s.providers| && s.providers[i].txState == Ready
      ensures i < |S.Step(s, e).0.providers| && S.Step(s, e).0.providers[i] == s.providers[i]
    {
      S.ReadyIsFinal(s, e, i);
    }
  }

  // ---- the links follow the clients ----

  ghost predicate Synced(l: T.Link, c: C.Report, ps: seq<Provider>) {
    && T.LinkOk(l) && l.queue == Payloads(ps, c.queue) && l.sent == Payloads(ps, c.sent)
  }

  lemma QueueAllOk(l: T.Link, ps: seq<Bytes>)
    requires T.LinkOk(l)
    ensures T.LinkOk(T.QueueAll(l, ps))
  {
    Assoc(l.done, l.queue, ps);
  }

  lemma QueueInSent(c: C.Report)
    requires C.LogOk(c)
    ensures forall p :: p in c.queue ==> p in c.sent
  {
  }

  lemma SyncedProviders(l: T.Link, c: C.Report, ps: seq<Provider>, ps': seq<Provider>)
    requires Synced(l, c, ps) && S.ClientOk(c, ps) && ReadyStable(ps, ps')
    ensures Synced(l, c, ps')
  {
    forall p | p in c.sent ensures AboutReady(ps, p) { SentAboutReady(c, ps, p); }
    PayloadsStable(ps, ps', c.sent);
    QueueInSent(c);
    PayloadsStable(ps, ps', c.queue);
  }

  lemma SyncedGrows(l: T.Link, c: C.Report, d: C.Report, ps: seq<Provider>)
    requires Synced(l, c, ps) && Grows(c, d)
    ensures Synced(T.QueueAll(l, Payloads(ps, NewPkts(c, d))), d, ps)
  {
    QueueAllOk(l, Payloads(ps, NewPkts(c, d)));
    PayloadsAppend(ps, c.sent, NewPkts(c, d));
    PayloadsAppend(ps, c.queue, NewPkts(c, d));
  }

  lemma SyncedShifts(l: T.Link, n: nat, c: C.Report, d: C.Report, ps: seq<Provider>)
    requires Synced(l, c, ps) && Shifts(c, d) && T.CanDispatch(l, n) && T.Completes(l, n)
    ensures Synced(T.Dispatch(l, n, Payloads(ps, NewPkts(c, d))), d, ps)
  {
    T.SendSomeKeeps(l, n, Payloads(ps, NewPkts(c, d)));
    PayloadsTail(ps, c.queue);
    PayloadsAppend(ps, c.sent, NewPkts(c, d));
    PayloadsAppend(ps, c.queue[1..], NewPkts(c, d));
  }

  lemma SyncedPartial(l: T.Link, n: nat, c: C.Report, ps: seq<Provider>)
    requires Synced(l, c, ps) && T.CanDispatch(l, n) && !T.Completes(l, n)
    ensures Synced(T.Dispatch(l, n, []), c, ps)
  {
    T.StepKeeps(l, T.Out(n, []));
  }

  ghost predicate LinksOk(w: World) {
    && |w.links| == |w.s.clients|
    && forall k :: 0 <= k < |w.links| ==> Synced(w.links[k], w.s.clients[k], w.s.providers)
  }

  lemma NewClientSynced(s: S.Server)
    requires S.ServerInv(s)
    ensures var t := S.NewSrc(s);
            Synced(T.OPEN, t.clients[|s.clients|], t.providers)
  {
    S.WithReadyLists(s.providers, |s.providers|);
    var c := S.WithReady(s.providers, |s.providers|);
    assert c.sent == [] && c.queue == [];
  }

  lemma ClientKept(w: World, e: S.Event, k: nat)
    requires S.ServerInv(w.s) && LinksOk(w) && S.Enabled(w.s, e) && k < |w.links|
    ensures Synced(w.links[k], w.s.clients[k], S.Step(w.s, e).0.providers)
  {
    assert S.ClientOk(w.s.clients[k], w.s.providers);
    ReadyStays(w.s, e);
    SyncedProviders(w.links[k], w.s.clients[k], w.s.providers, S.Step(w.s, e).0.providers);
  }

  lemma SameCount(s: S.Server, e: S.Event)
    requires S.Enabled(s, e) && !e.Connected? && !e.Closed?
    ensures |S.Step(s, e).0.clients| == |s.clients|
  {
  }

  lemma QueueNewLinks(w: World, e: S.Event)
    requires S.ServerInv(w.s) && LinksOk(w) && S.Enabled(w.s, e) && !e.Sent? && !e.Connected? && !e.Closed?
    ensures LinksOk(ServerDoes(w, e))
  {
    var t := S.Step(w.s, e).0;
    SameCount(w.s, e);
    forall k | 0 <= k < |w.links| ensures Synced(ServerDoes(w, e).links[k], t.clients[k], t.providers) {
      ClientKept(w, e, k);
      ClientsGrow(w.s, e, k);
      SyncedGrows(w.links[k], w.s.clients[k], t.clients[k], t.providers);
    }
  }

  lemma ConnectedLinks(w: World)
    requires S.ServerInv(w.s) && LinksOk(w)
    ensures LinksOk(ServerDoes(w, S.Connected))
  {
    NewClientSynced(w.s);
    var v := ServerDoes(w, S.Connected);
    forall k | 0 <= k < |v.links| ensures Synced(v.links[k], v.s.clients[k], v.s.providers) {
      if k < |w.links| { assert v.links[k] == w.links[k] && v.s.clients[k] == w.s.clients[k]; }
    }
  }

  lemma ClosedLinks(w: World, j: nat)
    requires LinksOk(w) && j < |w.s.clients|
    ensures LinksOk(ServerDoes(w, S.Closed(j)))
  {
  }

  lemma ServerDoesLinks(w: World, e: S.Event)
    requires S.ServerInv(w.s) && LinksOk(w) && S.Enabled(w.s, e) && !e.Sent?
    ensures LinksOk(ServerDoes(w, e))
  {
    if e.Closed? {
      ClosedLinks(w, e.k);
    } else if e.Connected? {
      ConnectedLinks(w);
    } else {
      QueueNewLinks(w, e);
    }
  }

  /** All links but link k, and their clients, are as they were. */
  lemma OtherLinks(w: World, k: nat, l: T.Link, d: C.Report)
    requires LinksOk(w) && k < |w.links| && Synced(l, d, w.s.providers)
    ensures LinksOk(w.(s := w.s.(clients := w.s.clients[k := d]), links := w.links[k := l]))
  {
  }

  lemma CompletionLinks(w: World, k: nat, n: nat)
    requires LinksOk(w) && k < |w.links| && T.CanDispatch(w.links[k], n) && T.Completes(w.links[k], n)
    requires S.Enabled(w.s, S.Sent(k))
    ensures LinksOk(LinkDispatch(w, k, n))
  {
    var c := w.s.clients[k];
    var d := C.Step(c, C.TxDone);
    TxShifts(c);
    SyncedShifts(w.links[k], n, c, d, w.s.providers);
    OtherLinks(w, k, T.Dispatch(w.links[k], n, Payloads(w.s.providers, NewPkts(c, d))), d);
  }

  lemma PartialLinks(w: World, k: nat, n: nat)
    requires LinksOk(w) && k < |w.links| && T.CanDispatch(w.links[k], n) && !T.Completes(w.links[k], n)
    ensures LinksOk(LinkDispatch(w, k, n))
  {
    SyncedPartial(w.links[k], n, w.s.clients[k], w.s.providers);
  }

  ghost predicate WorldInv(w: World) {
    NetInv(w) && LinksOk(w)
  }

  lemma StepKeepsWorld(w: World, e: Event)
    requires WorldInv(w) && Enabled(w, e)
    ensures WorldInv(Step(w, e))
  {
    StepKeepsNet(w, e);
    match e
    case NodeGets(a, q) =>
    case ServerGets(a, r) => ServerDoesLinks(w.(net := w.net - multiset{ToServer(a, r)}), S.UdpRx(a, r));
    case Lost(m) =>
    case Copied(m) =>
    case Local(e) => ServerDoesLinks(w, e);
    case LinkOut(k, n) => if T.Completes(w.links[k], n) { CompletionLinks(w, k, n); } else { PartialLinks(w, k, n); }
  }

  lemma {:induction false} RunKeepsWorld(w: World, es: seq<Event>)
    requires WorldInv(w) && IsRun(w, es)
    ensures WorldInv(Run(w, es))
    decreases es
  {
    if es != [] {
      StepKeepsWorld(w, es[0]);
      RunKeepsWorld(Step(w, es[0]), es[1..]);
    }
  }

  lemma BeginOk(nodes: map<SockAddr, Node>, debugPort: u16, eventPort: u16)
    requires NodesOk(nodes)
    ensures WorldInv(Begin(nodes, debugPort, eventPort))
  {
  }
}
