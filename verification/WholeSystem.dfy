// The whole system: nodes, a datagram network that loses, duplicates and reorders, the server, its clients, and
// the bytes on each client's link down to single sends.

module WholeSystem {
  import opened Basics
  import opened Mgmt
  import opened NodeCodec
  import opened MgmtFrames
  import opened ClientUpdate
  import opened P = Provider
  import C = ClientReport
  import H = Handshake
  import S = Server
  import T = TxStream

  datatype Envelope = ToNode(to: SockAddr, request: Request) | ToServer(from: SockAddr, reply: Reply)

  /** links[k] is the link of the server's client k. */
  datatype World = World(s: S.Server, nodes: map<SockAddr, Node>, net: multiset<Envelope>, links: seq<T.Link>)

  function Begin(nodes: map<SockAddr, Node>, debugPort: u16, eventPort: u16): World {
    World(S.Initial(debugPort, eventPort), nodes, multiset{}, [])
  }

  // ---- packets as bytes ----

  predicate Fits(ps: seq<Provider>, pkt: MgmtPkt) {
    match pkt
    case Ack(_) => true
    case NodePkt(tag, id, n) =>
      && tag < 0x1_0000_0000 && id < 0x1_0000_0000
      && n < |ps| && Reportable(ps[n]) && |ProviderBytes(RecordOf(ps[n]))| + 16 < 0x1_0000_0000
    case DebugPkt(f) => |f.data| + 32 < 0x1_0000_0000
  }

  function FrameOf(ps: seq<Provider>, pkt: MgmtPkt): (f: Frame)
    requires Fits(ps, pkt)
    ensures FrameFits(f)
  {
    match pkt
    case Ack(tag) => AckFrame(tag)
    case NodePkt(tag, id, n) => NodeFrame(tag, id, RecordOf(ps[n]))
    case DebugPkt(f) => DebugPktFrame(f)
  }

  /** The bytes of a packet that is built now; packets that outgrow the length word are not modelled. */
  function Payload(ps: seq<Provider>, pkt: MgmtPkt): Bytes {
    if Fits(ps, pkt) then FrameBytes(FrameOf(ps, pkt)) else []
  }

  function Encoder(ps: seq<Provider>): MgmtPkt -> Bytes {
    pkt => Payload(ps, pkt)
  }

  function Payloads(ps: seq<Provider>, pkts: seq<MgmtPkt>): (r: seq<Bytes>)
    ensures |r| == |pkts|
    ensures forall i :: 0 <= i < |pkts| ==> r[i] == Payload(ps, pkts[i])
  {
    Map(Encoder(ps), pkts)
  }

  /** What a client has queued between two of its states. */
  function NewPkts(c: C.Report, d: C.Report): seq<MgmtPkt> {
    if |c.sent| <= |d.sent| then d.sent[|c.sent|..] else []
  }

  // ---- steps ----

  function Envelopes(ds: seq<S.Datagram>): multiset<Envelope> {
    if ds == [] then multiset{} else Envelopes(ds[1..]) + multiset{ToNode(ds[0].to, ds[0].request)}
  }

  /** Every link gets the packets its client has queued in this step, built from the providers as they are then. */
  function QueueNew(links: seq<T.Link>, before: seq<C.Report>, after: seq<C.Report>,
      ps: seq<Provider>): (r: seq<T.Link>)
    requires |links| == |before| == |after|
    ensures |r| == |links|
    ensures forall k :: 0 <= k < |links| ==> r[k] == T.QueueAll(links[k], Payloads(ps, NewPkts(before[k], after[k])))
  {
    seq(|links|, k requires 0 <= k < |links| => T.QueueAll(links[k], Payloads(ps, NewPkts(before[k], after[k]))))
  }

  function ServerDoes(w: World, e: S.Event): World
    requires S.Enabled(w.s, e) && |w.links| == |w.s.clients| && !e.Sent?
  {
    var (t, out) := S.Step(w.s, e);
    var links :=
      match e
      case Connected => w.links + [T.OPEN]
      case Closed(k) => w.links[..k] + w.links[k + 1..]
      case _ => if |t.clients| == |w.links| then QueueNew(w.links, w.s.clients, t.clients, t.providers) else w.links;
    w.(s := t, net := w.net + Envelopes(out), links := links)
  }

  /** A dispatch on link k; if it completes a packet, the client is told within it. */
  function LinkDispatch(w: World, k: nat, n: nat): World
    requires k < |w.links| == |w.s.clients| && T.CanDispatch(w.links[k], n)
    requires T.Completes(w.links[k], n) ==> S.Enabled(w.s, S.Sent(k))
  {
    if T.Completes(w.links[k], n) then
      var t := S.Step(w.s, S.Sent(k)).0;
      w.(s := t, links := w.links[k := T.Dispatch(w.links[k], n,
        Payloads(t.providers, NewPkts(w.s.clients[k], t.clients[k])))])
    else
      w.(links := w.links[k := T.Dispatch(w.links[k], n, [])])
  }

  datatype Event =
    | NodeGets(to: SockAddr, q: Request)
    | ServerGets(from: SockAddr, r: Reply)
    | Lost(m: Envelope)
    | Copied(m: Envelope)
    | Local(e: S.Event)
    | LinkOut(k: nat, n: nat)

  predicate Enabled(w: World, e: Event) {
    && |w.links| == |w.s.clients|
    && match e
       case NodeGets(a, q) => ToNode(a, q) in w.net && a in w.nodes && CanAnswer(w.nodes[a], q)
       case ServerGets(a, r) => ToServer(a, r) in w.net && S.CanReceive(w.s, a, r)
       case Lost(m) => m in w.net
       case Copied(m) => m in w.net
       case Local(e) => !e.UdpRx? && !e.Sent? && S.Enabled(w.s, e)
       case LinkOut(k, n) =>
         && k < |w.links| && T.CanDispatch(w.links[k], n)
         && (T.Completes(w.links[k], n) ==> S.Enabled(w.s, S.Sent(k)))
  }

  function Step(w: World, e: Event): World
    requires Enabled(w, e)
  {
    match e
    case NodeGets(a, q) =>
      var (n, r) := Answer(w.nodes[a], q);
      w.(nodes := w.nodes[a := n], net := w.net - multiset{ToNode(a, q)} + multiset{ToServer(a, r)})
    case ServerGets(a, r) => ServerDoes(w.(net := w.net - multiset{ToServer(a, r)}), S.UdpRx(a, r))
    case Lost(m) => w.(net := w.net - multiset{m})
    case Copied(m) => w.(net := w.net + multiset{m})
    case Local(e) => ServerDoes(w, e)
    case LinkOut(k, n) => LinkDispatch(w, k, n)
  }

  predicate IsRun(w: World, es: seq<Event>)
    decreases es
  {
    es == [] || (Enabled(w, es[0]) && IsRun(Step(w, es[0]), es[1..]))
  }

  function Run(w: World, es: seq<Event>): World
    requires IsRun(w, es)
    decreases es
  {
    if es == [] then w else Run(Step(w, es[0]), es[1..])
  }

  lemma RunFirst(w: World, e: Event, es: seq<Event>)
    requires Enabled(w, e) && IsRun(Step(w, e), es)
    ensures IsRun(w, [e] + es) && Run(w, [e] + es) == Run(Step(w, e), es)
  {
    assert ([e] + es)[1..] == es;
  }

  lemma {:induction false} RunsJoin(w: World, es: seq<Event>, fs: seq<Event>)
    requires IsRun(w, es) && IsRun(Run(w, es), fs)
    ensures IsRun(w, es + fs) && Run(w, es + fs) == Run(Run(w, es), fs)
    decreases es
  {
    if es == [] {
      assert es + fs == fs;
    } else {
      HeadApart(es, fs);
      RunsJoin(Step(w, es[0]), es[1..], fs);
      RunFirst(w, es[0], es[1..] + fs);
    }
  }

  lemma OneStep(w: World, e: Event)
    requires Enabled(w, e)
    ensures IsRun(w, [e]) && Run(w, [e]) == Step(w, e)
  {
    RunFirst(w, e, []);
    assert [e] + [] == [e];
  }

  lemma TwoSteps(w: World, u: World, e: Event, f: Event)
    requires Enabled(w, e) && u == Step(w, e) && Enabled(u, f)
    ensures IsRun(w, [e, f]) && Run(w, [e, f]) == Step(u, f)
  {
    OneStep(u, f);
    RunFirst(w, e, [f]);
    assert [e] + [f] == [e, f];
  }

  // ---- what every run keeps: the network ----

  ghost predicate NodesOk(nodes: map<SockAddr, Node>) {
    forall a :: a in nodes ==> NodeOk(nodes[a]) && nodes[a].endpoints != []
  }

  /** Where there is a node, the provider's picture of it is right; elsewhere nothing has been heard. */
  ghost predicate ProviderOk(p: Provider, nodes: map<SockAddr, Node>) {
    if p.addr in nodes then Sound(p, nodes[p.addr]) else p.txState == WaitPInfoRpy
  }

  ghost predicate ProvidersOk(ps: seq<Provider>, nodes: map<SockAddr, Node>) {
    forall i :: 0 <= i < |ps| ==> ProviderOk(ps[i], nodes)
  }

  ghost predicate EnvelopeOk(m: Envelope, nodes: map<SockAddr, Node>) {
    match m
    case ToNode(a, q) => a in nodes ==> CanAnswer(nodes[a], q)
    case ToServer(a, r) => a in nodes && Authentic(nodes[a], r)
  }

  ghost predicate NetOk(net: multiset<Envelope>, nodes: map<SockAddr, Node>) {
    forall m :: m in net ==> EnvelopeOk(m, nodes)
  }

  /** What a node announces never changes. */
  ghost predicate SameAnnouncements(nodes: map<SockAddr, Node>, nodes': map<SockAddr, Node>) {
    && nodes.Keys == nodes'.Keys
    && forall a :: a in nodes ==> nodes'[a].head == nodes[a].head && nodes'[a].endpoints == nodes[a].endpoints
  }

  lemma SoundSame(p: Provider, n: Node, n': Node)
    requires Sound(p, n) && n.head == n'.head && n.endpoints == n'.endpoints
    ensures Sound(p, n')
  {
  }

  lemma AnnouncementsKeep(w: World, nodes': map<SockAddr, Node>)
    requires NodesOk(w.nodes) && ProvidersOk(w.s.providers, w.nodes) && NetOk(w.net, w.nodes)
    requires SameAnnouncements(w.nodes, nodes')
    ensures NodesOk(nodes') && ProvidersOk(w.s.providers, nodes') && NetOk(w.net, nodes')
  {
    forall i | 0 <= i < |w.s.providers| ensures ProviderOk(w.s.providers[i], nodes') {
      var p := w.s.providers[i];
      assert ProviderOk(p, w.nodes);
      if p.addr in nodes' { SoundSame(p, w.nodes[p.addr], nodes'[p.addr]); }
    }
    forall m | m in w.net ensures EnvelopeOk(m, nodes') {
      assert EnvelopeOk(m, w.nodes);
    }
  }

  /** What is sent for provider q, on either level. */
  lemma SameTransmission(q: Provider)
    ensures var (r, msgs) := H.Transmit(q);
            var (r', m) := P.GenerateTxRequest(q);
            && r == r' && r.addr == q.addr
            && var out := S.Outgoing(r', m);
            && |out| <= 1 && (out != [] ==> out[0].to == q.addr)
            && msgs == if out == [] then multiset{} else multiset{H.ToNode(out[0].request)}
  {
  }

  lemma ReplyKeepsAddr(p: Provider, r: Reply)
    requires CanProcess(p, r)
    ensures var (q, signal) := P.ProcessRxReply(p, r);
            q.addr == p.addr && (signal == InfoComplete ==> q.txState == WaitClaim)
  {
  }

  /** The server's handling of a reply is the handshake's, for the provider that claims the packet. */
  lemma RxIsHandshake(s: S.Server, i: nat, r: Reply)
    requires i < |s.providers| && CanProcess(s.providers[i], r)
    ensures var (t, out) := S.ProviderRx(s, i, r);
            var (q, msgs) := H.ServerReceives(s.providers[i], r,
              H.Claiming(s.nextProviderID, s.debugPort, s.eventPort));
            && t.providers == s.providers[i := q] && q.addr == s.providers[i].addr
            && |out| <= 1 && (out != [] ==> out[0].to == q.addr)
            && msgs == if out == [] then multiset{} else multiset{H.ToNode(out[0].request)}
  {
    ReplyKeepsAddr(s.providers[i], r);
    var (q, signal) := P.ProcessRxReply(s.providers[i], r);
    if signal == TxRequest {
      SameTransmission(q);
    } else if signal == InfoComplete {
      SameTransmission(P.Claim(q, s.nextProviderID, s.debugPort, s.eventPort).0);
    }
  }

  lemma ReplyKeepsProviders(s: S.Server, nodes: map<SockAddr, Node>, a: SockAddr, r: Reply)
    requires NodesOk(nodes) && ProvidersOk(s.providers, nodes) && S.Waiting(s.providers)
    requires a in nodes && Authentic(nodes[a], r)
    ensures S.CanReceive(s, a, r)
    ensures var (t, out) := S.HNodeRx(s, a, r);
            && ProvidersOk(t.providers, nodes) && |out| <= 1
            && forall d :: d in out ==> EnvelopeOk(ToNode(d.to, d.request), nodes)
  {
    var i := S.Claimant(s.providers, a);
    if i < |s.providers| {
      assert ProviderOk(s.providers[i], nodes);
      H.ServerReceivesSafely(s.providers[i], nodes[a], r, H.Claiming(s.nextProviderID, s.debugPort, s.eventPort));
      RxIsHandshake(s, i, r);
      var (t, out) := S.HNodeRx(s, a, r);
      forall j | 0 <= j < |t.providers| ensures ProviderOk(t.providers[j], nodes) {
        if j != i { assert ProviderOk(s.providers[j], nodes); }
      }
    }
  }

  ghost predicate NetInv(w: World) {
    && NodesOk(w.nodes) && ProvidersOk(w.s.providers, w.nodes) && NetOk(w.net, w.nodes)
    && S.ServerInv(w.s)
  }

  lemma OneEnvelope(ds: seq<S.Datagram>, nodes: map<SockAddr, Node>)
    requires |ds| <= 1 && forall d :: d in ds ==> EnvelopeOk(ToNode(d.to, d.request), nodes)
    ensures NetOk(Envelopes(ds), nodes)
  {
    if ds != [] { assert ds[0] in ds && ds[1..] == []; }
  }

  lemma NetGrows(net: multiset<Envelope>, more: multiset<Envelope>, nodes: map<SockAddr, Node>)
    requires NetOk(net, nodes) && NetOk(more, nodes)
    ensures NetOk(net + more, nodes)
  {
    forall m | m in net + more ensures EnvelopeOk(m, nodes) {
      assert m in net || m in more;
    }
  }

  lemma NetShrinks(net: multiset<Envelope>, m: Envelope, nodes: map<SockAddr, Node>)
    requires NetOk(net, nodes)
    ensures NetOk(net - multiset{m}, nodes)
  {
  }

  lemma NodeGetsKeepsNet(w: World, a: SockAddr, q: Request)
    requires NetInv(w) && Enabled(w, NodeGets(a, q))
    ensures NetInv(Step(w, NodeGets(a, q)))
  {
    var (n, r) := Answer(w.nodes[a], q);
    AnswerIsAuthentic(w.nodes[a], q);
    var nodes' := w.nodes[a := n];
    AnnouncementsKeep(w, nodes');
    NetShrinks(w.net, ToNode(a, q), nodes');
    assert EnvelopeOk(ToServer(a, r), nodes');
    NetGrows(w.net - multiset{ToNode(a, q)}, multiset{ToServer(a, r)}, nodes');
  }

  lemma ServerGetsKeepsNet(w: World, a: SockAddr, r: Reply)
    requires NetInv(w) && Enabled(w, ServerGets(a, r))
    ensures NetInv(Step(w, ServerGets(a, r)))
  {
    assert EnvelopeOk(ToServer(a, r), w.nodes);
    ReplyKeepsProviders(w.s, w.nodes, a, r);
    S.ServerStepKeeps(w.s, S.UdpRx(a, r));
    NetShrinks(w.net, ToServer(a, r), w.nodes);
    var out := S.HNodeRx(w.s, a, r).1;
    OneEnvelope(out, w.nodes);
    NetGrows(w.net - multiset{ToServer(a, r)}, Envelopes(out), w.nodes);
  }

  /** Events inside the server leave the providers alone, or add one that has just asked. */
  lemma LocalProviders(s: S.Server, nodes: map<SockAddr, Node>, e: S.Event)
    requires S.Enabled(s, e) && !e.UdpRx? && ProvidersOk(s.providers, nodes)
    ensures var (t, out) := S.Step(s, e);
            && (t.providers == s.providers || e.Found?)
            && ProvidersOk(t.providers, nodes)
            && |out| <= 1 && forall d :: d in out ==> EnvelopeOk(ToNode(d.to, d.request), nodes)
  {
    if e.Found? {
      var t := S.Step(s, e).0;
      forall j | 0 <= j < |t.providers| ensures ProviderOk(t.providers[j], nodes) {
        if j < |s.providers| { assert ProviderOk(s.providers[j], nodes); }
      }
    }
  }

  lemma LocalKeepsNet(w: World, e: S.Event)
    requires NetInv(w) && Enabled(w, Local(e))
    ensures NetInv(Step(w, Local(e)))
  {
    LocalProviders(w.s, w.nodes, e);
    S.ServerStepKeeps(w.s, e);
    var out := S.Step(w.s, e).1;
    OneEnvelope(out, w.nodes);
    NetGrows(w.net, Envelopes(out), w.nodes);
  }

  lemma LinkOutKeepsNet(w: World, k: nat, n: nat)
    requires NetInv(w) && Enabled(w, LinkOut(k, n))
    ensures NetInv(Step(w, LinkOut(k, n)))
  {
    if T.Completes(w.links[k], n) {
      LocalProviders(w.s, w.nodes, S.Sent(k));
      S.ServerStepKeeps(w.s, S.Sent(k));
    }
  }

  lemma StepKeepsNet(w: World, e: Event)
    requires NetInv(w) && Enabled(w, e)
    ensures NetInv(Step(w, e))
  {
    match e
    case NodeGets(a, q) => NodeGetsKeepsNet(w, a, q);
    case ServerGets(a, r) => ServerGetsKeepsNet(w, a, r);
    case Lost(m) => NetShrinks(w.net, m, w.nodes);
    case Copied(m) =>
      assert EnvelopeOk(m, w.nodes);
      NetGrows(w.net, multiset{m}, w.nodes);
    case Local(e) => LocalKeepsNet(w, e);
    case LinkOut(k, n) => LinkOutKeepsNet(w, k, n);
  }
}
