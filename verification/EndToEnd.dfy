// What a browser makes of the bytes that reach it, in every run of the whole system.

module EndToEnd {
  import opened Basics
  import opened Mgmt
  import opened NodeCodec
  import opened MgmtFrames
  import opened ClientUpdate
  import opened WholeSystem
  import opened WholeSystemLinks
  import opened P = Provider
  import opened DebugCodec
  import B = BrowserMpoint
  import C = ClientReport
  import S = Server
  import T = TxStream
  import L = WireLayout

  /** A browser's list after one received packet: a report adds its node, anything else is passed over. */
  function AfterBytes(v: seq<(nat, Provider)>, b: Bytes): seq<(nat, Provider)> {
    match ReadNodePkt(b)
    case Fail => v
    case Got(r, _) => v + [(r.nodeID as nat, Parsed(NewProvider(NO_ADDR), r.provider))]
  }

  /** A browser's list after these packets. */
  function Known(bs: seq<Bytes>): seq<(nat, Provider)> {
    if bs == [] then [] else AfterBytes(Known(bs[..|bs| - 1]), bs[|bs| - 1])
  }

  lemma AfterFrameBytes(v: seq<(nat, Provider)>, f: Frame)
    requires FrameFits(f)
    ensures AfterBytes(v, FrameBytes(f)) == AfterFrame(v, f)
  {
    if f.NodeFrame? {
      NodePktRoundTrip(f.tag, f.nodeID, f.record);
    } else {
      assert Has(FrameBytes(f), 0, FrameBytes(f));
      FrameRead(FrameBytes(f), f);
    }
  }

  /** The entry a report about provider p makes. */
  function Entry(id: nat, p: Provider): (nat, Provider)
    requires Reportable(p)
  {
    (id, Parsed(NewProvider(NO_ADDR), RecordOf(p)))
  }

  ghost predicate AllFit(ps: seq<Provider>, pkts: seq<MgmtPkt>) {
    forall p :: p in pkts ==> Fits(ps, p)
  }

  /** The entries a log of packets makes, in order. */
  function Entries(ps: seq<Provider>, pkts: seq<MgmtPkt>): (r: seq<(nat, Provider)>)
    requires AllFit(ps, pkts)
    ensures |r| == |C.NodePkts(pkts)|
  {
    if pkts == [] then []
    else
      var p := pkts[|pkts| - 1];
      assert Fits(ps, p);
      Entries(ps, pkts[..|pkts| - 1]) + if p.NodePkt? then [Entry(p.nodeID, ps[p.node])] else []
  }

  lemma {:induction false} KnownEntries(ps: seq<Provider>, pkts: seq<MgmtPkt>)
    requires AllFit(ps, pkts)
    ensures Known(Payloads(ps, pkts)) == Entries(ps, pkts)
  {
    if pkts != [] {
      var n := |pkts| - 1;
      KnownEntries(ps, pkts[..n]);
      assert Payloads(ps, pkts)[..n] == Payloads(ps, pkts[..n]);
      assert Fits(ps, pkts[n]);
      AfterFrameBytes(Entries(ps, pkts[..n]), FrameOf(ps, pkts[n]));
    }
  }

  lemma {:induction false} EntriesOf(ps: seq<Provider>, pkts: seq<MgmtPkt>, j: nat)
    requires AllFit(ps, pkts) && j < |C.NodePkts(pkts)|
    ensures var p := C.NodePkts(pkts)[j];
            p.NodePkt? && Fits(ps, p) && Entries(ps, pkts)[j] == Entry(p.nodeID, ps[p.node])
  {
    var n := |pkts| - 1;
    if j < |C.NodePkts(pkts[..n])| { EntriesOf(ps, pkts[..n], j); } else { assert Fits(ps, pkts[n]); }
  }

  lemma {:induction false} NodePktsPrefix(log: seq<MgmtPkt>, n: nat)
    requires n <= |log|
    ensures |C.NodePkts(log[..n])| <= |C.NodePkts(log)|
    ensures C.NodePkts(log[..n]) == C.NodePkts(log)[..|C.NodePkts(log[..n])|]
    decreases |log| - n
  {
    if n < |log| {
      NodePktsPrefix(log, n + 1);
      assert log[..n + 1][..n] == log[..n];
    } else {
      assert log[..n] == log;
    }
  }

  // ---- from the link back to the nodes ----

  /** Sizes and counters stay within their words. */
  ghost predicate CountersFit(ps: seq<Provider>, pkt: MgmtPkt) {
    match pkt
    case Ack(_) => true
    case NodePkt(tag, id, n) =>
      tag < 0x1_0000_0000 && id < 0x1_0000_0000 &&
      (n < |ps| ==>
        && |ps[n].endPoints| < 0x1_0000_0000 && ps[n].serverObjID < 0x1_0000_0000
        && (ps[n].uid.Some? ==> |ProviderBytes(RecordOf(ps[n]))| + 16 < 0x1_0000_0000))
    case DebugPkt(f) => |f.data| + 32 < 0x1_0000_0000
  }

  ghost predicate ClientFits(w: World, k: nat)
    requires k < |w.s.clients|
  {
    forall p :: p in w.s.clients[k].sent ==> CountersFit(w.s.providers, p)
  }

  /** Provider i is READY and holds exactly what the node at its address announces. */
  ghost predicate TrueOf(w: World, i: nat) {
    && i < |w.s.providers| && w.s.providers[i].txState == Ready
    && w.s.providers[i].addr in w.nodes && Agrees(w.s.providers[i], w.nodes[w.s.providers[i].addr])
  }

  lemma ReadyIsTrue(w: World, i: nat)
    requires NetInv(w) && i < |w.s.providers| && w.s.providers[i].txState == Ready
    ensures TrueOf(w, i)
  {
    assert ProviderOk(w.s.providers[i], w.nodes);
  }

  lemma SentFits(w: World, k: nat)
    requires WorldInv(w) && k < |w.s.clients| && ClientFits(w, k)
    ensures AllFit(w.s.providers, w.s.clients[k].sent)
  {
    assert S.ClientOk(w.s.clients[k], w.s.providers);
    forall p | p in w.s.clients[k].sent ensures Fits(w.s.providers, p) {
      assert CountersFit(w.s.providers, p);
      SentAboutReady(w.s.clients[k], w.s.providers, p);
      if p.NodePkt? { ReadyIsTrue(w, p.node); }
    }
  }

  /** Entry j of the browser is node j of the client's list, as the node itself announces it. */
  ghost predicate KnowsNode(w: World, k: nat, v: seq<(nat, Provider)>, j: nat)
    requires k < |w.s.clients|
  {
    && j < |v| && j < |w.s.clients[k].nodeList| && v[j].0 == j
    && TrueOf(w, w.s.clients[k].nodeList[j].node)
    && SameIdentity(v[j].1, w.s.providers[w.s.clients[k].nodeList[j].node])
  }

  lemma PayloadsAreFrames(ps: seq<Provider>, pkts: seq<MgmtPkt>)
    requires AllFit(ps, pkts)
    ensures forall b :: b in Payloads(ps, pkts) ==> T.IsFrame(b)
  {
    forall b | b in Payloads(ps, pkts) ensures T.IsFrame(b) {
      var i :| 0 <= i < |pkts| && Payloads(ps, pkts)[i] == b;
      assert Fits(ps, pkts[i]);
      FramesAreFramed(FrameOf(ps, pkts[i]));
    }
  }

  lemma PayloadsPrefix(ps: seq<Provider>, pkts: seq<MgmtPkt>, done: seq<Bytes>, queue: seq<Bytes>)
    requires Payloads(ps, pkts) == done + queue
    ensures |done| <= |pkts| && done == Payloads(ps, pkts[..|done|]) && (queue == [] ==> |done| == |pkts|)
  {
    var bs := Payloads(ps, pkts);
    assert done == bs[..|done|];
    assert bs[..|done|] == Payloads(ps, pkts[..|done|]);
  }

  /** The packets that have arrived whole are a beginning of what the client has queued. */
  lemma Arrived(w: World, k: nat)
    requires WorldInv(w) && k < |w.s.clients| && ClientFits(w, k)
    ensures var l := w.links[k];
            var m := |l.done|;
            && m <= |w.s.clients[k].sent| && l.done == Payloads(w.s.providers, w.s.clients[k].sent[..m])
            && T.SplitFrames(l.wire).0 == l.done && (l.queue == [] ==> m == |w.s.clients[k].sent|)
  {
    SentFits(w, k);
    assert Synced(w.links[k], w.s.clients[k], w.s.providers);
    PayloadsAreFrames(w.s.providers, w.s.clients[k].sent);
    PayloadsPrefix(w.s.providers, w.s.clients[k].sent, w.links[k].done, w.links[k].queue);
    T.ReceiverSees(w.links[k]);
  }

  /** What the bytes of a packet say: an acknowledgement is its type and the request's tag, a debug packet the frame
      that was forwarded, a node packet its tag and the record of its provider. */
  ghost predicate Says(ps: seq<Provider>, pkt: MgmtPkt, b: Bytes) {
    match pkt
    case Ack(tag) => b == [0, 0, 0, 12, 0, 0, 0, 7] + U32Bytes(tag)
    case NodePkt(tag, id, n) =>
      && tag < 0x1_0000_0000 && id < 0x1_0000_0000 && n < |ps| && Reportable(ps[n])
      && ReadNodePkt(b) == Got(NodeRecord(id, RecordOf(ps[n])), |b|) && |b| >= 12 && U32At(b, 8) == tag
    case DebugPkt(f) => ReadDebugPkt(b) == Got(f, |b|)
  }

  lemma PayloadSays(ps: seq<Provider>, pkt: MgmtPkt)
    requires Fits(ps, pkt)
    ensures Says(ps, pkt, Payload(ps, pkt))
  {
    match pkt
    case Ack(tag) => L.HeadersAre(tag);
    case NodePkt(tag, id, n) =>
      NodePktRoundTrip(tag, id, RecordOf(ps[n]));
      L.NodePktIs(tag, id, RecordOf(ps[n]));
    case DebugPkt(f) => DebugPktRead(DebugPktBytes(f), f);
  }

  /** Every packet on a link says what the client queued at that place. */
  lemma PacketsSay(w: World, k: nat, j: nat)
    requires WorldInv(w) && k < |w.s.clients| && ClientFits(w, k) && j < |T.SplitFrames(w.links[k].wire).0|
    ensures j < |w.s.clients[k].sent|
    ensures Says(w.s.providers, w.s.clients[k].sent[j], T.SplitFrames(w.links[k].wire).0[j])
  {
    Arrived(w, k);
    SentFits(w, k);
    var pkt := w.s.clients[k].sent[j];
    assert pkt == w.s.clients[k].sent[..|w.links[k].done|][j];
    PayloadSays(w.s.providers, pkt);
  }

  lemma KnownNode(w: World, k: nat, m: nat, j: nat)
    requires WorldInv(w) && k < |w.s.clients| && ClientFits(w, k) && m <= |w.s.clients[k].sent|
    requires j < |Known(Payloads(w.s.providers, w.s.clients[k].sent[..m]))|
    ensures KnowsNode(w, k, Known(Payloads(w.s.providers, w.s.clients[k].sent[..m])), j)
  {
    var ps, c := w.s.providers, w.s.clients[k];
    var log := c.sent[..m];
    SentFits(w, k);
    assert AllFit(ps, log);
    KnownEntries(ps, log);
    EntriesOf(ps, log, j);
    NodePktsPrefix(c.sent, m);
    assert S.ClientOk(c, ps);
    assert C.NodePkts(log)[j] == C.NodePkts(c.sent)[j] == NodePkt(j, j, c.nodeList[j].node);
    var i := c.nodeList[j].node;
    ReadyIsTrue(w, i);
    ReportIsTrue(ps[i], w.nodes[ps[i].addr], NO_ADDR);
  }

  lemma StepAnnouncements(w: World, e: Event)
    requires Enabled(w, e)
    ensures SameAnnouncements(w.nodes, Step(w, e).nodes)
  {
    if e.NodeGets? {
      AnswerIsAuthentic(w.nodes[e.to], e.q);
    }
  }

  lemma {:induction false} RunAnnouncements(w: World, es: seq<Event>)
    requires IsRun(w, es)
    ensures SameAnnouncements(w.nodes, Run(w, es).nodes)
    decreases es
  {
    if es != [] {
      StepAnnouncements(w, es[0]);
      RunAnnouncements(Step(w, es[0]), es[1..]);
    }
  }

  lemma DrainedIsComplete(w: World, k: nat)
    requires WorldInv(w) && k < |w.s.clients| && ClientFits(w, k)
    requires w.s.clients[k].reportNodes && w.links[k].queue == []
    ensures |Known(T.SplitFrames(w.links[k].wire).0)| == |w.s.clients[k].nodeList|
  {
    var c := w.s.clients[k];
    Arrived(w, k);
    SentFits(w, k);
    assert c.sent[..|c.sent|] == c.sent;
    KnownEntries(w.s.providers, c.sent);
    assert S.ClientOk(c, w.s.providers);
    assert Synced(w.links[k], c, w.s.providers);
    C.AllReported(c);
  }

  lemma KnownSoFar(w: World, k: nat)
    requires WorldInv(w) && k < |w.s.clients| && ClientFits(w, k)
    ensures var v := Known(T.SplitFrames(w.links[k].wire).0);
            && (forall j :: 0 <= j < |v| ==> KnowsNode(w, k, v, j))
            && (w.s.clients[k].reportNodes && w.links[k].queue == [] ==> |v| == |w.s.clients[k].nodeList|)
  {
    var c := w.s.clients[k];
    Arrived(w, k);
    var m := |w.links[k].done|;
    var v := Known(T.SplitFrames(w.links[k].wire).0);
    forall j | 0 <= j < |v| ensures KnowsNode(w, k, v, j) {
      KnownNode(w, k, m, j);
    }
    if c.reportNodes && w.links[k].queue == [] {
      DrainedIsComplete(w, k);
    }
  }

  /** In every reachable state of the whole system - datagrams lost, copied and reordered, clients connecting at
      any time, sends cut anywhere - the packets a browser finds on its link give it a beginning of the client's
      node list, with NodeIDs counting from zero, each entry equal to what the node itself announces. */
  lemma BrowserKnowsTheTruth(nodes: map<SockAddr, Node>, debugPort: u16, eventPort: u16, es: seq<Event>, k: nat)
    requires NodesOk(nodes) && IsRun(Begin(nodes, debugPort, eventPort), es)
    requires k < |Run(Begin(nodes, debugPort, eventPort), es).s.clients|
    requires ClientFits(Run(Begin(nodes, debugPort, eventPort), es), k)
    ensures var w := Run(Begin(nodes, debugPort, eventPort), es);
            && SameAnnouncements(nodes, w.nodes) && k < |w.links|
            && var v := Known(T.SplitFrames(w.links[k].wire).0);
            && (forall j :: 0 <= j < |v| ==> KnowsNode(w, k, v, j))
            && (w.s.clients[k].reportNodes && w.links[k].queue == [] ==> |v| == |w.s.clients[k].nodeList|)
  {
    var w := Run(Begin(nodes, debugPort, eventPort), es);
    BeginOk(nodes, debugPort, eventPort);
    RunKeepsWorld(Begin(nodes, debugPort, eventPort), es);
    RunAnnouncements(Begin(nodes, debugPort, eventPort), es);
    KnownSoFar(w, k);
  }

  lemma LinkOutIs(w: World, k: nat, n: nat)
    requires k < |w.links| == |w.s.clients| && T.CanDispatch(w.links[k], n)
    requires T.Completes(w.links[k], n) ==> S.Enabled(w.s, S.Sent(k))
    ensures Enabled(w, LinkOut(k, n)) && Step(w, LinkOut(k, n)) == LinkDispatch(w, k, n)
  {
  }

  lemma ClientCanFinish(w: World, k: nat)
    requires LinksOk(w) && S.ServerInv(w.s) && k < |w.links|
    ensures w.links[k].queue != [] <==> C.Enabled(w.s.clients[k], C.TxDone)
    ensures w.links[k].wantsOut <==> w.links[k].queue != []
    ensures w.links[k].cur.Some? ==> w.links[k].queue != [] && w.links[k].offset <= |w.links[k].cur.value|
  {
    assert Synced(w.links[k], w.s.clients[k], w.s.providers);
    assert S.ClientOk(w.s.clients[k], w.s.providers);
  }

  /** The guards of the system's steps never hold anything back: in every reachable state every datagram that has
      reached a node can be answered, every reply can be processed, and every completed packet has its client. */
  lemma GuardsAlwaysHold(nodes: map<SockAddr, Node>, debugPort: u16, eventPort: u16, es: seq<Event>)
    requires NodesOk(nodes) && IsRun(Begin(nodes, debugPort, eventPort), es)
    ensures var w := Run(Begin(nodes, debugPort, eventPort), es);
            && (forall a, q :: ToNode(a, q) in w.net && a in w.nodes ==> Enabled(w, NodeGets(a, q)))
            && (forall a, r :: ToServer(a, r) in w.net ==> Enabled(w, ServerGets(a, r)))
            && (forall k, n: nat :: 0 <= k < |w.links| && T.CanDispatch(w.links[k], n) ==> Enabled(w, LinkOut(k, n)))
  {
    var w := Run(Begin(nodes, debugPort, eventPort), es);
    BeginOk(nodes, debugPort, eventPort);
    RunKeepsWorld(Begin(nodes, debugPort, eventPort), es);
    forall a, q | ToNode(a, q) in w.net && a in w.nodes ensures Enabled(w, NodeGets(a, q)) {
      assert EnvelopeOk(ToNode(a, q), w.nodes);
    }
    forall a, r | ToServer(a, r) in w.net ensures Enabled(w, ServerGets(a, r)) {
      assert EnvelopeOk(ToServer(a, r), w.nodes);
      ReplyKeepsProviders(w.s, w.nodes, a, r);
    }
    forall k, n: nat | 0 <= k < |w.links| && T.CanDispatch(w.links[k], n) ensures Enabled(w, LinkOut(k, n)) {
      ClientCanFinish(w, k);
      LinkOutIs(w, k, n);
    }
  }

  /** The browser on link k has an entry for provider i, and it is true. */
  ghost predicate KnowsProvider(w: World, k: nat, i: nat)
    requires k < |w.s.clients| && k < |w.links|
  {
    exists j: nat :: j < |w.s.clients[k].nodeList| && w.s.clients[k].nodeList[j].node == i &&
      KnowsNode(w, k, Known(T.SplitFrames(w.links[k].wire).0), j)
  }

  /** The same without the server: every entry a browser has made says, field by field, what the node at its address
      has announced from the start, with every endpoint at that node's IP and its own port. */
  lemma EntriesSayWhatNodesAnnounce(nodes: map<SockAddr, Node>, debugPort: u16, eventPort: u16, es: seq<Event>, k: nat,
      j: nat)
    requires NodesOk(nodes) && IsRun(Begin(nodes, debugPort, eventPort), es)
    requires k < |Run(Begin(nodes, debugPort, eventPort), es).s.clients|
    requires k < |Run(Begin(nodes, debugPort, eventPort), es).links|
    requires ClientFits(Run(Begin(nodes, debugPort, eventPort), es), k)
    requires j < |Known(T.SplitFrames(Run(Begin(nodes, debugPort, eventPort), es).links[k].wire).0)|
    ensures var entry := Known(T.SplitFrames(Run(Begin(nodes, debugPort, eventPort), es).links[k].wire).0)[j];
            entry.0 == j && entry.1.addr in nodes && Describes(entry.1, nodes[entry.1.addr])
  {
    var w := Run(Begin(nodes, debugPort, eventPort), es);
    BrowserKnowsTheTruth(nodes, debugPort, eventPort, es, k);
    var v := Known(T.SplitFrames(w.links[k].wire).0);
    assert KnowsNode(w, k, v, j);
    var p := w.s.providers[w.s.clients[k].nodeList[j].node];
    AgreeingDescribes(p, w.nodes[p.addr]);
  }

  /** Once the link of a reporting client is drained, its browser knows every READY provider, each once. */
  lemma DrainedBrowserKnowsAll(nodes: map<SockAddr, Node>, debugPort: u16, eventPort: u16, es: seq<Event>, k: nat,
      i: nat)
    requires NodesOk(nodes) && IsRun(Begin(nodes, debugPort, eventPort), es)
    requires k < |Run(Begin(nodes, debugPort, eventPort), es).links|
    requires k < |Run(Begin(nodes, debugPort, eventPort), es).s.clients|
    requires ClientFits(Run(Begin(nodes, debugPort, eventPort), es), k)
    requires Run(Begin(nodes, debugPort, eventPort), es).s.clients[k].reportNodes
    requires Run(Begin(nodes, debugPort, eventPort), es).links[k].queue == []
    requires i < |Run(Begin(nodes, debugPort, eventPort), es).s.providers|
    ensures var w := Run(Begin(nodes, debugPort, eventPort), es);
            var v := Known(T.SplitFrames(w.links[k].wire).0);
            var list := w.s.clients[k].nodeList;
            && |v| == |list|
            && (w.s.providers[i].txState == Ready <==> KnowsProvider(w, k, i))
            && forall j, m :: 0 <= j < m < |v| ==> list[j].node != list[m].node
  {
    var w := Run(Begin(nodes, debugPort, eventPort), es);
    BrowserKnowsTheTruth(nodes, debugPort, eventPort, es, k);
    BeginOk(nodes, debugPort, eventPort);
    RunKeepsWorld(Begin(nodes, debugPort, eventPort), es);
    var v := Known(T.SplitFrames(w.links[k].wire).0);
    var c := w.s.clients[k];
    assert S.ClientOk(c, w.s.providers);
    if w.s.providers[i].txState == Ready {
      assert S.Holds(c, i);
      var j :| 0 <= j < |c.nodeList| && c.nodeList[j].node == i;
      assert KnowsNode(w, k, v, j);
    }
  }

  lemma DistinctObjIDs(s: S.Server, i: nat, j: nat)
    requires S.ServerInv(s) && i < |s.providers| && j < |s.providers| && i != j
    requires s.providers[i].txState == Ready && s.providers[j].txState == Ready
    ensures s.providers[i].serverObjID != s.providers[j].serverObjID
  {
    assert S.IsClaimed(s.providers[i]) && S.IsClaimed(s.providers[j]);
  }

  /** Debug frames that carry the object ID of a known node are passed to that node and to no other. */
  lemma DebugFindsItsNode(w: World, k: nat, j: nat, f: DebugFrame)
    requires WorldInv(w) && k < |w.s.clients| && ClientFits(w, k)
    requires j < |Known(T.SplitFrames(w.links[k].wire).0)|
    requires f.serverObjID == Known(T.SplitFrames(w.links[k].wire).0)[j].1.serverObjID
    ensures B.Told(Known(T.SplitFrames(w.links[k].wire).0), DebugPktFrame(f)) == [j]
  {
    var v := Known(T.SplitFrames(w.links[k].wire).0);
    var c := w.s.clients[k];
    KnownSoFar(w, k);
    assert S.ClientOk(c, w.s.providers);
    var ids := B.IdsOf(v);
    forall a, b | 0 <= a < b < |ids| ensures ids[a] != ids[b] {
      assert KnowsNode(w, k, v, a) && KnowsNode(w, k, v, b);
      DistinctObjIDs(w.s, c.nodeList[a].node, c.nodeList[b].node);
    }
    B.OnlyOwner(ids, j);
  }

  // ---- the link can always be drained ----

  /** Only the socket of link k does anything. */
  predicate OnlySends(es: seq<Event>, k: nat) {
    forall e :: e in es ==> e.LinkOut? && e.k == k
  }

  lemma OnlyTwoSends(e: Event, f: Event, k: nat)
    requires e.LinkOut? && e.k == k && f.LinkOut? && f.k == k
    ensures OnlySends([e], k) && OnlySends([e, f], k)
  {
  }

  ghost predicate OneLess(w: World, u: World, k: nat) {
    && k < |w.s.clients| == |u.s.clients| && u.s.providers == w.s.providers
    && C.Enabled(w.s.clients[k], C.TxDone) && u.s.clients[k] == C.Step(w.s.clients[k], C.TxDone)
  }

  /** The rest of the current packet is taken at once. */
  lemma FinishPacket(w: World, k: nat) returns (e: Event)
    requires LinksOk(w) && S.ServerInv(w.s) && k < |w.links| && w.links[k].cur.Some?
    ensures Enabled(w, e) && OneLess(w, Step(w, e), k) && e.LinkOut? && e.k == k
  {
    ClientCanFinish(w, k);
    var n := |w.links[k].cur.value| - w.links[k].offset;
    LinkOutIs(w, k, n);
    e := LinkOut(k, n);
  }

  lemma PickPacket(w: World, k: nat)
    requires LinksOk(w) && S.ServerInv(w.s) && k < |w.links| && w.links[k].queue != [] && w.links[k].cur.None?
    ensures Enabled(w, LinkOut(k, 0))
    ensures var u := Step(w, LinkOut(k, 0));
            u.s == w.s && k < |u.links| && u.links[k].cur.Some?
  {
    ClientCanFinish(w, k);
    LinkOutIs(w, k, 0);
  }

  lemma PickAndFinish(w: World, u: World, k: nat) returns (es: seq<Event>)
    requires WorldInv(w) && Enabled(w, LinkOut(k, 0)) && u == Step(w, LinkOut(k, 0))
    requires u.s == w.s && k < |u.links| && u.links[k].cur.Some?
    ensures IsRun(w, es) && OnlySends(es, k) && OneLess(w, Run(w, es), k)
  {
    StepKeepsWorld(w, LinkOut(k, 0));
    var f := FinishPacket(u, k);
    TwoSteps(w, u, LinkOut(k, 0), f);
    OnlyTwoSends(LinkOut(k, 0), f, k);
    es := [LinkOut(k, 0), f];
  }

  /** One completion, after a pick if none is under way. */
  lemma CompleteOne(w: World, k: nat) returns (es: seq<Event>)
    requires WorldInv(w) && k < |w.links| && w.links[k].queue != []
    ensures IsRun(w, es) && OnlySends(es, k) && OneLess(w, Run(w, es), k)
  {
    if w.links[k].cur.Some? {
      var e := FinishPacket(w, k);
      OneStep(w, e);
      OnlyTwoSends(e, e, k);
      es := [e];
    } else {
      PickPacket(w, k);
      es := PickAndFinish(w, Step(w, LinkOut(k, 0)), k);
    }
  }

  /** Sends on link k alone empty its queue; every completed packet takes one off the client's backlog. */
  lemma {:induction false} Drain(w: World, k: nat) returns (es: seq<Event>)
    requires WorldInv(w) && k < |w.links|
    ensures IsRun(w, es) && OnlySends(es, k)
    ensures var u := Run(w, es);
            && WorldInv(u) && |u.s.clients| == |w.s.clients| && u.s.providers == w.s.providers
            && u.links[k].queue == [] && u.s.clients[k].reportNodes == w.s.clients[k].reportNodes
    decreases C.Backlog(w.s.clients[k])
  {
    if w.links[k].queue == [] {
      es := [];
    } else {
      var first := CompleteOne(w, k);
      var u := Run(w, first);
      RunKeepsWorld(w, first);
      assert S.ClientOk(w.s.clients[k], w.s.providers);
      C.CompletionShrinksBacklog(w.s.clients[k]);
      var rest := Drain(u, k);
      RunsJoin(w, first, rest);
      es := first + rest;
    }
  }

  /** From every reachable state a reporting client's browser can be brought to know every READY provider by
      sends on its link alone; nothing else has to happen. */
  lemma BrowserCatchesUp(nodes: map<SockAddr, Node>, debugPort: u16, eventPort: u16, es: seq<Event>, k: nat)
    returns (more: seq<Event>)
    requires NodesOk(nodes) && IsRun(Begin(nodes, debugPort, eventPort), es)
    requires k < |Run(Begin(nodes, debugPort, eventPort), es).s.clients|
    requires Run(Begin(nodes, debugPort, eventPort), es).s.clients[k].reportNodes
    ensures OnlySends(more, k) && IsRun(Begin(nodes, debugPort, eventPort), es + more)
    ensures var w := Run(Begin(nodes, debugPort, eventPort), es);
            var u := Run(Begin(nodes, debugPort, eventPort), es + more);
            && u.s.providers == w.s.providers && k < |u.s.clients| == |w.s.clients| == |u.links|
            && u.links[k].queue == []
            && (ClientFits(u, k) ==>
              forall i :: 0 <= i < |w.s.providers| && w.s.providers[i].txState == Ready ==> KnowsProvider(u, k, i))
  {
    var start := Begin(nodes, debugPort, eventPort);
    var w := Run(start, es);
    BeginOk(nodes, debugPort, eventPort);
    RunKeepsWorld(start, es);
    more := Drain(w, k);
    RunsJoin(start, es, more);
    var u := Run(w, more);
    if ClientFits(u, k) {
      forall i | 0 <= i < |w.s.providers| && w.s.providers[i].txState == Ready ensures KnowsProvider(u, k, i) {
        DrainedBrowserKnowsAll(nodes, debugPort, eventPort, es + more, k, i);
      }
    }
  }
}
