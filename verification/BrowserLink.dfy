// A browser at the end of its link: the received stream is cut into packets, and each is handled
// (src/hnode-pktsrc.c:738-805, src/hnode-browser-mpoint.c:250-357).

module BrowserLink {
  import opened Basics
  import opened NodeCodec
  import opened MgmtFrames
  import opened PktSrc
  import opened BrowserMpoint
  import opened WholeSystem
  import opened WholeSystemLinks
  import opened EndToEnd
  import P = Provider
  import T = TxStream

  /** The packet is one that the server builds, or of a type that the browser passes over. */
  ghost predicate WellFormed(b: Bytes) {
    exists f: Frame :: FrameFits(f) && FrameBytes(f) == b
  }

  /** A browser's list after these packets, from the list it has. */
  function KnownFrom(v: seq<(nat, P.Provider)>, bs: seq<Bytes>): seq<(nat, P.Provider)> {
    if bs == [] then v else AfterBytes(KnownFrom(v, bs[..|bs| - 1]), bs[|bs| - 1])
  }

  lemma KnownFromNext(v: seq<(nat, P.Provider)>, bs: seq<Bytes>, b: Bytes)
    ensures KnownFrom(v, bs + [b]) == AfterBytes(KnownFrom(v, bs), b)
  {
    assert (bs + [b])[..|bs|] == bs;
  }

  lemma {:induction false} KnownFromNothing(bs: seq<Bytes>)
    ensures KnownFrom([], bs) == Known(bs)
  {
    if bs != [] { KnownFromNothing(bs[..|bs| - 1]); }
  }

  /** One packet of the stream is received and handled. */
  method ReceiveOne(source: PacketSource, mpoint: MPoint)
    requires mpoint.Valid() && T.HasFrame(source.incoming)
    requires WellFormed(source.incoming[..T.FrameLength(source.incoming)])
    modifies source`incoming, mpoint`nodeList
    ensures mpoint.Valid() && source.incoming == old(source.incoming)[T.FrameLength(old(source.incoming))..]
    ensures mpoint.Value() == AfterBytes(old(mpoint.Value()),
            old(source.incoming)[..T.FrameLength(old(source.incoming))])
  {
    ghost var f: Frame :| FrameFits(f) && FrameBytes(f) == source.incoming[..T.FrameLength(source.incoming)];
    ghost var v := mpoint.Value();
    var packet := source.DispatchIn();
    assert mpoint.Value() == v;
    var owners, frame := mpoint.RxPacket(packet, f);
    AfterFrameBytes(v, f);
  }

  /** As long as the stream holds a whole packet: the browser then knows what its packets say. */
  method ReceiveAll(source: PacketSource, mpoint: MPoint)
    requires mpoint.Valid() && forall b :: b in T.SplitFrames(source.incoming).0 ==> WellFormed(b)
    modifies source`incoming, mpoint`nodeList
    ensures mpoint.Valid()
    ensures var (bs, rest) := T.SplitFrames(old(source.incoming));
            mpoint.Value() == KnownFrom(old(mpoint.Value()), bs) && source.incoming == rest
  {
    ghost var s, v := source.incoming, mpoint.Value();
    ghost var got: seq<Bytes> := [];
    assert got + T.SplitFrames(s).0 == T.SplitFrames(s).0;
    while T.HasFrame(source.incoming)
      invariant mpoint.Valid() && mpoint.Value() == KnownFrom(v, got)
      invariant T.SplitFrames(s) == (got + T.SplitFrames(source.incoming).0, T.SplitFrames(source.incoming).1)
      decreases |source.incoming|
    {
      ghost var was := source.incoming;
      ghost var b := was[..T.FrameLength(was)];
      T.SplitNext(was);
      assert b in T.SplitFrames(s).0;
      ReceiveOne(source, mpoint);
      KnownFromNext(v, got, b);
      Assoc(got, [b], T.SplitFrames(source.incoming).0);
      got := got + [b];
    }
    assert T.SplitFrames(source.incoming) == ([], source.incoming) && got + [] == got;
  }

  /** The packets on a link of the whole system are such packets, in every reachable state. */
  lemma WireIsWellFormed(w: World, k: nat)
    requires WorldInv(w) && k < |w.s.clients| && ClientFits(w, k)
    ensures k < |w.links| && forall b :: b in T.SplitFrames(w.links[k].wire).0 ==> WellFormed(b)
  {
    Arrived(w, k);
    SentFits(w, k);
    var pkts := w.s.clients[k].sent[..|w.links[k].done|];
    forall b | b in Payloads(w.s.providers, pkts) ensures WellFormed(b) {
      var i :| 0 <= i < |pkts| && Payloads(w.s.providers, pkts)[i] == b;
      assert Fits(w.s.providers, pkts[i]);
      assert FrameBytes(FrameOf(w.s.providers, pkts[i])) == b;
    }
  }

  /** A browser that has received what is on its link knows a beginning of the node list, each entry as the node itself
      announces it, in every reachable state. */
  method BrowserOnLink(ghost nodes: map<SockAddr, P.Node>, ghost debugPort: u16, ghost eventPort: u16,
      ghost es: seq<Event>,
                       ghost k: nat, source: PacketSource) returns (mpoint: MPoint)
    requires NodesOk(nodes) && IsRun(Begin(nodes, debugPort, eventPort), es)
    requires k < |Run(Begin(nodes, debugPort, eventPort), es).s.clients|
    requires k < |Run(Begin(nodes, debugPort, eventPort), es).links|
    requires ClientFits(Run(Begin(nodes, debugPort, eventPort), es), k)
    requires source.incoming == Run(Begin(nodes, debugPort, eventPort), es).links[k].wire
    modifies source`incoming
    ensures fresh(mpoint) && mpoint.Valid()
    ensures var w := Run(Begin(nodes, debugPort, eventPort), es);
            var v := mpoint.Value();
            && (forall j :: 0 <= j < |v| ==> KnowsNode(w, k, v, j))
            && (w.s.clients[k].reportNodes && w.links[k].queue == [] ==> |v| == |w.s.clients[k].nodeList|)
  {
    ghost var w := Run(Begin(nodes, debugPort, eventPort), es);
    BeginOk(nodes, debugPort, eventPort);
    RunKeepsWorld(Begin(nodes, debugPort, eventPort), es);
    WireIsWellFormed(w, k);
    KnownSoFar(w, k);
    KnownFromNothing(T.SplitFrames(w.links[k].wire).0);
    mpoint := new MPoint();
    ReceiveAll(source, mpoint);
  }
}
