// A debug frame from a node to its own entry in a browser.

module DebugPath {
  import opened Basics
  import opened Mgmt
  import opened NodeCodec
  import opened DebugCodec
  import opened MgmtFrames
  import opened WholeSystem
  import opened WholeSystemLinks
  import opened WholeSystemProgress
  import opened WholeSystemClaims
  import opened WholeSystemTrust
  import opened EndToEnd
  import opened P = Provider
  import B = BrowserMpoint
  import T = TxStream

  /** The frame that a node sends, with the object ID it has been told. */
  function NodesFrame(n: Node, kind: u16, seqCnt: u16, epIndex: u16, data: Bytes): DebugFrame
    requires n.serverObjID < 0x1_0000_0000
  {
    DebugFrame(kind, seqCnt, n.serverObjID, epIndex, data)
  }

  /** Object IDs are read from words. */
  lemma {:induction false} KnownIDsFit(bs: seq<Bytes>, j: nat)
    requires j < |Known(bs)|
    ensures Known(bs)[j].1.serverObjID < 0x1_0000_0000
  {
    var front := bs[..|bs| - 1];
    if j < |Known(front)| { KnownIDsFit(front, j); }
  }

  /** The entry of a browser with this node's address has the object ID that the node has been told. */
  lemma EntryHasNodesID(nodes: map<SockAddr, Node>, debugPort: u16, eventPort: u16, es: seq<Event>, a: SockAddr,
      k: nat, j: nat)
    requires NodesOk(nodes) && IsRun(Begin(nodes, debugPort, eventPort), es) && a in nodes
    requires exists e :: e in es && TakesClaim(e, a)
    requires var w := Run(Begin(nodes, debugPort, eventPort), es);
             && k < |w.s.clients| && k < |w.links| && ClientFits(w, k)
             && var v := Known(T.SplitFrames(w.links[k].wire).0);
             j < |v| && v[j].1.addr == a
    ensures var w := Run(Begin(nodes, debugPort, eventPort), es);
            && a in w.nodes && w.nodes[a].serverValid && w.nodes[a].serverObjID < 0x1_0000_0000
            && Known(T.SplitFrames(w.links[k].wire).0)[j].1.serverObjID == w.nodes[a].serverObjID
  {
    var start := Begin(nodes, debugPort, eventPort);
    var w := Run(start, es);
    BeginOk(nodes, debugPort, eventPort);
    RunKeepsWorld(start, es);
    RunStarted(start, es);
    NodeHoldsOwnClaim(nodes, debugPort, eventPort, es, a);
    KnownSoFar(w, k);
    assert KnowsNode(w, k, Known(T.SplitFrames(w.links[k].wire).0), j);
    ReadyIsClaimant(w, w.s.clients[k].nodeList[j].node);
    KnownIDsFit(T.SplitFrames(w.links[k].wire).0, j);
  }

  /** Whatever happens to datagrams, and however often services are found: a debug frame of a node that has been claimed
      survives its way through the server, and a browser passes it to that node's own entry and to no other. */
  lemma FrameReachesItsNode(nodes: map<SockAddr, Node>, debugPort: u16, eventPort: u16, es: seq<Event>, a: SockAddr,
      k: nat, j: nat,
                            kind: u16, seqCnt: u16, epIndex: u16, data: Bytes)
    requires NodesOk(nodes) && IsRun(Begin(nodes, debugPort, eventPort), es) && a in nodes && |data| <= 1500 - 12
    requires exists e :: e in es && TakesClaim(e, a)
    requires var w := Run(Begin(nodes, debugPort, eventPort), es);
             && k < |w.s.clients| && k < |w.links| && ClientFits(w, k)
             && var v := Known(T.SplitFrames(w.links[k].wire).0);
             j < |v| && v[j].1.addr == a
    ensures var w := Run(Begin(nodes, debugPort, eventPort), es);
            && a in w.nodes && w.nodes[a].serverObjID < 0x1_0000_0000
            && var f := NodesFrame(w.nodes[a], kind, seqCnt, epIndex, data);
            && ReadNodeDebug(NodeDebugBytes(f)) == Got(f, |NodeDebugBytes(f)|)
            && ReadDebugPkt(DebugPktBytes(f)) == Got(f, |DebugPktBytes(f)|)
            && B.Told(Known(T.SplitFrames(w.links[k].wire).0), DebugPktFrame(f)) == [j]
  {
    var start := Begin(nodes, debugPort, eventPort);
    var w := Run(start, es);
    BeginOk(nodes, debugPort, eventPort);
    RunKeepsWorld(start, es);
    EntryHasNodesID(nodes, debugPort, eventPort, es, a, k, j);
    var f := NodesFrame(w.nodes[a], kind, seqCnt, epIndex, data);
    DebugFrameSurvives(f);
    DebugFindsItsNode(w, k, j, f);
  }
}
