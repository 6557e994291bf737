// What a browser does with a packet from the management link (src/hnode-browser-mpoint.c:250-353,
// src/hnode-browser-hnode.c:190-209).

module BrowserMpoint {
  import opened Basics
  import opened Mgmt
  import opened NodeCodec
  import opened DebugCodec
  import opened MgmtFrames
  import opened PacketBuffer
  import opened ClientUpdate
  import opened ProviderObject
  import P = Provider

  class BrowserNode {
    var mpointNodeID: u32
    const provider: HNodeProvider

    constructor ()
      ensures fresh(provider) && provider.Value() == P.NewProvider(P.NO_ADDR)
    {
      mpointNodeID := 0;
      provider := new HNodeProvider(P.NO_ADDR);
    }

    /** g_hnode_browser_hnode_parse_client_update. */
    method ParseClientUpdate(packet: Packet, ghost id: u32, ghost r: ProviderRecord)
      requires packet.Valid() && Has(packet.data, packet.curOffset, U32Bytes(id) + ProviderBytes(r))
      modifies this, provider, packet`curOffset
      ensures mpointNodeID == id && provider.Value() == Parsed(old(provider.Value()), r)
      ensures packet.curOffset == old(packet.curOffset) + 4 + |ProviderBytes(r)|
    {
      HasSplit(packet.data, packet.curOffset, U32Bytes(id), ProviderBytes(r));
      HasU32(packet.data, packet.curOffset, id);
      mpointNodeID := packet.GetUint();
      provider.ParseClientUpdate(packet, r);
    }
  }

  /** The positions of the nodes with this object ID, in list order. */
  function Owners(ids: seq<nat>, id: nat): seq<nat> {
    if ids == [] then []
    else Owners(ids[..|ids| - 1], id) + if ids[|ids| - 1] == id then [|ids| - 1] else []
  }

  lemma {:induction false} OwnersAre(ids: seq<nat>, id: nat, i: nat)
    ensures i in Owners(ids, id) <==> i < |ids| && ids[i] == id
  {
    if ids != [] { OwnersAre(ids[..|ids| - 1], id, i); }
  }

  lemma {:induction false} NoOwner(ids: seq<nat>, id: nat)
    requires forall i :: 0 <= i < |ids| ==> ids[i] != id
    ensures Owners(ids, id) == []
  {
    if ids != [] { NoOwner(ids[..|ids| - 1], id); }
  }

  /** When the nodes have different object IDs, only the one that has this ID is told. */
  lemma {:induction false} OnlyOwner(ids: seq<nat>, k: nat)
    requires k < |ids| && forall i, j :: 0 <= i < j < |ids| ==> ids[i] != ids[j]
    ensures Owners(ids, ids[k]) == [k]
  {
    var front := ids[..|ids| - 1];
    if k < |front| {
      OnlyOwner(front, k);
    } else {
      NoOwner(front, ids[k]);
    }
  }

  function IdsOf(v: seq<(nat, P.Provider)>): (ids: seq<nat>)
    ensures |ids| == |v| && forall i :: 0 <= i < |v| ==> ids[i] == v[i].1.serverObjID
  {
    if v == [] then [] else IdsOf(v[..|v| - 1]) + [v[|v| - 1].1.serverObjID]
  }

  /** A debug frame is passed to the nodes with its object ID. */
  function Told(v: seq<(nat, P.Provider)>, f: Frame): seq<nat> {
    if f.DebugPktFrame? then Owners(IdsOf(v), f.frame.serverObjID) else []
  }

  class MPoint {
    var nodeList: seq<BrowserNode>
    var curIOTag: nat

    /** No two entries share a provider object. */
    ghost predicate Valid()
      reads this
    {
      forall i, j :: 0 <= i < j < |nodeList| ==>
        nodeList[i] != nodeList[j] && nodeList[i].provider != nodeList[j].provider
    }

    ghost function Providers(): seq<HNodeProvider>
      reads this
    {
      seq(|nodeList|, i requires 0 <= i < |nodeList| reads this => nodeList[i].provider)
    }

    /** What the browser knows: the NodeID and provider data of every reported node, in order. */
    ghost function Value(): (v: seq<(nat, P.Provider)>)
      reads this, nodeList, Providers()
      ensures |v| == |nodeList|
    {
      seq(|nodeList|, i requires 0 <= i < |nodeList| reads this, nodeList, Providers() =>
        assert nodeList[i].provider == Providers()[i];
        (nodeList[i].mpointNodeID as nat, nodeList[i].provider.Value()))
    }

    constructor ()
      ensures Valid() && Value() == [] && curIOTag == 0
    {
      nodeList, curIOTag := [], 0;
      new;
      assert Value() == [];
    }

    /** The request that g_hnode_browser_mpoint_start sends: report nodes. */
    method RequestReports() returns (packet: Packet)
      requires curIOTag < 0x1_0000_0000
      modifies this`curIOTag
      ensures fresh(packet) && packet.Valid() && packet.Contents() == HeaderBytes(12, MGMT_REQ_PINFO, old(curIOTag))
      ensures curIOTag == old(curIOTag) + 1
    {
      packet := new Packet();
      packet.SetUint(12);
      packet.SetUint(MGMT_REQ_PINFO);
      packet.SetUint(curIOTag);
      Assoc(U32Bytes(12), U32Bytes(MGMT_REQ_PINFO), U32Bytes(curIOTag));
      curIOTag := curIOTag + 1;
    }

    /** The request for debug frames, four bytes longer. */
    method EnableDebug() returns (packet: Packet)
      requires curIOTag < 0x1_0000_0000
      modifies this`curIOTag
      ensures fresh(packet) && packet.Valid()
      ensures packet.Contents() == HeaderBytes(16, MGMT_DEBUG_CTRL, old(curIOTag)) + U32Bytes(1)
      ensures curIOTag == old(curIOTag) + 1
    {
      packet := new Packet();
      packet.SetUint(16);
      packet.SetUint(MGMT_DEBUG_CTRL);
      packet.SetUint(curIOTag);
      Assoc(U32Bytes(16), U32Bytes(MGMT_DEBUG_CTRL), U32Bytes(curIOTag));
      curIOTag := curIOTag + 1;
      packet.SetUint(1);
    }

    method ReceiveNode(packet: Packet, ghost id: u32, ghost r: ProviderRecord)
      requires Valid() && packet.Valid() && Has(packet.data, packet.curOffset, U32Bytes(id) + ProviderBytes(r))
      modifies this`nodeList, packet`curOffset
      ensures Valid()
      ensures Value() == old(Value()) + [(id as nat, Parsed(P.NewProvider(P.NO_ADDR), r))]
      ensures packet.curOffset == old(packet.curOffset) + 4 + |ProviderBytes(r)|
    {
      var node := new BrowserNode();
      node.ParseClientUpdate(packet, id, r);
      nodeList := nodeList + [node];
      assert Value() == old(Value()) + [(id as nat, Parsed(P.NewProvider(P.NO_ADDR), r))];
    }

    /** The scan that finds the nodes a debug frame is for. */
    method FindOwners(id: u32) returns (owners: seq<nat>)
      ensures owners == Owners(IdsOf(Value()), id)
    {
      ghost var ids := IdsOf(Value());
      owners := [];
      var i := 0;
      assert ids[..0] == [];
      while i < |nodeList|
        invariant i <= |nodeList| && owners == Owners(ids[..i], id)
      {
        assert ids[..i + 1][..i] == ids[..i];
        assert ids[i] == nodeList[i].provider.serverObjID;
        if nodeList[i].provider.serverObjID == id { owners := owners + [i]; }
        i := i + 1;
      }
      assert ids[..|ids|] == ids;
    }

    static method ReadDebug(packet: Packet, ghost f: DebugFrame) returns (frame: DebugFrame)
      requires packet.Valid() && |f.data| < 0x1_0000_0000 && Has(packet.data, packet.curOffset, DebugBody(f))
      modifies packet`curOffset
      ensures frame == f
    {
      DebugBodyRead(packet.data, packet.curOffset, f);
      var dbgType := packet.GetUint();
      var dbgSeqCnt := packet.GetUint();
      var srvObjID := packet.GetUint();
      var epIndex := packet.GetUint();
      var length := packet.GetUint();
      var data := packet.data[packet.curOffset..packet.curOffset + length];
      frame := DebugFrame(dbgType, dbgSeqCnt, srvObjID, epIndex, data);
    }

    method ReceiveDebug(packet: Packet, ghost f: DebugFrame) returns (owners: seq<nat>, frame: DebugFrame)
      requires packet.Valid() && |f.data| < 0x1_0000_0000 && Has(packet.data, packet.curOffset, DebugBody(f))
      modifies packet`curOffset
      ensures Value() == old(Value())
      ensures frame == f && owners == Owners(IdsOf(Value()), f.serverObjID)
    {
      frame := ReadDebug(packet, f);
      owners := FindOwners(frame.serverObjID);
    }

    method ReadHeader(packet: Packet) returns (reqLength: u32, reqType: u32, reqIOTag: u32)
      requires Valid() && packet.Valid() && packet.curOffset == 0 && |packet.data| >= 12
      modifies packet`curOffset
      ensures Valid() && Value() == old(Value())
      ensures packet.Valid() && packet.curOffset == 12
      ensures reqLength == U32At(packet.data, 0) && reqType == U32At(packet.data, 4)
              && reqIOTag == U32At(packet.data, 8)
    {
      reqLength := packet.GetUint();
      reqType := packet.GetUint();
      reqIOTag := packet.GetUint();
    }

    /** The part after the header. */
    method RxBody(packet: Packet, reqLength: u32, reqType: u32, ghost f: Frame)
        returns (owners: seq<nat>, frame: Option<DebugFrame>)
      requires Valid() && packet.Valid() && packet.curOffset == 12 && FrameFits(f)
      requires reqType == FrameType(f) && reqLength == 12 + |FrameBody(f)| && Has(packet.data, 12, FrameBody(f))
      modifies this`nodeList, packet`curOffset
      ensures Valid() && Value() == AfterFrame(old(Value()), f)
      ensures owners == Told(old(Value()), f) && (f.DebugPktFrame? ==> frame == Some(f.frame))
      ensures f.NodeFrame? ==> packet.curOffset == reqLength
    {
      owners, frame := [], None;
      if reqType == MGMT_NODE_PKT {
        if reqLength > 12 { ReceiveNode(packet, f.nodeID, f.record); }
      } else if reqType == MGMT_DEBUG_PKT {
        var d;
        owners, d := ReceiveDebug(packet, f.frame);
        frame := Some(d);
      }
    }

    /** A received packet that carries frame f: what the browser then knows, and who is told of it. A report uses
        up its packet exactly. */
    method RxPacket(packet: Packet, ghost f: Frame) returns (owners: seq<nat>, frame: Option<DebugFrame>)
      requires Valid() && packet.Valid() && packet.curOffset == 0 && FrameFits(f) && packet.Contents() == FrameBytes(f)
      modifies this`nodeList, packet`curOffset
      ensures Valid() && Value() == AfterFrame(old(Value()), f)
      ensures owners == Told(old(Value()), f) && (f.DebugPktFrame? ==> frame == Some(f.frame))
      ensures f.NodeFrame? ==> packet.curOffset == packet.dataLength
    {
      FrameReadIn(packet.data, packet.dataLength, f);
      var reqLength, reqType, reqIOTag := ReadHeader(packet);
      owners, frame := RxBody(packet, reqLength, reqType, f);
    }
  }
}
