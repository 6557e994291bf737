// The packets that the server's client object builds (src/hnode-srvobj-client.c:305-331 and 564-633,
// src/hnode-srvobj.c:913-984).

module ServerPackets {
  import opened Basics
  import opened Mgmt
  import opened NodeCodec
  import opened DebugCodec
  import opened PacketBuffer
  import opened ClientUpdate
  import opened ProviderObject

  method BuildAck(ioTag: u32) returns (packet: Packet)
    ensures fresh(packet) && packet.Valid() && packet.Contents() == HeaderBytes(12, MGMT_ACK, ioTag)
  {
    packet := new Packet();
    packet.SetUint(12);
    packet.SetUint(MGMT_ACK);
    packet.SetUint(ioTag);
    Assoc(U32Bytes(12), U32Bytes(MGMT_ACK), U32Bytes(ioTag));
  }

  lemma BackPatch(length: u32, was: u32, rest: Bytes)
    ensures Overwrite(U32Bytes(was) + rest, 0, U32Bytes(length)) == U32Bytes(length) + rest
  {
  }

  lemma HeaderThen(length: u32, kind: u32, tag: u32, body: Bytes)
    ensures HeaderBytes(length, kind, tag) + body == U32Bytes(length) + (U32Bytes(kind) + U32Bytes(tag) + body)
  {
    Assoc(U32Bytes(length), U32Bytes(kind) + U32Bytes(tag), body);
  }

  /** The length is not known before the provider has written itself: it is written over the first word. */
  method BuildNodePacket(tag: u32, nodeID: u32, provider: HNodeProvider) returns (packet: Packet)
    requires Reportable(provider.Value()) && |ProviderBytes(RecordOf(provider.Value()))| + 16 < 0x1_0000_0000
    ensures fresh(packet) && packet.Valid()
    ensures packet.Contents() == NodePktBytes(tag, nodeID, RecordOf(provider.Value()))
  {
    ghost var body := U32Bytes(nodeID) + ProviderBytes(RecordOf(provider.Value()));
    packet := new Packet();
    packet.SetUint(12);
    packet.SetUint(MGMT_NODE_PKT);
    packet.SetUint(tag);
    packet.SetUint(nodeID);
    Chain5([], U32Bytes(12), U32Bytes(MGMT_NODE_PKT), U32Bytes(tag), U32Bytes(nodeID), []);
    ghost var log := packet.Contents();
    provider.BuildClientUpdate(packet);
    assert packet.Contents() == HeaderBytes(12, MGMT_NODE_PKT, tag) + body by {
      Assoc(U32Bytes(12), U32Bytes(MGMT_NODE_PKT), U32Bytes(tag));
      Assoc(HeaderBytes(12, MGMT_NODE_PKT, tag), U32Bytes(nodeID), ProviderBytes(RecordOf(provider.Value())));
    }
    var packetLength := packet.dataLength;
    packet.Reset();
    packet.SetUint(packetLength);
    HeaderThen(12, MGMT_NODE_PKT, tag, body);
    HeaderThen(packetLength, MGMT_NODE_PKT, tag, body);
    BackPatch(packetLength, 12, U32Bytes(MGMT_NODE_PKT) + U32Bytes(tag) + body);
  }

  /** The header of a browser's request. */
  method ReadRequest(packet: Packet, ghost length: u32, ghost kind: u32, ghost tag: u32, ghost body: Bytes)
      returns (reqType: u32, ioTag: u32)
    requires packet.Valid() && packet.curOffset == 0 && packet.Contents() == HeaderBytes(length, kind, tag) + body
    modifies packet`curOffset
    ensures reqType == kind && ioTag == tag
  {
    HeaderRead(packet.Contents(), length, kind, tag, body);
    assert forall k :: 0 <= k < 12 ==> packet.data[k] == packet.Contents()[k];
    var reqLength := packet.GetUint();
    reqType := packet.GetUint();
    ioTag := packet.GetUint();
  }

  method WriteDebugBody(tx: Packet, f: DebugFrame)
    requires tx.Valid() && tx.curOffset == tx.dataLength && |f.data| < 0x1_0000_0000
    modifies tx
    ensures tx.Valid() && tx.Contents() == old(tx.Contents()) + DebugBody(f)
  {
    ghost var header := tx.Contents();
    tx.SetUint(f.kind);
    tx.SetUint(f.seqCnt);
    tx.SetUint(f.serverObjID);
    tx.SetUint(f.epIndex);
    tx.SetUint(|f.data|);
    tx.SetBytes(f.data);
    Chain6(header, U32Bytes(f.kind), U32Bytes(f.seqCnt), U32Bytes(f.serverObjID), U32Bytes(f.epIndex),
      U32Bytes(|f.data|), f.data);
  }

  method WriteDebug(f: DebugFrame) returns (tx: Packet)
    requires |f.data| + 32 < 0x1_0000_0000
    ensures fresh(tx) && tx.Valid() && tx.Contents() == DebugPktBytes(f)
  {
    tx := new Packet();
    tx.SetUint(32 + |f.data|);
    tx.SetUint(MGMT_DEBUG_PKT);
    tx.SetUint(0);
    Assoc(U32Bytes(32 + |f.data|), U32Bytes(MGMT_DEBUG_PKT), U32Bytes(0));
    WriteDebugBody(tx, f);
  }

  /** The server reads a node's debug frame into a 1500-byte buffer and writes it again in words. */
  method TranscodeDebug(rx: Packet, ghost f: DebugFrame) returns (frame: DebugFrame, tx: Packet)
    requires rx.Valid() && rx.curOffset == 0 && ReadNodeDebug(rx.data) == Got(f, 12 + |f.data|)
    modifies rx`curOffset
    ensures frame == f
    ensures fresh(tx) && tx.Valid() && tx.Contents() == DebugPktBytes(f)
  {
    var rxType := rx.GetShort();
    var rxSeqCnt := rx.GetShort();
    var rxSvrObjID := rx.GetUint();
    var rxEPIndex := rx.GetShort();
    var rxDataLength := rx.GetShort();
    var rxData := rx.GetBytes(rxDataLength);
    frame := DebugFrame(rxType, rxSeqCnt, rxSvrObjID, rxEPIndex, rxData);
    tx := WriteDebug(frame);
  }
}
