// Every packet byte by byte, in plain numbers (src/hnode-provider.c:45-53, src/hnode-nodeobj.c:202-210,
// src/hnode-srvobj.h:43-55): which word stands where, and which byte of a word comes first.

module WireLayout {
  import opened Basics
  import opened Mgmt
  import opened NodeCodec
  import opened UdpCodec
  import opened DebugCodec
  import opened P = Provider

  /** The most significant byte comes first, written and read. */
  lemma MostSignificantFirst(v: u16, w: u32, s: Bytes)
    ensures U16Bytes(v)[0] as int * 256 + U16Bytes(v)[1] == v
    ensures var b := U32Bytes(w);
            b[0] as int * 16777216 + b[1] as int * 65536 + b[2] as int * 256 + b[3] == w
    ensures |s| >= 2 ==> U16At(s, 0) == s[0] as int * 256 + s[1]
    ensures |s| >= 4 ==>
              U32At(s, 0) == s[0] as int * 16777216 + s[1] as int * 65536 + s[2] as int * 256 + s[3]
  {
  }

  // ---- datagrams ----

  ghost predicate RequestLayout(s: Bytes, q: Request, clock: Clock) {
    match q
    case PInfoReq(tag) => |s| == 8 && U32At(s, 0) == 1 && U32At(s, 4) == tag
    case EPInfoReq(tag, i) => |s| == 12 && U32At(s, 0) == 3 && U32At(s, 4) == tag && U32At(s, 8) == i
    case SysInfoReq(tag, dbg, evt, id) =>
      && |s| == 20 && U32At(s, 0) == 5 && U32At(s, 4) == tag && s[8..12] == clock
      && U16At(s, 12) == dbg && U16At(s, 14) == evt && U32At(s, 16) == id
  }

  lemma RequestIs(q: Request, clock: Clock)
    requires RequestFits(q)
    ensures RequestLayout(RequestBytes(q, clock), q, clock)
  {
    var s := RequestBytes(q, clock);
    assert Has(s, 0, s);
    RequestRead(s, q, clock);
  }

  ghost predicate ReplyLayout(s: Bytes, r: Reply, reserved: Reserved, text: TextBuffer) {
    match r
    case PInfoRpy(tag, h) =>
      && |s| == 172 && U32At(s, 0) == 2 && U32At(s, 4) == tag
      && U16At(s, 8) == h.micro && s[10] == h.minor && s[11] == h.major && s[12..28] == h.uid
      && U32At(s, 28) == h.endPointCount && U16At(s, 32) == h.mgmtPort && U16At(s, 34) == h.configPort
      && U32At(s, 36) == 0 && U32At(s, 40) == 0 && s[44..] == text
    case EPInfoRpy(tag, i, e) =>
      && |s| == 156 && U32At(s, 0) == 4 && U32At(s, 4) == tag && U32At(s, 8) == i
      && U16At(s, 12) == e.port && s[14..16] == reserved && U16At(s, 16) == e.micro && s[18] == e.minor
      && s[19] == e.major && U32At(s, 20) == e.assoc && U32At(s, 24) == |e.mime| && s[28..] == text
    case SysInfoAck(tag) => |s| == 8 && U32At(s, 0) == 6 && U32At(s, 4) == tag
  }

  lemma HeadFieldsRest(h: Head, text: TextBuffer)
    requires h.endPointCount < WORD
    ensures |HeadFields(h, text)| == 164 && HeadFields(h, text)[36..] == text
  {
  }

  lemma EndpointFieldsRest(e: EndpointRecord, reserved: Reserved, text: TextBuffer)
    ensures var s := EndpointFields(e, reserved, text);
            |s| == 144 && s[2..4] == reserved && s[16..] == text
  {
  }

  /** The parts of a reply that its reader skips or takes as a whole. */
  lemma ReplyRest(r: Reply, reserved: Reserved, text: TextBuffer)
    requires ReplyFits(r)
    ensures var s := ReplyBytes(r, reserved, text);
            && |s| == (match r case PInfoRpy(_, _) => 172 case EPInfoRpy(_, _, _) => 156 case SysInfoAck(_) => 8)
            && (r.PInfoRpy? ==> s[44..] == text)
            && (r.EPInfoRpy? ==> s[14..16] == reserved && s[28..] == text)
  {
    var s := ReplyBytes(r, reserved, text);
    match r
    case PInfoRpy(_, h) =>
      HeadFieldsRest(h, text);
      assert s[44..] == HeadFields(h, text)[36..];
    case EPInfoRpy(_, _, e) =>
      EndpointFieldsRest(e, reserved, text);
      assert s[14..16] == EndpointFields(e, reserved, text)[2..4] && s[28..] == EndpointFields(e, reserved, text)[16..];
    case SysInfoAck(_) =>
  }

  lemma ReplyIs(r: Reply, reserved: Reserved, text: TextBuffer)
    requires ReplyFits(r) && (r.EPInfoRpy? ==> r.record.mime <= text)
    ensures ReplyLayout(ReplyBytes(r, reserved, text), r, reserved, text)
  {
    var s := ReplyBytes(r, reserved, text);
    assert Has(s, 0, s);
    ReplyRead(s, r, reserved, text);
    ReplyRest(r, reserved, text);
  }

  // ---- the management link ----

  /** A provider record that stands behind sixteen bytes. */
  ghost predicate RecordLayout(s: Bytes, p: ProviderRecord) {
    && |s| == 56 + |p.addrStr| + |EndpointsBytes(p.endpoints)|
    && U32At(s, 16) == p.serverObjID && U16At(s, 20) == p.port && U16At(s, 22) == p.configPort
    && U16At(s, 24) == p.micro && s[26] == p.minor && s[27] == p.major && s[28..44] == p.uid
    && U32At(s, 44) == |p.endpoints| && U32At(s, 48) == 0 && U32At(s, 52) == |p.addrStr|
    && s[56..56 + |p.addrStr|] == p.addrStr && s[56 + |p.addrStr|..] == EndpointsBytes(p.endpoints)
  }

  lemma ReservedWord(p: ProviderRecord)
    ensures U32At(HeadBytes(p), 32) == 0
  {
    assert HeadBytes(p)[32..36] == U32Bytes(0);
    assert forall k :: 0 <= k < 4 ==> HeadBytes(p)[32 + k] == HeadBytes(p)[32..36][k];
  }

  lemma RecordIs(s: Bytes, p: ProviderRecord)
    requires Has(s, 16, ProviderBytes(p)) && |s| == 16 + |ProviderBytes(p)|
    ensures RecordLayout(s, p)
  {
    ProviderSplit(s, 16, p);
    HeadRead(s, 16, p);
    ReservedWord(p);
    assert forall k :: 32 <= k < 36 ==> s[16 + k] == HeadBytes(p)[k];
    HasSplit(s, 56, p.addrStr, EndpointsBytes(p.endpoints));
    HasSlice(s, 56, p.addrStr);
    HasSlice(s, 56 + |p.addrStr|, EndpointsBytes(p.endpoints));
  }

  /** A node packet says its own length, type ten, its tag and the NodeID, and then describes the provider. */
  ghost predicate NodePktLayout(s: Bytes, tag: u32, nodeID: u32, p: ProviderRecord) {
    && RecordLayout(s, p)
    && U32At(s, 0) == |s| && U32At(s, 4) == 10 && U32At(s, 8) == tag && U32At(s, 12) == nodeID
  }

  lemma NodePktIs(tag: u32, nodeID: u32, p: ProviderRecord)
    requires |ProviderBytes(p)| + 16 < 0x1_0000_0000
    ensures NodePktLayout(NodePktBytes(tag, nodeID, p), tag, nodeID, p)
  {
    var s := NodePktBytes(tag, nodeID, p);
    HeaderRead(s, |ProviderBytes(p)| + 16, MGMT_NODE_PKT, tag, U32Bytes(nodeID) + ProviderBytes(p));
    HasSplit(s, 12, U32Bytes(nodeID), ProviderBytes(p));
    HasU32(s, 12, nodeID);
    RecordIs(s, p);
  }

  lemma EndpointIs(e: EndpointRecord)
    ensures var s := EndpointBytes(e);
            && |s| == 14 + |e.mime| && U16At(s, 0) == e.port && U16At(s, 2) == e.micro && s[4] == e.minor
            && s[5] == e.major && U32At(s, 6) == e.assoc && U32At(s, 10) == |e.mime| && s[14..] == e.mime
  {
    var s := EndpointBytes(e);
    assert Has(s, 0, s);
    EndpointRead(s, 0, e);
  }

  /** A debug frame as the node sends it, in short fields. */
  lemma NodeDebugIs(f: DebugFrame)
    requires FitsNodeFrame(f)
    ensures var s := NodeDebugBytes(f);
            && |s| == 12 + |f.data| && U16At(s, 0) == f.kind && U16At(s, 2) == f.seqCnt && U32At(s, 4) == f.serverObjID
            && U16At(s, 8) == f.epIndex && U16At(s, 10) == |f.data| && s[12..] == f.data
  {
    var s := NodeDebugBytes(f);
    assert Has(s, 0, s);
    NodeDebugRead(s, f);
  }

  /** And as the server passes it on, in words. */
  lemma DebugPktIs(f: DebugFrame)
    requires |f.data| + 32 < 0x1_0000_0000
    ensures var s := DebugPktBytes(f);
            && |s| == 32 + |f.data| && U32At(s, 0) == |s| && U32At(s, 4) == 8 && U32At(s, 8) == 0
            && U32At(s, 12) == f.kind && U32At(s, 16) == f.seqCnt && U32At(s, 20) == f.serverObjID
            && U32At(s, 24) == f.epIndex && U32At(s, 28) == |f.data| && s[32..] == f.data
  {
    var s := DebugPktBytes(f);
    HeaderRead(s, 32 + |f.data|, MGMT_DEBUG_PKT, 0, DebugBody(f));
    DebugBodyRead(s, 12, f);
  }

  /** Packets without a body are their header: the acknowledgement of a request, and the request for reports. */
  lemma HeadersAre(tag: u32)
    ensures HeaderBytes(12, MGMT_ACK, tag) == [0, 0, 0, 12, 0, 0, 0, 7] + U32Bytes(tag)
    ensures HeaderBytes(12, MGMT_REQ_PINFO, tag) == [0, 0, 0, 12, 0, 0, 0, 2] + U32Bytes(tag)
    ensures HeaderBytes(16, MGMT_DEBUG_CTRL, tag) + U32Bytes(1) ==
            [0, 0, 0, 16, 0, 0, 0, 5] + U32Bytes(tag) + [0, 0, 0, 1]
  {
  }
}
