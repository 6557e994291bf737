// Packets on the management link as values, and their bytes.

module MgmtFrames {
  import opened Basics
  import opened Mgmt
  import opened NodeCodec
  import opened DebugCodec
  import opened TxStream
  import opened ClientUpdate
  import P = Provider

  /** A packet on the management link, with what it says. */
  datatype Frame =
    | AckFrame(ioTag: u32)
    | NodeFrame(tag: u32, nodeID: u32, record: ProviderRecord)
    | DebugPktFrame(frame: DebugFrame)
    | OtherFrame(kind: u32, tag: u32, body: Bytes)

  /** A frame that fits its length word. The other frames are those of other types, and bare headers and padded
      acknowledgements. */
  predicate FrameFits(f: Frame) {
    match f
    case AckFrame(_) => true
    case OtherFrame(kind, _, body) =>
      && |body| + 12 < 0x1_0000_0000
      && kind != MGMT_DEBUG_PKT && (kind == MGMT_NODE_PKT ==> body == []) && (kind == MGMT_ACK ==> body != [])
    case NodeFrame(_, _, r) => |ProviderBytes(r)| + 16 < 0x1_0000_0000
    case DebugPktFrame(d) => |d.data| + 32 < 0x1_0000_0000
  }

  function FrameBytes(f: Frame): Bytes
    requires FrameFits(f)
  {
    match f
    case AckFrame(tag) => HeaderBytes(12, MGMT_ACK, tag)
    case NodeFrame(tag, id, r) => NodePktBytes(tag, id, r)
    case DebugPktFrame(d) => DebugPktBytes(d)
    case OtherFrame(kind, tag, body) => HeaderBytes(12 + |body|, kind, tag) + body
  }

  /** A node report adds its node at the end of the list; anything else leaves the list as it is. */
  function AfterFrame(v: seq<(nat, P.Provider)>, f: Frame): seq<(nat, P.Provider)> {
    if f.NodeFrame? then v + [(f.nodeID as nat, Parsed(P.NewProvider(P.NO_ADDR), f.record))] else v
  }

  function FrameType(f: Frame): u32 {
    match f
    case AckFrame(_) => MGMT_ACK
    case NodeFrame(_, _, _) => MGMT_NODE_PKT
    case DebugPktFrame(_) => MGMT_DEBUG_PKT
    case OtherFrame(kind, _, _) => kind
  }

  function FrameBody(f: Frame): Bytes
    requires FrameFits(f)
  {
    match f
    case AckFrame(_) => []
    case NodeFrame(_, id, r) => U32Bytes(id) + ProviderBytes(r)
    case DebugPktFrame(d) => DebugBody(d)
    case OtherFrame(_, _, body) => body
  }

  function FrameTag(f: Frame): u32 {
    match f
    case AckFrame(tag) => tag
    case NodeFrame(tag, _, _) => tag
    case DebugPktFrame(_) => 0
    case OtherFrame(_, tag, _) => tag
  }

  /** Every packet is a header with the packet's own length, its type and tag, and a body. */
  lemma FrameLayout(f: Frame)
    requires FrameFits(f)
    ensures 12 + |FrameBody(f)| < 0x1_0000_0000
    ensures FrameBytes(f) == HeaderBytes(12 + |FrameBody(f)|, FrameType(f), FrameTag(f)) + FrameBody(f)
  {
    match f
    case AckFrame(tag) => assert HeaderBytes(12, MGMT_ACK, tag) + [] == HeaderBytes(12, MGMT_ACK, tag);
    case NodeFrame(_, _, _) =>
    case DebugPktFrame(_) =>
    case OtherFrame(_, _, _) =>
  }

  lemma FrameRead(s: Bytes, f: Frame)
    requires FrameFits(f) && Has(s, 0, FrameBytes(f))
    ensures |s| >= 12 && U32At(s, 0) == |FrameBytes(f)| && U32At(s, 4) == FrameType(f) && U32At(s, 8) == FrameTag(f)
    ensures Has(s, 12, FrameBody(f)) && |FrameBytes(f)| == 12 + |FrameBody(f)|
  {
    FrameLayout(f);
    var length: u32 := 12 + |FrameBody(f)|;
    HasSplit(s, 0, HeaderBytes(length, FrameType(f), FrameTag(f)), FrameBody(f));
    HasSplit(s, 0, U32Bytes(length), U32Bytes(FrameType(f)) + U32Bytes(FrameTag(f)));
    HasSplit(s, 4, U32Bytes(FrameType(f)), U32Bytes(FrameTag(f)));
    HasU32(s, 0, length);
    HasU32(s, 4, FrameType(f));
    HasU32(s, 8, FrameTag(f));
  }

  /** The same for a frame at the front of a larger buffer. */
  lemma FrameReadIn(data: Bytes, length: nat, f: Frame)
    requires FrameFits(f) && length <= |data| && data[..length] == FrameBytes(f)
    ensures |data| >= 12 && U32At(data, 0) == length && U32At(data, 4) == FrameType(f)
    ensures Has(data, 12, FrameBody(f)) && length == 12 + |FrameBody(f)|
  {
    var s := FrameBytes(f);
    assert forall k :: 0 <= k < |s| ==> data[0 + k] == s[k];
    FrameRead(data, f);
  }

  /** What the link's framing needs of a packet holds of every packet the server builds. */
  lemma FramesAreFramed(f: Frame)
    requires FrameFits(f)
    ensures IsFrame(FrameBytes(f))
  {
    var s := FrameBytes(f);
    assert Has(s, 0, s);
    FrameRead(s, f);
  }

  lemma BodiesDiffer(f: Frame, g: Frame)
    requires FrameFits(f) && FrameFits(g) && FrameBytes(f) == FrameBytes(g)
    ensures FrameType(f) == FrameType(g) && FrameTag(f) == FrameTag(g) && FrameBody(f) == FrameBody(g)
  {
    var s := FrameBytes(f);
    assert Has(s, 0, s);
    FrameRead(s, f);
    FrameRead(s, g);
    HasSlice(s, 12, FrameBody(f));
    HasSlice(s, 12, FrameBody(g));
  }

  /** The bytes determine the packet: type, tags, IDs, the whole record and the whole debug frame. */
  lemma FrameBytesInjective(f: Frame, g: Frame)
    requires FrameFits(f) && FrameFits(g) && FrameBytes(f) == FrameBytes(g)
    ensures f == g
  {
    BodiesDiffer(f, g);
    match f
    case AckFrame(_) =>
    case NodeFrame(tag, id, r) =>
      NodePktRoundTrip(tag, id, r);
      NodePktRoundTrip(g.tag, g.nodeID, g.record);
    case DebugPktFrame(d) =>
      DebugPktRead(DebugPktBytes(d), d);
      DebugPktRead(DebugPktBytes(g.frame), g.frame);
    case OtherFrame(_, _, _) =>
  }
}
