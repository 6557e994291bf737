// The datagrams of the handshake, byte for byte (src/hnode-provider.c:516-601 and 621-728,
// src/hnode-provider-epoint.c:160-196, src/hnode-nodeobj.c:619-756).

module UdpCodec {
  import opened Basics
  import opened NodeCodec
  import opened Provider

  const HNPKT_PINFO_REQ: u32 := 1
  const HNPKT_PINFO_RPY: u32 := 2
  const HNPKT_EPINFO_REQ: u32 := 3
  const HNPKT_EPINFO_RPY: u32 := 4
  const HNPKT_SYSINFO_REQ: u32 := 5
  const HNPKT_SYSINFO_ACK: u32 := 6

  const WORD := 0x1_0000_0000

  /** Seconds, minutes, hours and weekday; the node skips them. */
  type Clock = s: Bytes | |s| == 4 witness [0, 0, 0, 0]

  /** A 128-byte text buffer of the node, of which only a part is meant. */
  type TextBuffer = s: Bytes | |s| == 128 witness seq(128, _ => 0)

  /** Two bytes that are skipped when written and when read. */
  type Reserved = s: Bytes | |s| == 2 witness [0, 0]

  predicate RequestFits(q: Request) {
    && q.tag < WORD
    && (q.EPInfoReq? ==> q.index < WORD)
    && (q.SysInfoReq? ==> q.serverObjID < WORD)
  }

  predicate ReplyFits(r: Reply) {
    && r.tag < WORD
    && (r.PInfoRpy? ==> r.head.endPointCount < WORD)
    && (r.EPInfoRpy? ==> r.index < WORD)
  }

  function RequestBytes(q: Request, clock: Clock): Bytes
    requires RequestFits(q)
  {
    match q
    case PInfoReq(tag) => U32Bytes(HNPKT_PINFO_REQ) + U32Bytes(tag)
    case EPInfoReq(tag, i) => U32Bytes(HNPKT_EPINFO_REQ) + (U32Bytes(tag) + U32Bytes(i))
    case SysInfoReq(tag, dbg, evt, id) =>
      U32Bytes(HNPKT_SYSINFO_REQ) + (U32Bytes(tag) + (clock + (U16Bytes(dbg) + (U16Bytes(evt) + U32Bytes(id)))))
  }

  function HeadFields(h: Head, hostAddr: TextBuffer): Bytes
    requires h.endPointCount < WORD
  {
    U16Bytes(h.micro) + ([h.minor] + ([h.major] + (h.uid + (U32Bytes(h.endPointCount) +
    (U16Bytes(h.mgmtPort) + (U16Bytes(h.configPort) + (U32Bytes(0) + (U32Bytes(0) + hostAddr))))))))
  }

  /** The text buffer holds the mime type and whatever follows it. */
  function EndpointFields(e: EndpointRecord, reserved: Reserved, text: TextBuffer): Bytes {
    U16Bytes(e.port) + (reserved + (U16Bytes(e.micro) + ([e.minor] + ([e.major] +
    (U32Bytes(e.assoc) + (U32Bytes(|e.mime|) + text))))))
  }

  function ReplyBytes(r: Reply, reserved: Reserved, text: TextBuffer): Bytes
    requires ReplyFits(r)
  {
    match r
    case PInfoRpy(tag, h) => U32Bytes(HNPKT_PINFO_RPY) + (U32Bytes(tag) + HeadFields(h, text))
    case EPInfoRpy(tag, i, e) =>
      U32Bytes(HNPKT_EPINFO_RPY) + (U32Bytes(tag) + (U32Bytes(i) + EndpointFields(e, reserved, text)))
    case SysInfoAck(tag) => U32Bytes(HNPKT_SYSINFO_ACK) + U32Bytes(tag)
  }

  // ---- a datagram as its reader sees it, field by field ----

  ghost predicate HeadAt(s: Bytes, at: nat, h: Head) {
    && at + 36 <= |s|
    && U16At(s, at) == h.micro && s[at + 2] == h.minor && s[at + 3] == h.major && s[at + 4..at + 20] == h.uid
    && U32At(s, at + 20) == h.endPointCount && U16At(s, at + 24) == h.mgmtPort && U16At(s, at + 26) == h.configPort
    && U32At(s, at + 28) == 0 && U32At(s, at + 32) == 0
  }

  ghost predicate EndpointAt(s: Bytes, at: nat, e: EndpointRecord) {
    && at + 16 + |e.mime| <= |s|
    && U16At(s, at) == e.port && U16At(s, at + 4) == e.micro && s[at + 6] == e.minor && s[at + 7] == e.major
    && U32At(s, at + 8) == e.assoc && U32At(s, at + 12) == |e.mime| && s[at + 16..at + 16 + |e.mime|] == e.mime
  }

  function TypeOf(r: Reply): u32 {
    match r
    case PInfoRpy(_, _) => HNPKT_PINFO_RPY
    case EPInfoRpy(_, _, _) => HNPKT_EPINFO_RPY
    case SysInfoAck(_) => HNPKT_SYSINFO_ACK
  }

  /** Type and tag stand first in every reply. */
  ghost predicate ReplyAt(s: Bytes, r: Reply) {
    && |s| >= 8 && U32At(s, 0) == TypeOf(r) && U32At(s, 4) == r.tag
    && (r.PInfoRpy? ==> HeadAt(s, 8, r.head))
    && (r.EPInfoRpy? ==> |s| >= 12 && U32At(s, 8) == r.index && EndpointAt(s, 12, r.record))
  }

  function RequestType(q: Request): u32 {
    match q
    case PInfoReq(_) => HNPKT_PINFO_REQ
    case EPInfoReq(_, _) => HNPKT_EPINFO_REQ
    case SysInfoReq(_, _, _, _) => HNPKT_SYSINFO_REQ
  }

  ghost predicate RequestAt(s: Bytes, q: Request) {
    && |s| >= 8 && U32At(s, 0) == RequestType(q) && U32At(s, 4) == q.tag
    && (q.EPInfoReq? ==> |s| >= 12 && U32At(s, 8) == q.index)
    && (q.SysInfoReq? ==>
      |s| >= 20 && U16At(s, 12) == q.debugPort && U16At(s, 14) == q.eventPort && U32At(s, 16) == q.serverObjID)
  }

  // ---- what is written is read back at the offsets the readers use ----

  lemma SysInfoRead(s: Bytes, tag: u32, clock: Clock, dbg: u16, evt: u16, id: u32)
    requires Has(s, 0, U32Bytes(HNPKT_SYSINFO_REQ) + (U32Bytes(tag)
             + (clock + (U16Bytes(dbg) + (U16Bytes(evt) + U32Bytes(id))))))
    ensures |s| >= 20 && U32At(s, 0) == HNPKT_SYSINFO_REQ && U32At(s, 4) == tag
    ensures U16At(s, 12) == dbg && U16At(s, 14) == evt && U32At(s, 16) == id
  {
    var r3 := U16Bytes(evt) + U32Bytes(id);
    var r2 := U16Bytes(dbg) + r3;
    var r1 := clock + r2;
    HasSplit(s, 0, U32Bytes(HNPKT_SYSINFO_REQ), U32Bytes(tag) + r1);
    HasSplit(s, 4, U32Bytes(tag), r1);
    HasSplit(s, 8, clock, r2);
    HasSplit(s, 12, U16Bytes(dbg), r3);
    HasSplit(s, 14, U16Bytes(evt), U32Bytes(id));
    HasU32(s, 0, HNPKT_SYSINFO_REQ);
    HasU32(s, 4, tag);
    HasU16(s, 12, dbg);
    HasU16(s, 14, evt);
    HasU32(s, 16, id);
  }

  lemma RequestRead(s: Bytes, q: Request, clock: Clock)
    requires RequestFits(q) && Has(s, 0, RequestBytes(q, clock))
    ensures RequestAt(s, q)
  {
    match q
    case PInfoReq(tag) =>
      HasSplit(s, 0, U32Bytes(HNPKT_PINFO_REQ), U32Bytes(tag));
      HasU32(s, 0, HNPKT_PINFO_REQ);
      HasU32(s, 4, tag);
    case EPInfoReq(tag, i) =>
      HasSplit(s, 0, U32Bytes(HNPKT_EPINFO_REQ), U32Bytes(tag) + U32Bytes(i));
      HasSplit(s, 4, U32Bytes(tag), U32Bytes(i));
      HasU32(s, 0, HNPKT_EPINFO_REQ);
      HasU32(s, 4, tag);
      HasU32(s, 8, i);
    case SysInfoReq(tag, dbg, evt, id) =>
      SysInfoRead(s, tag, clock, dbg, evt, id);
  }

  lemma HeadFieldsRead(s: Bytes, at: nat, h: Head, hostAddr: TextBuffer)
    requires h.endPointCount < WORD && Has(s, at, HeadFields(h, hostAddr))
    ensures HeadAt(s, at, h)
  {
    var r8 := U32Bytes(0) + hostAddr;
    var r7 := U32Bytes(0) + r8;
    var r6 := U16Bytes(h.configPort) + r7;
    var r5 := U16Bytes(h.mgmtPort) + r6;
    var r4 := U32Bytes(h.endPointCount) + r5;
    var r3 := h.uid + r4;
    var r2 := [h.major] + r3;
    var r1 := [h.minor] + r2;
    HasSplit(s, at, U16Bytes(h.micro), r1);
    HasSplit(s, at + 2, [h.minor], r2);
    HasSplit(s, at + 3, [h.major], r3);
    HasSplit(s, at + 4, h.uid, r4);
    HasSplit(s, at + 20, U32Bytes(h.endPointCount), r5);
    HasSplit(s, at + 24, U16Bytes(h.mgmtPort), r6);
    HasSplit(s, at + 26, U16Bytes(h.configPort), r7);
    HasSplit(s, at + 28, U32Bytes(0), r8);
    HasSplit(s, at + 32, U32Bytes(0), hostAddr);
    HasU16(s, at, h.micro);
    HasByte(s, at + 2, h.minor);
    HasByte(s, at + 3, h.major);
    HasSlice(s, at + 4, h.uid);
    HasU32(s, at + 20, h.endPointCount);
    HasU16(s, at + 24, h.mgmtPort);
    HasU16(s, at + 26, h.configPort);
    HasU32(s, at + 28, 0);
    HasU32(s, at + 32, 0);
  }

  lemma EndpointFieldsRead(s: Bytes, at: nat, e: EndpointRecord, reserved: Reserved, text: TextBuffer)
    requires Has(s, at, EndpointFields(e, reserved, text)) && e.mime <= text
    ensures EndpointAt(s, at, e)
  {
    var r6 := U32Bytes(|e.mime|) + text;
    var r5 := U32Bytes(e.assoc) + r6;
    var r4 := [e.major] + r5;
    var r3 := [e.minor] + r4;
    var r2 := U16Bytes(e.micro) + r3;
    var r1 := reserved + r2;
    HasSplit(s, at, U16Bytes(e.port), r1);
    HasSplit(s, at + 2, reserved, r2);
    HasSplit(s, at + 4, U16Bytes(e.micro), r3);
    HasSplit(s, at + 6, [e.minor], r4);
    HasSplit(s, at + 7, [e.major], r5);
    HasSplit(s, at + 8, U32Bytes(e.assoc), r6);
    HasSplit(s, at + 12, U32Bytes(|e.mime|), text);
    HasU16(s, at, e.port);
    HasU16(s, at + 4, e.micro);
    HasByte(s, at + 6, e.minor);
    HasByte(s, at + 7, e.major);
    HasU32(s, at + 8, e.assoc);
    HasU32(s, at + 12, |e.mime|);
    assert text == e.mime + text[|e.mime|..];
    HasSplit(s, at + 16, e.mime, text[|e.mime|..]);
    HasSlice(s, at + 16, e.mime);
  }

  /** A datagram that starts with the bytes of a reply reads as that reply, whatever fills the reserved bytes
      and the rest of the text buffer. */
  lemma ReplyRead(s: Bytes, r: Reply, reserved: Reserved, text: TextBuffer)
    requires ReplyFits(r) && Has(s, 0, ReplyBytes(r, reserved, text)) && (r.EPInfoRpy? ==> r.record.mime <= text)
    ensures ReplyAt(s, r)
  {
    match r
    case PInfoRpy(tag, h) =>
      HasSplit(s, 0, U32Bytes(HNPKT_PINFO_RPY), U32Bytes(tag) + HeadFields(h, text));
      HasSplit(s, 4, U32Bytes(tag), HeadFields(h, text));
      HasU32(s, 0, HNPKT_PINFO_RPY);
      HasU32(s, 4, tag);
      HeadFieldsRead(s, 8, h, text);
    case EPInfoRpy(tag, i, e) =>
      var f := EndpointFields(e, reserved, text);
      HasSplit(s, 0, U32Bytes(HNPKT_EPINFO_RPY), U32Bytes(tag) + (U32Bytes(i) + f));
      HasSplit(s, 4, U32Bytes(tag), U32Bytes(i) + f);
      HasSplit(s, 8, U32Bytes(i), f);
      HasU32(s, 0, HNPKT_EPINFO_RPY);
      HasU32(s, 4, tag);
      HasU32(s, 8, i);
      EndpointFieldsRead(s, 12, e, reserved, text);
    case SysInfoAck(tag) =>
      HasSplit(s, 0, U32Bytes(HNPKT_SYSINFO_ACK), U32Bytes(tag));
      HasU32(s, 0, HNPKT_SYSINFO_ACK);
      HasU32(s, 4, tag);
  }
}
