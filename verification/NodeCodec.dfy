// The NODE_PKT encoding: what the server writes about a provider (src/hnode-provider.c:771-818,
// src/hnode-provider-epoint.c:198-216) and what a browser reads (src/hnode-provider.c:821-888,
// src/hnode-provider-epoint.c:219-251). Records here hold exactly the fields on the wire.

module NodeCodec {
  import opened Basics
  import opened Mgmt

  /** Mime type and address strings live in 128-byte buffers. */
  type ShortText = s: Bytes | |s| < 128 witness []

  datatype EndpointRecord = EndpointRecord(port: u16, micro: u16, minor: byte, major: byte, assoc: u16, mime: ShortText)

  type EndpointList = s: seq<EndpointRecord> | |s| < 0x1_0000_0000 witness []

  datatype ProviderRecord = ProviderRecord(
    serverObjID: u32, port: u16, configPort: u16, micro: u16, minor: byte, major: byte,
    uid: Uid16, addrStr: ShortText, endpoints: EndpointList)

  // ---- writing ----

  function EndpointBytes(e: EndpointRecord): Bytes {
    U16Bytes(e.port) + (U16Bytes(e.micro) + ([e.minor] + ([e.major] +
    (U32Bytes(e.assoc) + (U32Bytes(|e.mime|) + e.mime)))))
  }

  function EndpointsBytes(es: seq<EndpointRecord>): Bytes {
    if es == [] then [] else EndpointBytes(es[0]) + EndpointsBytes(es[1..])
  }

  /** The fields of fixed size that open a provider record. */
  function HeadBytes(p: ProviderRecord): (bs: Bytes)
    ensures |bs| == 40
  {
    U32Bytes(p.serverObjID) + (U16Bytes(p.port) + (U16Bytes(p.configPort) +
    (U16Bytes(p.micro) + ([p.minor] + ([p.major] + (p.uid +
    (U32Bytes(|p.endpoints|) + (U32Bytes(0) + U32Bytes(|p.addrStr|)))))))))
  }

  function ProviderBytes(p: ProviderRecord): Bytes {
    HeadBytes(p) + (p.addrStr + EndpointsBytes(p.endpoints))
  }

  /** The header of every frame on the management link: length, type, tag. */
  function HeaderBytes(length: u32, kind: u32, tag: u32): (bs: Bytes)
    ensures |bs| == 12
  {
    U32Bytes(length) + (U32Bytes(kind) + U32Bytes(tag))
  }

  /** A whole report; the first word is the length of the frame. */
  function NodePktBytes(tag: u32, nodeID: u32, p: ProviderRecord): Bytes
    requires |ProviderBytes(p)| + 16 < 0x1_0000_0000
  {
    HeaderBytes(|ProviderBytes(p)| + 16, MGMT_NODE_PKT, tag) + (U32Bytes(nodeID) + ProviderBytes(p))
  }

  // ---- reading ----

  datatype Read<+T> = Fail | Got(value: T, next: nat)

  /** The endpoint object keeps sixteen bits of the associate index and of the string length. */
  function ReadEndpoint(s: Bytes, at: nat): Read<EndpointRecord> {
    if at + 14 > |s| then Fail
    else
      var n := U32At(s, at + 10) % 0x1_0000;
      if n >= 128 || at + 14 + n > |s| then Fail
      else Got(EndpointRecord(U16At(s, at), U16At(s, at + 2), s[at + 4], s[at + 5],
                              U32At(s, at + 6) % 0x1_0000, s[at + 14..at + 14 + n]), at + 14 + n)
  }

  function ReadEndpoints(s: Bytes, at: nat, count: nat): (r: Read<seq<EndpointRecord>>)
    ensures r.Got? ==> |r.value| == count
    decreases count
  {
    if count == 0 then Got([], at)
    else
      match ReadEndpoint(s, at)
      case Fail => Fail
      case Got(e, next) =>
        match ReadEndpoints(s, next, count - 1)
        case Fail => Fail
        case Got(es, end) => Got([e] + es, end)
  }

  function ReadProvider(s: Bytes, at: nat): Read<ProviderRecord> {
    if at + 40 > |s| then Fail
    else
      var n := U32At(s, at + 36);
      if n >= 128 || at + 40 + n > |s| then Fail
      else
        match ReadEndpoints(s, at + 40 + n, U32At(s, at + 28))
        case Fail => Fail
        case Got(es, end) =>
          Got(ProviderRecord(U32At(s, at), U16At(s, at + 4), U16At(s, at + 6),
                             U16At(s, at + 8), s[at + 10], s[at + 11], s[at + 12..at + 28],
                             s[at + 40..at + 40 + n], es), end)
  }

  datatype NodeRecord = NodeRecord(nodeID: u32, provider: ProviderRecord)

  /** The browser's handling of a received frame of type NODE_PKT. */
  function ReadNodePkt(s: Bytes): Read<NodeRecord> {
    if |s| < 16 || U32At(s, 0) <= 12 || U32At(s, 4) != MGMT_NODE_PKT then Fail
    else
      match ReadProvider(s, 16)
      case Fail => Fail
      case Got(p, end) => Got(NodeRecord(U32At(s, 12), p), end)
  }

  // ---- what is written is read back ----

  lemma EndpointRead(s: Bytes, at: nat, e: EndpointRecord)
    requires Has(s, at, EndpointBytes(e))
    ensures ReadEndpoint(s, at) == Got(e, at + |EndpointBytes(e)|)
  {
    var r5 := U32Bytes(|e.mime|) + e.mime;
    var r4 := U32Bytes(e.assoc) + r5;
    var r3 := [e.major] + r4;
    var r2 := [e.minor] + r3;
    var r1 := U16Bytes(e.micro) + r2;
    HasSplit(s, at, U16Bytes(e.port), r1);
    HasSplit(s, at + 2, U16Bytes(e.micro), r2);
    HasSplit(s, at + 4, [e.minor], r3);
    HasSplit(s, at + 5, [e.major], r4);
    HasSplit(s, at + 6, U32Bytes(e.assoc), r5);
    HasSplit(s, at + 10, U32Bytes(|e.mime|), e.mime);
    HasU16(s, at, e.port);
    HasU16(s, at + 2, e.micro);
    HasByte(s, at + 4, e.minor);
    HasByte(s, at + 5, e.major);
    HasU32(s, at + 6, e.assoc);
    HasU32(s, at + 10, |e.mime|);
    HasSlice(s, at + 14, e.mime);
  }

  /** The pieces of an endpoint list, with the first one read. */
  lemma FirstEndpoint(s: Bytes, at: nat, es: seq<EndpointRecord>) returns (mid: nat)
    requires es != [] && Has(s, at, EndpointsBytes(es))
    ensures ReadEndpoint(s, at) == Got(es[0], mid) && Has(s, mid, EndpointsBytes(es[1..]))
    ensures mid + |EndpointsBytes(es[1..])| == at + |EndpointsBytes(es)|
  {
    HasSplit(s, at, EndpointBytes(es[0]), EndpointsBytes(es[1..]));
    EndpointRead(s, at, es[0]);
    mid := at + |EndpointBytes(es[0])|;
  }

  lemma {:induction false} EndpointsRead(s: Bytes, at: nat, es: seq<EndpointRecord>)
    requires Has(s, at, EndpointsBytes(es))
    ensures ReadEndpoints(s, at, |es|) == Got(es, at + |EndpointsBytes(es)|)
    decreases |es|
  {
    if es != [] {
      var mid := FirstEndpoint(s, at, es);
      EndpointsRead(s, mid, es[1..]);
      assert es == [es[0]] + es[1..];
    }
  }

  /** The fixed part of the record p, read field by field. */
  ghost predicate HeadMatches(s: Bytes, at: nat, p: ProviderRecord) {
    && at + 40 <= |s|
    && U32At(s, at) == p.serverObjID && U16At(s, at + 4) == p.port && U16At(s, at + 6) == p.configPort
    && U16At(s, at + 8) == p.micro && s[at + 10] == p.minor && s[at + 11] == p.major
    && s[at + 12..at + 28] == p.uid
    && U32At(s, at + 28) == |p.endpoints| && U32At(s, at + 36) == |p.addrStr|
  }

  ghost predicate BodyMatches(s: Bytes, at: nat, p: ProviderRecord, end: nat) {
    && at + |p.addrStr| <= |s| && s[at..at + |p.addrStr|] == p.addrStr
    && ReadEndpoints(s, at + |p.addrStr|, |p.endpoints|) == Got(p.endpoints, end)
  }

  lemma HeadRead(s: Bytes, at: nat, p: ProviderRecord)
    requires Has(s, at, HeadBytes(p))
    ensures HeadMatches(s, at, p)
  {
    var r8 := U32Bytes(0) + U32Bytes(|p.addrStr|);
    var r7 := U32Bytes(|p.endpoints|) + r8;
    var r6 := p.uid + r7;
    var r5 := [p.major] + r6;
    var r4 := [p.minor] + r5;
    var r3 := U16Bytes(p.micro) + r4;
    var r2 := U16Bytes(p.configPort) + r3;
    var r1 := U16Bytes(p.port) + r2;
    HasSplit(s, at, U32Bytes(p.serverObjID), r1);
    HasSplit(s, at + 4, U16Bytes(p.port), r2);
    HasSplit(s, at + 6, U16Bytes(p.configPort), r3);
    HasSplit(s, at + 8, U16Bytes(p.micro), r4);
    HasSplit(s, at + 10, [p.minor], r5);
    HasSplit(s, at + 11, [p.major], r6);
    HasSplit(s, at + 12, p.uid, r7);
    HasSplit(s, at + 28, U32Bytes(|p.endpoints|), r8);
    HasSplit(s, at + 32, U32Bytes(0), U32Bytes(|p.addrStr|));
    HasU32(s, at, p.serverObjID);
    HasU16(s, at + 4, p.port);
    HasU16(s, at + 6, p.configPort);
    HasU16(s, at + 8, p.micro);
    HasByte(s, at + 10, p.minor);
    HasByte(s, at + 11, p.major);
    HasU32(s, at + 28, |p.endpoints|);
    HasU32(s, at + 36, |p.addrStr|);
    HasSlice(s, at + 12, p.uid);
  }

  lemma BodyRead(s: Bytes, at: nat, p: ProviderRecord)
    requires Has(s, at, p.addrStr + EndpointsBytes(p.endpoints))
    ensures BodyMatches(s, at, p, at + |p.addrStr| + |EndpointsBytes(p.endpoints)|)
  {
    HasSplit(s, at, p.addrStr, EndpointsBytes(p.endpoints));
    HasSlice(s, at, p.addrStr);
    EndpointsRead(s, at + |p.addrStr|, p.endpoints);
  }

  lemma PartsRead(s: Bytes, at: nat, p: ProviderRecord, end: nat)
    requires HeadMatches(s, at, p) && BodyMatches(s, at + 40, p, end)
    ensures ReadProvider(s, at) == Got(p, end)
  {
  }

  lemma ProviderSplit(s: Bytes, at: nat, p: ProviderRecord)
    requires Has(s, at, ProviderBytes(p))
    ensures Has(s, at, HeadBytes(p)) && Has(s, at + 40, p.addrStr + EndpointsBytes(p.endpoints))
    ensures |ProviderBytes(p)| == 40 + |p.addrStr| + |EndpointsBytes(p.endpoints)|
  {
    HasSplit(s, at, HeadBytes(p), p.addrStr + EndpointsBytes(p.endpoints));
  }

  /** A provider record, wherever it stands, is read back whole and used up exactly. */
  lemma ProviderRead(s: Bytes, at: nat, p: ProviderRecord)
    requires Has(s, at, ProviderBytes(p))
    ensures ReadProvider(s, at) == Got(p, at + |ProviderBytes(p)|)
  {
    ProviderSplit(s, at, p);
    HeadRead(s, at, p);
    BodyRead(s, at + 40, p);
    PartsRead(s, at, p, at + |ProviderBytes(p)|);
  }

  lemma HeaderRead(s: Bytes, length: u32, kind: u32, tag: u32, body: Bytes)
    requires s == HeaderBytes(length, kind, tag) + body
    ensures U32At(s, 0) == length && U32At(s, 4) == kind && U32At(s, 8) == tag && Has(s, 12, body)
  {
    assert Has(s, 0, s);
    HasSplit(s, 0, HeaderBytes(length, kind, tag), body);
    HasSplit(s, 0, U32Bytes(length), U32Bytes(kind) + U32Bytes(tag));
    HasSplit(s, 4, U32Bytes(kind), U32Bytes(tag));
    HasU32(s, 0, length);
    HasU32(s, 4, kind);
    HasU32(s, 8, tag);
  }

  /** The report of a provider with any number of endpoints: the browser gets the same NodeID and the same
      record, and has then consumed exactly the frame, whose own length field is right. */
  lemma NodePktRoundTrip(tag: u32, nodeID: u32, p: ProviderRecord)
    requires |ProviderBytes(p)| + 16 < 0x1_0000_0000
    ensures var s := NodePktBytes(tag, nodeID, p);
            && ReadNodePkt(s) == Got(NodeRecord(nodeID, p), |s|)
            && U32At(s, 0) == |s|
  {
    var s := NodePktBytes(tag, nodeID, p);
    HeaderRead(s, |ProviderBytes(p)| + 16, MGMT_NODE_PKT, tag, U32Bytes(nodeID) + ProviderBytes(p));
    HasSplit(s, 12, U32Bytes(nodeID), ProviderBytes(p));
    HasU32(s, 12, nodeID);
    ProviderRead(s, 16, p);
  }
}
