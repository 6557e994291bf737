// Debug frames: sixteen-bit fields from the node (src/hnode-nodeobj.c:1012-1052), thirty-two-bit fields from the
// server (src/hnode-srvobj.c:913-984), read back by a browser (src/hnode-browser-mpoint.c:308-342).

module DebugCodec {
  import opened Basics
  import opened Mgmt
  import opened NodeCodec

  predicate HasShortFields(f: DebugFrame) {
    f.kind < 0x1_0000 && f.seqCnt < 0x1_0000 && f.epIndex < 0x1_0000
  }

  /** What fits the server's buffer: data that leave room for the twelve bytes before them. */
  predicate FitsNodeFrame(f: DebugFrame) {
    HasShortFields(f) && |f.data| <= 1500 - 12
  }

  /** The node's frame; the length is cut to sixteen bits as the other fields are, the data are not. */
  function NodeDebugBytes(f: DebugFrame): Bytes
    requires HasShortFields(f)
  {
    U16Bytes(f.kind) + (U16Bytes(f.seqCnt) + (U32Bytes(f.serverObjID)
      + (U16Bytes(f.epIndex) + (U16Bytes(|f.data| % 0x1_0000) + f.data))))
  }

  function ReadNodeDebug(s: Bytes): Read<DebugFrame> {
    if |s| < 12 then Fail
    else
      var n := U16At(s, 10);
      if 12 + n > |s| then Fail
      else Got(DebugFrame(U16At(s, 0), U16At(s, 2), U32At(s, 4), U16At(s, 8), s[12..12 + n]), 12 + n)
  }

  function DebugBody(f: DebugFrame): Bytes
    requires |f.data| < 0x1_0000_0000
  {
    U32Bytes(f.kind) + (U32Bytes(f.seqCnt) + (U32Bytes(f.serverObjID)
      + (U32Bytes(f.epIndex) + (U32Bytes(|f.data|) + f.data))))
  }

  /** Eight words and the data; the tag is zero because nothing answers a debug frame. */
  function DebugPktBytes(f: DebugFrame): Bytes
    requires |f.data| + 32 < 0x1_0000_0000
  {
    HeaderBytes(32 + |f.data|, MGMT_DEBUG_PKT, 0) + DebugBody(f)
  }

  function ReadDebugPkt(s: Bytes): Read<DebugFrame> {
    if |s| < 32 || U32At(s, 4) != MGMT_DEBUG_PKT then Fail
    else
      var n := U32At(s, 28);
      if 32 + n > |s| then Fail
      else Got(DebugFrame(U32At(s, 12), U32At(s, 16), U32At(s, 20), U32At(s, 24), s[32..32 + n]), 32 + n)
  }

  lemma NodeDebugRead(s: Bytes, f: DebugFrame)
    requires FitsNodeFrame(f) && Has(s, 0, NodeDebugBytes(f))
    ensures ReadNodeDebug(s) == Got(f, 12 + |f.data|)
  {
    var r4 := U16Bytes(|f.data|) + f.data;
    var r3 := U16Bytes(f.epIndex) + r4;
    var r2 := U32Bytes(f.serverObjID) + r3;
    var r1 := U16Bytes(f.seqCnt) + r2;
    HasSplit(s, 0, U16Bytes(f.kind), r1);
    HasSplit(s, 2, U16Bytes(f.seqCnt), r2);
    HasSplit(s, 4, U32Bytes(f.serverObjID), r3);
    HasSplit(s, 8, U16Bytes(f.epIndex), r4);
    HasSplit(s, 10, U16Bytes(|f.data|), f.data);
    HasU16(s, 0, f.kind);
    HasU16(s, 2, f.seqCnt);
    HasU32(s, 4, f.serverObjID);
    HasU16(s, 8, f.epIndex);
    HasU16(s, 10, |f.data|);
    HasSlice(s, 12, f.data);
  }

  lemma DebugBodyRead(s: Bytes, at: nat, f: DebugFrame)
    requires |f.data| < 0x1_0000_0000 && Has(s, at, DebugBody(f))
    ensures at + 20 + |f.data| <= |s|
    ensures U32At(s, at) == f.kind && U32At(s, at + 4) == f.seqCnt && U32At(s, at + 8) == f.serverObjID
    ensures U32At(s, at + 12) == f.epIndex && U32At(s, at + 16) == |f.data| && s[at + 20..at + 20 + |f.data|] == f.data
  {
    var r4 := U32Bytes(|f.data|) + f.data;
    var r3 := U32Bytes(f.epIndex) + r4;
    var r2 := U32Bytes(f.serverObjID) + r3;
    var r1 := U32Bytes(f.seqCnt) + r2;
    HasSplit(s, at, U32Bytes(f.kind), r1);
    HasSplit(s, at + 4, U32Bytes(f.seqCnt), r2);
    HasSplit(s, at + 8, U32Bytes(f.serverObjID), r3);
    HasSplit(s, at + 12, U32Bytes(f.epIndex), r4);
    HasSplit(s, at + 16, U32Bytes(|f.data|), f.data);
    HasU32(s, at, f.kind);
    HasU32(s, at + 4, f.seqCnt);
    HasU32(s, at + 8, f.serverObjID);
    HasU32(s, at + 12, f.epIndex);
    HasU32(s, at + 16, |f.data|);
    HasSlice(s, at + 20, f.data);
  }

  lemma DebugPktRead(s: Bytes, f: DebugFrame)
    requires |f.data| + 32 < 0x1_0000_0000 && s == DebugPktBytes(f)
    ensures ReadDebugPkt(s) == Got(f, |s|) && U32At(s, 0) == |s| == 32 + |f.data|
  {
    HeaderRead(s, 32 + |f.data|, MGMT_DEBUG_PKT, 0, DebugBody(f));
    DebugBodyRead(s, 12, f);
  }

  /** A frame written by a node in short fields, read by the server, written again in words and read by a browser
      keeps its type, sequence count, object ID, endpoint and data; both ends use up the frame exactly, and the
      length the server writes is the length of what it sends. */
  lemma DebugFrameSurvives(f: DebugFrame)
    requires FitsNodeFrame(f)
    ensures var atServer := ReadNodeDebug(NodeDebugBytes(f));
            && atServer == Got(f, |NodeDebugBytes(f)|) && |NodeDebugBytes(f)| <= 1500
            && ReadDebugPkt(DebugPktBytes(atServer.value)) == Got(f, |DebugPktBytes(f)|)
            && U32At(DebugPktBytes(atServer.value), 0) == |DebugPktBytes(f)| == 32 + |f.data|
  {
    var s := NodeDebugBytes(f);
    assert Has(s, 0, s);
    NodeDebugRead(s, f);
    DebugPktRead(DebugPktBytes(f), f);
  }
}
