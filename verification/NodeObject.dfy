// The node object of src/hnode-nodeobj.c: its endpoint table, the responder, and the debug frames it sends.

module NodeObject {
  import opened Basics
  import opened Mgmt
  import opened NodeCodec
  import opened PacketBuffer
  import opened UdpCodec
  import opened DebugCodec
  import opened P = Provider

  /** An endpoint entry; the mime type is the first mimeTypeLength bytes of its buffer. */
  datatype Slot = Slot(mimeTypeLength: u16, mimeTypeStr: TextBuffer, port: u16, assoc: u16, major: byte, minor: byte,
    micro: u16)

  const BLANK_SLOT := Slot(0, seq(128, _ => 0), 0, 0, 0, 0, 0)

  /** g_strlcpy into a 128-byte buffer. */
  function Strlcpy(buf: TextBuffer, s: Bytes): TextBuffer {
    var n := if |s| < 128 then |s| else 127;
    s[..n] + [0] + buf[n + 1..]
  }

  /** The endpoint as its announcements describe it. */
  function RecordOfSlot(s: Slot): EndpointRecord
    requires s.mimeTypeLength < 128
  {
    EndpointRecord(s.port, s.micro, s.minor, s.major, s.assoc, s.mimeTypeStr[..s.mimeTypeLength])
  }

  class HNode {
    var microVersion: u16
    var minorVersion: byte
    var majorVersion: byte
    var nodeUID: Uid16
    var endPointCount: nat
    var mgmtPort: u16
    var configPort: u16
    var hostAddr: TextBuffer
    var endPointArray: array<Slot>
    var debugAddr: SockAddr
    var debugPktSeqCnt: u16
    var eventAddr: SockAddr
    var serverValid: bool
    var serverObjID: u32

    /** The table has the announced size. */
    ghost predicate TableOk()
      reads this
    {
      endPointArray.Length == endPointCount < WORD
    }

    /** And every mime type fits its buffer. */
    ghost predicate Valid()
      reads this, endPointArray
    {
      && TableOk()
      && forall i :: 0 <= i < endPointArray.Length ==> endPointArray[i].mimeTypeLength < 128
    }

    ghost function Endpoints(): (es: seq<EndpointRecord>)
      requires Valid()
      reads this, endPointArray
      ensures |es| == endPointCount
      ensures forall i :: 0 <= i < |es| ==> es[i] == RecordOfSlot(endPointArray[i])
    {
      seq(endPointArray.Length, i requires 0 <= i < endPointArray.Length && Valid() reads this, endPointArray =>
        RecordOfSlot(endPointArray[i]))
    }

    ghost function Value(): Node
      requires Valid()
      reads this, endPointArray
    {
      Node(Head(microVersion, minorVersion, majorVersion, nodeUID, endPointCount, mgmtPort, configPort),
           Endpoints(), serverValid, serverObjID, debugAddr.port, eventAddr.port)
    }

    constructor (uid: Uid16, major: byte, minor: byte, micro: u16)
      ensures Valid() && fresh(endPointArray)
      ensures Value() == Node(Head(micro, minor, major, uid, 0, 0, 0), [], false, 0, 0, 0)
      ensures debugAddr == eventAddr == NO_ADDR && debugPktSeqCnt == 0 && forall k :: 0 <= k < 128 ==> hostAddr[k] == 0
    {
      majorVersion, minorVersion, microVersion, nodeUID := major, minor, micro, uid;
      endPointCount, mgmtPort, configPort, hostAddr := 0, 0, 0, seq(128, _ => 0);
      endPointArray := new Slot[0];
      debugAddr, debugPktSeqCnt, eventAddr, serverValid, serverObjID := NO_ADDR, 0, NO_ADDR, false, 0;
      new;
      assert Endpoints() == [];
    }

    method SetEndpointCount(count: u16)
      requires Valid()
      modifies this`endPointCount, this`endPointArray
      ensures Valid() && fresh(endPointArray) && NodeOk(Value())
      ensures Value() == old(Value()).(head := old(Value()).head.(endPointCount := count),
                                       endpoints := seq(count, _ => EndpointRecord(0, 0, 0, 0, 0, [])))
    {
      endPointCount := count;
      endPointArray := new Slot[count](_ => BLANK_SLOT);
      assert RecordOfSlot(BLANK_SLOT) == EndpointRecord(0, 0, 0, 0, 0, []);
      assert Endpoints() == seq(count, _ => EndpointRecord(0, 0, 0, 0, 0, []));
    }

    /** The entry gets what fits of the mime type, but the length of all of it. */
    method SetEndpoint(index: u16, assoc: u16, mime: Bytes, port: u16, major: byte, minor: byte, micro: u16)
      requires TableOk() && index < endPointCount
      modifies endPointArray
      ensures TableOk()
      ensures endPointArray[..] ==
              old(endPointArray[..])[index := Slot(|mime| % 0x1_0000,
                Strlcpy(old(endPointArray[index]).mimeTypeStr, mime),
                                                   port, assoc, major, minor, micro)]
      ensures old(Valid()) && |mime| < 128 ==>
              && Valid()
              && Value().endpoints ==
                 old(Value()).endpoints[index := EndpointRecord(port, micro, minor, major, assoc, mime)]
    {
      var buffer := Strlcpy(endPointArray[index].mimeTypeStr, mime);
      assert |mime| < 128 ==> buffer[..|mime|] == mime;
      endPointArray[index] := Slot(|mime| % 0x1_0000, buffer, port, assoc, major, minor, micro);
    }

    method WriteHead(reply: Packet)
      requires Valid() && reply.Valid() && reply.curOffset == reply.dataLength
      modifies reply
      ensures reply.Valid() && reply.Contents() == old(reply.Contents()) + HeadFields(Value().head, hostAddr)
    {
      ghost var log := reply.Contents();
      reply.SetShort(microVersion);
      reply.SetChar(minorVersion);
      reply.SetChar(majorVersion);
      reply.SetBytes(nodeUID);
      ghost var half := reply.Contents();
      reply.SetUint(endPointCount);
      reply.SetShort(mgmtPort);
      reply.SetShort(configPort);
      reply.SetUint(0);
      reply.SetUint(0);
      reply.SetBytes(hostAddr);
      ghost var rest := U32Bytes(endPointCount) + (U16Bytes(mgmtPort)
        + (U16Bytes(configPort) + (U32Bytes(0) + (U32Bytes(0) + hostAddr))));
      Chain6(half, U32Bytes(endPointCount), U16Bytes(mgmtPort), U16Bytes(configPort), U32Bytes(0), U32Bytes(0),
        hostAddr);
      Chain5(log, U16Bytes(microVersion), [minorVersion], [majorVersion], nodeUID, rest);
    }

    /** The two reserved bytes are whatever the buffer held. */
    method SkipReserved(reply: Packet) returns (ghost reserved: Reserved)
      requires reply.Valid() && reply.curOffset == reply.dataLength && reply.dataLength + 2 <= |reply.data|
      modifies reply`curOffset, reply`dataLength
      ensures reply.Valid() && reply.curOffset == reply.dataLength
      ensures reply.Contents() == old(reply.Contents()) + reserved
    {
      reserved := reply.data[reply.curOffset..reply.curOffset + 2];
      reply.SkipBytes(2);
    }

    method WriteEndpoint(reply: Packet, slot: Slot) returns (ghost reserved: Reserved)
      requires reply.Valid() && reply.curOffset == reply.dataLength == 12 && slot.mimeTypeLength < 128
      modifies reply
      ensures reply.Valid()
      ensures reply.Contents() == old(reply.Contents()) + EndpointFields(RecordOfSlot(slot), reserved, slot.mimeTypeStr)
    {
      ghost var log := reply.Contents();
      reply.SetShort(slot.port);
      reserved := SkipReserved(reply);
      ghost var half := reply.Contents();
      reply.SetShort(slot.micro);
      reply.SetChar(slot.minor);
      reply.SetChar(slot.major);
      reply.SetUint(slot.assoc);
      reply.SetUint(slot.mimeTypeLength);
      reply.SetBytes(slot.mimeTypeStr);
      ghost var rest := U16Bytes(slot.micro) + ([slot.minor] + ([slot.major] +
        (U32Bytes(slot.assoc) + (U32Bytes(slot.mimeTypeLength) + slot.mimeTypeStr))));
      Chain6(half, U16Bytes(slot.micro), [slot.minor], [slot.major], U32Bytes(slot.assoc),
        U32Bytes(slot.mimeTypeLength), slot.mimeTypeStr);
      Assoc(log + U16Bytes(slot.port), reserved, rest);
      Assoc(log, U16Bytes(slot.port), reserved + rest);
    }

    method ReceiveSysInfo(packet: Packet, from: SockAddr, ghost q: Request)
      requires Valid() && packet.Valid() && packet.curOffset == 8 && RequestAt(packet.data, q) && q.SysInfoReq?
      modifies this, packet`curOffset
      ensures Valid() && endPointArray == old(endPointArray)
      ensures Value() == Answer(old(Value()), q).0
      ensures debugAddr == SockAddr(from.ip, q.debugPort) && eventAddr == SockAddr(from.ip, q.eventPort)
      ensures debugPktSeqCnt == old(debugPktSeqCnt) && hostAddr == old(hostAddr)
    {
      var tmpTime := packet.GetChar();
      tmpTime := packet.GetChar();
      tmpTime := packet.GetChar();
      tmpTime := packet.GetChar();
      var debugPort := packet.GetShort();
      var eventPort := packet.GetShort();
      var objID := packet.GetUint();
      debugAddr := from.(port := debugPort);
      eventAddr := from.(port := eventPort);
      serverObjID := objID;
      serverValid := true;
    }

    method AnswerPInfo(reply: Packet, tag: u32)
      requires Valid() && reply.Valid() && reply.curOffset == reply.dataLength == 0
      modifies reply
      ensures reply.Valid() && ReplyAt(reply.Contents(), PInfoRpy(tag, Value().head))
    {
      reply.SetUint(HNPKT_PINFO_RPY);
      reply.SetUint(tag);
      WriteHead(reply);
      Assoc(U32Bytes(HNPKT_PINFO_RPY), U32Bytes(tag), HeadFields(Value().head, hostAddr));
      ReplyRead(reply.Contents(), PInfoRpy(tag, Value().head), [0, 0], hostAddr);
    }

    method AnswerEPInfo(reply: Packet, tag: u32, index: u32)
      requires Valid() && reply.Valid() && reply.curOffset == reply.dataLength == 0 && index < endPointCount
      modifies reply
      ensures reply.Valid() && ReplyAt(reply.Contents(), EPInfoRpy(tag, index, Endpoints()[index]))
    {
      var slot := endPointArray[index];
      reply.SetUint(HNPKT_EPINFO_RPY);
      reply.SetUint(tag);
      reply.SetUint(index);
      ghost var reserved := WriteEndpoint(reply, slot);
      ghost var fields := EndpointFields(RecordOfSlot(slot), reserved, slot.mimeTypeStr);
      Assoc(U32Bytes(HNPKT_EPINFO_RPY) + U32Bytes(tag), U32Bytes(index), fields);
      Assoc(U32Bytes(HNPKT_EPINFO_RPY), U32Bytes(tag), U32Bytes(index) + fields);
      ReplyRead(reply.Contents(), EPInfoRpy(tag, index, RecordOfSlot(slot)), reserved, slot.mimeTypeStr);
    }

    method AnswerSysInfo(reply: Packet, tag: u32)
      requires reply.Valid() && reply.curOffset == reply.dataLength == 0
      modifies reply
      ensures reply.Valid() && ReplyAt(reply.Contents(), SysInfoAck(tag))
    {
      reply.SetUint(HNPKT_SYSINFO_ACK);
      reply.SetUint(tag);
      ReplyRead(reply.Contents(), SysInfoAck(tag), [0, 0], hostAddr);
    }

    /** A request from the address `from`; the reply goes back there and reads as the answer. System information
        makes the node send its frames and events to the ports named in it, at the address the request came from. */
    method HNodeRx(packet: Packet, from: SockAddr, ghost q: Request) returns (reply: Packet)
      requires Valid() && packet.Valid() && packet.curOffset == 0 && RequestAt(packet.data, q)
      requires CanAnswer(Value(), q)
      modifies this, packet`curOffset
      ensures Valid() && endPointArray == old(endPointArray)
      ensures Value() == Answer(old(Value()), q).0
      ensures q.SysInfoReq? ==>
        debugAddr == SockAddr(from.ip, q.debugPort) && eventAddr == SockAddr(from.ip, q.eventPort)
      ensures !q.SysInfoReq? ==> debugAddr == old(debugAddr) && eventAddr == old(eventAddr)
      ensures debugPktSeqCnt == old(debugPktSeqCnt) && hostAddr == old(hostAddr)
      ensures fresh(reply) && reply.Valid() && ReplyAt(reply.Contents(), Answer(old(Value()), q).1)
    {
      var pktType := packet.GetUint();
      var reqTag := packet.GetUint();
      reply := new Packet();
      if pktType == HNPKT_PINFO_REQ {
        AnswerPInfo(reply, reqTag);
      } else if pktType == HNPKT_EPINFO_REQ {
        var reqEPIndex := packet.GetUint();
        AnswerEPInfo(reply, reqTag, reqEPIndex);
      } else {
        ReceiveSysInfo(packet, from, q);
        AnswerSysInfo(reply, reqTag);
      }
    }

    /** A frame for the claiming server, if there is one; type, endpoint and length are cut to sixteen bits, and the
        sequence count wraps there. */
    method SendDebugFrame(kind: u32, epIndex: u32, data: Bytes) returns (packet: Packet?)
      modifies this`debugPktSeqCnt
      ensures packet == null <==> !serverValid
      ensures debugPktSeqCnt == if serverValid then (old(debugPktSeqCnt) + 1) % 0x1_0000 else old(debugPktSeqCnt)
      ensures packet != null ==> fresh(packet) && packet.Valid()
      ensures packet != null ==>
        packet.Contents() ==
        NodeDebugBytes(DebugFrame(kind % 0x1_0000, old(debugPktSeqCnt), serverObjID, epIndex % 0x1_0000, data))
    {
      if !serverValid { return null; }
      var shortKind: u16, shortIndex: u16 := kind % 0x1_0000, epIndex % 0x1_0000;
      packet := new Packet();
      packet.SetShort(shortKind);
      packet.SetShort(debugPktSeqCnt);
      ghost var seqCnt := debugPktSeqCnt;
      debugPktSeqCnt := (debugPktSeqCnt + 1) % 0x1_0000;
      packet.SetUint(serverObjID);
      packet.SetShort(shortIndex);
      var shortLength: u16 := |data| % 0x1_0000;
      packet.SetShort(shortLength);
      packet.SetBytes(data);
      Chain6([], U16Bytes(shortKind), U16Bytes(seqCnt), U32Bytes(serverObjID), U16Bytes(shortIndex),
        U16Bytes(shortLength), data);
    }
  }
}
