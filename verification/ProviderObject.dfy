// The provider object of src/hnode-provider.c, updated in place and working on packets. Its methods are proved
// to have the effect that Provider's and ClientUpdate's functions give them.

module ProviderObject {
  import opened Basics
  import opened NodeCodec
  import opened PacketBuffer
  import opened UdpCodec
  import opened ClientUpdate
  import opened P = Provider
  import A = Address

  class HNodeProvider {
    var txState: TxState
    var reqTag: nat
    var reqEndPoint: nat
    var addr: SockAddr
    var configPort: u16
    var configAddr: Option<SockAddr>
    var micro: u16
    var minor: byte
    var major: byte
    var uid: Option<Uid16>
    var endPoints: seq<Endpoint>
    var debugPort: u16
    var eventPort: u16
    var serverObjID: nat

    function Value(): P.Provider
      reads this
    {
      P.Provider(txState, reqTag, reqEndPoint, addr, configPort, configAddr, micro, minor, major, uid, endPoints,
                 debugPort, eventPort, serverObjID)
    }

    constructor (addr: SockAddr)
      ensures Value() == NewProvider(addr)
    {
      txState, reqTag, reqEndPoint := Init, 0, 0;
      this.addr, configPort, configAddr := addr, 0, None;
      micro, minor, major, uid, endPoints := 0, 0, 0, None, [];
      debugPort, eventPort, serverObjID := 0, 0, 0;
    }

    method Start() returns (signal: Signal)
      modifies this
      ensures (Value(), signal) == P.Start(old(Value()))
    {
      txState := ReqPInfo;
      signal := TxRequest;
    }

    method Claim(objID: nat, debug: u16, event: u16) returns (signal: Signal)
      modifies this
      ensures (Value(), signal) == P.Claim(old(Value()), objID, debug, event)
    {
      if txState != WaitClaim { return Quiet; }
      debugPort, eventPort, serverObjID := debug, event, objID;
      txState := SendSysInfo;
      signal := TxRequest;
    }

    method IsReady() returns (ready: bool)
      ensures ready <==> Value().txState == Ready
    {
      ready := txState == Ready;
    }

    method ClaimRxPacket(from: SockAddr) returns (mine: bool)
      ensures mine <==> Value().addr == from
    {
      mine := addr == from;
    }

    // ---- requests ----

    method WriteSysInfo(packet: Packet, clock: Clock)
      requires packet.Valid() && packet.curOffset == packet.dataLength == 0
      requires reqTag < WORD && serverObjID < WORD
      modifies packet
      ensures packet.Valid()
      ensures packet.Contents() == RequestBytes(SysInfoReq(reqTag, debugPort, eventPort, serverObjID), clock)
    {
      packet.SetUint(HNPKT_SYSINFO_REQ);
      packet.SetUint(reqTag);
      packet.SetChar(clock[0]);
      packet.SetChar(clock[1]);
      packet.SetChar(clock[2]);
      packet.SetChar(clock[3]);
      ghost var log := U32Bytes(HNPKT_SYSINFO_REQ) + U32Bytes(reqTag);
      assert packet.Contents() == log + clock;
      packet.SetShort(debugPort);
      packet.SetShort(eventPort);
      packet.SetUint(serverObjID);
      ghost var ports := U16Bytes(debugPort) + (U16Bytes(eventPort) + U32Bytes(serverObjID));
      Assoc(log + clock + U16Bytes(debugPort), U16Bytes(eventPort), U32Bytes(serverObjID));
      Assoc(log + clock, U16Bytes(debugPort), U16Bytes(eventPort) + U32Bytes(serverObjID));
      Assoc(log, clock, ports);
      Assoc(U32Bytes(HNPKT_SYSINFO_REQ), U32Bytes(reqTag), clock + ports);
    }

    /** The clock bytes are read by the caller; the packet is a new one. */
    method GenerateTxRequest(packet: Packet, clock: Clock)
      requires packet.Valid() && packet.curOffset == packet.dataLength == 0
      requires reqTag < WORD && serverObjID < WORD && reqEndPoint < WORD
      modifies this, packet
      ensures packet.Valid()
      ensures Value() == P.GenerateTxRequest(old(Value())).0
      ensures match P.GenerateTxRequest(old(Value())).1
              case None => packet.Contents() == []
              case Some(q) => packet.Contents() == RequestBytes(q, clock)
    {
      match txState
      case ReqPInfo =>
        packet.Reset();
        packet.SetUint(HNPKT_PINFO_REQ);
        packet.SetUint(reqTag);
        txState := WaitPInfoRpy;
      case ReqEPoint =>
        packet.Reset();
        packet.SetUint(HNPKT_EPINFO_REQ);
        packet.SetUint(reqTag);
        packet.SetUint(reqEndPoint);
        Assoc(U32Bytes(HNPKT_EPINFO_REQ), U32Bytes(reqTag), U32Bytes(reqEndPoint));
        txState := WaitEPointRpy;
      case SendSysInfo =>
        packet.Reset();
        WriteSysInfo(packet, clock);
        txState := WaitSysInfoAck;
      case _ =>
    }

    // ---- replies ----

    method AllocateEndpointArray(count: nat)
      modifies this`endPoints
      ensures endPoints == seq(count, _ => BLANK_ENDPOINT)
    {
      endPoints := [];
      var i := 0;
      while i < count
        invariant i <= count && endPoints == seq(i, _ => BLANK_ENDPOINT)
      {
        endPoints := endPoints + [BLANK_ENDPOINT];
        i := i + 1;
      }
    }

    /** g_hnode_provider_update_config_addr. */
    method UpdateConfigAddr()
      modifies this`configAddr
      ensures configAddr == ConfigAddr(addr, configPort)
    {
      configAddr := None;
      if configPort != 0 { configAddr := Some(addr.(port := configPort)); }
    }

    /** The version and UID fields, which replies and reports lay out alike. */
    method ReadIdentity(packet: Packet)
      requires packet.Valid() && packet.curOffset + 20 <= |packet.data|
      modifies this`micro, this`minor, this`major, this`uid, packet`curOffset
      ensures packet.Valid() && packet.curOffset == old(packet.curOffset) + 20
      ensures micro == U16At(packet.data, old(packet.curOffset)) && minor == packet.data[old(packet.curOffset) + 2]
      ensures major == packet.data[old(packet.curOffset) + 3]
      ensures uid == Some(packet.data[old(packet.curOffset) + 4..old(packet.curOffset) + 20])
    {
      micro := packet.GetShort();
      minor := packet.GetChar();
      major := packet.GetChar();
      var tmpUID := packet.GetBytes(16);
      uid := Some(tmpUID);
    }

    method ReadHead(packet: Packet, ghost h: Head) returns (count: nat)
      requires packet.Valid() && HeadAt(packet.data, packet.curOffset, h)
      modifies this`micro, this`minor, this`major, this`uid, this`configPort, packet`curOffset
      ensures micro == h.micro && minor == h.minor && major == h.major && uid == Some(h.uid)
      ensures configPort == h.configPort && count == h.endPointCount
    {
      ReadIdentity(packet);
      count := packet.GetUint();
      var mgmtPort := packet.GetShort();
      configPort := packet.GetShort();
      var hostAddrType := packet.GetUint();
      var hostAddrLength := packet.GetUint();
      var hostAddr := packet.GetBytes(hostAddrLength);
    }

    method ParseEndpointReply(packet: Packet, ghost r: EndpointRecord) returns (e: Endpoint)
      requires packet.Valid() && EndpointAt(packet.data, packet.curOffset, r)
      modifies packet`curOffset, packet`dataLength
      ensures e == EndpointOf(addr, r) && e.addr == SockAddr(addr.ip, r.port)
    {
      ghost var s, at := packet.data, packet.curOffset;
      var port := packet.GetShort();
      packet.SkipBytes(2);
      var epMicro := packet.GetShort();
      var epMinor := packet.GetChar();
      var epMajor := packet.GetChar();
      var assoc := packet.GetUint();
      var length := packet.GetUint();
      var mime := packet.GetBytes(length % 0x1_0000);
      assert mime == s[at + 16..at + 16 + |r.mime|];
      e := Endpoint(addr.(port := port), epMicro, epMinor, epMajor, assoc % 0x1_0000, mime);
    }

    /** The reply asked for has come: its fields are stored and the first endpoint is next. */
    method AcceptHead(packet: Packet, ghost h: Head)
      requires packet.Valid() && HeadAt(packet.data, packet.curOffset, h)
      modifies this, packet`curOffset
      ensures Value() == P.AcceptHead(old(Value()), h)
    {
      var count := ReadHead(packet, h);
      AllocateEndpointArray(count);
      UpdateConfigAddr();
      reqTag := reqTag + 1;
      reqEndPoint := 0;
      txState := ReqEPoint;
    }

    method ReceiveHead(packet: Packet, ghost r: Reply) returns (signal: Signal)
      requires packet.Valid() && packet.curOffset == 0 && ReplyAt(packet.data, r)
      requires txState == WaitPInfoRpy
      modifies this, packet`curOffset
      ensures (Value(), signal) == P.ProcessRxReply(old(Value()), r)
    {
      var packetType := packet.GetUint();
      var packetTag := packet.GetUint();
      if packetType != HNPKT_PINFO_RPY { return Quiet; }
      if packetTag != reqTag { return Quiet; }
      AcceptHead(packet, r.head);
      signal := TxRequest;
    }

    method AcceptEndpoint(packet: Packet, ghost r: EndpointRecord) returns (signal: Signal)
      requires packet.Valid() && EndpointAt(packet.data, packet.curOffset, r) && reqEndPoint < |endPoints|
      modifies this, packet`curOffset, packet`dataLength
      ensures (Value(), signal) == P.AcceptEndpoint(old(Value()), r)
    {
      var e := ParseEndpointReply(packet, r);
      endPoints := endPoints[reqEndPoint := e];
      reqTag := reqTag + 1;
      reqEndPoint := reqEndPoint + 1;
      if reqEndPoint < |endPoints| {
        txState := ReqEPoint;
        signal := TxRequest;
      } else {
        txState := WaitClaim;
        signal := InfoComplete;
      }
    }

    method ReceiveEndpoint(packet: Packet, ghost r: Reply) returns (signal: Signal)
      requires packet.Valid() && packet.curOffset == 0 && |packet.data| >= 12 && ReplyAt(packet.data, r)
      requires txState == WaitEPointRpy && CanProcess(Value(), r)
      modifies this, packet`curOffset, packet`dataLength
      ensures (Value(), signal) == P.ProcessRxReply(old(Value()), r)
    {
      var packetType := packet.GetUint();
      var packetTag := packet.GetUint();
      var packetEPIndex := packet.GetUint();
      if packetType != HNPKT_EPINFO_RPY { return Quiet; }
      if packetTag != reqTag { return Quiet; }
      if packetEPIndex != reqEndPoint { return Quiet; }
      signal := AcceptEndpoint(packet, r.record);
    }

    /** A datagram that carries reply r, in the buffer it was received into. */
    method ProcessRxReply(packet: Packet, ghost r: Reply) returns (signal: Signal)
      requires packet.Valid() && packet.curOffset == 0 && |packet.data| >= 1500 && ReplyAt(packet.data, r)
      requires CanProcess(Value(), r)
      modifies this, packet`curOffset, packet`dataLength
      ensures (Value(), signal) == P.ProcessRxReply(old(Value()), r)
    {
      match txState
      case WaitPInfoRpy => signal := ReceiveHead(packet, r);
      case WaitEPointRpy => signal := ReceiveEndpoint(packet, r);
      case WaitSysInfoAck =>
        reqTag := reqTag + 1;
        txState := Ready;
        signal := NowReady;
      case _ => signal := Quiet;
    }

    // ---- reports ----

    method BuildEndpointUpdate(packet: Packet, e: Endpoint)
      requires packet.Valid() && packet.curOffset == packet.dataLength
      modifies packet
      ensures packet.Valid() && packet.curOffset == packet.dataLength
      ensures packet.Contents() == old(packet.Contents()) + EndpointBytes(EndpointRecordOf(e))
    {
      ghost var log := packet.Contents();
      packet.SetShort(e.addr.port);
      packet.SetShort(e.micro);
      packet.SetChar(e.minor);
      packet.SetChar(e.major);
      packet.SetUint(e.assoc);
      packet.SetUint(|e.mime|);
      packet.SetBytes(e.mime);
      Chain7(log, U16Bytes(e.addr.port), U16Bytes(e.micro), [e.minor], [e.major], U32Bytes(e.assoc),
        U32Bytes(|e.mime|), e.mime);
    }

    /** The fixed part of the report. */
    method BuildHead(packet: Packet, addrStr: ShortText)
      requires packet.Valid() && packet.curOffset == packet.dataLength
      requires Reportable(Value()) && addrStr == AddrText(addr)
      modifies packet
      ensures packet.Valid() && packet.curOffset == packet.dataLength
      ensures packet.Contents() == old(packet.Contents()) + HeadBytes(RecordOf(Value()))
    {
      ghost var log := packet.Contents();
      packet.SetUint(serverObjID);
      packet.SetShort(addr.port);
      packet.SetShort(configPort);
      packet.SetShort(micro);
      packet.SetChar(minor);
      ghost var half := packet.Contents();
      packet.SetChar(major);
      packet.SetBytes(uid.value);
      packet.SetUint(|endPoints|);
      packet.SetUint(0);
      packet.SetUint(|addrStr|);
      ghost var rest := [major] + (uid.value + (U32Bytes(|endPoints|) + (U32Bytes(0) + U32Bytes(|addrStr|))));
      Chain5(half, [major], uid.value, U32Bytes(|endPoints|), U32Bytes(0), U32Bytes(|addrStr|));
      Chain6(log, U32Bytes(serverObjID), U16Bytes(addr.port), U16Bytes(configPort), U16Bytes(micro), [minor], rest);
    }

    method BuildClientUpdate(packet: Packet)
      requires packet.Valid() && packet.curOffset == packet.dataLength && Reportable(Value())
      modifies packet
      ensures packet.Valid() && packet.curOffset == packet.dataLength
      ensures packet.Contents() == old(packet.Contents()) + ProviderBytes(RecordOf(Value()))
    {
      ghost var log, record := packet.Contents(), RecordOf(Value());
      ghost var head, rest := HeadBytes(record), EndpointsBytes(record.endpoints);
      var addrStr := AddrText(addr);
      BuildHead(packet, addrStr);
      packet.SetBytes(addrStr);
      Assoc(log + head, addrStr, rest);
      Assoc(log, head, addrStr + rest);
      assert record.endpoints[0..] == record.endpoints;
      var i := 0;
      while i < |endPoints|
        invariant i <= |endPoints| && packet.Valid() && packet.curOffset == packet.dataLength
        invariant packet.Contents() + EndpointsBytes(record.endpoints[i..]) == log + ProviderBytes(record)
      {
        ghost var before := packet.Contents();
        BuildEndpointUpdate(packet, endPoints[i]);
        assert record.endpoints[i..][1..] == record.endpoints[i + 1..];
        Assoc(before, EndpointBytes(record.endpoints[i]), EndpointsBytes(record.endpoints[i + 1..]));
        i := i + 1;
      }
      assert packet.Contents() + [] == packet.Contents();
    }

    // ---- the browser's copy ----

    method ParseEndpointUpdate(packet: Packet, ghost r: EndpointRecord) returns (e: Endpoint)
      requires packet.Valid() && ReadEndpoint(packet.data, packet.curOffset).Got?
      requires ReadEndpoint(packet.data, packet.curOffset).value == r
      modifies packet`curOffset
      ensures packet.Valid() && packet.curOffset == ReadEndpoint(old(packet.data), old(packet.curOffset)).next
      ensures e == EndpointOf(addr, r) && e.addr == SockAddr(addr.ip, r.port)
    {
      ghost var s, at := packet.data, packet.curOffset;
      var port := packet.GetShort();
      var epMicro := packet.GetShort();
      var epMinor := packet.GetChar();
      var epMajor := packet.GetChar();
      var assoc := packet.GetUint();
      var length := packet.GetUint();
      var mime := packet.GetBytes(length % 0x1_0000);
      assert mime == s[at + 14..at + 14 + |r.mime|];
      e := Endpoint(addr.(port := port), epMicro, epMinor, epMajor, assoc % 0x1_0000, mime);
    }

    /** g_hnode_provider_set_address. */
    method SetAddress(text: string)
      modifies this`addr, this`configAddr
      ensures addr == AddressOf(text) && configAddr == ConfigAddr(addr, configPort)
    {
      var target := new A.AddressObject();
      target.SetAddressStr(text);
      addr := SockAddr(target.ip, target.port);
      UpdateConfigAddr();
    }

    method ParseHead(packet: Packet, ghost r: ProviderRecord) returns (count: nat, length: nat)
      requires packet.Valid() && HeadMatches(packet.data, packet.curOffset, r)
      modifies this`serverObjID, this`configPort, this`micro, this`minor, this`major, this`uid, packet`curOffset
      ensures packet.Valid() && packet.curOffset == old(packet.curOffset) + 40
      ensures serverObjID == r.serverObjID && configPort == r.configPort && uid == Some(r.uid)
      ensures micro == r.micro && minor == r.minor && major == r.major
      ensures count == |r.endpoints| && length == |r.addrStr|
    {
      serverObjID := packet.GetUint();
      var port := packet.GetShort();
      configPort := packet.GetShort();
      ReadIdentity(packet);
      count := packet.GetUint();
      var addrType := packet.GetUint();
      length := packet.GetUint();
    }

    method ReadText(packet: Packet, length: nat, ghost text: Bytes) returns (bs: Bytes)
      requires packet.Valid() && length == |text| && Has(packet.data, packet.curOffset, text)
      modifies packet`curOffset
      ensures packet.Valid() && packet.curOffset == old(packet.curOffset) + |text|
      ensures bs == text
    {
      ghost var s, at := packet.data, packet.curOffset;
      HasSlice(s, at, text);
      bs := packet.GetBytes(length);
      assert bs == s[at..at + length];
    }

    /** Everything but the endpoints. */
    method ParseFront(packet: Packet, ghost r: ProviderRecord) returns (count: nat)
      requires packet.Valid() && HeadMatches(packet.data, packet.curOffset, r)
      requires Has(packet.data, packet.curOffset + 40, r.addrStr)
      modifies this, packet`curOffset
      ensures packet.Valid() && packet.curOffset == old(packet.curOffset) + 40 + |r.addrStr| && count == |r.endpoints|
      ensures Value() == Parsed(old(Value()), r).(endPoints := old(endPoints))
    {
      var length;
      count, length := ParseHead(packet, r);
      var addrStr := ReadText(packet, length, r.addrStr);
      SetAddress(CString(addrStr));
    }

    method ParseEndpoints(packet: Packet, count: nat, ghost rs: seq<EndpointRecord>)
      requires packet.Valid() && |rs| == count && Has(packet.data, packet.curOffset, EndpointsBytes(rs))
      modifies this`endPoints, packet`curOffset
      ensures packet.Valid() && packet.curOffset == old(packet.curOffset) + |EndpointsBytes(rs)|
      ensures endPoints == EndpointsOf(addr, rs)
    {
      AllocateEndpointArray(count);
      var i := 0;
      assert rs[0..] == rs;
      while i < count
        invariant i <= count == |endPoints| && packet.Valid()
        invariant Has(packet.data, packet.curOffset, EndpointsBytes(rs[i..]))
        invariant packet.curOffset + |EndpointsBytes(rs[i..])| == old(packet.curOffset) + |EndpointsBytes(rs)|
        invariant forall k :: 0 <= k < i ==> endPoints[k] == EndpointOf(addr, rs[k])
      {
        assert rs[i..][1..] == rs[i + 1..];
        HasSplit(packet.data, packet.curOffset, EndpointBytes(rs[i]), EndpointsBytes(rs[i + 1..]));
        EndpointRead(packet.data, packet.curOffset, rs[i]);
        var e := ParseEndpointUpdate(packet, rs[i]);
        endPoints := endPoints[i := e];
        i := i + 1;
      }
      assert endPoints == EndpointsOf(addr, rs);
    }

    method ParseBody(packet: Packet, ghost r: ProviderRecord)
      requires packet.Valid() && HeadMatches(packet.data, packet.curOffset, r)
      requires Has(packet.data, packet.curOffset + 40, r.addrStr)
      requires Has(packet.data, packet.curOffset + 40 + |r.addrStr|, EndpointsBytes(r.endpoints))
      modifies this, packet`curOffset
      ensures packet.Valid()
      ensures packet.curOffset == old(packet.curOffset) + 40 + |r.addrStr| + |EndpointsBytes(r.endpoints)|
      ensures Value() == Parsed(old(Value()), r)
    {
      var count := ParseFront(packet, r);
      if count != 0 { ParseEndpoints(packet, count, r.endpoints); }
    }

    method ParseClientUpdate(packet: Packet, ghost r: ProviderRecord)
      requires packet.Valid() && Has(packet.data, packet.curOffset, ProviderBytes(r))
      modifies this, packet`curOffset
      ensures packet.Valid() && packet.curOffset == old(packet.curOffset) + |ProviderBytes(r)|
      ensures Value() == Parsed(old(Value()), r)
    {
      ProviderSplit(packet.data, packet.curOffset, r);
      HasSplit(packet.data, packet.curOffset + 40, r.addrStr, EndpointsBytes(r.endpoints));
      HeadRead(packet.data, packet.curOffset, r);
      ParseBody(packet, r);
    }
  }
}
