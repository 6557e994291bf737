// What a report says about a provider, and the provider a browser makes of it
// (src/hnode-provider.c:342-402 and 771-888, src/hnode-provider-epoint.c:198-251).

module ClientUpdate {
  import opened Basics
  import opened Text
  import opened NodeCodec
  import opened P = Provider
  import A = Address

  /** A C string in a buffer: the characters before the first zero byte. */
  function CString(bs: Bytes): string {
    if bs == [] || bs[0] == 0 then [] else [bs[0] as char] + CString(bs[1..])
  }

  function Ascii(s: string): (bs: Bytes)
    requires forall k :: 0 <= k < |s| ==> s[k] < 128 as char
    ensures |bs| == |s|
  {
    if s == [] then [] else [s[0] as int] + Ascii(s[1..])
  }

  lemma {:induction false} AsciiRead(s: string)
    requires forall k :: 0 <= k < |s| ==> 0 as char < s[k] < 128 as char
    ensures CString(Ascii(s)) == s
  {
    if s != [] { AsciiRead(s[1..]); }
  }

  // ---- the server's side ----

  /** The printed form of an address, as the address object of the provider holds it. */
  function AddrText(a: SockAddr): ShortText {
    A.CreatedIsShortAscii(a.ip, a.port);
    Ascii(A.CreateAddressStr(a.ip, a.port))
  }

  function EndpointRecordOf(e: Endpoint): EndpointRecord {
    EndpointRecord(e.addr.port, e.micro, e.minor, e.major, e.assoc, e.mime)
  }

  function EndpointRecordsOf(es: seq<Endpoint>): (rs: seq<EndpointRecord>)
    ensures |rs| == |es|
    ensures forall k :: 0 <= k < |es| ==> rs[k] == EndpointRecordOf(es[k])
  {
    seq(|es|, k requires 0 <= k < |es| => EndpointRecordOf(es[k]))
  }

  /** A provider that knows its node's UID and whose counters fit their words. */
  predicate Reportable(p: Provider) {
    p.uid.Some? && |p.endPoints| < 0x1_0000_0000 && p.serverObjID < 0x1_0000_0000
  }

  function RecordOf(p: Provider): ProviderRecord
    requires Reportable(p)
  {
    ProviderRecord(p.serverObjID, p.addr.port, p.configPort, p.micro, p.minor, p.major,
                   p.uid.value, AddrText(p.addr), EndpointRecordsOf(p.endPoints))
  }

  // ---- the browser's side ----

  /** The socket address a new address object has after its string has been set. */
  function AddressOf(text: string): SockAddr {
    var a := A.SetStr(A.Addr([0, 0, 0, 0], 0, ""), text);
    SockAddr(a.ip, a.port)
  }

  /** The endpoint objects a parse fills in. */
  function EndpointsOf(addr: SockAddr, rs: seq<EndpointRecord>): (es: seq<Endpoint>)
    ensures |es| == |rs|
    ensures forall k :: 0 <= k < |rs| ==> es[k] == EndpointOf(addr, rs[k])
  {
    seq(|rs|, k requires 0 <= k < |rs| => EndpointOf(addr, rs[k]))
  }

  /** A provider object after it has parsed the record; without endpoints the endpoint array is left alone. */
  function Parsed(p: Provider, r: ProviderRecord): Provider {
    var addr := AddressOf(CString(r.addrStr));
    p.(serverObjID := r.serverObjID, configPort := r.configPort,
       micro := r.micro, minor := r.minor, major := r.major, uid := Some(r.uid),
       addr := addr, configAddr := ConfigAddr(addr, r.configPort),
       endPoints := if |r.endpoints| == 0 then p.endPoints else EndpointsOf(addr, r.endpoints))
  }

  lemma CreatedHasNoZero(a: SockAddr)
    ensures forall k :: 0 <= k < |A.CreateAddressStr(a.ip, a.port)| ==> A.CreateAddressStr(a.ip, a.port)[k] > 0 as char
  {
    A.DottedChars(a.ip);
    DecimalDigits(a.port);
  }

  lemma AddressSurvives(a: SockAddr)
    ensures AddressOf(CString(AddrText(a))) == a
  {
    var s := A.CreateAddressStr(a.ip, a.port);
    A.CreatedIsShortAscii(a.ip, a.port);
    CreatedHasNoZero(a);
    AsciiRead(s);
    A.ResolveCreated(A.Addr([0, 0, 0, 0], 0, ""), a.ip, a.port);
  }

  /** The identity a browser keeps of a node. */
  ghost predicate SameIdentity(p: Provider, q: Provider) {
    && p.serverObjID == q.serverObjID && p.uid == q.uid
    && p.micro == q.micro && p.minor == q.minor && p.major == q.major
    && p.addr == q.addr && p.configPort == q.configPort && p.configAddr == q.configAddr
    && p.endPoints == q.endPoints
  }

  lemma EndpointsSurvive(p: Provider, n: Node)
    requires Agrees(p, n)
    ensures EndpointsOf(p.addr, EndpointRecordsOf(p.endPoints)) == p.endPoints
    ensures EndpointRecordsOf(p.endPoints) == n.endpoints
  {
    var es := EndpointsOf(p.addr, EndpointRecordsOf(p.endPoints));
    forall k | 0 <= k < |p.endPoints| ensures es[k] == p.endPoints[k] {
      assert p.endPoints[k] == EndpointOf(p.addr, n.endpoints[k]);
    }
    assert es == p.endPoints;
    forall k | 0 <= k < |p.endPoints| ensures EndpointRecordsOf(p.endPoints)[k] == n.endpoints[k] {
      assert p.endPoints[k] == EndpointOf(p.addr, n.endpoints[k]);
    }
    assert EndpointRecordsOf(p.endPoints) == n.endpoints;
  }

  /** A provider that agrees with its node is reported with the node's own data, and what the browser makes of
      the report is that provider again: same addresses, ports, version, UID, object ID and endpoints. */
  lemma ReportIsTrue(p: Provider, n: Node, addr: SockAddr)
    requires Reportable(p) && Agrees(p, n)
    ensures var r := RecordOf(p);
            && r.uid == n.head.uid && r.micro == n.head.micro && r.minor == n.head.minor && r.major == n.head.major
            && r.configPort == n.head.configPort && r.endpoints == n.endpoints
            && r.serverObjID == p.serverObjID && r.port == p.addr.port
            && CString(r.addrStr) == "hnode://" + (A.DottedQuad(p.addr.ip) + ":" + Decimal(p.addr.port))
    ensures SameIdentity(Parsed(NewProvider(addr), RecordOf(p)), p)
  {
    AddressSurvives(p.addr);
    A.CreatedIsShortAscii(p.addr.ip, p.addr.port);
    CreatedHasNoZero(p.addr);
    AsciiRead(A.CreateAddressStr(p.addr.ip, p.addr.port));
    EndpointsSurvive(p, n);
  }
}
