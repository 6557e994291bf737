// A server-side provider (src/hnode-provider.c) and the node it stands for (src/hnode-nodeobj.c), as values.
// UdpCodec gives the bytes of their messages.
//
// A GObject signal is always the last thing a provider function does, so it is modelled as a returned value
// that the caller acts on before anything else happens.

module Provider {
  import opened Basics
  import opened NodeCodec

  // ---- messages ----

  datatype Request =
    | PInfoReq(tag: nat)
    | EPInfoReq(tag: nat, index: nat)
    | SysInfoReq(tag: nat, debugPort: u16, eventPort: u16, serverObjID: nat)

  /** What a node says about itself before its endpoints. */
  datatype Head = Head(micro: u16, minor: byte, major: byte, uid: Uid16, endPointCount: nat, mgmtPort: u16,
    configPort: u16)

  datatype Reply =
    | PInfoRpy(tag: nat, head: Head)
    | EPInfoRpy(tag: nat, index: nat, record: EndpointRecord)
    | SysInfoAck(tag: nat)

  // ---- the provider ----

  datatype TxState =
    | Init | ReqPInfo | WaitPInfoRpy | ReqEPoint | WaitEPointRpy | WaitClaim
    | SendSysInfo | WaitSysInfoAck | Ready

  datatype Endpoint = Endpoint(addr: SockAddr, micro: u16, minor: byte, major: byte, assoc: u16, mime: ShortText)

  datatype Provider = Provider(
    txState: TxState, reqTag: nat, reqEndPoint: nat,
    addr: SockAddr, configPort: u16, configAddr: Option<SockAddr>,
    micro: u16, minor: byte, major: byte, uid: Option<Uid16>, endPoints: seq<Endpoint>,
    debugPort: u16, eventPort: u16, serverObjID: nat)

  const NO_ADDR := SockAddr([0, 0, 0, 0], 0)
  const BLANK_ENDPOINT := Endpoint(NO_ADDR, 0, 0, 0, 0, [])

  /** A provider for a service that was resolved at addr. */
  function NewProvider(addr: SockAddr): Provider {
    Provider(Init, 0, 0, addr, 0, None, 0, 0, 0, None, [], 0, 0, 0)
  }

  datatype Signal = Quiet | TxRequest | InfoComplete | NowReady

  function Start(p: Provider): (Provider, Signal) {
    (p.(txState := ReqPInfo), TxRequest)
  }

  function Claim(p: Provider, serverObjID: nat, debugPort: u16, eventPort: u16): (Provider, Signal) {
    if p.txState != WaitClaim then (p, Quiet)
    else (p.(debugPort := debugPort, eventPort := eventPort, serverObjID := serverObjID, txState := SendSysInfo),
      TxRequest)
  }

  function GenerateTxRequest(p: Provider): (Provider, Option<Request>) {
    match p.txState
    case ReqPInfo => (p.(txState := WaitPInfoRpy), Some(PInfoReq(p.reqTag)))
    case ReqEPoint => (p.(txState := WaitEPointRpy), Some(EPInfoReq(p.reqTag, p.reqEndPoint)))
    case SendSysInfo =>
      (p.(txState := WaitSysInfoAck), Some(SysInfoReq(p.reqTag, p.debugPort, p.eventPort, p.serverObjID)))
    case _ => (p, None)
  }

  /** The configuration address: the node's own, with the configuration port, whenever that is known. */
  function ConfigAddr(addr: SockAddr, configPort: u16): Option<SockAddr> {
    if configPort == 0 then None else Some(addr.(port := configPort))
  }

  function EndpointOf(addr: SockAddr, r: EndpointRecord): Endpoint {
    Endpoint(addr.(port := r.port), r.micro, r.minor, r.major, r.assoc, r.mime)
  }

  function AcceptHead(p: Provider, h: Head): Provider {
    p.(micro := h.micro, minor := h.minor, major := h.major, uid := Some(h.uid),
       endPoints := seq(h.endPointCount, _ => BLANK_ENDPOINT),
       configPort := h.configPort, configAddr := ConfigAddr(p.addr, h.configPort),
       reqTag := p.reqTag + 1, reqEndPoint := 0, txState := ReqEPoint)
  }

  function AcceptEndpoint(p: Provider, r: EndpointRecord): (Provider, Signal)
    requires p.reqEndPoint < |p.endPoints|
  {
    var q := p.(endPoints := p.endPoints[p.reqEndPoint := EndpointOf(p.addr, r)],
                reqTag := p.reqTag + 1, reqEndPoint := p.reqEndPoint + 1);
    if q.reqEndPoint < |q.endPoints| then (q.(txState := ReqEPoint), TxRequest)
    else (q.(txState := WaitClaim), InfoComplete)
  }

  /** The array access of the endpoint case is only defined inside the array. */
  predicate CanProcess(p: Provider, r: Reply) {
    (p.txState == WaitEPointRpy && r.EPInfoRpy? && r.tag == p.reqTag && r.index == p.reqEndPoint) ==>
      p.reqEndPoint < |p.endPoints|
  }

  /** While waiting for the acknowledgement any packet from the node's address will do. */
  function ProcessRxReply(p: Provider, r: Reply): (Provider, Signal)
    requires CanProcess(p, r)
  {
    match p.txState
    case WaitPInfoRpy =>
      if r.PInfoRpy? && r.tag == p.reqTag then (AcceptHead(p, r.head), TxRequest) else (p, Quiet)
    case WaitEPointRpy =>
      if r.EPInfoRpy? && r.tag == p.reqTag && r.index == p.reqEndPoint then AcceptEndpoint(p, r.record) else (p, Quiet)
    case WaitSysInfoAck => (p.(reqTag := p.reqTag + 1, txState := Ready), NowReady)
    case _ => (p, Quiet)
  }

  /** Outside the acknowledgement wait, a reply has an effect exactly when its type, tag and index are the
      ones asked for; any other reply leaves the provider as it was. */
  lemma OnlyTheAskedReplyCounts(p: Provider, r: Reply)
    requires CanProcess(p, r) && p.txState != WaitSysInfoAck
    ensures ProcessRxReply(p, r) == (p, Quiet) <==>
            !(p.txState == WaitPInfoRpy && r.PInfoRpy? && r.tag == p.reqTag) &&
            !(p.txState == WaitEPointRpy && r.EPInfoRpy? && r.tag == p.reqTag && r.index == p.reqEndPoint)
  {
    if p.txState == WaitPInfoRpy && r.PInfoRpy? && r.tag == p.reqTag {
      assert ProcessRxReply(p, r).0.reqTag != p.reqTag;
    }
    if p.txState == WaitEPointRpy && r.EPInfoRpy? && r.tag == p.reqTag && r.index == p.reqEndPoint {
      assert ProcessRxReply(p, r).0.reqTag != p.reqTag;
    }
  }

  // ---- the node ----

  datatype Node = Node(head: Head, endpoints: seq<EndpointRecord>,
                       serverValid: bool, serverObjID: nat, debugPort: u16, eventPort: u16)

  /** A node whose head announces the endpoints it has. */
  predicate NodeOk(n: Node) {
    n.head.endPointCount == |n.endpoints|
  }

  /** The node indexes its endpoint array with the requested index unchecked. */
  predicate CanAnswer(n: Node, q: Request) {
    q.EPInfoReq? ==> q.index < |n.endpoints|
  }

  function Answer(n: Node, q: Request): (Node, Reply)
    requires CanAnswer(n, q)
  {
    match q
    case PInfoReq(tag) => (n, PInfoRpy(tag, n.head))
    case EPInfoReq(tag, i) => (n, EPInfoRpy(tag, i, n.endpoints[i]))
    case SysInfoReq(tag, dbg, evt, id) =>
      (n.(debugPort := dbg, eventPort := evt, serverObjID := id, serverValid := true), SysInfoAck(tag))
  }

  // ---- agreement of a provider with its node ----

  /** r is something this node may have said at some time. */
  predicate Authentic(n: Node, r: Reply) {
    match r
    case PInfoRpy(_, h) => h == n.head
    case EPInfoRpy(_, i, e) => i < |n.endpoints| && e == n.endpoints[i]
    case SysInfoAck(_) => true
  }

  ghost predicate HeadAgrees(p: Provider, n: Node) {
    && p.micro == n.head.micro && p.minor == n.head.minor && p.major == n.head.major
    && p.uid == Some(n.head.uid) && p.configPort == n.head.configPort
    && p.configAddr == ConfigAddr(p.addr, p.configPort)
    && |p.endPoints| == |n.endpoints|
  }

  /** The first k endpoint records are the node's own. */
  ghost predicate EndpointsAgree(p: Provider, n: Node, k: nat) {
    && k <= |p.endPoints| == |n.endpoints|
    && forall i :: 0 <= i < k ==> p.endPoints[i] == EndpointOf(p.addr, n.endpoints[i])
  }

  /** Version, UID, endpoint count and every endpoint record equal the node's own. */
  ghost predicate Agrees(p: Provider, n: Node) {
    HeadAgrees(p, n) && EndpointsAgree(p, n, |p.endPoints|)
  }

  ghost predicate Sound(p: Provider, n: Node) {
    match p.txState
    case Init => true
    case ReqPInfo => true
    case WaitPInfoRpy => true
    case ReqEPoint => HeadAgrees(p, n) && EndpointsAgree(p, n, p.reqEndPoint) && p.reqEndPoint < |p.endPoints|
    case WaitEPointRpy => HeadAgrees(p, n) && EndpointsAgree(p, n, p.reqEndPoint) && p.reqEndPoint < |p.endPoints|
    case _ => Agrees(p, n)
  }

  lemma SoundReply(p: Provider, n: Node, r: Reply)
    requires Sound(p, n) && Authentic(n, r) && NodeOk(n) && n.endpoints != []
    ensures CanProcess(p, r) && Sound(ProcessRxReply(p, r).0, n)
    ensures ProcessRxReply(p, r).1 == InfoComplete ==>
            ProcessRxReply(p, r).0.txState == WaitClaim && Agrees(ProcessRxReply(p, r).0, n)
  {
  }

  lemma SoundRequest(p: Provider, n: Node)
    requires Sound(p, n)
    ensures Sound(GenerateTxRequest(p).0, n)
    ensures GenerateTxRequest(p).1.Some? ==> CanAnswer(n, GenerateTxRequest(p).1.value)
  {
  }

  lemma AnswerIsAuthentic(n: Node, q: Request)
    requires CanAnswer(n, q)
    ensures Authentic(n, Answer(n, q).1)
    ensures Answer(n, q).0.head == n.head && Answer(n, q).0.endpoints == n.endpoints
  {
  }

  /** What a provider holds of a node, field by field: the endpoints and the configuration interface are at the
      provider's own IP, each at the port the node announces for it. */
  ghost predicate Describes(p: Provider, n: Node) {
    && p.micro == n.head.micro && p.minor == n.head.minor && p.major == n.head.major && p.uid == Some(n.head.uid)
    && p.configPort == n.head.configPort
    && p.configAddr == (if n.head.configPort == 0 then None else Some(SockAddr(p.addr.ip, n.head.configPort)))
    && |p.endPoints| == |n.endpoints|
    && forall i :: 0 <= i < |n.endpoints| ==>
      && p.endPoints[i].addr == SockAddr(p.addr.ip, n.endpoints[i].port)
      && p.endPoints[i].micro == n.endpoints[i].micro && p.endPoints[i].minor == n.endpoints[i].minor
      && p.endPoints[i].major == n.endpoints[i].major && p.endPoints[i].assoc == n.endpoints[i].assoc
      && p.endPoints[i].mime == n.endpoints[i].mime
  }

  /** A provider that agrees with its node holds exactly what the node announces. */
  lemma AgreeingDescribes(p: Provider, n: Node)
    ensures Agrees(p, n) <==> Describes(p, n)
  {
    if Describes(p, n) {
      forall i | 0 <= i < |p.endPoints| ensures p.endPoints[i] == EndpointOf(p.addr, n.endpoints[i]) {
        assert p.endPoints[i].addr == SockAddr(p.addr.ip, n.endpoints[i].port);
      }
    }
  }
}
