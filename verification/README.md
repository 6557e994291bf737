# HNode: a model and its proofs

HNode is a small distributed system. Devices ("hnodes") announce themselves; a management server interrogates and
claims them over UDP and reports them to browsers over TCP. Beside it stands a REST layer. This project models the
code that carries the behaviour and proves what it promises, up to one statement about the whole system: whatever
the network does, the bytes that reach a browser describe the nodes whose providers are READY, all of them once its
link is drained, as the nodes describe themselves. And a node that has been resolved can always get there as long as
none of its datagrams is lost; more exactly, if and only if a datagram that its provider acts on, or the request for
one, is on the network, or its address may be resolved again before its first reply has come or while its
acknowledgement is waited for.

`dafny verify dfyconfig.toml` checks everything.

## How it is laid out

Each part is a value with functions on it, over which the properties are proved for every run, and an object whose
methods, loops included, are proved to have the effect of those functions.

| part | values and properties | objects |
|---|---|---|
| bytes and text | Basics, Text, Address, AddressForms, Uid, UidForms | Address, Uid |
| packet buffer | PacketBuffer | PacketBuffer |
| wire formats | NodeCodec, UdpCodec, DebugCodec, ClientUpdate, MgmtFrames, WireLayout | ServerPackets, BrowserMpoint |
| handshake of provider and node | Provider, Handshake, HandshakeProgress | ProviderObject, NodeObject |
| reports to one client | Mgmt, ClientReport | ClientObject |
| the server | Server, ServerClients | ServerObject, ClientList |
| TCP links | TxStream | PktSrc |
| the whole system | WholeSystem, WholeSystemLinks, WholeSystemProgress, WholeSystemClaims, WholeSystemTrust | |
| from node to browser | EndToEnd, Liveness, Draining, DebugPath | BrowserLink |
| REST content | Content, ContentHistory, ContentRequests, ContentAnswers | ContentObject |
| REST routing | Routing, RoutePatterns, RoutingDispatch | RoutingObject |
| REST buffers | RepBuffer | RepBuffer |
| configuration memory | ConfigStore | ConfigStoreObject |

A signal is the last thing a function of the original does, and is handled before that function returns; here it is
a returned value on which the caller acts at once. A completed transmission calls the client inside the dispatch
that completes it; here the packets it queues are part of that dispatch.

## What the code relies on

- A node has at least one endpoint and does not change after it has started (`Handshake.AnswerableIffSomeEndpoint`
  shows that the first is needed).
- Mime types are shorter than 128 bytes; that printed addresses are is proved (`Address.CreatedIsShortAscii`).
- Tags, NodeIDs, object IDs and lengths fit their 32-bit words (`ClientFits`, `Sendable`, `FrameFits`).
- Debug data fit the 1500 bytes that the server receives into, with the twelve bytes before them.
- `recv` returns the bytes asked for; `send` may take any number of bytes.
- Datagrams from a node's address are the node's own. Loss, copies and reordering are allowed. Providers may share an
  address: the first one takes the packets.
- Packets are queued on a link only after it has been started.

## Where the code does something else than it seems to

- Any packet from the node ends the wait for the acknowledgement. READY can be relied on to mean that the node holds the
  claim exactly where datagrams of the node are not copied and its address is resolved only once; otherwise a copy of
  the first reply, or the answer to a second provider's first request, can end the wait too early. The one exception is
  a node that is alone and knew the claim beforehand: `WholeSystemTrust.TrustworthyIff`.
- No request is ever sent again. What is lost before the first reply, or in the acknowledgement wait, is made up for
  when the address is resolved again; a datagram lost while the endpoints are asked for never is, and the node is never
  reported: `WholeSystemProgress.CanBecomeReadyIff`, `LostForGood`. Of two providers at one address the second never
  becomes READY: `UnheardNeverReady`.
- After an empty endpoint list the provider still asks for endpoint 0: `Handshake.ZeroEndpointsAsked`.
- A client drops debug frames while it is idle, so they pass only while a node report is in flight, although the
  comment there asks for a state in which they can be forwarded: `ClientReport.DebugOnlyDuringUpdate`.
- Parameters bound by a failed match stay bound, so a later match can have a wrong value:
  `RoutingDispatch.StaleParameter`, and exactly when in `ParameterRightIff`.
- The failed check of a list GET, a POST or a DELETE throws the address of its exception, which no handler but the last
  catches: the answer has code 10000, not 1004 (`ContentRequests.FailureCodes`). PUT does the same; GET of one object
  throws it before its try block, and answers nothing (src/REST/HNRESTResource.cpp:611-614).
- A POST whose object cannot be filled in is answered with an error, but the object stays in the store, in no list:
  `ContentRequests.FailedPost`.
- `addObj` with a taken ID leaves a vertex that no object owns: `Content.InsertKeepsIffUnused` and
  `ContentHistory.TakenID`.
- An object ID can be made again, after its object has gone, when an earlier prefix is the later one and a number, as
  "z1" and "z"; exactly then: `ContentHistory.NeverAgainIff`.
- An object resource without relationships names the root; deleting it removes the root, after which only the empty
  walk succeeds: `ContentRequests.RootDeleted`.
- The mask in `appendDataToBuffer` clears bit ten only: `RepBuffer.GrownSizeSuffices`, `GrownSizeRoundsIff`.
- With the shipped tables the bounds error of `hnode_check_memory_access` cannot occur once the address is aligned:
  `ConfigStore.StatusIs`.

## Model

| member | source | states |
|---|---|---|
| `EndToEnd.BrowserKnowsTheTruth` | src/hnode-srvobj-client.c:496-667 | in every reachable state of nodes, lossy network, server, clients and links, the packets a browser finds in the bytes on its link give it a beginning of its node list, NodeIDs from zero, each entry equal to what the node itself announces |
| `EndToEnd.DrainedBrowserKnowsAll` | src/hnode-srvobj-client.c:564-667 | when the link of a reporting client is drained its browser has an entry for provider i exactly when i is READY, and no provider twice |
| `EndToEnd.GuardsAlwaysHold` | src/hnode-nodeobj.c:656-666 | in every reachable state every request that has reached a node can be answered, every reply processed inside the endpoint array, and every completed packet handed to its client |
| `EndToEnd.BrowserCatchesUp` | src/hnode-pktsrc.c:812-956 | from every reachable state sends on the link alone bring a reporting browser to know every READY provider |
| `EndToEnd.DebugFindsItsNode` | src/hnode-browser-mpoint.c:308-342 | a debug frame with the object ID of a known node is passed to that node and to no other |
| `DebugPath.FrameReachesItsNode` | src/hnode-nodeobj.c:1012-1052 | a debug frame of a node that has been claimed in the run survives both encodings and is passed by a browser to the entry with that node address and to no other |
| `Draining.EveryDrainCatchesUp` | src/hnode-pktsrc.c:812-956 | from every reachable state every run of sends on a link, of whatever sizes, has at most as many dispatches as there are picks, bytes and completions to come, can go on while the queue is not empty, and leaves a reporting browser knowing every READY provider when it is |
| `Draining.CompletionSends` | src/hnode-srvobj-client.c:496-525 | every completion takes the first packet off the list of those still to be sent, queued or not, and leaves the others in order |
| `BrowserLink.BrowserOnLink` | src/hnode-browser-mpoint.c:251-357 | a browser object fed by its packet source with the bytes on a link knows a beginning of the node list, each entry as the node itself announces it |
| `BrowserLink.ReceiveAll` | src/hnode-pktsrc.c:738-805 | receiving and handling packet after packet gives what the packets of the stream say, in order |
| `BrowserLink.WireIsWellFormed` | src/hnode-srvobj-client.c:305-331 | every packet found on a link in a reachable state is one the browser can read |
| `EndToEnd.KnownNode` | src/hnode-browser-mpoint.c:278-301 | every entry made from the packets queued so far has the NodeID of its place and the identity of its READY provider |
| `EndToEnd.EntriesSayWhatNodesAnnounce` | src/hnode-provider-epoint.c:229-239 | every entry a browser has made says, field by field, what the node at its address announced from the start: version, UID, configuration address at the node IP, and every endpoint at the node IP with its own port |
| `EndToEnd.PacketsSay` | src/hnode-srvobj-client.c:305-331 | every packet on a link reads from its bytes as what the client queued at that place: type 7 and the tag of the request, the frame that was forwarded, or the record of the provider |
| `Liveness.NodeReachesBrowser` | src/hnode-srvobj.c:448-498 | from every reachable state in which it is on its way a node is brought, by its own handshake and sends on the link, into the list of every browser that wants reports |
| `Liveness.UnlostNodeReachesBrowser` | src/hnode-srvobj.c:448-498 | this holds for every node, heard by a provider, none of whose datagrams has been lost, whatever has been copied or overtaken |
| `Liveness.NewNodeReachesBrowser` | src/hnode-srvobj.c:714-728 | and for every node resolved at a new address, whatever has been lost before |
| `WholeSystemProgress.CanBecomeReadyIff` | src/hnode-provider.c:471-741 | from every reachable state some run makes a provider READY exactly when it is READY or on its way, or gets its node packets and still waits for the first reply or for the acknowledgement |
| `WholeSystemProgress.LostForGood` | src/hnode-provider.c:685-705 | once a datagram for an endpoint is lost, no run makes any provider at this address READY, resolved again or not |
| `WholeSystemProgress.UnlostIsOnTheWay` | src/hnode-provider.c:471-741 | in every run that loses no datagram from or to an address, the provider that gets the packets of the node there is READY or on its way |
| `WholeSystemProgress.StepOnTheWay` | src/hnode-provider.c:621-741 | no step takes a provider off its way but the loss of a datagram of its node, and none brings it back but resolving its address again |
| `WholeSystemProgress.UnheardNeverReady` | src/hnode-srvobj.c:1067-1078 | a provider without a node at its address, or with an earlier provider there that takes its packets, never becomes READY |
| `WholeSystemProgress.BecomesReady` | src/hnode-provider.c:471-741 | from every state in which it is on its way a provider is brought to READY by deliveries to and from its own node, and no other provider changes |
| `WholeSystemProgress.FoundIsOnTheWay` | src/hnode-srvobj.c:714-728 | a service resolved at an address no provider has yet gets a provider that is on its way |
| `WholeSystem.StepKeepsNet` | src/hnode-nodeobj.c:599-763 | every step keeps: providers agree with their nodes as far as they have asked, every request can be answered, every reply is what its node announces |
| `WholeSystemLinks.StepKeepsWorld` | src/hnode-pktsrc.c:569-586 | every step keeps each link equal to its client: the same packets queued and completed, as bytes built from providers that have not changed since |
| `WholeSystemLinks.SentAboutReady` | src/hnode-srvobj-client.c:580-612 | every node packet ever queued is about a provider that is READY |
| `WholeSystem.RxIsHandshake` | src/hnode-srvobj.c:1056-1084 | what the server does with a reply is, for the provider that claims it, what the handshake does |
| `ClientReport.RunReportsInOrder` | src/hnode-srvobj-client.c:496-667 | in every run node packet j has tag j and NodeID j and describes node j; the list is ESTABLISHED, at most one EXPOSING, then NEW; UPDATING exactly while one is EXPOSING; UpdateNodeCount counts EXPOSING and NEW |
| `ClientReport.NoLostReports` | src/hnode-srvobj-client.c:496-633 | once reporting is enabled, an empty queue means IDLE, count zero, every node reported and ESTABLISHED |
| `ClientReport.CompletionShrinksBacklog` | src/hnode-srvobj-client.c:496-525 | every completion, of whatever packet, takes exactly one off queue length plus unreported nodes |
| `ClientReport.DrainReportsEveryNode` | src/hnode-srvobj-client.c:496-633 | with no new input exactly as many completions as queued packets and NEW nodes together are possible, and they leave every node reported in list order |
| `ClientReport.StepKeeps` | src/hnode-srvobj-client.c:287-711 | every event keeps the shape of the node list, the counters, and a queued packet for every update in flight |
| `ClientReport.StepLogs` | src/hnode-srvobj-client.c:564-633 | every event keeps the log: as many node packets as tags, in list order, the queue being its unsent end |
| `ClientReport.RequestsAreAnswered` | src/hnode-srvobj-client.c:287-351 | every request for reports is acknowledged once, in order, with its own tag; reporting, debugging and events are on exactly when they have been asked for, by types 2, 5 and 6 |
| `ClientReport.DebugOnlyDuringUpdate` | src/hnode-srvobj-client.c:691-713 | a debug frame is queued exactly when debugging is enabled and a node report is in flight; a drained client drops it |
| `ClientObject.Client.FindNew` | src/hnode-srvobj-client.c:573-626 | the scan finds the first NEW record |
| `ClientObject.Client.BuildUpdatePacket` | src/hnode-srvobj-client.c:564-633 | the object, its records updated in place, changes as BuildUpdate says |
| `ClientObject.Client.AddNode` | src/hnode-srvobj-client.c:635-667 | a new record at the end, exposed at once when the client is idle and reporting |
| `ClientObject.Client.ClientRx` | src/hnode-srvobj-client.c:287-351 | the request types set their flag; REQ_PINFO queues one acknowledgement with its tag |
| `ClientObject.Client.TxDone` | src/hnode-srvobj-client.c:496-525 | a completion ends the update in flight through the aliased record and starts the next |
| `ClientObject.Client.ForwardDebugPacket` | src/hnode-srvobj-client.c:691-713 | queued unless debugging is off or the client idle |
| `Handshake.HandshakeSafety` | src/hnode-provider.c:621-728 | on a network that loses, copies and reorders: a claimed or READY provider agrees with its node in version, UID, endpoint count and every endpoint; endpoints below ReqEndPoint are right; ReqEndPoint and every requested index lie inside their arrays |
| `Provider.OnlyTheAskedReplyCounts` | src/hnode-provider.c:644-705 | outside the acknowledgement wait a reply changes the provider exactly when type, tag and index are the ones asked for |
| `Provider.SoundReply` | src/hnode-provider.c:621-728 | one authentic reply keeps the picture right and never indexes outside the endpoint array; INFO_COMPLETE means full agreement |
| `Provider.AgreeingDescribes` | src/hnode-provider-epoint.c:160-178 | to agree with a node is to hold its fields one by one, with every endpoint and the configuration address at the IP of the provider and at the port the node announces for them |
| `Provider.SoundRequest` | src/hnode-provider.c:516-601 | a request sent from a right picture is one the node can answer |
| `Provider.AnswerIsAuthentic` | src/hnode-nodeobj.c:599-763 | the answer says what the node announces, and answering changes none of it |
| `Handshake.ZeroEndpointsAsked` | src/hnode-provider.c:685-689 | a node without endpoints is asked for endpoint 0 all the same, which it cannot answer |
| `Handshake.AnswerableIffSomeEndpoint` | src/hnode-nodeobj.c:656-666 | every request a node ever gets can be answered exactly when it has an endpoint |
| `HandshakeProgress.HandshakeProgress` | src/hnode-provider.c:471-741 | on a reliable network every run goes on until exactly EndPointCount+2 exchanges, then the provider is READY with that tag and the node holds the object ID and ports it was claimed with |
| `WholeSystemTrust.TrustworthyIff` | src/hnode-provider.c:730-741 | in the whole system, for every node: READY means in all runs that the node holds the claim exactly when its datagrams are not copied and its address is resolved only once - or when it is the only node and knew the claim beforehand |
| `WholeSystemTrust.ReadyIsClaimed` | src/hnode-provider.c:730-741 | in every run that copies no datagram of a node and resolves its address only once, whatever is lost or overtaken, a READY provider there has told the node its object ID and ports |
| `WholeSystemTrust.FailingRun` | src/hnode-provider.c:730-741 | from every state, for every node that no provider knows yet, a copy of a datagram alone, or resolving the address twice without any copy, lets a second first reply make the provider READY while no node has changed |
| `WholeSystemClaims.NodeHoldsOwnClaim` | src/hnode-nodeobj.c:697-756 | whatever happens to datagrams and however often services are resolved: a node that has taken a claim holds the object ID and ports of the one provider that gets its packets, until then it is as it was, and an acknowledgement on the network means that it has |
| `WholeSystemClaims.StepClaims` | src/hnode-nodeobj.c:697-756 | every step keeps claims and acknowledgements on the network in agreement with the provider that gets the packets from their address |
| `ProviderObject.HNodeProvider.Claim` | src/hnode-provider.c:483-504 | only a waiting provider takes identity and ports |
| `ProviderObject.HNodeProvider.GenerateTxRequest` | src/hnode-provider.c:516-601 | the packet holds exactly the bytes of the request the state calls for |
| `ProviderObject.HNodeProvider.ProcessRxReply` | src/hnode-provider.c:621-756 | parsing a received datagram in place has the effect of its reply, and signals as it does |
| `ProviderObject.HNodeProvider.ParseEndpointReply` | src/hnode-provider-epoint.c:160-196 | the endpoint parsed from a reply is the one it describes, with the node address and its own port |
| `ProviderObject.HNodeProvider.AllocateEndpointArray` | src/hnode-provider.c:437-468 | as many blank endpoints as announced |
| `UdpCodec.RequestRead` | src/hnode-nodeobj.c:616-620 | a request read at the offsets of the node gives type, tag and fields back |
| `UdpCodec.ReplyRead` | src/hnode-provider.c:640-710 | a reply read at the offsets of the provider gives type, tag and all fields back, whatever fills reserved bytes and text buffers |
| `NodeObject.HNode.SetEndpoint` | src/hnode-nodeobj.c:887-915 | the entry is overwritten: what fits of the mime type, the length of all of it; one that fits is announced as given |
| `NodeObject.HNode.SetEndpointCount` | src/hnode-nodeobj.c:872-885 | as many blank endpoints as announced, and nothing else changes |
| `NodeObject.HNode.HNodeRx` | src/hnode-nodeobj.c:599-763 | the node changes, and its reply reads, as the answer to the request; a claim sends frames and events to the ports it names at the IP it came from, and nothing else does |
| `NodeObject.HNode.SendDebugFrame` | src/hnode-nodeobj.c:1012-1052 | an unclaimed node sends nothing; a claimed one its object ID, the next sequence count, type, endpoint and length cut to sixteen bits, and all the data |
| `WireLayout.RequestIs` | src/hnode-provider.c:516-601 | every request in plain numbers: its length, its type 1, 3 or 5, its tag, and where each field stands |
| `WireLayout.ReplyIs` | src/hnode-nodeobj.c:622-756 | every reply in plain numbers: length, type 2, 4 or 6, tag, and where each field, the reserved bytes and the text buffer stand |
| `WireLayout.MostSignificantFirst` | src/hnode-packet.c:383-457 | words are written and read with the most significant byte first |
| `Server.ServerAgreement` | src/hnode-srvobj.c:448-498 | in every reachable state each client lists each READY provider exactly once and nothing else, and claimed providers have different object IDs and the server's ports |
| `Server.ServerStepKeeps` | src/hnode-srvobj.c:448-911 | every event keeps object IDs, client invariants and the agreement of every list with the READY providers |
| `Server.ReadyIsFinal` | src/hnode-provider.c:743-745 | a READY provider never changes again |
| `Server.ProviderRxReady` | src/hnode-srvobj.c:476-495 | only the reply that ends the acknowledgement wait makes a provider READY, and then every client is told |
| `Server.WithReadyLists` | src/hnode-srvobj.c:888-909 | a new client is given each READY provider once |
| `ServerClients.ClientIsItsTrace` | src/hnode-srvobj.c:448-980 | in every run of the server each client object is exactly what the client machine makes of the client's own events: the READY providers in list order when it joins, each that becomes READY, its own requests and completions, and every debug frame |
| `ServerClients.ClientsAreApart` | src/hnode-srvobj-client.c:287-351 | each client's acknowledgements answer its own requests in order, and its reporting, debugging and events are on exactly when it has asked for them itself by types 2, 5 and 6 |
| `ServerObject.HNodeServer.ResolveCallback` | src/hnode-srvobj.c:714-728 | a new provider at the end of the list, its first request in the packet that goes out |
| `ServerObject.HNodeServer.FindClaimant` | src/hnode-srvobj.c:1067-1078 | the search finds the first provider with this address |
| `ServerObject.HNodeServer.HNodeRx` | src/hnode-srvobj.c:1056-1084 | lists, IDs and the outgoing packet after a received datagram, claim and fan-out included |
| `ServerObject.HNodeServer.InfoCompleted` | src/hnode-srvobj.c:458-471 | the next object ID is used for exactly one claim |
| `ServerObject.HNodeServer.TellClients` | src/hnode-srvobj.c:474-494 | every client object in the list is told of the node, the providers stay as they are |
| `ClientList.TellAll` | src/hnode-srvobj.c:482-494 | the loop adds the node to every client object, each with records of its own updated in place |
| `ClientList.ForwardAll` | src/hnode-srvobj.c:969-980 | the loop offers the frame to every client object |
| `ServerObject.HNodeServer.Request` | src/hnode-srvobj-client.c:287-351 | a request changes the client object of its link and no other |
| `ServerObject.HNodeServer.Sent` | src/hnode-srvobj-client.c:496-525 | a completion changes the client object of its link and no other |
| `ServerObject.HNodeServer.NewSrc` | src/hnode-srvobj.c:865-911 | a new client object is given the READY providers, started, and joins the list |
| `ServerObject.HNodeServer.ClientState` | src/hnode-srvobj.c:847-863 | the client leaves the list, the others stay in order |
| `ServerObject.HNodeServer.ForwardDebug` | src/hnode-srvobj.c:937-980 | every client object is offered the frame |
| `NodeCodec.NodePktRoundTrip` | src/hnode-srvobj-client.c:588-611 | for any provider with any number of endpoints the browser reads the same NodeID and record, uses up exactly the frame, and the frame announces its own length |
| `WireLayout.NodePktIs` | src/hnode-srvobj-client.c:588-611 | a node packet in plain numbers: its length, type 10, tag, NodeID, and where every field of the provider stands |
| `NodeCodec.ProviderRead` | src/hnode-provider.c:771-888 | a provider record is read back whole wherever it stands |
| `NodeCodec.EndpointsRead` | src/hnode-provider-epoint.c:198-251 | any list of endpoint records is read back in order |
| `ClientUpdate.ReportIsTrue` | src/hnode-provider.c:771-888 | the report of a provider that agrees with its node carries the node's own data, port and printed address, and parsing it gives the same addresses, ports, version, UID, object ID and endpoints |
| `ProviderObject.HNodeProvider.BuildClientUpdate` | src/hnode-provider.c:771-818 | appends exactly the record of the provider to the packet |
| `ProviderObject.HNodeProvider.ParseClientUpdate` | src/hnode-provider.c:822-888 | the browser's provider object becomes the parsed record, and the cursor stands behind it |
| `ServerPackets.BuildNodePacket` | src/hnode-srvobj-client.c:588-611 | the packet built with a placeholder length and patched afterwards is the whole node packet |
| `ServerPackets.BuildAck` | src/hnode-srvobj-client.c:318-327 | twelve bytes: length, ACK and the request's tag |
| `ServerPackets.ReadRequest` | src/hnode-srvobj-client.c:300-303 | a request's type and tag, whatever follows its header |
| `MgmtFrames.FrameBytesInjective` | src/hnode-browser-mpoint.c:265-342 | the bytes of a packet determine all it says |
| `BrowserMpoint.MPoint.RxPacket` | src/hnode-browser-mpoint.c:251-357 | a node packet appends its node, a debug packet reaches the nodes with its object ID, every other type and a bare node header change nothing; a report is used up exactly |
| `BrowserMpoint.MPoint.RequestReports` | src/hnode-browser-mpoint.c:386-399 | a bare header asking for reports, with the next tag |
| `BrowserMpoint.MPoint.EnableDebug` | src/hnode-browser-mpoint.c:415-444 | the debug request, which announces its sixteen bytes |
| `BrowserMpoint.BrowserNode.ParseClientUpdate` | src/hnode-browser-hnode.c:190-209 | NodeID and provider from the packet |
| `DebugCodec.DebugFrameSurvives` | src/hnode-srvobj.c:937-967 | type, sequence, object ID, endpoint and data survive both encodings, and the written length 32+len is the true length |
| `WireLayout.NodeDebugIs` | src/hnode-nodeobj.c:1020-1045 | the frame of a node in plain numbers, with fields of sixteen bits |
| `WireLayout.DebugPktIs` | src/hnode-srvobj.c:945-967 | the packet for the clients in plain numbers: length, type 8, tag zero, and fields of thirty-two bits |
| `ServerPackets.TranscodeDebug` | src/hnode-srvobj.c:937-967 | the frame read from the node's datagram and the packet written for the clients |
| `BrowserMpoint.OnlyOwner` | src/hnode-browser-mpoint.c:322-341 | with different object IDs only the owner is told |
| `TxStream.WireIsTheQueue` | src/hnode-pktsrc.c:812-956 | for any partial sends the wire carries the completed packets in order and the sent part of the current one; every packet completes once; output is asked for exactly while something is queued |
| `TxStream.DispatchAdvances` | src/hnode-pktsrc.c:812-956 | a dispatch in which the socket takes at least one byte where there is one gets on with the first packet of the queue, or completes exactly it |
| `TxStream.FramesSplit` | src/hnode-pktsrc.c:738-805 | splitting a stream of packets gives the packets back, and never takes part of one for a packet |
| `TxStream.ReceiverSeesCompleted` | src/hnode-pktsrc.c:738-805 | in every run the receiver's framing finds exactly the completed packets on the wire |
| `PktSrc.PacketSource.SendPacket` | src/hnode-pktsrc.c:569-586 | appends and asks for output |
| `PktSrc.PacketSource.DispatchOut` | src/hnode-pktsrc.c:812-956 | the object with its packet list changes as one dispatch says, completion callback included |
| `PktSrc.PacketSource.CompleteCurrent` | src/hnode-pktsrc.c:928-949 | the packet leaves the list before the callback, output is turned off only if nothing is queued after it |
| `PktSrc.PacketSource.DispatchIn` | src/hnode-pktsrc.c:738-805 | header and rest are received into one growing packet that holds exactly the next frame |
| `PktSrc.PacketSource.DispatchAll` | src/hnode-pktsrc.c:738-805 | repeated dispatches turn a stream into the packets it splits into, and leave the bytes of an unfinished one |
| `PacketBuffer.RoundUpIsLeast` | src/hnode-packet.c:184-187 | the allocation is the least multiple of 512 that covers the request |
| `PacketBuffer.Packet.GetBufferPtr` | src/hnode-packet.c:171-207 | growth keeps the bytes of the packet |
| `PacketBuffer.OverwriteAt` | src/hnode-packet.c:542-563 | a write replaces what it covers and leaves the rest |
| `PacketBuffer.Packet.SetBytes` | src/hnode-packet.c:542-563 | the log is overwritten at the cursor, or extended at its end |
| `PacketBuffer.Packet.SetUint` | src/hnode-packet.c:408-434 | four bytes, most significant first |
| `PacketBuffer.Packet.GetUint` | src/hnode-packet.c:437-457 | the word at the cursor |
| `PacketBuffer.Packet.SkipBytes` | src/hnode-packet.c:579-592 | the cursor moves over bytes that stay as they are, and the data length follows |
| `PacketBuffer.Echo` | src/hnode-packet.c:383-577 | any writes, a reset and the matching reads return what was written |
| `Address.ResolveCreated` | src/hnode-pktaddr.c:127-228 | resolving a printed address gives the same IP and port |
| `AddressForms.SpeltOut` | src/hnode-pktaddr.c:158-304 | for every IP and port: behind either scheme, with brackets or without, host:port gives that IP and that port |
| `AddressForms.WrittenTarget` | src/hnode-pktaddr.c:158-304 | in every written form the string names its host and port, and keeps the address exactly when a name follows or a bare host has nothing behind it |
| `AddressForms.AddressIsSet` | src/hnode-pktaddr.c:158-304 | an IPv4 address written with its port in any form is set to exactly that, whatever the address was before |
| `AddressForms.AddressWithoutPort` | src/hnode-pktaddr.c:158-304 | without a port it is set to port zero; without brackets this takes a slash |
| `AddressForms.StringWithoutScheme` | src/hnode-pktaddr.c:305-346 | a string with neither scheme changes only the printed form |
| `AddressForms.PortInAnyBase` | src/hnode-pktaddr.c:294-295 | a port in decimal, hexadecimal or octal, with a sign and after white space, is its value modulo 65536 |
| `AddressForms.HostOfTwo` | src/hnode-pktaddr.c:294-295 | a host of two numbers is its first byte and the other three |
| `AddressForms.HostUnread` | src/hnode-pktaddr.c:294-295 | a host that is no IPv4 address leaves the IP as it was; the port is set all the same |
| `AddressForms.BadHost` | src/hnode-pktaddr.c:294-295 | nothing, or a number with something else behind it, is no host |
| `Address.CreateInjective` | src/hnode-pktaddr.c:349-358 | the printed form identifies the address |
| `Address.CreatedIsShortAscii` | src/hnode-pktaddr.c:349-358 | a printed address fits its 128-byte buffer |
| `Address.AddressObject.ResolveAddressStr` | src/hnode-pktaddr.c:127-346 | the socket address changes exactly when the string names a target, with or without brackets and whatever follows; port and host read as strtoul and inet_aton read them |
| `Address.AddressObject.SetPortNumber` | src/hnode-pktaddr.c:464-475 | stores the port and prints the address again |
| `Address.AddressObject.IsEqual` | src/hnode-pktaddr.c:477-500 | equality of IP and port, and of printed forms where both are printed |
| `Uid.ParseOfPrint` | src/hnode-uid.c:197-263 | the string of a UID is accepted and read back as the same sixteen bytes |
| `Uid.PrintOfParse` | src/hnode-uid.c:197-263 | printing what was parsed gives each field in lower case |
| `UidForms.AcceptedIffWritten` | src/hnode-uid.c:197-241 | a string is accepted exactly when it is white space, the prefix in any case, sixteen pairs of hex digits with colons between, and then white space or a colon and anything; the pairs spell the bytes |
| `UidForms.PrintIs` | src/hnode-uid.c:244-263 | the printed form character by character: 53 of them, two lower-case digits for every byte |
| `Uid.UidObject.SetUidFromString` | src/hnode-uid.c:197-241 | accepts exactly the prefix and sixteen leading hex pairs of either case; a failed parse after the prefix invalidates the UID and overwrites just the bytes before the bad field |
| `Uid.UidObject.SetUid` | src/hnode-uid.c:144-154 | the sixteen bytes, now valid |
| `Uid.UidObject.GetUidAsString` | src/hnode-uid.c:244-263 | the printed form of a valid UID |
| `Uid.UidObject.IsEqual` | src/hnode-uid.c:169-195 | both valid and the same bytes |
| `Content.StartOk` | src/REST/HNRESTContent.cpp:629-645 | a new manager is in order and holds the root |
| `Content.RunKeeps` | src/REST/HNRESTContent.cpp:629-868 | after every run that gives addObj only free IDs, IDs and vertices are in bijection and every edge joins two live objects |
| `Content.InsertKeepsIffUnused` | src/REST/HNRESTContent.cpp:711-738 | adding an object keeps the store in order exactly when its ID is free |
| `Content.FreshIsFirst` | src/REST/HNRESTContent.cpp:652-666 | the search stops at the first free ID, within one more step than there are objects |
| `Content.CreateKeeps` | src/REST/HNRESTContent.cpp:697-708 | a created object has an ID that was free |
| `ContentHistory.CreatedObject` | src/REST/HNRESTContent.cpp:697-738 | the created object has the kind that was asked for and a free ID; every other object stays as it was |
| `ContentHistory.NeverAgainIff` | src/REST/HNRESTContent.cpp:652-666 | in some run the manager makes an ID again, its first object gone, exactly when the prefix that comes first is the later one followed by a number; never with one and the same prefix |
| `ContentHistory.StartIs` | src/REST/HNRESTContent.cpp:629-645 | a new manager holds the root alone, and its first ID has number one |
| `Content.RemoveKeeps` | src/REST/HNRESTContent.cpp:762-810 | a removed object takes exactly its own edges with it |
| `Content.RemoveUnlinks` | src/REST/HNRESTContent.cpp:762-810 | after a removal two objects are related exactly when they were and neither is the removed one |
| `Content.WithoutCounts` | src/REST/HNRESTContent.cpp:772-775 | every other edge stays as often as it was |
| `Content.ClearKeeps` | src/REST/HNRESTContent.cpp:674-695 | a cleared store holds the root and no edge |
| `Content.AddLinks` | src/REST/HNRESTContent.cpp:837-868 | a new relationship joins exactly these two objects, in both directions |
| `Content.AddLists` | src/REST/HNRESTContent.cpp:837-868 | it is listed last under the parent and nowhere else |
| `ContentHistory.RelateIs` | src/REST/HNRESTContent.cpp:837-868 | a relationship joins the two objects it names, the child last in the list of the parent, and no others |
| `Content.RelationshipIsJoin` | src/REST/HNRESTContent.cpp:901-972 | hasRelationship holds exactly for objects joined by that edge, agrees with the ID list, and is symmetric |
| `ContentRequests.CheckIsChain` | src/REST/HNRESTResource.cpp:372-409 | the check succeeds exactly when the parameters name a chain of relationships from the root; its end is live unless there was no step and the root is gone |
| `ContentRequests.PostListedIff` | src/REST/HNRESTResource.cpp:552-564 | the answered ID is new, and listed under the parent exactly when the type is known and the parent lives |
| `ContentRequests.PostLists` | src/REST/HNRESTResource.cpp:552-564 | the new ID comes last in its list and changes no other list |
| `ContentRequests.PostedIsReachable` | src/REST/HNRESTResource.cpp:552-564 | one more step from the parent reaches the new object |
| `ContentRequests.PostThenDelete` | src/REST/HNRESTResource.cpp:737-738 | deleting what a POST has made restores objects, vertices and relationships |
| `ContentRequests.DeletedIsUnreachable` | src/REST/HNRESTResource.cpp:737-738 | after a DELETE no chain goes through the object, and every other chain still holds |
| `ContentRequests.RootDeleted` | src/REST/HNRESTResource.cpp:714-756 | deleting an object resource without relationships removes the root and all it touches, after which a walk succeeds exactly when it has no step |
| `ContentRequests.FailedPost` | src/REST/HNRESTResource.cpp:532-576 | a POST answered with an error leaves objects and relationships as they were exactly when it fails before an object is made; an object that could not be filled in stays, in no list |
| `ContentRequests.FailedDelete` | src/REST/HNRESTResource.cpp:719-756 | a DELETE answered with an error leaves the store as it was exactly when its check fails or names a root that is gone |
| `ContentRequests.FailureCodes` | src/REST/HNRESTResource.cpp:550-576 | parameters that name no chain from the root are answered with code 10000 and not 1004; any other code is one that a helper or the application has thrown |
| `ContentAnswers.GetListIs` | src/REST/HNRESTResource.cpp:485-493 | an ID is in the answer exactly when its object is joined to the end of the walk by this relationship |
| `ContentAnswers.GetAfterPost` | src/REST/HNRESTResource.cpp:552-564 | after a POST the same list is answered with the new ID last, and the new object has the kind asked for |
| `ContentAnswers.GetAfterDelete` | src/REST/HNRESTResource.cpp:737-738 | after a DELETE a list that is not reached through the object is answered in the same order less the object |
| `ContentAnswers.PostKeepsWalk` | src/REST/HNRESTResource.cpp:552-564 | after a POST every walk that succeeded ends where it did |
| `ContentAnswers.ListAfterRemoval` | src/REST/HNRESTContent.cpp:762-783 | a removal takes the removed ID out of the lists of the others and keeps their order |
| `ContentObject.ContentManager.GetUniqueObjID` | src/REST/HNRESTContent.cpp:652-666 | the loop ends with a free ID, after at most one more try than there are objects |
| `ContentObject.ContentManager.CreateObj` | src/REST/HNRESTContent.cpp:697-708 | the object's state and the ID after creation |
| `ContentObject.ContentManager.RemoveObjByID` | src/REST/HNRESTContent.cpp:762-783 | map and graph after a removal |
| `ContentObject.ContentManager.HasRelationship` | src/REST/HNRESTContent.cpp:901-928 | the scan of the edges decides the relationship |
| `ContentObject.ContentManager.GetIDListForRelationship` | src/REST/HNRESTContent.cpp:947-972 | the far ends in edge order |
| `ContentObject.ContentManager.CheckObjectRelationships` | src/REST/HNRESTResource.cpp:372-409 | the loop gives the end of the walk |
| `ContentObject.ContentManager.RestPost` | src/REST/HNRESTResource.cpp:524-581 | store and answer of a POST |
| `ContentObject.ContentManager.RestGetList` | src/REST/HNRESTResource.cpp:460-522 | the IDs at the end of the walk that a list is answered with, or the first error |
| `ContentObject.ContentManager.RestDelete` | src/REST/HNRESTResource.cpp:714-760 | store and answer of a DELETE |
| `Routing.LinksIffMatches` | src/REST/HNRESTResource.cpp:155-264 | a request links exactly when its method is permitted and its segments match the pattern: one for each fixed element, literals equal, a wildcard taking zero or more |
| `Routing.LinkedParameters` | src/REST/HNRESTResource.cpp:221-224 | from no parameters, every parameter is bound to its own segment and no other name is bound |
| `Routing.WildcardRebuilds` | src/REST/HNRESTRequest.cpp:223-237 | the matched segments and the wildcard URL give the URL back |
| `Routing.SegmentsOfJoin` | src/REST/HNRESTResource.cpp:174-181 | a URL joined from its elements splits into them again |
| `RoutePatterns.PatternIsRead` | src/REST/HNRESTResource.cpp:106-153 | any pattern written as text, literals as themselves, parameters as names in braces, the wildcard as a star, is read back as itself |
| `RoutePatterns.TokenIs` | src/REST/HNRESTResource.cpp:115-150 | a token is a parameter exactly when it is a name in braces, then with that name; the wildcard exactly when it is a star; else a literal with that text |
| `RoutePatterns.NothingAfterWild` | src/REST/HNRESTResource.cpp:140-150 | nothing after the first wildcard is read |
| `Routing.PlainForm` | src/REST/HNRESTResource.cpp:174-181 | the elements of any URL are plain, and joining them makes a URL with the same elements |
| `Routing.BoundIsFirst` | src/REST/HNRESTRepresentation.cpp:302-320 | a parameter keeps the value it was given first |
| `RoutingDispatch.StrictWeakOrder` | src/REST/HNRESTDeamon.cpp:285-309 | the comparison is a strict order whose ties are an equivalence |
| `RoutingDispatch.StableSortIs` | src/REST/HNRESTDeamon.cpp:311-319 | the list is sorted, complete, and ties stay in order of registration |
| `RoutingDispatch.RegisteredIsSorted` | src/REST/HNRESTDeamon.cpp:311-319 | after any registrations the list is their stable sort |
| `RoutingDispatch.RequestGoesToBest` | src/REST/HNRESTDeamon.cpp:146-157 | a request goes to the serving resource with the most elements, without wildcard first, earliest registered; to none exactly when none serves; failed attempts make no difference |
| `RoutingDispatch.WildcardOfRequest` | src/REST/HNRESTDeamon.cpp:146-157 | the request then holds as wildcard what the fixed elements of the chosen pattern leave of the URL, whatever was tried before |
| `RoutingDispatch.ParameterRightIff` | src/REST/HNRESTDeamon.cpp:146-157 | a parameter of the linked resource is wrong exactly when, of the permitted patterns tried before, the first with a parameter of that name where the URL gets to has another segment there |
| `RoutingDispatch.StaleParameter` | src/REST/HNRESTDeamon.cpp:146-157 | two patterns and a URL on which a failed attempt leaves its value behind |
| `RoutingObject.RESTResource.SetURLPattern` | src/REST/HNRESTResource.cpp:106-153 | the elements of the pattern text up to the first wildcard |
| `RoutingObject.RESTResource.LinkRequest` | src/REST/HNRESTResource.cpp:155-264 | result, parameters, wildcard and link of the loop |
| `RoutingObject.RESTRequest.GetWildcardURL` | src/REST/HNRESTRequest.cpp:223-237 | every element with a slash before it |
| `RoutingObject.RESTDaemon.SortFunc` | src/REST/HNRESTDeamon.cpp:285-309 | decides the order |
| `RoutingObject.RESTDaemon.RegisterResource` | src/REST/HNRESTDeamon.cpp:311-319 | appends and sorts |
| `RoutingObject.RESTDaemon.NewRequest` | src/REST/HNRESTDeamon.cpp:146-157 | the scan links the first resource that takes the request |
| `ConfigStore.ReadsLatest` | src/hnode.c:458-573 | after any requests an accepted read gives the latest write to that address of that region, 0xFF if erased since, else the initial contents |
| `ConfigStore.ServeSets` | src/hnode.c:318-338 | every request sets exactly the bytes of the addresses it names: DUMP and APP_PRG are one region, all others apart |
| `ConfigStore.AcceptedIff` | src/hnode.c:250-307 | an access is accepted exactly when region, address, alignment and length allow it, and then lies inside its segment |
| `ConfigStore.StatusIs` | src/hnode.c:250-307 | the status of every access; past the alignment check the bounds error cannot occur |
| `ConfigStore.Answers` | src/hnode.c:458-573 | the answer to every request: a read or write fails with a status exactly when that is its verdict, an erase exactly for a region there is not; what fails changes nothing |
| `ConfigStore.WriteThenRead` | src/hnode.c:458-573 | what has been written is read back, also by the other name of the region |
| `ConfigStore.EraseThenRead` | src/hnode.c:498-529 | an erased region reads as 0xFF |
| `ConfigStore.InitialBytes` | src/hnode.c:191-197 | at the start every byte holds the low byte of its position |
| `ConfigStore.PlacesAre` | src/hnode.c:128-169 | where each address of each region lies in the memory, in numbers |
| `ConfigStore.PlacesAreDistinct` | src/hnode.c:128-169 | no two addresses share a byte, but for the two names of one region |
| `ConfigStoreObject.ConfigMemory.CheckMemoryAccess` | src/hnode.c:250-307 | the loop over the segments decides the access |
| `ConfigStoreObject.ConfigMemory.WriteMem` | src/hnode.c:531-573 | memory and answer of a write, refused ones included |
| `ConfigStoreObject.ConfigMemory.EraseMem` | src/hnode.c:498-529 | memory and answer of an erase |
| `ConfigStoreObject.ConfigMemory.ReadMem` | src/hnode.c:457-496 | the bytes a read answers with |
| `RepBuffer.GrownSizeSuffices` | src/REST/HNRESTRepresentation.cpp:128-130 | the size mask clears one bit, yet the buffer is always large enough |
| `RepBuffer.GrownSizeRoundsIff` | src/REST/HNRESTRepresentation.cpp:128-130 | the new size is a multiple of 1024 exactly when the request is |
| `RepBuffer.RESTRepDataItem.ResetData` | src/REST/HNRESTRepresentation.cpp:108-111 | the contents are empty again |
| `RepBuffer.RESTRepDataItem.AppendDataToBuffer` | src/REST/HNRESTRepresentation.cpp:113-149 | the contents grow by exactly the appended bytes |
| `RepBuffer.Collect` | src/REST/HNRESTRepresentation.cpp:112-185 | any pieces come out as their concatenation |

## Left out

- Avahi discovery and publication, libdaemon, process signals, logging and the command-line programs: that a service
  has been resolved at an address is an event.
- Sockets: what they take and deliver is a parameter; closing and errors end a link.
- Memory: reference counts, disposal, allocation failure and leaks.
- PacketBuffer.Packet: the buffer is a sequence and not an array, and bytes behind the data are arbitrary; copying on
  growth keeps the data, but addresses of buffers are not modelled.
- ProviderObject.HNodeProvider: endpoint and address objects are values inside the provider, so sharing of address
  objects between a provider and its packets is not modelled.
- ServerObject.HNodeServer: packets on the management links are values, so a debug packet that several links share is
  modelled as equal packets.
- ContentObject.ContentManager.GetUniqueObjID: the 128-byte text buffer and the sign of counters above 2^31 are not
  modelled.
- RoutingObject.RESTDaemon.RegisterResource: the library's list sort is modelled as a stable insertion sort.
- EndToEnd.BrowserKnowsTheTruth: holds for clients whose counters and packets fit their 32-bit words, since wrap-around
  is not modelled.
- ContentRequests.Hooks: what the content helpers and the application do in a request is a parameter: whether and with
  which code they throw, and whether the object type is known.
- Address.PortOf: `unsigned long` has 64 bits, and the locale is that of C.
- Requests shorter than their declared content, unknown packet types sent to a node, and the REGMAP and INFO requests of
  the configuration interface.
- A client after its connection has closed: the event removes it.
- The bytes of a browser's requests are not part of the whole-system runs, in which a request is an event; their packets
  and framing are `RequestReports`, `ReadRequest` and `TxStream`.
- GET and PUT of single objects, which change only fields.
- Event frames, which are built like debug frames and reach nobody.
- Updating the fields of REST objects, listing objects by type, XML and JSON content, templates, cookies, files, the
  HTTP client and server libraries.
- `removeRelationship` and the base content hooks, which have no implementation.
- src/hnode-browser.c and the accessors of src/hnode-browser-hnode.c, which would add only easy members.
- The time of day in a claim is a parameter; the node skips it.
