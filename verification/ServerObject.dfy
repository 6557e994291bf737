// The server object of src/hnode-srvobj.c: a list of provider objects and a list of client objects that its handlers
// walk through. Every handler is proved to have the effect that Server gives the event.

module ServerObject {
  import opened Basics
  import opened Mgmt
  import opened PacketBuffer
  import opened UdpCodec
  import opened ProviderObject
  import opened P = Provider
  import opened ClientObject
  import L = ClientList
  import C = ClientReport
  import S = Server

  /** A packet handed to the datagram socket. */
  datatype Outbound = Nothing | Outbound(to: SockAddr, packet: Packet)

  class HNodeServer {
    var hNodeList: seq<HNodeProvider>
    var clientList: seq<Client>
    var nextProviderID: nat
    var debugPort: u16
    var eventPort: u16
    ghost var clientRepr: set<object>

    /** Neither this object nor one of its providers is in f. */
    ghost predicate Apart(f: set<object>)
      reads this
    {
      this !in f && forall i :: 0 <= i < |hNodeList| ==> hNodeList[i] !in f
    }

    /** No provider object is in the list twice, and the clients and their node records are objects of their own. */
    ghost predicate Valid()
      reads this, clientRepr
    {
      && (forall i, j :: 0 <= i < j < |hNodeList| ==> hNodeList[i] != hNodeList[j])
      && Apart(clientRepr) && L.Apart(clientList, clientRepr)
    }

    /** The counters fit the words they are sent in. */
    ghost predicate Sendable(p: P.Provider) {
      p.reqTag < WORD && p.reqEndPoint < WORD && p.serverObjID < WORD
    }

    /** They still do after the next increment. */
    ghost predicate Countable(p: P.Provider) {
      p.reqTag < WORD - 1 && p.reqEndPoint < WORD - 1 && p.serverObjID < WORD
    }

    static lemma SignalMeans(p: P.Provider, r: Reply)
      requires CanProcess(p, r) && p.reqTag < WORD - 1 && p.reqEndPoint < WORD - 1 && p.serverObjID < WORD
      ensures var (q, signal) := P.ProcessRxReply(p, r);
              && q.reqTag < WORD && q.reqEndPoint < WORD && q.serverObjID < WORD && q.addr == p.addr
              && (signal == TxRequest ==> P.GenerateTxRequest(q).1.Some?)
              && (signal == InfoComplete ==> q.txState == WaitClaim)
              && (signal == Quiet ==> q == p)
    {
    }

    static ghost function Values(list: seq<HNodeProvider>): (ps: seq<P.Provider>)
      reads list
      ensures |ps| == |list| && forall i :: 0 <= i < |list| ==> ps[i] == list[i].Value()
    {
      seq(|list|, i requires 0 <= i < |list| reads list => list[i].Value())
    }

    ghost function Value(): S.Server
      requires Valid()
      reads this, hNodeList, clientRepr
    {
      S.Server(Values(hNodeList), L.Reports(clientList, clientRepr), nextProviderID, debugPort, eventPort)
    }

    constructor (debugPort: u16, eventPort: u16)
      ensures Valid() && Value() == S.Initial(debugPort, eventPort)
    {
      hNodeList, clientList, clientRepr, nextProviderID := [], [], {}, 0;
      this.debugPort, this.eventPort := debugPort, eventPort;
      new;
      assert Values(hNodeList) == [];
    }

    /** What goes out is what the event calls for, byte for byte. */
    ghost predicate Matches(out: Outbound, ds: seq<S.Datagram>, clock: Clock)
      reads if out.Outbound? then {out.packet} else {}
    {
      if out.Nothing? then ds == []
      else
        && |ds| == 1 && ds[0].to == out.to && RequestFits(ds[0].request)
        && out.packet.Valid() && out.packet.Contents() == RequestBytes(ds[0].request, clock)
    }

    /** g_hnode_server_provider_txreq. */
    method ProviderTxReq(p: HNodeProvider, clock: Clock) returns (out: Outbound)
      requires Sendable(p.Value()) && P.GenerateTxRequest(p.Value()).1.Some?
      modifies p
      ensures p.Value() == P.GenerateTxRequest(old(p.Value())).0
      ensures out.Outbound? && fresh(out.packet)
      ensures Matches(out, S.Outgoing(p.Value(), P.GenerateTxRequest(old(p.Value())).1), clock)
    {
      var packet := new Packet();
      p.GenerateTxRequest(packet, clock);
      out := Outbound(p.addr, packet);
    }

    /** A provider for a service at addr, started, and its first request. */
    method StartProvider(addr: SockAddr, clock: Clock) returns (p: HNodeProvider, out: Outbound)
      ensures fresh(p)
      ensures var (q, m) := P.GenerateTxRequest(P.Start(P.NewProvider(addr)).0);
              p.Value() == q && Matches(out, S.Outgoing(q, m), clock)
    {
      p := new HNodeProvider(addr);
      var signal := p.Start();
      out := ProviderTxReq(p, clock);
    }

    /** A service has been resolved at addr. */
    method ResolveCallback(addr: SockAddr, clock: Clock) returns (out: Outbound)
      requires Valid()
      modifies this`hNodeList
      ensures Valid() && Value() == S.Resolved(old(Value()), addr).0
      ensures Matches(out, S.Resolved(old(Value()), addr).1, clock)
    {
      var p;
      p, out := StartProvider(addr, clock);
      hNodeList := hNodeList + [p];
      assert Values(hNodeList) == old(Values(hNodeList)) + [p.Value()];
    }

    /** Every client is told; g are the objects they are made of then. */
    method TellAll(node: ProviderRef) returns (ghost g: set<object>)
      requires Valid()
      modifies clientRepr
      ensures L.Apart(clientList, g) && Apart(g) && Values(hNodeList) == old(Values(hNodeList))
      ensures L.Reports(clientList, g) == S.TellAll(old(L.Reports(clientList, clientRepr)), node)
    {
      g := L.TellAll(clientList, clientRepr, node);
    }

    /** Only the record of the clients' objects changes. */
    ghost method SetClientRepr(g: set<object>)
      requires L.Apart(clientList, g) && Apart(g)
      modifies this`clientRepr
      ensures clientRepr == g && L.Apart(clientList, g) && L.Reports(clientList, g) == old(L.Reports(clientList, g))
      ensures Values(hNodeList) == old(Values(hNodeList))
    {
      clientRepr := g;
    }

    /** Every client is told of a READY provider. */
    method TellClients(node: ProviderRef)
      requires Valid()
      modifies this`clientRepr, clientRepr
      ensures Valid() && Values(hNodeList) == old(Values(hNodeList))
      ensures L.Reports(clientList, clientRepr) == S.TellAll(old(L.Reports(clientList, clientRepr)), node)
    {
      ghost var g := TellAll(node);
      SetClientRepr(g);
    }

    /** The loop that looks for the provider a packet is for. */
    method FindClaimant(from: SockAddr) returns (i: nat)
      requires Valid()
      ensures i == S.Claimant(Value().providers, from)
    {
      ghost var ps := Value().providers;
      i := 0;
      assert ps[0..] == ps;
      while i < |hNodeList|
        invariant i <= |hNodeList|
        invariant S.Claimant(ps, from) == i + S.Claimant(ps[i..], from)
      {
        var mine := hNodeList[i].ClaimRxPacket(from);
        if mine { return; }
        assert ps[i..][1..] == ps[i + 1..];
        i := i + 1;
      }
    }

    /** Provider i has become another value; the other objects are as they were. */
    twostate lemma OnlyProvider(i: nat)
      requires old(Valid()) && i < |hNodeList| && hNodeList == old(hNodeList)
      requires forall j :: 0 <= j < |hNodeList| && j != i ==> hNodeList[j].Value() == old(hNodeList[j].Value())
      ensures Values(hNodeList) == old(Values(hNodeList))[i := hNodeList[i].Value()]
    {
    }

    /** The node may be claimed: it gets the next object ID and is told so. */
    method InfoCompleted(p: HNodeProvider, clock: Clock) returns (out: Outbound)
      requires Sendable(p.Value()) && p.txState == WaitClaim && nextProviderID < WORD
      modifies this`nextProviderID, p
      ensures nextProviderID == old(nextProviderID) + 1
      ensures var claimed := P.Claim(old(p.Value()), old(nextProviderID), debugPort, eventPort).0;
              && p.Value() == P.GenerateTxRequest(claimed).0
              && Matches(out, S.Outgoing(p.Value(), P.GenerateTxRequest(claimed).1), clock)
    {
      var signal := p.Claim(nextProviderID, debugPort, eventPort);
      out := ProviderTxReq(p, clock);
      nextProviderID := nextProviderID + 1;
    }

    /** Provider i asks for its request to be sent. */
    method OnTxRequest(i: nat, clock: Clock) returns (out: Outbound)
      requires Valid() && i < |hNodeList| && Sendable(hNodeList[i].Value())
      requires P.GenerateTxRequest(hNodeList[i].Value()).1.Some?
      modifies hNodeList[i]
      ensures Valid() && Value() == S.OnSignal(old(Value()), i, TxRequest).0
      ensures Matches(out, S.OnSignal(old(Value()), i, TxRequest).1, clock)
    {
      out := ProviderTxReq(hNodeList[i], clock);
      OnlyProvider(i);
    }

    /** Provider i knows its node and may be claimed. */
    method OnInfoComplete(i: nat, clock: Clock) returns (out: Outbound)
      requires Valid() && i < |hNodeList| && Sendable(hNodeList[i].Value()) && nextProviderID < WORD
      requires hNodeList[i].txState == WaitClaim
      modifies this`nextProviderID, hNodeList[i]
      ensures Valid() && Value() == S.OnSignal(old(Value()), i, InfoComplete).0
      ensures Matches(out, S.OnSignal(old(Value()), i, InfoComplete).1, clock)
    {
      out := InfoCompleted(hNodeList[i], clock);
      OnlyProvider(i);
    }

    /** Provider i has become READY. */
    method OnReady(i: nat)
      requires Valid() && i < |hNodeList|
      modifies this`clientRepr, clientRepr
      ensures Valid() && Value() == S.OnSignal(old(Value()), i, NowReady).0
    {
      TellClients(i);
    }

    /** What a signal of provider i makes the server do. */
    method OnSignal(i: nat, signal: Signal, clock: Clock) returns (out: Outbound)
      requires Valid() && i < |hNodeList| && Sendable(hNodeList[i].Value()) && nextProviderID < WORD
      requires signal == TxRequest ==> P.GenerateTxRequest(hNodeList[i].Value()).1.Some?
      requires signal == InfoComplete ==> hNodeList[i].txState == WaitClaim
      modifies this`nextProviderID, this`clientRepr, clientRepr, hNodeList[i]
      ensures Valid() && Value() == S.OnSignal(old(Value()), i, signal).0
      ensures Matches(out, S.OnSignal(old(Value()), i, signal).1, clock)
    {
      out := Nothing;
      match signal {
        case TxRequest => out := OnTxRequest(i, clock);
        case InfoComplete => out := OnInfoComplete(i, clock);
        case NowReady => OnReady(i);
        case Quiet =>
      }
    }

    /** The provider's own part of a reply. */
    method StoreReply(i: nat, packet: Packet, ghost r: Reply) returns (signal: Signal)
      requires Valid() && i < |hNodeList| && CanProcess(hNodeList[i].Value(), r)
      requires packet.Valid() && packet.curOffset == 0 && |packet.data| >= 1500 && ReplyAt(packet.data, r)
      requires packet !in clientRepr
      modifies hNodeList[i], packet`curOffset, packet`dataLength
      ensures Valid() && Value() == S.Stored(old(Value()), i, P.ProcessRxReply(old(hNodeList[i].Value()), r).0)
      ensures signal == P.ProcessRxReply(old(hNodeList[i].Value()), r).1
    {
      signal := hNodeList[i].ProcessRxReply(packet, r);
      OnlyProvider(i);
    }

    /** A reply for provider i; whatever it signals is acted on before the handler returns. */
    method ProviderRx(i: nat, packet: Packet, ghost r: Reply, clock: Clock) returns (out: Outbound)
      requires Valid() && i < |hNodeList| && Countable(hNodeList[i].Value()) && nextProviderID < WORD
      requires packet.Valid() && packet.curOffset == 0 && |packet.data| >= 1500 && ReplyAt(packet.data, r)
      requires packet !in clientRepr
      requires CanProcess(hNodeList[i].Value(), r)
      modifies this, clientRepr, hNodeList[i], packet`curOffset, packet`dataLength
      ensures Valid() && Value() == S.ProviderRx(old(Value()), i, r).0
      ensures Matches(out, S.ProviderRx(old(Value()), i, r).1, clock)
    {
      SignalMeans(hNodeList[i].Value(), r);
      var signal := StoreReply(i, packet, r);
      assert hNodeList[i].Value() == Value().providers[i];
      out := OnSignal(i, signal, clock);
    }

    /** g_hnode_server_hnoderx: the first provider with this address takes the packet. */
    method HNodeRx(packet: Packet, from: SockAddr, ghost r: Reply, clock: Clock) returns (out: Outbound)
      requires Valid() && nextProviderID < WORD
      requires forall i :: 0 <= i < |hNodeList| ==> Countable(hNodeList[i].Value())
      requires packet.Valid() && packet.curOffset == 0 && |packet.data| >= 1500 && ReplyAt(packet.data, r)
      requires packet !in clientRepr
      requires S.CanReceive(Value(), from, r)
      modifies this, clientRepr, hNodeList, packet`curOffset, packet`dataLength
      ensures Valid() && Value() == S.HNodeRx(old(Value()), from, r).0
      ensures Matches(out, S.HNodeRx(old(Value()), from, r).1, clock)
    {
      var i := FindClaimant(from);
      out := Nothing;
      if i < |hNodeList| { out := ProviderRx(i, packet, r, clock); }
    }

    /** A client that is being made is given provider i if that is READY. */
    static method Greet(client: Client, p: HNodeProvider, i: nat, ghost ps: seq<P.Provider>)
      requires client.Valid() && i < |ps| && ps[i] == p.Value() && client.Value() == S.WithReady(ps, i)
      modifies client.Repr()
      ensures client.Valid() && fresh(client.Repr() - old(client.Repr())) && client.Value() == S.WithReady(ps, i + 1)
    {
      var ready := p.IsReady();
      if ready { client.AddNode(i); }
    }

    /** The loop that gives a new client the READY ones of these providers. */
    static method GreetedClient(list: seq<HNodeProvider>) returns (client: Client)
      ensures client.Valid() && fresh(client.Repr())
      ensures client.Value() == S.WithReady(Values(list), |list|)
    {
      ghost var ps := Values(list);
      client := new Client();
      for i := 0 to |list|
        invariant client.Valid() && fresh(client.Repr()) && client.Value() == S.WithReady(ps, i)
      {
        Greet(client, list[i], i, ps);
      }
    }

    /** A client with objects of its own joins the list. */
    method Enlist(client: Client)
      requires Valid() && client.Valid() && client.Repr() !! clientRepr && Apart(client.Repr())
      modifies this`clientList, this`clientRepr
      ensures Valid() && Value() == old(Value()).(clients := old(Value()).clients + [old(client.Value())])
    {
      L.Added(clientList, clientRepr, client);
      clientList := clientList + [client];
      clientRepr := clientRepr + client.Repr();
    }

    /** g_hnode_server_newsrc: the new client is given the READY providers and started. */
    method NewSrc()
      requires Valid()
      modifies this`clientList, this`clientRepr
      ensures Valid() && Value() == S.NewSrc(old(Value()))
    {
      var client := GreetedClient(hNodeList);
      client.Start();
      Enlist(client);
    }

    /** g_hnode_server_client_state: client k is gone. */
    method ClientState(k: nat)
      requires Valid() && k < |clientList|
      modifies this`clientList
      ensures Valid() && Value() == S.Step(old(Value()), S.Closed(k)).0
    {
      L.Removed(clientList, clientRepr, k);
      clientList := clientList[..k] + clientList[k + 1..];
    }

    /** Every client is offered the frame. */
    method OfferFrame(frame: DebugFrame)
      requires Valid()
      modifies clientRepr
      ensures Valid() && Values(hNodeList) == old(Values(hNodeList))
      ensures L.Reports(clientList, clientRepr) == S.ForwardAll(old(L.Reports(clientList, clientRepr)), frame)
    {
      L.ForwardAll(clientList, clientRepr, frame);
    }

    static lemma DebugStep(s: S.Server, frame: DebugFrame)
      ensures S.Step(s, S.DebugRx(frame)) == (s.(clients := S.ForwardAll(s.clients, frame)), [])
    {
    }

    /** g_hnode_server_debugrx. */
    method ForwardDebug(frame: DebugFrame)
      requires Valid()
      modifies clientRepr
      ensures Valid() && Value() == S.Step(old(Value()), S.DebugRx(frame)).0
    {
      DebugStep(Value(), frame);
      ghost var s := Value();
      OfferFrame(frame);
      assert Value() == s.(clients := S.ForwardAll(s.clients, frame));
    }

    /** A request on the link of client k. */
    method Request(k: nat, reqType: u32, ioTag: u32)
      requires Valid() && S.Enabled(Value(), S.Request(k, reqType, ioTag))
      modifies clientList[k].Repr()
      ensures Valid() && Value() == S.Step(old(Value()), S.Request(k, reqType, ioTag)).0
    {
      L.Request(clientList, clientRepr, k, reqType, ioTag);
    }

    /** A completion on the link of client k. */
    method Sent(k: nat)
      requires Valid() && S.Enabled(Value(), S.Sent(k))
      modifies clientList[k].Repr()
      ensures Valid() && Value() == S.Step(old(Value()), S.Sent(k)).0
    {
      L.Sent(clientList, clientRepr, k);
    }
  }
}
