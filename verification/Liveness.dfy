// From a node on the network to an entry in a browser: the whole way can always be gone.

module Liveness {
  import opened Basics
  import opened NodeCodec
  import opened WholeSystem
  import opened WholeSystemLinks
  import opened WholeSystemProgress
  import opened EndToEnd
  import opened P = Provider
  import C = ClientReport
  import S = Server

  /** Client k is still connected and still wants reports. */
  ghost predicate Reporting(w: World, k: nat) {
    k < |w.s.clients| && w.s.clients[k].reportNodes
  }

  lemma ReceivedKeepsClient(s: S.Server, from: SockAddr, r: Reply, k: nat)
    requires S.CanReceive(s, from, r) && k < |s.clients| && s.clients[k].reportNodes
    ensures k < |S.HNodeRx(s, from, r).0.clients| && S.HNodeRx(s, from, r).0.clients[k].reportNodes
  {
  }

  lemma DeliveryKeepsClient(w: World, e: Event, k: nat)
    requires Enabled(w, e) && (e.NodeGets? || e.ServerGets?) && Reporting(w, k)
    ensures Reporting(Step(w, e), k)
  {
    if e.ServerGets? {
      ReceivedKeepsClient(w.s, e.from, e.r, k);
    }
  }

  lemma {:induction false} DeliveriesKeepClient(w: World, es: seq<Event>, a: SockAddr, k: nat)
    requires IsRun(w, es) && OnlyDeliveries(es, a) && Reporting(w, k)
    ensures Reporting(Run(w, es), k)
    decreases es
  {
    if es != [] {
      assert es[0] in es;
      DeliveryKeepsClient(w, es[0], k);
      forall e | e in es[1..] ensures (e.NodeGets? && e.to == a) || (e.ServerGets? && e.from == a) { assert e in es; }
      DeliveriesKeepClient(Step(w, es[0]), es[1..], a, k);
    }
  }

  /** Provider i becomes READY with client k still reporting. */
  lemma IsClaimed(w: World, i: nat, k: nat) returns (es: seq<Event>)
    requires WorldInv(w) && OnTheWay(w, i) && Reporting(w, k)
    ensures IsRun(w, es) && WorldInv(Run(w, es)) && Reporting(Run(w, es), k)
    ensures OnlyThis(w, Run(w, es), i) && IsReady(Run(w, es), i)
  {
    es := BecomesReady(w, i);
    DeliveriesKeepClient(w, es, w.s.providers[i].addr, k);
  }

  /** After this run the browser of client k has an entry for provider i, which is at address a. */
  ghost predicate BrowserHas(nodes: map<SockAddr, Node>, debugPort: u16, eventPort: u16, es: seq<Event>, a: SockAddr,
      i: nat, k: nat)
  {
    && IsRun(Begin(nodes, debugPort, eventPort), es)
    && var u := Run(Begin(nodes, debugPort, eventPort), es);
    && IsReady(u, i) && u.s.providers[i].addr == a
    && k < |u.s.clients| && k < |u.links| && (ClientFits(u, k) ==> KnowsProvider(u, k, i))
  }

  /** From every reachable state in which it is on its way: the node of provider i is brought, by its own handshake
      and then by sends on the client's link alone, into the list of every browser that wants reports. */
  lemma NodeReachesBrowser(nodes: map<SockAddr, Node>, debugPort: u16, eventPort: u16, es: seq<Event>, i: nat, k: nat)
    returns (more: seq<Event>)
    requires NodesOk(nodes) && IsRun(Begin(nodes, debugPort, eventPort), es)
    requires OnTheWay(Run(Begin(nodes, debugPort, eventPort), es), i)
             && Reporting(Run(Begin(nodes, debugPort, eventPort), es), k)
    ensures BrowserHas(nodes, debugPort, eventPort, es + more,
            Run(Begin(nodes, debugPort, eventPort), es).s.providers[i].addr, i, k)
  {
    var start := Begin(nodes, debugPort, eventPort);
    var w := Run(start, es);
    BeginOk(nodes, debugPort, eventPort);
    RunKeepsWorld(start, es);
    RunAnnouncements(start, es);
    var claim := IsClaimed(w, i, k);
    RunsJoin(start, es, claim);
    var drain := BrowserCatchesUp(nodes, debugPort, eventPort, es + claim, k);
    Assoc(es, claim, drain);
    more := claim + drain;
  }

  /** In particular a node none of whose datagrams has been lost, whatever has been copied or overtaken. */
  lemma UnlostNodeReachesBrowser(nodes: map<SockAddr, Node>, debugPort: u16, eventPort: u16, es: seq<Event>, i: nat,
      k: nat)
    returns (more: seq<Event>)
    requires NodesOk(nodes) && IsRun(Begin(nodes, debugPort, eventPort), es)
    requires Listens(Run(Begin(nodes, debugPort, eventPort), es), i)
             && Reporting(Run(Begin(nodes, debugPort, eventPort), es), k)
    requires NothingLost(es, Run(Begin(nodes, debugPort, eventPort), es).s.providers[i].addr)
    ensures BrowserHas(nodes, debugPort, eventPort, es + more,
            Run(Begin(nodes, debugPort, eventPort), es).s.providers[i].addr, i, k)
  {
    UnlostIsOnTheWay(nodes, debugPort, eventPort, es, i);
    more := NodeReachesBrowser(nodes, debugPort, eventPort, es, i, k);
  }

  lemma FoundInRun(w: World, es: seq<Event>, a: SockAddr, k: nat)
    requires WorldInv(w) && IsRun(w, es) && WorldInv(Run(w, es)) && a in Run(w, es).nodes && Reporting(Run(w, es), k)
    requires S.Claimant(Run(w, es).s.providers, a) == |Run(w, es).s.providers|
    ensures var n := |Run(w, es).s.providers|;
            && IsRun(w, es + [Local(S.Found(a))])
            && var u := Run(w, es + [Local(S.Found(a))]);
            OnTheWay(u, n) && n < |u.s.providers| && u.s.providers[n].addr == a && Reporting(u, k)
  {
    FoundIsOnTheWay(Run(w, es), a);
    OneStep(Run(w, es), Local(S.Found(a)));
    RunsJoin(w, es, [Local(S.Found(a))]);
  }

  /** From every reachable state, whatever has been lost before: a node that has just been resolved at a new address
      can be brought into the list of every browser that wants reports. */
  lemma NewNodeReachesBrowser(nodes: map<SockAddr, Node>, debugPort: u16, eventPort: u16, es: seq<Event>, a: SockAddr,
      k: nat)
    returns (more: seq<Event>)
    requires NodesOk(nodes) && IsRun(Begin(nodes, debugPort, eventPort), es)
    requires a in nodes && Reporting(Run(Begin(nodes, debugPort, eventPort), es), k)
    requires S.Claimant(Run(Begin(nodes, debugPort, eventPort), es).s.providers, a) ==
             |Run(Begin(nodes, debugPort, eventPort), es).s.providers|
    ensures BrowserHas(nodes, debugPort, eventPort, es + more, a,
            |Run(Begin(nodes, debugPort, eventPort), es).s.providers|, k)
  {
    var start := Begin(nodes, debugPort, eventPort);
    var found := [Local(S.Found(a))];
    BeginOk(nodes, debugPort, eventPort);
    RunKeepsWorld(start, es);
    RunAnnouncements(start, es);
    FoundInRun(start, es, a, k);
    var rest := NodeReachesBrowser(nodes, debugPort, eventPort, es + found, |Run(start, es).s.providers|, k);
    Assoc(es, found, rest);
    more := found + rest;
  }
}
