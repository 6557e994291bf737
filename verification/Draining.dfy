// What a link still has to send, and that nothing but sends on it is needed: every run of them is bounded, and it can
// only stop when everything has been sent.

module Draining {
  import opened Basics
  import opened Mgmt
  import opened WholeSystem
  import opened WholeSystemLinks
  import opened EndToEnd
  import opened P = Provider
  import C = ClientReport
  import S = Server
  import T = TxStream

  // ---- the packets a client will have sent when its link is drained ----

  /** The reports that are not queued yet, in list order. */
  function Future(c: C.Report): (r: seq<MgmtPkt>)
    requires 0 <= c.nextIOTag <= |c.nodeList|
    ensures |r| == if c.reportNodes then |c.nodeList| - c.nextIOTag else 0
  {
    seq(if c.reportNodes then |c.nodeList| - c.nextIOTag else 0, i requires 0 <= i < |c.nodeList| - c.nextIOTag =>
      NodePkt(c.nextIOTag + i, c.nextIOTag + i, c.nodeList[c.nextIOTag + i].node))
  }

  function ToSend(c: C.Report): seq<MgmtPkt>
    requires 0 <= c.nextIOTag <= |c.nodeList|
  {
    c.queue + Future(c)
  }

  lemma TagsFit(c: C.Report)
    requires C.ListOk(c)
    ensures c.nextIOTag <= |c.nodeList|
  {
  }

  /** Same nodes, tags and flag: the same future. */
  lemma SameFuture(c: C.Report, d: C.Report)
    requires c.nextIOTag <= |c.nodeList| == |d.nodeList| && d.nextIOTag == c.nextIOTag && d.reportNodes == c.reportNodes
    requires forall i :: 0 <= i < |c.nodeList| ==> d.nodeList[i].node == c.nodeList[i].node
    ensures Future(d) == Future(c)
  {
  }

  lemma ExposeFuture(c: C.Report)
    requires C.ListOk(c) && c.state == C.Idle && c.reportNodes && c.updateNodeCount != 0
    ensures var d := C.BuildUpdate(c);
            && d.nextIOTag <= |d.nodeList| && c.nextIOTag <= |c.nodeList|
            && ToSend(d) == ToSend(c)
  {
    C.BuildUpdateKeeps(c);
    var d := C.BuildUpdate(c);
    var p := NodePkt(c.nextIOTag, c.nextIOTag, c.nodeList[c.nextIOTag].node);
    assert Future(c) == [p] + Future(d);
    Assoc(c.queue, [p], Future(d));
  }

  lemma EndFuture(c: C.Report)
    requires C.Inv(c) && C.Enabled(c, C.TxDone)
    ensures var b := C.EndUpdate(c.(queue := c.queue[1..]));
            && c.nextIOTag <= |c.nodeList| && b.nextIOTag <= |b.nodeList|
            && ToSend(c) != [] && ToSend(b) == ToSend(c)[1..] && C.ListOk(b) && b.state == C.Idle
  {
    C.EndUpdateKeeps(c);
    SameFuture(c, C.EndUpdate(c.(queue := c.queue[1..])));
  }

  /** A completion, of whatever packet, takes the first of them away and leaves the others in place. */
  lemma CompletionSends(c: C.Report)
    requires C.Inv(c) && C.Enabled(c, C.TxDone)
    ensures var d := C.Step(c, C.TxDone);
            && c.nextIOTag <= |c.nodeList| && d.nextIOTag <= |d.nodeList|
            && ToSend(c) != [] && ToSend(d) == ToSend(c)[1..]
  {
    EndFuture(c);
    C.TxDoneKeeps(c);
    var b := C.EndUpdate(c.(queue := c.queue[1..]));
    if b.updateNodeCount != 0 && b.reportNodes { ExposeFuture(b); }
  }

  // ---- how much work that is for the link ----

  /** Picks, bytes and completions for these packets. */
  function Cost(bs: seq<Bytes>): nat {
    if bs == [] then 0 else |bs[0]| + 2 + Cost(bs[1..])
  }

  /** Dispatches still to come at most, if each moves. */
  function Work(w: World, k: nat): int
    requires k < |w.links| && k < |w.s.clients| && 0 <= w.s.clients[k].nextIOTag <= |w.s.clients[k].nodeList|
  {
    Cost(Payloads(w.s.providers, ToSend(w.s.clients[k]))) - T.Progress(w.links[k])
  }

  ghost predicate LinkIn(w: World, k: nat) {
    WorldInv(w) && k < |w.links| && k < |w.s.clients| && w.s.clients[k].nextIOTag <= |w.s.clients[k].nodeList|
  }

  lemma LinkIsIn(w: World, k: nat)
    requires WorldInv(w) && k < |w.links|
    ensures LinkIn(w, k)
  {
    assert S.ClientOk(w.s.clients[k], w.s.providers);
    TagsFit(w.s.clients[k]);
  }

  /** The queue of the link is the beginning of what is to be sent. */
  lemma FirstToSend(w: World, k: nat)
    requires LinkIn(w, k) && w.links[k].queue != []
    ensures var bs := Payloads(w.s.providers, ToSend(w.s.clients[k]));
            && bs != [] && bs[0] == w.links[k].queue[0] && bs[1..] ==
              Payloads(w.s.providers, ToSend(w.s.clients[k])[1..])
  {
    assert Synced(w.links[k], w.s.clients[k], w.s.providers);
    assert ToSend(w.s.clients[k])[0] == w.s.clients[k].queue[0];
    PayloadsTail(w.s.providers, ToSend(w.s.clients[k]));
  }

  lemma WorkIsThere(w: World, k: nat)
    requires LinkIn(w, k)
    ensures Work(w, k) >= 0
  {
    assert Synced(w.links[k], w.s.clients[k], w.s.providers);
    T.ProgressBound(w.links[k]);
    if w.links[k].queue != [] { FirstToSend(w, k); }
  }

  /** A dispatch on link k, seen from the client and the link. */
  lemma LinkOutDoes(w: World, k: nat, n: nat)
    requires Enabled(w, LinkOut(k, n))
    ensures var u := Step(w, LinkOut(k, n));
            && u.s.providers == w.s.providers && k < |u.links| == |w.links|
              && |u.s.clients| == |w.s.clients| == |w.links|
            && if T.Completes(w.links[k], n) then
                 && C.Enabled(w.s.clients[k], C.TxDone) && u.s.clients[k] == C.Step(w.s.clients[k], C.TxDone)
                 && u.links[k] == T.Dispatch(w.links[k], n, Payloads(w.s.providers,
                   NewPkts(w.s.clients[k], u.s.clients[k])))
               else
                 u.s == w.s && u.links[k] == T.Dispatch(w.links[k], n, [])
  {
  }

  lemma PartWorks(w: World, k: nat, n: nat)
    requires LinkIn(w, k) && T.Moves(w.links[k], n) && Enabled(w, LinkOut(k, n)) && !T.Completes(w.links[k], n)
    ensures var u := Step(w, LinkOut(k, n));
            k < |u.links| && u.s == w.s && Work(u, k) < Work(w, k)
  {
    assert Synced(w.links[k], w.s.clients[k], w.s.providers);
    LinkOutDoes(w, k, n);
    T.DispatchAdvances(w.links[k], n, []);
  }

  lemma CompletionWorks(w: World, k: nat, n: nat)
    requires LinkIn(w, k) && T.Moves(w.links[k], n) && Enabled(w, LinkOut(k, n)) && T.Completes(w.links[k], n)
    ensures var u := Step(w, LinkOut(k, n));
            && k < |u.links| && k < |u.s.clients| && u.s.clients[k].nextIOTag <= |u.s.clients[k].nodeList|
            && u.s.providers == w.s.providers && u.s.clients[k].reportNodes == w.s.clients[k].reportNodes
            && Work(u, k) < Work(w, k)
  {
    var c := w.s.clients[k];
    var u := Step(w, LinkOut(k, n));
    assert Synced(w.links[k], c, w.s.providers) && S.ClientOk(c, w.s.providers);
    LinkOutDoes(w, k, n);
    CompletionSends(c);
    C.CompletionShrinksBacklog(c);
    T.ProgressBound(w.links[k]);
    T.DispatchAdvances(w.links[k], n, Payloads(w.s.providers, NewPkts(c, u.s.clients[k])));
    FirstToSend(w, k);
  }

  /** Every move takes some of the work away. */
  lemma MoveWorks(w: World, k: nat, n: nat)
    requires LinkIn(w, k) && T.Moves(w.links[k], n) && Enabled(w, LinkOut(k, n))
    ensures var u := Step(w, LinkOut(k, n));
            && LinkIn(u, k) && Work(u, k) < Work(w, k)
            && u.s.providers == w.s.providers && u.s.clients[k].reportNodes == w.s.clients[k].reportNodes
  {
    StepKeepsWorld(w, LinkOut(k, n));
    if T.Completes(w.links[k], n) { CompletionWorks(w, k, n); } else { PartWorks(w, k, n); }
  }

  // ---- every run of sends ends, and only when all is sent ----

  /** Nothing happens but dispatches on link k, each of which moves. */
  predicate Moving(w: World, es: seq<Event>, k: nat)
    requires IsRun(w, es)
    decreases es
  {
    es == [] ||
    (es[0].LinkOut? && es[0].k == k && k < |w.links| && T.Moves(w.links[k], es[0].n)
      && Moving(Step(w, es[0]), es[1..], k))
  }

  lemma {:induction false} MovingWorks(w: World, es: seq<Event>, k: nat)
    requires LinkIn(w, k) && IsRun(w, es) && Moving(w, es, k)
    ensures var u := Run(w, es);
            && LinkIn(u, k) && |es| <= Work(w, k) - Work(u, k)
            && u.s.providers == w.s.providers && u.s.clients[k].reportNodes == w.s.clients[k].reportNodes
    decreases es
  {
    if es != [] {
      MoveWorks(w, k, es[0].n);
      MovingWorks(Step(w, es[0]), es[1..], k);
    }
  }

  ghost predicate CanGoOn(w: World, k: nat)
    requires k < |w.links|
  {
    exists n: nat :: T.Moves(w.links[k], n) && Enabled(w, LinkOut(k, n))
  }

  lemma GoesOn(w: World, k: nat)
    requires LinkIn(w, k) && w.links[k].queue != []
    ensures CanGoOn(w, k)
  {
    assert Synced(w.links[k], w.s.clients[k], w.s.providers);
    var n := T.CanMove(w.links[k]);
    ClientCanFinish(w, k);
    LinkOutIs(w, k, n);
  }

  /** Whatever sizes the socket takes: from every reachable state at most Work sends follow each other on a link, they
      can go on as long as its queue is not empty, and when it is, the browser of a reporting client knows every
      READY provider. */
  lemma EveryDrainCatchesUp(nodes: map<SockAddr, Node>, debugPort: u16, eventPort: u16, es: seq<Event>,
      more: seq<Event>, k: nat)
    requires NodesOk(nodes) && IsRun(Begin(nodes, debugPort, eventPort), es)
    requires IsRun(Run(Begin(nodes, debugPort, eventPort), es), more)
    requires k < |Run(Begin(nodes, debugPort, eventPort), es).links|
    requires Moving(Run(Begin(nodes, debugPort, eventPort), es), more, k)
    ensures var w := Run(Begin(nodes, debugPort, eventPort), es);
            var u := Run(w, more);
            && LinkIn(w, k) && |more| <= Work(w, k)
            && k < |u.links| && k < |u.s.clients| && u.s.providers == w.s.providers
            && (if u.links[k].queue != [] then CanGoOn(u, k)
                else w.s.clients[k].reportNodes && ClientFits(u, k) ==>
                  forall i :: 0 <= i < |w.s.providers| && w.s.providers[i].txState == Ready ==> KnowsProvider(u, k, i))
  {
    var start := Begin(nodes, debugPort, eventPort);
    var w := Run(start, es);
    var u := Run(w, more);
    BeginOk(nodes, debugPort, eventPort);
    RunKeepsWorld(start, es);
    LinkIsIn(w, k);
    MovingWorks(w, more, k);
    WorkIsThere(u, k);
    RunsJoin(start, es, more);
    if u.links[k].queue != [] {
      GoesOn(u, k);
    } else if w.s.clients[k].reportNodes && ClientFits(u, k) {
      forall i | 0 <= i < |w.s.providers| && w.s.providers[i].txState == Ready ensures KnowsProvider(u, k, i) {
        DrainedBrowserKnowsAll(nodes, debugPort, eventPort, es + more, k, i);
      }
    }
  }
}
