// When READY means that the node has been claimed, in the whole system: exactly when no datagram of the node is copied
// and its address is found only once.

module WholeSystemTrust {
  import opened Basics
  import opened NodeCodec
  import opened WholeSystem
  import opened WholeSystemLinks
  import opened WholeSystemProgress
  import opened WholeSystemClaims
  import opened P = Provider
  import H = Handshake
  import HP = HandshakeProgress
  import S = Server

  // ---- without copies and second findings: one datagram at a time ----

  ghost predicate NoneAt(net: multiset<Envelope>, a: SockAddr) {
    forall m :: m in net ==> AddrOf(m) != a
  }

  ghost predicate OnlyAt(net: multiset<Envelope>, a: SockAddr, m: Envelope) {
    AddrOf(m) == a && net[m] == 1 && forall x :: x in net && AddrOf(x) == a ==> x == m
  }

  ghost predicate OnlyAnswer(w: World, a: SockAddr, p: Provider, r: Reply)
    requires a in w.nodes
  {
    OnlyAt(w.net, a, ToServer(a, r)) && Wants(p, r) && (p.txState == WaitSysInfoAck ==> HP.Claimed(w.nodes[a], p))
  }

  /** Of the datagrams from and to this address there is at most one: the outstanding request or an answer to it. */
  ghost predicate OneMessage(w: World, a: SockAddr)
    requires a in w.nodes
  {
    match ClaimantOf(w, a)
    case None => NoneAt(w.net, a)
    case Some(p) =>
      && p.txState in {WaitPInfoRpy, WaitEPointRpy, WaitSysInfoAck, Ready}
      && if p.txState == Ready then NoneAt(w.net, a) && HP.Claimed(w.nodes[a], p)
         else
           || NoneAt(w.net, a)
           || OnlyAt(w.net, a, ToNode(a, HP.Outstanding(p)))
           || exists r :: OnlyAnswer(w, a, p, r)
  }

  lemma SameOneMessage(w: World, u: World, a: SockAddr)
    requires a in w.nodes && SameView(w, u, a) && OneMessage(w, a)
    ensures OneMessage(u, a)
  {
    forall m | m in u.net && AddrOf(m) == a ensures m in w.net { assert u.net[m] == w.net[m]; }
    if ClaimantOf(w, a).Some? && ClaimantOf(w, a).value.txState != Ready {
      var p := ClaimantOf(w, a).value;
      if OnlyAt(w.net, a, ToNode(a, HP.Outstanding(p))) {
        assert OnlyAt(u.net, a, ToNode(a, HP.Outstanding(p)));
      } else if r :| OnlyAnswer(w, a, p, r) {
        assert OnlyAnswer(u, a, p, r);
      }
    }
  }

  lemma Replaced(net: multiset<Envelope>, a: SockAddr, m: Envelope, x: Envelope)
    requires OnlyAt(net, a, m) && AddrOf(x) == a
    ensures NoneAt(net - multiset{m}, a) && OnlyAt(net - multiset{m} + multiset{x}, a, x)
  {
    var rest := net - multiset{m};
    forall y | y in rest ensures AddrOf(y) != a { assert y in net; }
    assert x !in rest;
  }

  lemma NodeGetsOne(w: World, a: SockAddr, q: Request)
    requires WorldInv(w) && Enabled(w, NodeGets(a, q)) && OneMessage(w, a)
    ensures OneMessage(Step(w, NodeGets(a, q)), a)
  {
    var u := Step(w, NodeGets(a, q));
    var m := ToNode(a, q);
    assert m in w.net && AddrOf(m) == a;
    var p := ClaimantOf(w, a).value;
    assert q == HP.Outstanding(p);
    var r := Answer(w.nodes[a], q).1;
    AnswerIsWanted(p, w.nodes[a], q);
    Replaced(w.net, a, m, ToServer(a, r));
    assert OnlyAnswer(u, a, p, r);
  }

  lemma ServerGetsOne(w: World, a: SockAddr, r: Reply)
    requires WorldInv(w) && Enabled(w, ServerGets(a, r)) && a in w.nodes && OneMessage(w, a)
    ensures a in Step(w, ServerGets(a, r)).nodes && OneMessage(Step(w, ServerGets(a, r)), a)
    ensures ClaimantOf(Step(w, ServerGets(a, r)), a).Some? && ClaimantOf(w, a).Some?
  {
    var u := Step(w, ServerGets(a, r));
    var m := ToServer(a, r);
    assert m in w.net && AddrOf(m) == a;
    var p := ClaimantOf(w, a).value;
    assert OnlyAnswer(w, a, p, r);
    WantedReply(w, a, r, a);
    ReplyClaims(w, a, r);
    var q := ClaimantOf(u, a).value;
    Replaced(w.net, a, m, if q.txState == Ready then m else ToNode(a, HP.Outstanding(q)));
  }

  lemma LostOne(w: World, m: Envelope, a: SockAddr)
    requires a in w.nodes && OneMessage(w, a) && m in w.net && AddrOf(m) == a
    ensures OneMessage(w.(net := w.net - multiset{m}), a)
  {
    assert OnlyAt(w.net, a, m);
    Replaced(w.net, a, m, m);
  }

  lemma FoundOne(w: World, a: SockAddr)
    requires WorldInv(w) && a in w.nodes && OneMessage(w, a) && ClaimantOf(w, a).None?
    ensures a in Step(w, Local(S.Found(a))).nodes && OneMessage(Step(w, Local(S.Found(a))), a)
  {
    var u := Step(w, Local(S.Found(a)));
    FoundStep(w, a);
    ClaimantGrown(w.s.providers, u.s.providers[|w.s.providers|], a);
    var p := u.s.providers[|w.s.providers|];
    assert OnlyAt(u.net, a, ToNode(a, HP.Outstanding(p)));
  }

  predicate Copies(e: Event, a: SockAddr) {
    e.Copied? && AddrOf(e.m) == a
  }

  lemma ElsewhereOne(w: World, e: Event, a: SockAddr)
    requires WorldInv(w) && Enabled(w, e) && a in w.nodes && OneMessage(w, a) && EventAddr(e) != Some(a)
    ensures a in Step(w, e).nodes && OneMessage(Step(w, e), a) && ClaimantOf(Step(w, e), a) == ClaimantOf(w, a)
  {
    Elsewhere(w, e, a);
    SameOneMessage(w, Step(w, e), a);
  }

  lemma StepOne(w: World, e: Event, a: SockAddr)
    requires WorldInv(w) && Enabled(w, e) && a in w.nodes && OneMessage(w, a)
    requires !Copies(e, a) && (Finds(e, a) ==> ClaimantOf(w, a).None?)
    ensures a in Step(w, e).nodes && OneMessage(Step(w, e), a)
    ensures !Finds(e, a) ==> (ClaimantOf(Step(w, e), a).Some? <==> ClaimantOf(w, a).Some?)
  {
    if EventAddr(e) != Some(a) {
      ElsewhereOne(w, e, a);
    } else {
      match e
      case NodeGets(_, q) => NodeGetsOne(w, a, q);
      case ServerGets(_, r) => ServerGetsOne(w, a, r);
      case Lost(m) => LostOne(w, m, a);
      case Local(l) => FoundOne(w, a);
    }
  }

  predicate NothingCopied(es: seq<Event>, a: SockAddr) {
    forall e :: e in es ==> !Copies(e, a)
  }

  predicate NotFound(es: seq<Event>, a: SockAddr) {
    forall e :: e in es ==> !Finds(e, a)
  }

  predicate FoundOnce(es: seq<Event>, a: SockAddr) {
    forall i, j :: 0 <= i < j < |es| && Finds(es[i], a) ==> !Finds(es[j], a)
  }

  lemma FoundOnceTail(es: seq<Event>, a: SockAddr)
    requires es != [] && FoundOnce(es, a)
    ensures FoundOnce(es[1..], a) && (Finds(es[0], a) ==> NotFound(es[1..], a))
  {
    if Finds(es[0], a) {
      forall e | e in es[1..] ensures !Finds(e, a) {
        var j :| 0 <= j < |es[1..]| && es[1..][j] == e;
        assert es[j + 1] == e;
      }
    }
  }

  lemma {:induction false} RunOne(w: World, es: seq<Event>, a: SockAddr)
    requires WorldInv(w) && IsRun(w, es) && a in w.nodes && OneMessage(w, a)
    requires NothingCopied(es, a) && FoundOnce(es, a) && (ClaimantOf(w, a).Some? ==> NotFound(es, a))
    ensures a in Run(w, es).nodes && OneMessage(Run(w, es), a)
    decreases es
  {
    if es != [] {
      FoundOnceTail(es, a);
      assert es[0] in es && forall e :: e in es[1..] ==> e in es;
      StepKeepsWorld(w, es[0]);
      StepOne(w, es[0], a);
      RunOne(Step(w, es[0]), es[1..], a);
    }
  }

  /** Every READY provider at this address has told the node there its identity and ports. */
  ghost predicate Trusted(w: World, a: SockAddr) {
    forall i :: 0 <= i < |w.s.providers| && w.s.providers[i].addr == a && w.s.providers[i].txState == Ready ==>
      a in w.nodes && HP.Claimed(w.nodes[a], w.s.providers[i])
  }

  /** Only the provider that gets the packets can be READY. */
  lemma ReadyIsClaimant(w: World, i: nat)
    requires Started(w) && IsReady(w, i)
    ensures w.s.providers[i].addr in w.nodes && ClaimantOf(w, w.s.providers[i].addr) == Some(w.s.providers[i])
  {
    assert Listens(w, i);
  }

  /** In a run in which no datagram of a node is copied and its address is found only once, READY means that the node
      holds the claim. */
  lemma ReadyIsClaimed(nodes: map<SockAddr, Node>, debugPort: u16, eventPort: u16, es: seq<Event>, a: SockAddr)
    requires NodesOk(nodes) && IsRun(Begin(nodes, debugPort, eventPort), es) && a in nodes
    requires NothingCopied(es, a) && FoundOnce(es, a)
    ensures Trusted(Run(Begin(nodes, debugPort, eventPort), es), a)
  {
    var start := Begin(nodes, debugPort, eventPort);
    var w := Run(start, es);
    BeginOk(nodes, debugPort, eventPort);
    RunOne(start, es, a);
    RunStarted(start, es);
    forall i | 0 <= i < |w.s.providers| && w.s.providers[i].addr == a && w.s.providers[i].txState == Ready
      ensures a in w.nodes && HP.Claimed(w.nodes[a], w.s.providers[i])
    {
      ReadyIsClaimant(w, i);
    }
  }

  // ---- with either: a second first reply overtakes the acknowledgement ----

  function FirstReply(n: Node): Reply {
    PInfoRpy(0, n.head)
  }

  /** The claim that provider i has been given, or will be given next. */
  ghost predicate WillClaim(w: World, i: nat, c: H.Claiming)
    requires i < |w.s.providers|
  {
    var p := w.s.providers[i];
    if Past(p) then p.serverObjID == c.serverObjID && p.debugPort == c.debugPort && p.eventPort == c.eventPort
    else c == H.Claiming(w.s.nextProviderID, w.s.debugPort, w.s.eventPort)
  }

  /** Provider i has taken the node's first reply, and there is another one behind. */
  ghost predicate CopyBehind(w: World, i: nat) {
    && Listens(w, i) && w.s.providers[i].txState in {WaitEPointRpy, WaitSysInfoAck}
    && ToServer(w.s.providers[i].addr, FirstReply(w.nodes[w.s.providers[i].addr])) in w.net
    && (w.s.providers[i].txState == WaitEPointRpy ==>
      ToNode(w.s.providers[i].addr, HP.Outstanding(w.s.providers[i])) in w.net)
  }

  /** The nodes are as they were, and provider i is at the same address. */
  ghost predicate Untold(w: World, u: World, i: nat) {
    && u.nodes == w.nodes && i < |w.s.providers| && i < |u.s.providers|
    && u.s.providers[i].addr == w.s.providers[i].addr
  }

  lemma ClaimStepWill(w: World, u: World, i: nat, c: H.Claiming)
    requires i < |w.s.providers| && i < |u.s.providers| && WillClaim(w, i, c)
    requires ClaimStep(w.s, u.s, w.s.providers[i], u.s.providers[i])
    ensures WillClaim(u, i, c)
  {
  }

  /** What a wanted reply does to provider i, which gets the packets from its address. */
  lemma TakenBy(w: World, i: nat, r: Reply)
    requires WorldInv(w) && Listens(w, i) && Wants(w.s.providers[i], r)
    requires Enabled(w, ServerGets(w.s.providers[i].addr, r))
    ensures var a := w.s.providers[i].addr;
            var u := Step(w, ServerGets(a, r));
            && Untold(w, u, i) && Listens(u, i)
            && var (p, q) := (w.s.providers[i], u.s.providers[i]);
            && ClaimStep(w.s, u.s, p, q)
            && q.txState in {WaitEPointRpy, WaitSysInfoAck, Ready}
              && (q.txState == Ready <==> p.txState == WaitSysInfoAck)
            && u.net == w.net - multiset{ToServer(a, r)} + Asked(q)
  {
    var a := w.s.providers[i].addr;
    ReplyTaken(w, a, r);
    ReplyClaims(w, a, r);
    ListensKept(w, Step(w, ServerGets(a, r)), i);
  }

  /** The server takes a wanted reply for provider i that is not the last copy of the first reply. */
  lemma TakeBefore(w: World, i: nat, r: Reply, c: H.Claiming)
    requires WorldInv(w) && Listens(w, i) && Wants(w.s.providers[i], r) && WillClaim(w, i, c)
    requires w.s.providers[i].txState in {WaitPInfoRpy, WaitEPointRpy}
    requires var a := w.s.providers[i].addr;
             var first := ToServer(a, FirstReply(w.nodes[a]));
             ToServer(a, r) in w.net && first in w.net - multiset{ToServer(a, r)}
    ensures var e := ServerGets(w.s.providers[i].addr, r);
            Enabled(w, e) && WorldInv(Step(w, e)) && Untold(w, Step(w, e), i) && WillClaim(Step(w, e), i, c)
            && CopyBehind(Step(w, e), i) && Remaining(Step(w, e), i) == Remaining(w, i) - 1
  {
    var a := w.s.providers[i].addr;
    HelpfulReply(w, i, r);
    TakenBy(w, i, r);
    var u := Step(w, ServerGets(a, r));
    ClaimStepWill(w, u, i, c);
    var q := u.s.providers[i];
    assert ToNode(a, HP.Outstanding(q)) in Asked(q);
  }

  /** The first reply ends the acknowledgement wait. */
  lemma FirstReplyEnds(w: World, i: nat, c: H.Claiming)
    requires WorldInv(w) && CopyBehind(w, i) && w.s.providers[i].txState == WaitSysInfoAck && WillClaim(w, i, c)
    ensures var e := ServerGets(w.s.providers[i].addr, FirstReply(w.nodes[w.s.providers[i].addr]));
            Enabled(w, e) && Untold(w, Step(w, e), i) && WillClaim(Step(w, e), i, c) && IsReady(Step(w, e), i)
  {
    var a := w.s.providers[i].addr;
    var r := FirstReply(w.nodes[a]);
    HelpfulReply(w, i, r);
    TakenBy(w, i, r);
    ClaimStepWill(w, Step(w, ServerGets(a, r)), i, c);
  }

  lemma AskAhead(w: World, i: nat) returns (r: Reply)
    requires WorldInv(w) && CopyBehind(w, i) && w.s.providers[i].txState == WaitEPointRpy
    ensures var (a, q) := (w.s.providers[i].addr, HP.Outstanding(w.s.providers[i]));
            && Enabled(w, NodeGets(a, q))
            && var u := Step(w, NodeGets(a, q));
            && WorldInv(u) && u.s == w.s && u.nodes == w.nodes && Listens(u, i) && Remaining(u, i) == Remaining(w, i)
            && Wants(w.s.providers[i], r) && ToServer(a, r) in u.net
            && ToServer(a, FirstReply(u.nodes[a])) in u.net - multiset{ToServer(a, r)}
  {
    r := HelpfulRequest(w, i, HP.Outstanding(w.s.providers[i]));
  }

  lemma AskAndTake(w: World, u: World, i: nat, q: Request, r: Reply) returns (es: seq<Event>)
    requires i < |w.s.providers| && Enabled(w, NodeGets(w.s.providers[i].addr, q))
    requires u == Step(w, NodeGets(w.s.providers[i].addr, q)) && Enabled(u, ServerGets(w.s.providers[i].addr, r))
    ensures IsRun(w, es) && OnlyDeliveries(es, w.s.providers[i].addr)
    ensures Run(w, es) == Step(u, ServerGets(w.s.providers[i].addr, r))
  {
    var a := w.s.providers[i].addr;
    TwoSteps(w, u, NodeGets(a, q), ServerGets(a, r));
    es := [NodeGets(a, q), ServerGets(a, r)];
  }

  /** One endpoint is asked for and answered; the copy stays where it is. */
  lemma ExchangeAhead(w: World, i: nat, c: H.Claiming) returns (es: seq<Event>)
    requires WorldInv(w) && CopyBehind(w, i) && w.s.providers[i].txState == WaitEPointRpy && WillClaim(w, i, c)
    ensures IsRun(w, es) && OnlyDeliveries(es, w.s.providers[i].addr)
    ensures var u := Run(w, es);
            && WorldInv(u) && Untold(w, u, i) && WillClaim(u, i, c)
            && CopyBehind(u, i) && Remaining(u, i) == Remaining(w, i) - 1
  {
    var a, q := w.s.providers[i].addr, HP.Outstanding(w.s.providers[i]);
    var r := AskAhead(w, i);
    var u := Step(w, NodeGets(a, q));
    TakeBefore(u, i, r, c);
    es := AskAndTake(w, u, i, q, r);
  }

  /** All endpoints are answered first, then the copy makes the provider READY; the node has heard nothing. */
  lemma {:induction false} CopyOvertakes(w: World, i: nat, c: H.Claiming) returns (es: seq<Event>)
    requires WorldInv(w) && CopyBehind(w, i) && WillClaim(w, i, c)
    ensures IsRun(w, es) && OnlyDeliveries(es, w.s.providers[i].addr)
    ensures Untold(w, Run(w, es), i) && WillClaim(Run(w, es), i, c) && IsReady(Run(w, es), i)
    decreases Remaining(w, i)
  {
    var a := w.s.providers[i].addr;
    if w.s.providers[i].txState == WaitSysInfoAck {
      FirstReplyEnds(w, i, c);
      es := [ServerGets(a, FirstReply(w.nodes[a]))];
      OneStep(w, es[0]);
    } else {
      SomethingLeft(w, i);
      es := ExchangeAhead(w, i, c);
      var rest := CopyOvertakes(Run(w, es), i, c);
      RunsJoin(w, es, rest);
      DeliveriesJoin(es, rest, a);
      es := es + rest;
    }
  }

  /** Provider i, just made, has two first replies to choose from. */
  ghost predicate TwoReplies(w: World, i: nat) {
    && Listens(w, i) && w.s.providers[i].txState == WaitPInfoRpy && w.s.providers[i].reqTag == 0
    && w.net[ToServer(w.s.providers[i].addr, FirstReply(w.nodes[w.s.providers[i].addr]))] >= 2
  }

  lemma TwoRepliesOvertake(w: World, i: nat) returns (es: seq<Event>)
    requires WorldInv(w) && TwoReplies(w, i)
    ensures IsRun(w, es) && OnlyDeliveries(es, w.s.providers[i].addr)
    ensures Untold(w, Run(w, es), i) && IsReady(Run(w, es), i)
    ensures WillClaim(Run(w, es), i, H.Claiming(w.s.nextProviderID, w.s.debugPort, w.s.eventPort))
  {
    var a := w.s.providers[i].addr;
    var r := FirstReply(w.nodes[a]);
    var c := H.Claiming(w.s.nextProviderID, w.s.debugPort, w.s.eventPort);
    TakeBefore(w, i, r, c);
    OneStep(w, ServerGets(a, r));
    var rest := CopyOvertakes(Step(w, ServerGets(a, r)), i, c);
    RunsJoin(w, [ServerGets(a, r)], rest);
    es := [ServerGets(a, r)] + rest;
  }

  // ---- how there come to be two first replies ----

  ghost predicate SameCounters(w: World, u: World) {
    u.s.nextProviderID == w.s.nextProviderID && u.s.debugPort == w.s.debugPort && u.s.eventPort == w.s.eventPort
  }

  /** The provider that was added last has just been made, and its first request is on the network n times. */
  ghost predicate JustFound(w: World, u: World, i: nat, n: nat) {
    && WorldInv(u) && u.nodes == w.nodes && SameCounters(w, u) && Listens(u, i)
    && u.s.providers[i].txState == WaitPInfoRpy && u.s.providers[i].reqTag == 0
    && u.net[ToNode(u.s.providers[i].addr, PInfoReq(0))] >= n
  }

  lemma FindFirst(w: World, a: SockAddr)
    requires WorldInv(w) && a in w.nodes && ClaimantOf(w, a).None?
    ensures var u := Step(w, Local(S.Found(a)));
            var i := |w.s.providers|;
            JustFound(w, u, i, 1) && u.s.providers[i].addr == a
  {
    FoundIsOnTheWay(w, a);
    FoundStep(w, a);
    NewClaimant(w.s.providers, Step(w, Local(S.Found(a))).s.providers[|w.s.providers|]);
  }

  lemma FindAgain(w: World, u: World, i: nat)
    requires JustFound(w, u, i, 1)
    ensures var v := Step(u, Local(S.Found(u.s.providers[i].addr)));
            JustFound(w, v, i, 2) && v.s.providers[i].addr == u.s.providers[i].addr
  {
    var e := Local(S.Found(u.s.providers[i].addr));
    FoundStep(u, u.s.providers[i].addr);
    StepKeepsWorld(u, e);
    ListensKept(u, Step(u, e), i);
  }

  /** The node answers one of the first requests. */
  lemma AnswerFirst(w: World, a: SockAddr)
    requires WorldInv(w) && a in w.nodes && ToNode(a, PInfoReq(0)) in w.net
    ensures var e := NodeGets(a, PInfoReq(0));
            && Enabled(w, e) && WorldInv(Step(w, e)) && Step(w, e).s == w.s && Step(w, e).nodes == w.nodes
            && Step(w, e).net == w.net - multiset{ToNode(a, PInfoReq(0))}
              + multiset{ToServer(a, FirstReply(w.nodes[a]))}
  {
    StepKeepsWorld(w, NodeGets(a, PInfoReq(0)));
  }

  /** The state in which there are two, which nothing but the new provider tells from the old one. */
  ghost predicate Doubled(w: World, u: World, a: SockAddr) {
    && WorldInv(u) && u.nodes == w.nodes && SameCounters(w, u)
    && TwoReplies(u, |w.s.providers|) && u.s.providers[|w.s.providers|].addr == a
  }

  /** The network copies the first reply. */
  lemma DoubledByCopy(w: World, a: SockAddr) returns (es: seq<Event>)
    requires WorldInv(w) && a in w.nodes && ClaimantOf(w, a).None?
    ensures IsRun(w, es) && Doubled(w, Run(w, es), a) && FoundOnce(es, a)
  {
    var found, asked, copied :=
      Local(S.Found(a)), NodeGets(a, PInfoReq(0)), Copied(ToServer(a, FirstReply(w.nodes[a])));
    FindFirst(w, a);
    var u := Step(w, found);
    AnswerFirst(u, a);
    var v := Step(u, asked);
    StepKeepsWorld(v, copied);
    TwoSteps(u, v, asked, copied);
    RunFirst(w, found, [asked, copied]);
    es := [found] + [asked, copied];
  }

  /** Both providers' first requests are answered. */
  lemma AnswerBoth(w: World, u: World, i: nat) returns (es: seq<Event>)
    requires JustFound(w, u, i, 2) && i == |w.s.providers|
    ensures IsRun(u, es) && Doubled(w, Run(u, es), u.s.providers[i].addr) && OnlyDeliveries(es, u.s.providers[i].addr)
  {
    var a := u.s.providers[i].addr;
    var asked := NodeGets(a, PInfoReq(0));
    AnswerFirst(u, a);
    var v := Step(u, asked);
    AnswerFirst(v, a);
    TwoSteps(u, v, asked, asked);
    es := [asked, asked];
  }

  lemma FindBoth(w: World, a: SockAddr) returns (es: seq<Event>)
    requires WorldInv(w) && a in w.nodes && ClaimantOf(w, a).None?
    ensures IsRun(w, es) && NothingCopied(es, a)
    ensures var (u, i) := (Run(w, es), |w.s.providers|);
            JustFound(w, u, i, 2) && u.s.providers[i].addr == a
  {
    var found := Local(S.Found(a));
    FindFirst(w, a);
    FindAgain(w, Step(w, found), |w.s.providers|);
    TwoSteps(w, Step(w, found), found, found);
    es := [found, found];
  }

  /** The service is found twice. */
  lemma DoubledByFinding(w: World, a: SockAddr) returns (es: seq<Event>)
    requires WorldInv(w) && a in w.nodes && ClaimantOf(w, a).None?
    ensures IsRun(w, es) && Doubled(w, Run(w, es), a) && NothingCopied(es, a)
  {
    es := FindBoth(w, a);
    var rest := AnswerBoth(w, Run(w, es), |w.s.providers|);
    RunsJoin(w, es, rest);
    es := es + rest;
  }

  /** The runs that a network without copies, or services that are found only once, leave. */
  predicate Allowed(es: seq<Event>, a: SockAddr, copies: bool, again: bool) {
    (copies || NothingCopied(es, a)) && (again || FoundOnce(es, a))
  }

  lemma ThenDeliveries(es: seq<Event>, fs: seq<Event>, a: SockAddr, copies: bool, again: bool)
    requires Allowed(es, a, copies, again) && OnlyDeliveries(fs, a)
    ensures Allowed(es + fs, a, copies, again)
  {
    forall i, j | 0 <= i < j < |es + fs| && FoundOnce(es, a) && Finds((es + fs)[i], a) ensures !Finds((es + fs)[j], a) {
      if j >= |es| { assert (es + fs)[j] in fs; }
    }
  }

  lemma AfterOther(es: seq<Event>, fs: seq<Event>, a: SockAddr, copies: bool, again: bool)
    requires NothingCopied(es, a) && NotFound(es, a) && Allowed(fs, a, copies, again)
    ensures Allowed(es + fs, a, copies, again)
  {
    forall k | 0 <= k < |es| ensures !Finds((es + fs)[k], a) { assert es[k] in es; }
  }

  /** With either, a provider that is READY for the claim that the server gives next, while no node has changed. */
  ghost predicate ReadyUntold(w: World, u: World, a: SockAddr) {
    var i := |w.s.providers|;
    && u.nodes == w.nodes && IsReady(u, i) && u.s.providers[i].addr == a
    && WillClaim(u, i, H.Claiming(w.s.nextProviderID, w.s.debugPort, w.s.eventPort))
  }

  lemma FailingRun(w: World, a: SockAddr, again: bool) returns (es: seq<Event>)
    requires WorldInv(w) && a in w.nodes && ClaimantOf(w, a).None?
    ensures IsRun(w, es) && ReadyUntold(w, Run(w, es), a) && Allowed(es, a, !again, again)
  {
    if again { es := DoubledByFinding(w, a); } else { es := DoubledByCopy(w, a); }
    var rest := TwoRepliesOvertake(Run(w, es), |w.s.providers|);
    RunsJoin(w, es, rest);
    ThenDeliveries(es, rest, a, !again, again);
    es := es + rest;
  }

  lemma UntoldIsNotTrusted(w: World, u: World, a: SockAddr)
    requires ReadyUntold(w, u, a) && a in w.nodes
    requires !HP.KnowsClaim(w.nodes[a], H.Claiming(w.s.nextProviderID, w.s.debugPort, w.s.eventPort))
    ensures !Trusted(u, a)
  {
    assert !HP.Claimed(u.nodes[a], u.s.providers[|w.s.providers|]);
  }

  // ---- a node that is alone and knows what it will be told ----

  /** The node at a is the only one, so its provider gets object ID 0, and it knows this claim already. */
  predicate AloneAndTold(nodes: map<SockAddr, Node>, debugPort: u16, eventPort: u16, a: SockAddr) {
    nodes.Keys == {a} && HP.KnowsClaim(nodes[a], H.Claiming(0, debugPort, eventPort))
  }

  /** No object ID is given out but 0, and that to the provider at a. */
  ghost predicate FirstID(w: World, a: SockAddr, debugPort: u16, eventPort: u16) {
    && w.nodes.Keys == {a} && w.s.debugPort == debugPort && w.s.eventPort == eventPort
    && if ClaimantOf(w, a).Some? && Past(ClaimantOf(w, a).value) then
         var p := ClaimantOf(w, a).value;
         p.serverObjID == 0 && p.debugPort == debugPort && p.eventPort == eventPort
       else w.s.nextProviderID == 0
  }

  lemma CountersStay(w: World, e: Event)
    requires Enabled(w, e) && !e.ServerGets?
    ensures SameCounters(w, Step(w, e))
  {
  }

  lemma ReplyFirstID(w: World, a: SockAddr, r: Reply, debugPort: u16, eventPort: u16)
    requires WorldInv(w) && FirstID(w, a, debugPort, eventPort) && Enabled(w, ServerGets(a, r))
    ensures FirstID(Step(w, ServerGets(a, r)), a, debugPort, eventPort)
  {
    ServerGetsIs(w, a, r);
    if ClaimantOf(w, a).Some? {
      ReplyClaims(w, a, r);
    } else {
      ReplyDropped(w, a, r);
    }
  }

  lemma FoundFirstID(w: World, a: SockAddr, b: SockAddr, debugPort: u16, eventPort: u16)
    requires WorldInv(w) && FirstID(w, a, debugPort, eventPort)
    ensures FirstID(Step(w, Local(S.Found(b))), a, debugPort, eventPort)
  {
    var u := Step(w, Local(S.Found(b)));
    CountersStay(w, Local(S.Found(b)));
    FoundStep(w, b);
    ClaimantGrown(w.s.providers, u.s.providers[|w.s.providers|], a);
  }

  lemma QuietFirstID(w: World, u: World, a: SockAddr, debugPort: u16, eventPort: u16)
    requires FirstID(w, a, debugPort, eventPort) && SameCounters(w, u)
    requires u.nodes.Keys == w.nodes.Keys && u.s.providers == w.s.providers
    ensures FirstID(u, a, debugPort, eventPort)
  {
  }

  lemma StepFirstID(w: World, e: Event, a: SockAddr, debugPort: u16, eventPort: u16)
    requires WorldInv(w) && FirstID(w, a, debugPort, eventPort) && Enabled(w, e)
    ensures FirstID(Step(w, e), a, debugPort, eventPort)
  {
    if e.ServerGets? {
      ServerGetsIs(w, e.from, e.r);
      ReplyFirstID(w, a, e.r, debugPort, eventPort);
    } else if e.Local? && e.e.Found? {
      FoundFirstID(w, a, e.e.addr, debugPort, eventPort);
    } else {
      CountersStay(w, e);
      if e.Local? || e.LinkOut? { LocalStep(w, e); }
      QuietFirstID(w, Step(w, e), a, debugPort, eventPort);
    }
  }

  lemma {:induction false} RunFirstID(w: World, es: seq<Event>, a: SockAddr, debugPort: u16, eventPort: u16)
    requires WorldInv(w) && FirstID(w, a, debugPort, eventPort) && IsRun(w, es)
    ensures FirstID(Run(w, es), a, debugPort, eventPort)
    decreases es
  {
    if es != [] {
      StepKeepsWorld(w, es[0]);
      StepFirstID(w, es[0], a, debugPort, eventPort);
      RunFirstID(Step(w, es[0]), es[1..], a, debugPort, eventPort);
    }
  }

  lemma AloneIsTrusted(nodes: map<SockAddr, Node>, debugPort: u16, eventPort: u16, es: seq<Event>, a: SockAddr)
    requires NodesOk(nodes) && IsRun(Begin(nodes, debugPort, eventPort), es)
             && AloneAndTold(nodes, debugPort, eventPort, a)
    ensures Trusted(Run(Begin(nodes, debugPort, eventPort), es), a)
  {
    var start := Begin(nodes, debugPort, eventPort);
    var w := Run(start, es);
    BeginOk(nodes, debugPort, eventPort);
    RunStarted(start, es);
    RunFirstID(start, es, a, debugPort, eventPort);
    NodeHoldsOwnClaim(nodes, debugPort, eventPort, es, a);
    forall i | 0 <= i < |w.s.providers| && w.s.providers[i].addr == a && w.s.providers[i].txState == Ready
      ensures a in w.nodes && HP.Claimed(w.nodes[a], w.s.providers[i])
    {
      ReadyIsClaimant(w, i);
    }
  }

  // ---- exactly when ----

  /** Nothing in this run is about address a but deliveries that leave its node as it is. */
  predicate Spares(es: seq<Event>, a: SockAddr) {
    NothingCopied(es, a) && NotFound(es, a) && forall e :: e in es ==> !TakesClaim(e, a)
  }

  lemma DeliveriesSpare(es: seq<Event>, b: SockAddr, a: SockAddr)
    requires OnlyDeliveries(es, b) && a != b
    ensures Spares([Local(S.Found(b))] + es, a)
  {
  }

  /** Another node is found and claimed. */
  lemma OtherClaimed(w: World, b: SockAddr, a: SockAddr) returns (es: seq<Event>)
    requires WorldInv(w) && w.s.providers == [] && b in w.nodes && a != b
    ensures IsRun(w, es) && Spares(es, a)
    ensures var u := Run(w, es);
            WorldInv(u) && |u.s.providers| == 1 && u.s.providers[0].addr == b && IsReady(u, 0)
  {
    FoundIsOnTheWay(w, b);
    var found := Local(S.Found(b));
    OneStep(w, found);
    var rest := BecomesReady(Step(w, found), 0);
    RunsJoin(w, [found], rest);
    DeliveriesSpare(rest, b, a);
    es := [found] + rest;
  }

  /** Another node is claimed first, and takes object ID 0. */
  lemma OtherFirst(nodes: map<SockAddr, Node>, debugPort: u16, eventPort: u16, a: SockAddr, b: SockAddr)
      returns (es: seq<Event>)
    requires NodesOk(nodes) && a in nodes && b in nodes && a != b
    ensures IsRun(Begin(nodes, debugPort, eventPort), es) && NothingCopied(es, a) && NotFound(es, a)
    ensures var w := Run(Begin(nodes, debugPort, eventPort), es);
            && WorldInv(w) && a in w.nodes && w.nodes[a] == nodes[a] && ClaimantOf(w, a).None? && w.s.nextProviderID > 0
  {
    var start := Begin(nodes, debugPort, eventPort);
    BeginOk(nodes, debugPort, eventPort);
    es := OtherClaimed(start, b, a);
    RunClaims(start, es, a);
    assert S.IsClaimed(Run(start, es).s.providers[0]);
  }

  /** The claims of this node can be trusted in all such runs. */
  ghost predicate Trustworthy(nodes: map<SockAddr, Node>, debugPort: u16, eventPort: u16, a: SockAddr, copies: bool,
      again: bool) {
    forall es | IsRun(Begin(nodes, debugPort, eventPort), es) && Allowed(es, a, copies, again) ::
      Trusted(Run(Begin(nodes, debugPort, eventPort), es), a)
  }

  lemma AllowedMore(es: seq<Event>, a: SockAddr, copies: bool, again: bool)
    requires copies || again
    requires Allowed(es, a, !again, again)
    ensures Allowed(es, a, copies, again)
  {
  }

  lemma NotTrustworthy(nodes: map<SockAddr, Node>, debugPort: u16, eventPort: u16, a: SockAddr, copies: bool,
      again: bool)
    requires NodesOk(nodes) && a in nodes && (copies || again) && !AloneAndTold(nodes, debugPort, eventPort, a)
    ensures !Trustworthy(nodes, debugPort, eventPort, a, copies, again)
  {
    var start := Begin(nodes, debugPort, eventPort);
    BeginOk(nodes, debugPort, eventPort);
    var first := [];
    if HP.KnowsClaim(nodes[a], H.Claiming(0, debugPort, eventPort)) {
      var b :| b in nodes && b != a;
      first := OtherFirst(nodes, debugPort, eventPort, a, b);
    }
    var w := Run(start, first);
    var es := FailingRun(w, a, again);
    UntoldIsNotTrusted(w, Run(w, es), a);
    RunsJoin(start, first, es);
    AllowedMore(es, a, copies, again);
    AfterOther(first, es, a, copies, again);
  }

  /** Exactly when READY means that the node holds the claim, in the whole system, for every node and every run: when
      its datagrams are not copied and its address is found only once - or when there is no other node, and this one
      knew the claim before it was made. */
  lemma TrustworthyIff(nodes: map<SockAddr, Node>, debugPort: u16, eventPort: u16, a: SockAddr, copies: bool,
      again: bool)
    requires NodesOk(nodes) && a in nodes
    ensures Trustworthy(nodes, debugPort, eventPort, a, copies, again) <==>
            (!copies && !again) || AloneAndTold(nodes, debugPort, eventPort, a)
  {
    if !copies && !again {
      forall es | IsRun(Begin(nodes, debugPort, eventPort), es) && Allowed(es, a, copies, again)
        ensures Trusted(Run(Begin(nodes, debugPort, eventPort), es), a)
      {
        ReadyIsClaimed(nodes, debugPort, eventPort, es, a);
      }
    } else if AloneAndTold(nodes, debugPort, eventPort, a) {
      forall es | IsRun(Begin(nodes, debugPort, eventPort), es)
        ensures Trusted(Run(Begin(nodes, debugPort, eventPort), es), a)
      {
        AloneIsTrusted(nodes, debugPort, eventPort, es, a);
      }
    } else {
      NotTrustworthy(nodes, debugPort, eventPort, a, copies, again);
    }
  }
}
