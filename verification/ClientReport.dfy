// The per-client reporting state machine of the management server (src/hnode-srvobj-client.c).
//
// `Report` is the value of a client object; `Step` is the effect of one event on it. The lemmas at the end speak
// about every run. ClientObject holds the object itself, with its node records updated in place.

module ClientReport {
  import opened Basics
  import opened Mgmt

  datatype NodeState = New | Exposing | Established
  datatype NodeEntry = NodeEntry(nodeID: nat, state: NodeState, node: ProviderRef)
  datatype LinkState = Stopped | NoConnect | Idle | Updating

  /** The value of a client object. `sent` is every packet ever queued, oldest first. */
  datatype Report = Report(
    state: LinkState,
    reportNodes: bool, debug: bool, event: bool,
    updateNodeCount: int,
    nextNodeID: nat,
    nodeList: seq<NodeEntry>,
    updatingNode: Option<nat>,
    nextIOTag: nat,
    queue: seq<MgmtPkt>,
    sent: seq<MgmtPkt>)

  const FRESH: Report := Report(Stopped, false, false, false, 0, 0, [], None, 0, [], [])

  function Send(c: Report, p: MgmtPkt): Report {
    c.(queue := c.queue + [p], sent := c.sent + [p])
  }

  /** Position of the first node still to be reported, or the length of the list. */
  function FirstNew(list: seq<NodeEntry>): (i: nat)
    ensures i <= |list|
    ensures forall k :: 0 <= k < i ==> list[k].state != New
    ensures i < |list| ==> list[i].state == New
  {
    if list == [] || list[0].state == New then 0 else 1 + FirstNew(list[1..])
  }

  lemma {:induction false} FirstNewIs(list: seq<NodeEntry>, i: nat)
    requires i <= |list| && (i < |list| ==> list[i].state == New)
    requires forall k :: 0 <= k < i ==> list[k].state != New
    ensures FirstNew(list) == i
  {
    if i > 0 {
      assert list[0].state != New;
      FirstNewIs(list[1..], i - 1);
    }
  }

  /** Queues the report of node i and remembers it as the one being updated. */
  function Expose(c: Report, i: nat): Report
    requires i < |c.nodeList|
  {
    var n := c.nodeList[i];
    Send(c, NodePkt(c.nextIOTag, n.nodeID, n.node))
      .(nextIOTag := c.nextIOTag + 1,
        nodeList := c.nodeList[i := n.(state := Exposing)],
        updatingNode := Some(n.nodeID),
        state := Updating)
  }

  function BuildUpdate(c: Report): Report {
    var i := FirstNew(c.nodeList);
    if c.updateNodeCount == 0 || i == |c.nodeList| then c else Expose(c, i)
  }

  function AppendNode(c: Report, node: ProviderRef): Report {
    c.(nodeList := c.nodeList + [NodeEntry(c.nextNodeID, New, node)],
       nextNodeID := c.nextNodeID + 1,
       updateNodeCount := c.updateNodeCount + 1)
  }

  function AddNode(c: Report, node: ProviderRef): Report {
    var d := AppendNode(c, node);
    if d.state == Idle && d.reportNodes then BuildUpdate(d) else d
  }

  function ClientRx(c: Report, reqType: u32, ioTag: u32): Report {
    if reqType == MGMT_REQ_PINFO then Send(c.(reportNodes := true), Ack(ioTag))
    else if reqType == MGMT_DEBUG_CTRL then c.(debug := true)
    else if reqType == MGMT_EVENT_CTRL then c.(event := true)
    else c
  }

  /** An update in flight ends with the next completion, whichever packet that completion is for. */
  function EndUpdate(c: Report): Report {
    if c.state == Updating && c.updatingNode.Some? && c.updatingNode.value < |c.nodeList| then
      var i := c.updatingNode.value;
      c.(nodeList := c.nodeList[i := c.nodeList[i].(state := Established)],
         updateNodeCount := c.updateNodeCount - 1,
         state := Idle)
    else c
  }

  function ClientTx(c: Report): Report {
    var d := EndUpdate(c);
    if d.updateNodeCount != 0 && d.reportNodes && d.state == Idle then BuildUpdate(d) else d
  }

  function ForwardDebug(c: Report, frame: DebugFrame): Report {
    if !c.debug || c.state == Idle then c else Send(c, DebugPkt(frame))
  }

  datatype Event =
    | Add(node: ProviderRef)
    | Start
    | Rx(reqType: u32, ioTag: u32)
    | Forward(frame: DebugFrame)
    | TxDone

  /** The link delivers requests and completions only once it has been started. */
  predicate Enabled(c: Report, e: Event) {
    match e
    case Start => c.state == Stopped
    case Rx(_, _) => c.state != Stopped
    case TxDone => c.state != Stopped && c.queue != []
    case _ => true
  }

  /** A completion first takes the packet off the link's queue, then calls the client. */
  function Step(c: Report, e: Event): Report
    requires Enabled(c, e)
  {
    match e
    case Add(n) => AddNode(c, n)
    case Start => c.(state := Idle)
    case Rx(t, g) => ClientRx(c, t, g)
    case Forward(f) => ForwardDebug(c, f)
    case TxDone => ClientTx(c.(queue := c.queue[1..]))
  }

  predicate IsRun(c: Report, es: seq<Event>)
    decreases es
  {
    es == [] || (Enabled(c, es[0]) && IsRun(Step(c, es[0]), es[1..]))
  }

  function Run(c: Report, es: seq<Event>): Report
    requires IsRun(c, es)
    decreases es
  {
    if es == [] then c else Run(Step(c, es[0]), es[1..])
  }

  // ---- what the runs keep ----

  /** Number of nodes whose report has been completed or cut short by another completion. */
  function Done(c: Report): int {
    c.nextIOTag - if c.state == Updating then 1 else 0
  }

  function StateAt(i: int, done: int, updating: bool): NodeState {
    if i < done then Established else if i == done && updating then Exposing else New
  }

  /** ESTABLISHED* EXPOSING? NEW*, with NodeIDs that count up from zero. */
  ghost predicate ListShape(list: seq<NodeEntry>, done: int, updating: bool) {
    && 0 <= done && done + (if updating then 1 else 0) <= |list|
    && forall i :: 0 <= i < |list| ==> list[i].nodeID == i && list[i].state == StateAt(i, done, updating)
  }

  ghost predicate ListOk(c: Report) {
    && c.nextNodeID == |c.nodeList|
    && ListShape(c.nodeList, Done(c), c.state == Updating)
    && c.updateNodeCount == |c.nodeList| - Done(c)
    && (c.state == Updating ==> c.updatingNode == Some(Done(c)))
  }

  ghost predicate LiveOk(c: Report)
    requires ListOk(c)
  {
    && c.state != NoConnect
    && (c.state == Stopped ==> !c.reportNodes && !c.debug && c.sent == [])
    && (!c.reportNodes ==> c.nextIOTag == 0)
    && (c.state == Updating ==> NodePkt(Done(c), Done(c), c.nodeList[Done(c)].node) in c.queue)
    && (c.reportNodes && c.updateNodeCount != 0 ==> c.queue != [])
  }

  ghost predicate Inv(c: Report) {
    ListOk(c) && LiveOk(c)
  }

  lemma BuildUpdateKeeps(c: Report)
    requires ListOk(c) && c.state == Idle && c.reportNodes && c.updateNodeCount != 0
    ensures BuildUpdate(c) == Expose(c, c.nextIOTag) && c.nodeList[c.nextIOTag].nodeID == c.nextIOTag
    ensures Inv(BuildUpdate(c))
  {
    var d := c.nextIOTag;
    FirstNewIs(c.nodeList, d);
    var b := Expose(c, d);
    assert ListShape(b.nodeList, d, true);
    assert b.queue[|c.queue|] == NodePkt(d, d, b.nodeList[d].node);
  }

  lemma AppendNodeKeeps(c: Report, n: ProviderRef)
    requires ListOk(c)
    ensures ListOk(AppendNode(c, n))
  {
    assert ListShape(AppendNode(c, n).nodeList, Done(c), c.state == Updating);
  }

  lemma AddNodeKeeps(c: Report, n: ProviderRef)
    requires Inv(c)
    ensures Inv(AddNode(c, n))
  {
    AppendNodeKeeps(c, n);
    var d := AppendNode(c, n);
    if d.state == Idle && d.reportNodes { BuildUpdateKeeps(d); }
  }

  lemma SendKeeps(c: Report, p: MgmtPkt)
    requires ListOk(c) && c.state != Stopped && c.state != NoConnect && (!c.reportNodes ==> c.nextIOTag == 0)
    requires c.state == Updating ==> NodePkt(Done(c), Done(c), c.nodeList[Done(c)].node) in c.queue
    ensures Inv(Send(c, p))
  {
    assert Send(c, p).queue[|c.queue|] == p;
  }

  lemma ClientRxKeeps(c: Report, t: u32, g: u32)
    requires Inv(c) && c.state != Stopped
    ensures Inv(ClientRx(c, t, g))
  {
    if t == MGMT_REQ_PINFO { SendKeeps(c.(reportNodes := true), Ack(g)); }
  }

  lemma EndUpdateKeeps(c: Report)
    requires Inv(c) && Enabled(c, TxDone)
    ensures ListOk(EndUpdate(c.(queue := c.queue[1..]))) && EndUpdate(c.(queue := c.queue[1..])).state == Idle
  {
    if c.state == Updating {
      assert ListShape(EndUpdate(c.(queue := c.queue[1..])).nodeList, Done(c) + 1, false);
    }
  }

  lemma TxDoneKeeps(c: Report)
    requires Inv(c) && Enabled(c, TxDone)
    ensures Inv(Step(c, TxDone))
  {
    EndUpdateKeeps(c);
    var d := EndUpdate(c.(queue := c.queue[1..]));
    if d.updateNodeCount != 0 && d.reportNodes { BuildUpdateKeeps(d); }
  }

  lemma StepKeeps(c: Report, e: Event)
    requires Inv(c) && Enabled(c, e)
    ensures Inv(Step(c, e))
  {
    match e
    case Add(n) => AddNodeKeeps(c, n);
    case Start =>
    case Rx(t, g) => ClientRxKeeps(c, t, g);
    case Forward(f) => if c.debug && c.state != Idle { SendKeeps(c, DebugPkt(f)); }
    case TxDone => TxDoneKeeps(c);
  }

  // ---- the log of queued packets ----

  /** The node packets of a log, in order. */
  function NodePkts(log: seq<MgmtPkt>): seq<MgmtPkt> {
    if log == [] then []
    else NodePkts(log[..|log| - 1]) + if log[|log| - 1].NodePkt? then [log[|log| - 1]] else []
  }

  lemma NodePktsAppend(log: seq<MgmtPkt>, p: MgmtPkt)
    ensures NodePkts(log + [p]) == NodePkts(log) + if p.NodePkt? then [p] else []
  {
    assert (log + [p])[..|log|] == log;
  }

  /** Node packet j carries tag j and NodeID j and describes the j-th node of the list. */
  ghost predicate PktShape(pkts: seq<MgmtPkt>, list: seq<NodeEntry>) {
    && |pkts| <= |list|
    && forall j :: 0 <= j < |pkts| ==> pkts[j] == NodePkt(j, j, list[j].node)
  }

  ghost predicate IsSuffix(queue: seq<MgmtPkt>, log: seq<MgmtPkt>) {
    |queue| <= |log| && queue == log[|log| - |queue|..]
  }

  ghost predicate LogOk(c: Report) {
    && |NodePkts(c.sent)| == c.nextIOTag
    && PktShape(NodePkts(c.sent), c.nodeList)
    && IsSuffix(c.queue, c.sent)
  }

  lemma SuffixGrows(queue: seq<MgmtPkt>, log: seq<MgmtPkt>, p: MgmtPkt)
    requires IsSuffix(queue, log)
    ensures IsSuffix(queue + [p], log + [p])
    ensures queue != [] ==> IsSuffix(queue[1..], log)
  {
    assert queue + [p] == (log + [p])[|log| - |queue|..];
  }

  lemma ShapeGrows(pkts: seq<MgmtPkt>, list: seq<NodeEntry>, p: MgmtPkt)
    requires PktShape(pkts, list) && |pkts| < |list| && p == NodePkt(|pkts|, |pkts|, list[|pkts|].node)
    ensures PktShape(pkts + [p], list)
  {
  }

  lemma NodeLogGrows(c: Report, p: MgmtPkt)
    requires LogOk(c) && c.nextIOTag < |c.nodeList| && p == NodePkt(c.nextIOTag, c.nextIOTag,
             c.nodeList[c.nextIOTag].node)
    ensures IsSuffix(Send(c, p).queue, Send(c, p).sent)
    ensures PktShape(NodePkts(Send(c, p).sent), c.nodeList)
    ensures |NodePkts(Send(c, p).sent)| == c.nextIOTag + 1
  {
    NodePktsAppend(c.sent, p);
    ShapeGrows(NodePkts(c.sent), c.nodeList, p);
    SuffixGrows(c.queue, c.sent, p);
  }

  /** Packets that are not about nodes only lengthen the log. */
  lemma OtherLogGrows(c: Report, p: MgmtPkt)
    requires LogOk(c) && !p.NodePkt?
    ensures LogOk(Send(c, p))
  {
    NodePktsAppend(c.sent, p);
    SuffixGrows(c.queue, c.sent, p);
  }

  lemma BuildUpdateLogs(c: Report)
    requires ListOk(c) && LogOk(c) && c.state == Idle && c.reportNodes && c.updateNodeCount != 0
    ensures LogOk(BuildUpdate(c))
  {
    BuildUpdateKeeps(c);
    var n := c.nodeList[c.nextIOTag];
    NodeLogGrows(c, NodePkt(c.nextIOTag, n.nodeID, n.node));
  }

  lemma AddNodeLogs(c: Report, n: ProviderRef)
    requires ListOk(c) && LogOk(c)
    ensures LogOk(AddNode(c, n))
  {
    AppendNodeKeeps(c, n);
    var d := AppendNode(c, n);
    assert LogOk(d);
    if d.state == Idle && d.reportNodes { BuildUpdateLogs(d); }
  }

  lemma TxDoneLogs(c: Report)
    requires Inv(c) && LogOk(c) && Enabled(c, TxDone)
    ensures LogOk(Step(c, TxDone))
  {
    EndUpdateKeeps(c);
    SuffixGrows(c.queue, c.sent, c.queue[0]);
    var d := EndUpdate(c.(queue := c.queue[1..]));
    assert LogOk(d);
    if d.updateNodeCount != 0 && d.reportNodes { BuildUpdateLogs(d); }
  }

  lemma RxLogs(c: Report, t: u32, g: u32)
    requires LogOk(c)
    ensures LogOk(ClientRx(c, t, g))
  {
    if t == MGMT_REQ_PINFO { OtherLogGrows(c.(reportNodes := true), Ack(g)); }
  }

  lemma ForwardLogs(c: Report, f: DebugFrame)
    requires LogOk(c)
    ensures LogOk(ForwardDebug(c, f))
  {
    if c.debug && c.state != Idle { OtherLogGrows(c, DebugPkt(f)); }
  }

  lemma StepLogs(c: Report, e: Event)
    requires Inv(c) && LogOk(c) && Enabled(c, e)
    ensures LogOk(Step(c, e))
  {
    match e
    case Add(n) => AddNodeLogs(c, n);
    case Start =>
    case Rx(t, g) => RxLogs(c, t, g);
    case Forward(f) => ForwardLogs(c, f);
    case TxDone => TxDoneLogs(c);
  }

  lemma {:induction false} RunKeeps(c: Report, es: seq<Event>)
    requires Inv(c) && LogOk(c) && IsRun(c, es)
    ensures Inv(Run(c, es)) && LogOk(Run(c, es))
    decreases es
  {
    if es != [] {
      StepKeeps(c, es[0]);
      StepLogs(c, es[0]);
      RunKeeps(Step(c, es[0]), es[1..]);
    }
  }

  // ---- results about every run ----

  function CountState(list: seq<NodeEntry>, s: NodeState): nat {
    if list == [] then 0
    else CountState(list[..|list| - 1], s) + if list[|list| - 1].state == s then 1 else 0
  }

  lemma {:induction false} CountsOfShape(list: seq<NodeEntry>, n: nat, done: nat, updating: bool)
    requires n <= |list|
    requires forall i :: 0 <= i < n ==> list[i].state == StateAt(i, done, updating)
    ensures CountState(list[..n], Exposing) == (if updating && done < n then 1 else 0)
    ensures CountState(list[..n], Exposing) + CountState(list[..n], New) == if n <= done then 0 else n - done
  {
    if n > 0 {
      CountsOfShape(list, n - 1, done, updating);
      assert list[..n][..n - 1] == list[..n - 1];
    }
  }

  lemma Counts(c: Report)
    requires ListOk(c)
    ensures CountState(c.nodeList, New) == |c.nodeList| - c.nextIOTag
    ensures CountState(c.nodeList, Exposing) + CountState(c.nodeList, New) == |c.nodeList| - Done(c)
  {
    CountsOfShape(c.nodeList, |c.nodeList|, Done(c), c.state == Updating);
    assert c.nodeList[..|c.nodeList|] == c.nodeList;
  }

  /** Every run reports the nodes in order, once each, and its counters describe the list. */
  lemma RunReportsInOrder(es: seq<Event>)
    requires IsRun(FRESH, es)
    ensures var c := Run(FRESH, es);
            var pkts := NodePkts(c.sent);
            && |pkts| <= |c.nodeList|
            && forall j :: 0 <= j < |pkts| ==> pkts[j] == NodePkt(j, j, c.nodeList[j].node)
    ensures var c := Run(FRESH, es);
            forall i, j :: 0 <= i < j < |c.nodeList| && c.nodeList[i].state != Established ==>
              c.nodeList[j].state == New
    ensures var c := Run(FRESH, es);
            && (c.state == Updating <==> exists i :: 0 <= i < |c.nodeList| && c.nodeList[i].state == Exposing)
            && (c.state == Updating ==>
              && c.updatingNode.Some? && c.updatingNode.value < |c.nodeList|
              && c.nodeList[c.updatingNode.value].state == Exposing)
    ensures var c := Run(FRESH, es);
            c.updateNodeCount == CountState(c.nodeList, Exposing) + CountState(c.nodeList, New)
  {
    RunKeeps(FRESH, es);
    var c := Run(FRESH, es);
    Counts(c);
    if c.state == Updating { assert c.nodeList[Done(c)].state == Exposing; }
  }

  /** A debug frame gets through only while a node report is in flight: an idle client drops it, also when
      debugging has been asked for. */
  lemma DebugOnlyDuringUpdate(es: seq<Event>, frame: DebugFrame)
    requires IsRun(FRESH, es)
    ensures var c := Run(FRESH, es);
            && ForwardDebug(c, frame) == (if c.debug && c.state == Updating then Send(c, DebugPkt(frame)) else c)
            && (c.queue == [] ==> ForwardDebug(c, frame) == c)
  {
    RunKeeps(FRESH, es);
  }

  /** The tags of the acknowledgements in a log, in order. */
  function AckTags(log: seq<MgmtPkt>): seq<u32> {
    if log == [] then []
    else AckTags(log[..|log| - 1]) + if log[|log| - 1].Ack? then [log[|log| - 1].ioTag] else []
  }

  predicate IsRequest(e: Event, reqType: u32) {
    e.Rx? && e.reqType == reqType
  }

  /** The tags of the requests for reports in a run, in order. */
  function RequestTags(es: seq<Event>): seq<u32> {
    if es == [] then [] else (if IsRequest(es[0], MGMT_REQ_PINFO) then [es[0].ioTag] else []) + RequestTags(es[1..])
  }

  lemma AckTagsAppend(log: seq<MgmtPkt>, p: MgmtPkt)
    ensures AckTags(log + [p]) == AckTags(log) + if p.Ack? then [p.ioTag] else []
  {
    assert (log + [p])[..|log|] == log;
  }

  ghost predicate AcksSame(c: Report, d: Report) {
    && AckTags(d.sent) == AckTags(c.sent)
    && d.reportNodes == c.reportNodes && d.debug == c.debug && d.event == c.event
  }

  lemma ExposeAcks(c: Report, i: nat)
    requires i < |c.nodeList|
    ensures AcksSame(c, Expose(c, i))
  {
    AckTagsAppend(c.sent, NodePkt(c.nextIOTag, c.nodeList[i].nodeID, c.nodeList[i].node));
  }

  lemma BuildAcks(c: Report)
    ensures AcksSame(c, BuildUpdate(c))
  {
    var i := FirstNew(c.nodeList);
    if c.updateNodeCount != 0 && i != |c.nodeList| { ExposeAcks(c, i); }
  }

  lemma AcksThen(c: Report, d: Report, e: Report)
    requires d.sent == c.sent && d.reportNodes == c.reportNodes && d.debug == c.debug && d.event == c.event
    requires AcksSame(d, e)
    ensures AcksSame(c, e)
  {
  }

  lemma AddAcks(c: Report, n: ProviderRef)
    ensures AcksSame(c, AddNode(c, n))
  {
    var d := AppendNode(c, n);
    if d.state == Idle && d.reportNodes {
      BuildAcks(d);
      AcksThen(c, d, BuildUpdate(d));
    }
  }

  lemma ForwardAcks(c: Report, f: DebugFrame)
    ensures AcksSame(c, ForwardDebug(c, f))
  {
    AckTagsAppend(c.sent, DebugPkt(f));
  }

  lemma TxAcks(c: Report)
    ensures AcksSame(c, ClientTx(c))
  {
    var d := EndUpdate(c);
    if d.updateNodeCount != 0 && d.reportNodes && d.state == Idle {
      BuildAcks(d);
      AcksThen(c, d, BuildUpdate(d));
    }
  }

  lemma RxAcks(c: Report, t: u32, g: u32)
    ensures var d := ClientRx(c, t, g);
            && AckTags(d.sent) == AckTags(c.sent) + (if t == MGMT_REQ_PINFO then [g] else [])
            && d.reportNodes == (c.reportNodes || t == MGMT_REQ_PINFO)
            && d.debug == (c.debug || t == MGMT_DEBUG_CTRL) && d.event == (c.event || t == MGMT_EVENT_CTRL)
  {
    AckTagsAppend(c.sent, Ack(g));
  }

  /** One event acknowledges what it asks for and nothing else; requests only ever switch things on. */
  lemma StepAcks(c: Report, e: Event)
    requires Enabled(c, e)
    ensures AckTags(Step(c, e).sent) == AckTags(c.sent) + if IsRequest(e, MGMT_REQ_PINFO) then [e.ioTag] else []
    ensures Step(c, e).reportNodes == (c.reportNodes || IsRequest(e, MGMT_REQ_PINFO))
    ensures Step(c, e).debug == (c.debug || IsRequest(e, MGMT_DEBUG_CTRL))
    ensures Step(c, e).event == (c.event || IsRequest(e, MGMT_EVENT_CTRL))
  {
    match e
    case Add(n) => AddAcks(c, n);
    case Start =>
    case Rx(t, g) => RxAcks(c, t, g);
    case Forward(f) => ForwardAcks(c, f);
    case TxDone => TxAcks(c.(queue := c.queue[1..]));
  }

  lemma {:induction false} RunAcks(c: Report, es: seq<Event>)
    requires IsRun(c, es)
    ensures AckTags(Run(c, es).sent) == AckTags(c.sent) + RequestTags(es)
    ensures Run(c, es).reportNodes == (c.reportNodes || exists e :: e in es && IsRequest(e, MGMT_REQ_PINFO))
    ensures Run(c, es).debug == (c.debug || exists e :: e in es && IsRequest(e, MGMT_DEBUG_CTRL))
    ensures Run(c, es).event == (c.event || exists e :: e in es && IsRequest(e, MGMT_EVENT_CTRL))
    decreases es
  {
    if es != [] {
      StepAcks(c, es[0]);
      RunAcks(Step(c, es[0]), es[1..]);
      Assoc(AckTags(c.sent), if IsRequest(es[0], MGMT_REQ_PINFO) then [es[0].ioTag] else [], RequestTags(es[1..]));
      assert es == [es[0]] + es[1..];
    }
  }

  /** Every request for reports is acknowledged once, in order and with its own tag; reporting, debugging and events
      are on exactly when they have been asked for, by requests of type 2, 5 and 6. */
  lemma RequestsAreAnswered(es: seq<Event>)
    requires IsRun(FRESH, es)
    ensures AckTags(Run(FRESH, es).sent) == RequestTags(es)
    ensures Run(FRESH, es).reportNodes <==> exists e :: e in es && IsRequest(e, 2)
    ensures Run(FRESH, es).debug <==> exists e :: e in es && IsRequest(e, 5)
    ensures Run(FRESH, es).event <==> exists e :: e in es && IsRequest(e, 6)
  {
    RunAcks(FRESH, es);
    assert [] + RequestTags(es) == RequestTags(es);
  }

  /** Completions still needed before the link falls silent: the queue, and the nodes not yet queued. */
  function Backlog(c: Report): int {
    |c.queue| + if c.reportNodes then |c.nodeList| - c.nextIOTag else 0
  }

  lemma SilentMeansDone(c: Report)
    requires Inv(c)
    ensures c.queue == [] <==> Backlog(c) == 0
    ensures c.queue == [] && c.reportNodes ==> c.state == Idle && c.updateNodeCount == 0 && c.nextIOTag == |c.nodeList|
  {
  }

  lemma AllReported(d: Report)
    requires Inv(d) && LogOk(d) && d.reportNodes && d.queue == []
    ensures d.state == Idle && |NodePkts(d.sent)| == |d.nodeList|
    ensures forall i :: 0 <= i < |d.nodeList| ==> NodePkts(d.sent)[i] == NodePkt(i, i, d.nodeList[i].node)
  {
    SilentMeansDone(d);
  }

  /** Once reporting is enabled, an empty transmit queue means that nothing is left to report. */
  lemma NoLostReports(es: seq<Event>)
    requires IsRun(FRESH, es)
    requires Run(FRESH, es).reportNodes && Run(FRESH, es).queue == []
    ensures var c := Run(FRESH, es);
            && c.state == Idle && c.updateNodeCount == 0
            && |NodePkts(c.sent)| == |c.nodeList|
            && forall i :: 0 <= i < |c.nodeList| ==> c.nodeList[i].state == Established
  {
    RunKeeps(FRESH, es);
    AllReported(Run(FRESH, es));
  }

  /** n completions with no other event between them. */
  predicate CanComplete(c: Report, n: nat)
    decreases n
  {
    n == 0 || (Enabled(c, TxDone) && CanComplete(Step(c, TxDone), n - 1))
  }

  function Complete(c: Report, n: nat): Report
    requires CanComplete(c, n)
    decreases n
  {
    if n == 0 then c else Complete(Step(c, TxDone), n - 1)
  }

  /** Every completion, whichever packet it is for, takes exactly one off the backlog. */
  lemma CompletionShrinksBacklog(c: Report)
    requires Inv(c) && Enabled(c, TxDone)
    ensures Backlog(Step(c, TxDone)) == Backlog(c) - 1
    ensures Step(c, TxDone).reportNodes == c.reportNodes && Step(c, TxDone).state != Stopped
  {
    EndUpdateKeeps(c);
    var d := EndUpdate(c.(queue := c.queue[1..]));
    if d.updateNodeCount != 0 && d.reportNodes { BuildUpdateKeeps(d); }
  }

  lemma CompletionKeepsNodes(c: Report)
    requires Enabled(c, TxDone)
    ensures |Step(c, TxDone).nodeList| == |c.nodeList|
    ensures forall i :: 0 <= i < |c.nodeList| ==> Step(c, TxDone).nodeList[i].node == c.nodeList[i].node
  {
  }

  /** With no new input the link can complete packets as long as there is a backlog. */
  lemma {:induction false} DrainsItsBacklog(c: Report, n: nat)
    requires Inv(c) && c.state != Stopped && n <= Backlog(c)
    ensures CanComplete(c, n)
    decreases n
  {
    if n > 0 {
      SilentMeansDone(c);
      CompletionShrinksBacklog(c);
      TxDoneKeeps(c);
      DrainsItsBacklog(Step(c, TxDone), n - 1);
    }
  }

  lemma {:induction false} CompletionsKeep(c: Report, n: nat)
    requires CanComplete(c, n) && Inv(c) && LogOk(c)
    ensures Inv(Complete(c, n)) && LogOk(Complete(c, n))
    decreases n
  {
    if n > 0 {
      TxDoneKeeps(c);
      TxDoneLogs(c);
      CompletionsKeep(Step(c, TxDone), n - 1);
    }
  }

  lemma {:induction false} CompletionsShrinkBacklog(c: Report, n: nat)
    requires CanComplete(c, n) && Inv(c)
    ensures Backlog(Complete(c, n)) == Backlog(c) - n && Complete(c, n).reportNodes == c.reportNodes
    decreases n
  {
    if n > 0 {
      TxDoneKeeps(c);
      CompletionShrinksBacklog(c);
      CompletionsShrinkBacklog(Step(c, TxDone), n - 1);
    }
  }

  lemma {:induction false} CompletionsKeepNodes(c: Report, n: nat)
    requires CanComplete(c, n)
    ensures var d := Complete(c, n);
            && |d.nodeList| == |c.nodeList|
            && forall i :: 0 <= i < |c.nodeList| ==> d.nodeList[i].node == c.nodeList[i].node
    decreases n
  {
    if n > 0 {
      CompletionKeepsNodes(c);
      CompletionsKeepNodes(Step(c, TxDone), n - 1);
    }
  }

  lemma DrainReportsFrom(c: Report, n: nat)
    requires Inv(c) && LogOk(c) && c.reportNodes && n == Backlog(c)
    ensures CanComplete(c, n)
    ensures var d := Complete(c, n);
            && d.queue == [] && d.state == Idle
            && |NodePkts(d.sent)| == |c.nodeList|
            && forall i :: 0 <= i < |c.nodeList| ==> NodePkts(d.sent)[i] == NodePkt(i, i, c.nodeList[i].node)
  {
    DrainsItsBacklog(c, n);
    CompletionsKeepNodes(c, n);
    CompletionsKeep(c, n);
    CompletionsShrinkBacklog(c, n);
    SilentMeansDone(Complete(c, n));
    AllReported(Complete(c, n));
  }

  /** Draining the link of any run with reporting enabled has reported every node of the list, in list order. */
  lemma DrainReportsEveryNode(es: seq<Event>, n: nat)
    requires IsRun(FRESH, es) && Run(FRESH, es).reportNodes
    requires n == |Run(FRESH, es).queue| + CountState(Run(FRESH, es).nodeList, New)
    ensures CanComplete(Run(FRESH, es), n)
    ensures var c := Run(FRESH, es);
            var d := Complete(c, n);
            && d.queue == [] && d.state == Idle
            && |NodePkts(d.sent)| == |c.nodeList|
            && forall i :: 0 <= i < |c.nodeList| ==> NodePkts(d.sent)[i] == NodePkt(i, i, c.nodeList[i].node)
  {
    RunKeeps(FRESH, es);
    Counts(Run(FRESH, es));
    DrainReportsFrom(Run(FRESH, es), n);
  }
}
