// A list of client objects, none of which shares a node record with another, and the loops of the server over it
// (src/hnode-srvobj.c:448-498 and 937-984).

module ClientList {
  import opened Basics
  import opened Mgmt
  import opened ClientObject
  import C = ClientReport
  import S = Server

  /** Every client is in order and made of objects in f, and no two of them share an object. */
  ghost predicate Apart(cs: seq<Client>, f: set<object>)
    reads f
  {
    && (forall k :: 0 <= k < |cs| ==> cs[k] in f && cs[k].Repr() <= f && cs[k].Valid())
    && (forall i, j :: 0 <= i < j < |cs| ==> cs[i].Repr() !! cs[j].Repr())
  }

  ghost function Reports(cs: seq<Client>, f: set<object>): (rs: seq<C.Report>)
    requires Apart(cs, f)
    reads f
    ensures |rs| == |cs| && forall k :: 0 <= k < |cs| ==> rs[k] == cs[k].Value()
  {
    seq(|cs|, k requires 0 <= k < |cs| && Apart(cs, f) reads f => cs[k].Value())
  }

  lemma Added(cs: seq<Client>, f: set<object>, client: Client)
    requires Apart(cs, f) && client.Valid() && client.Repr() !! f
    ensures Apart(cs + [client], f + client.Repr())
    ensures Reports(cs + [client], f + client.Repr()) == Reports(cs, f) + [client.Value()]
  {
  }

  lemma Removed(cs: seq<Client>, f: set<object>, k: nat)
    requires Apart(cs, f) && k < |cs|
    ensures Apart(cs[..k] + cs[k + 1..], f)
    ensures Reports(cs[..k] + cs[k + 1..], f) == Reports(cs, f)[..k] + Reports(cs, f)[k + 1..]
  {
  }

  /** The first i clients have been told of the node, the others are as they were. */
  ghost predicate Told(now: seq<C.Report>, was: seq<C.Report>, i: nat, node: ProviderRef) {
    && |now| == |was|
    && (forall k :: 0 <= k < |was| && k < i ==> now[k] == C.AddNode(was[k], node))
    && (forall k :: i <= k < |was| ==> now[k] == was[k])
  }

  lemma ToldNext(now: seq<C.Report>, was: seq<C.Report>, i: nat, node: ProviderRef)
    requires i < |was| && Told(now, was, i, node)
    ensures Told(now[i := C.AddNode(now[i], node)], was, i + 1, node)
  {
  }

  lemma ToldAll(now: seq<C.Report>, was: seq<C.Report>, node: ProviderRef)
    requires Told(now, was, |was|, node)
    ensures now == S.TellAll(was, node)
  {
  }

  /** The first i clients have been offered the frame, the others are as they were. */
  ghost predicate Forwarded(now: seq<C.Report>, was: seq<C.Report>, i: nat, frame: DebugFrame) {
    && |now| == |was|
    && (forall k :: 0 <= k < |was| && k < i ==> now[k] == C.ForwardDebug(was[k], frame))
    && (forall k :: i <= k < |was| ==> now[k] == was[k])
  }

  lemma ForwardedNext(now: seq<C.Report>, was: seq<C.Report>, i: nat, frame: DebugFrame)
    requires i < |was| && Forwarded(now, was, i, frame)
    ensures Forwarded(now[i := C.ForwardDebug(now[i], frame)], was, i + 1, frame)
  {
  }

  lemma ForwardedAll(now: seq<C.Report>, was: seq<C.Report>, frame: DebugFrame)
    requires Forwarded(now, was, |was|, frame)
    ensures now == S.ForwardAll(was, frame)
  {
  }

  /** One client is told of a node. */
  method TellOne(cs: seq<Client>, ghost f: set<object>, i: nat, node: ProviderRef) returns (ghost g: set<object>)
    requires Apart(cs, f) && i < |cs|
    modifies cs[i].Repr()
    ensures Apart(cs, g) && Reports(cs, g) == old(Reports(cs, f))[i := C.AddNode(old(Reports(cs, f))[i], node)]
    ensures f <= g && fresh(g - f)
  {
    cs[i].AddNode(node);
    g := f + cs[i].Repr();
  }

  /** The loop that tells every client of a READY provider. */
  method TellAll(cs: seq<Client>, ghost f: set<object>, node: ProviderRef) returns (ghost g: set<object>)
    requires Apart(cs, f)
    modifies f
    ensures Apart(cs, g) && Reports(cs, g) == S.TellAll(old(Reports(cs, f)), node)
    ensures f <= g && fresh(g - f)
  {
    g := f;
    ghost var was := Reports(cs, f);
    var i := 0;
    while i < |cs|
      invariant i <= |cs| == |was| && f <= g && fresh(g - f) && Apart(cs, g)
      invariant Told(Reports(cs, g), was, i, node)
    {
      ToldNext(Reports(cs, g), was, i, node);
      g := TellOne(cs, g, i, node);
      i := i + 1;
    }
    ToldAll(Reports(cs, g), was, node);
  }

  /** One client is offered a debug frame. */
  method ForwardOne(cs: seq<Client>, ghost f: set<object>, i: nat, frame: DebugFrame)
    requires Apart(cs, f) && i < |cs|
    modifies cs[i].Repr()
    ensures Apart(cs, f) && Reports(cs, f) == old(Reports(cs, f))[i := C.ForwardDebug(old(Reports(cs, f))[i], frame)]
  {
    cs[i].ForwardDebugPacket(frame);
  }

  /** The loop that offers a debug frame to every client. */
  method ForwardAll(cs: seq<Client>, ghost f: set<object>, frame: DebugFrame)
    requires Apart(cs, f)
    modifies f
    ensures Apart(cs, f) && Reports(cs, f) == S.ForwardAll(old(Reports(cs, f)), frame)
  {
    ghost var was := Reports(cs, f);
    var i := 0;
    while i < |cs|
      invariant i <= |cs| == |was| && Apart(cs, f)
      invariant Forwarded(Reports(cs, f), was, i, frame)
    {
      ForwardedNext(Reports(cs, f), was, i, frame);
      ForwardOne(cs, f, i, frame);
      i := i + 1;
    }
    ForwardedAll(Reports(cs, f), was, frame);
  }

  /** A request on the link of client k. */
  method Request(cs: seq<Client>, ghost f: set<object>, k: nat, reqType: u32, ioTag: u32)
    requires Apart(cs, f) && k < |cs|
    modifies cs[k].Repr()
    ensures Apart(cs, f) && Reports(cs, f) ==
              old(Reports(cs, f))[k := C.ClientRx(old(Reports(cs, f))[k], reqType, ioTag)]
  {
    cs[k].ClientRx(reqType, ioTag);
  }

  /** A completion on the link of client k. */
  method Sent(cs: seq<Client>, ghost f: set<object>, k: nat)
    requires Apart(cs, f) && k < |cs| && C.Enabled(cs[k].Value(), C.TxDone)
    modifies cs[k].Repr()
    ensures Apart(cs, f) && Reports(cs, f) == old(Reports(cs, f))[k := cs[k].Value()]
    ensures cs[k].Value() == C.Step(old(cs[k].Value()), C.TxDone)
  {
    cs[k].TxDone();
  }
}
