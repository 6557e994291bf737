// A TCP link of src/hnode-pktsrc.c: the transmit queue with its partial sends (569-586, 812-956) and the framing
// of received packets (738-805).

module TxStream {
  import opened Basics
  import opened NodeCodec

  /** The transmit side as a value. `sent` and `done` log the packets queued and completed, `wire` the bytes sent. */
  datatype Link = Link(
    queue: seq<Bytes>, cur: Option<Bytes>, offset: nat, wantsOut: bool,
    sent: seq<Bytes>, done: seq<Bytes>, wire: Bytes)

  const OPEN := Link([], None, 0, false, [], [], [])

  function Queue(l: Link, p: Bytes): Link {
    l.(queue := l.queue + [p], sent := l.sent + [p], wantsOut := true)
  }

  function QueueAll(l: Link, ps: seq<Bytes>): (r: Link)
    ensures r.queue == l.queue + ps && r.sent == l.sent + ps
    ensures r.cur == l.cur && r.offset == l.offset && r.done == l.done && r.wire == l.wire
    ensures r.wantsOut == (l.wantsOut || ps != [])
  {
    if ps == [] then l else Queue(QueueAll(l, ps[..|ps| - 1]), ps[|ps| - 1])
  }

  /** The socket takes n bytes; `more` is what the completion callback queues, if there is a completion. */
  function SendSome(l: Link, n: nat, more: seq<Bytes>): Link
    requires l.cur.Some? && l.queue != [] && l.offset + n <= |l.cur.value|
  {
    var p := l.cur.value;
    var w := l.wire + p[l.offset..l.offset + n];
    if l.offset + n == |p| then
      var c := QueueAll(l.(queue := l.queue[1..], done := l.done + [p], wire := w), more);
      c.(cur := None, offset := 0, wantsOut := c.wantsOut && c.queue != [])
    else l.(offset := l.offset + n, wire := w)
  }

  /** G_IO_OUT is reported only when asked for; a send takes at most what is left of the packet. */
  predicate CanDispatch(l: Link, n: nat) {
    && l.wantsOut
    && (l.cur.Some? ==> l.queue != [] && l.offset + n <= |l.cur.value|)
  }

  /** A dispatch with G_IO_OUT set: without a current packet it only picks one. */
  function Dispatch(l: Link, n: nat, more: seq<Bytes>): Link
    requires CanDispatch(l, n)
  {
    if l.cur.Some? then SendSome(l, n, more)
    else if l.queue == [] then l
    else l.(cur := Some(l.queue[0]), offset := 0)
  }

  datatype Event = Send(p: Bytes) | Out(n: nat, more: seq<Bytes>)

  predicate Enabled(l: Link, e: Event) {
    e.Out? ==> CanDispatch(l, e.n)
  }

  function Step(l: Link, e: Event): Link
    requires Enabled(l, e)
  {
    match e
    case Send(p) => Queue(l, p)
    case Out(n, more) => Dispatch(l, n, more)
  }

  predicate IsRun(l: Link, es: seq<Event>)
    decreases es
  {
    es == [] || (Enabled(l, es[0]) && IsRun(Step(l, es[0]), es[1..]))
  }

  function Run(l: Link, es: seq<Event>): Link
    requires IsRun(l, es)
    decreases es
  {
    if es == [] then l else Run(Step(l, es[0]), es[1..])
  }

  /** The bytes of the current packet that are already on the wire. */
  function Partial(l: Link): Bytes
    requires l.cur.Some? ==> l.offset <= |l.cur.value|
  {
    if l.cur.Some? then l.cur.value[..l.offset] else []
  }

  ghost predicate LinkOk(l: Link) {
    && (l.cur.Some? ==> l.queue != [] && l.queue[0] == l.cur.value && (l.offset == 0 || l.offset < |l.cur.value|))
    && (l.wantsOut <==> l.queue != [])
    && l.sent == l.done + l.queue
    && l.wire == Concat(l.done) + Partial(l)
  }

  /** The wire after n more bytes of the current packet. */
  lemma WireGrows(done: seq<Bytes>, p: Bytes, offset: nat, n: nat)
    requires offset + n <= |p|
    ensures Concat(done) + p[..offset] + p[offset..offset + n] == Concat(done) + p[..offset + n]
  {
    assert p[..offset] + p[offset..offset + n] == p[..offset + n];
    Assoc(Concat(done), p[..offset], p[offset..offset + n]);
  }

  lemma ConcatLast(done: seq<Bytes>, p: Bytes)
    ensures Concat(done + [p]) == Concat(done) + p[..|p|]
  {
    assert (done + [p])[..|done|] == done;
  }

  /** A completed packet moves from the queue to those done; what the callback queues comes after. */
  lemma FirstDone(done: seq<Bytes>, queue: seq<Bytes>, more: seq<Bytes>)
    requires queue != []
    ensures done + queue + more == done + [queue[0]] + (queue[1..] + more)
  {
    assert queue == [queue[0]] + queue[1..];
    Assoc(done, [queue[0]], queue[1..]);
    Assoc(done + [queue[0]], queue[1..], more);
  }

  lemma SendPartKeeps(l: Link, n: nat, more: seq<Bytes>)
    requires LinkOk(l) && l.cur.Some? && l.offset + n < |l.cur.value|
    ensures LinkOk(SendSome(l, n, more))
  {
    WireGrows(l.done, l.cur.value, l.offset, n);
  }

  lemma SendLastKeeps(l: Link, n: nat, more: seq<Bytes>)
    requires LinkOk(l) && l.cur.Some? && l.offset + n == |l.cur.value|
    ensures LinkOk(SendSome(l, n, more))
  {
    var p := l.cur.value;
    WireGrows(l.done, p, l.offset, n);
    ConcatLast(l.done, p);
    FirstDone(l.done, l.queue, more);
  }

  lemma SendSomeKeeps(l: Link, n: nat, more: seq<Bytes>)
    requires LinkOk(l) && l.cur.Some? && l.offset + n <= |l.cur.value|
    ensures LinkOk(SendSome(l, n, more))
  {
    if l.offset + n == |l.cur.value| { SendLastKeeps(l, n, more); } else { SendPartKeeps(l, n, more); }
  }

  lemma StepKeeps(l: Link, e: Event)
    requires LinkOk(l) && Enabled(l, e)
    ensures LinkOk(Step(l, e))
  {
    match e
    case Send(p) => Assoc(l.done, l.queue, [p]);
    case Out(n, more) => if l.cur.Some? { SendSomeKeeps(l, n, more); }
  }

  lemma {:induction false} RunKeeps(l: Link, es: seq<Event>)
    requires LinkOk(l) && IsRun(l, es)
    ensures LinkOk(Run(l, es))
    decreases es
  {
    if es != [] {
      StepKeeps(l, es[0]);
      RunKeeps(Step(l, es[0]), es[1..]);
    }
  }

  /** For any partial sends: the wire carries the completed packets in queueing order and then the first bytes of
      the current one, every packet completes at most once and in order, and output is asked for exactly while
      the queue is not empty. */
  lemma WireIsTheQueue(es: seq<Event>)
    requires IsRun(OPEN, es)
    ensures var l := Run(OPEN, es);
            && (l.cur.Some? ==> l.queue != [] && l.cur.value == l.queue[0] && l.offset <= |l.cur.value|)
            && l.wire == Concat(l.done) + (if l.cur.Some? then l.cur.value[..l.offset] else [])
            && l.sent == l.done + l.queue
            && (l.wantsOut <==> l.queue != [])
  {
    RunKeeps(OPEN, es);
  }

  /** How far the link has come with its first packet: picking it counts, and every byte. */
  function Progress(l: Link): nat {
    if l.cur.Some? then l.offset + 1 else 0
  }

  /** The socket takes the last bytes of the current packet. */
  predicate Completes(l: Link, n: nat) {
    l.cur.Some? && l.offset + n == |l.cur.value|
  }

  /** The socket takes at least one byte where there is one. */
  predicate Moves(l: Link, n: nat) {
    CanDispatch(l, n) && (l.cur.Some? && l.cur.value != [] ==> n > 0)
  }

  lemma ProgressBound(l: Link)
    requires LinkOk(l)
    ensures Progress(l) <= if l.queue == [] then 0 else |l.queue[0]| + 1
  {
  }

  /** A dispatch that moves gets on with the first packet, or completes it. */
  lemma DispatchAdvances(l: Link, n: nat, more: seq<Bytes>)
    requires LinkOk(l) && Moves(l, n)
    ensures l.queue != []
    ensures var t := Dispatch(l, n, more);
            if Completes(l, n) then
              t.done == l.done + [l.queue[0]] && t.queue == l.queue[1..] + more && Progress(t) == 0
            else
              t.done == l.done && t.queue == l.queue && Progress(t) > Progress(l)
  {
  }

  /** While the queue is not empty, some dispatch moves. */
  lemma CanMove(l: Link) returns (n: nat)
    requires LinkOk(l) && l.queue != []
    ensures Moves(l, n)
  {
    n := if l.cur.Some? && l.cur.value != [] then 1 else 0;
  }

  // ---- framing ----

  /** A packet the receiver takes in one piece: its first word is its length, or it is a bare header. */
  predicate IsFrame(f: Bytes) {
    |f| >= 12 && (if U32At(f, 0) > 12 then |f| == U32At(f, 0) else |f| == 12)
  }

  /** Twelve bytes first, then the rest that the length word announces. */
  function FrameLength(s: Bytes): nat
    requires |s| >= 12
  {
    if U32At(s, 0) > 12 then U32At(s, 0) else 12
  }

  predicate HasFrame(s: Bytes) {
    |s| >= 12 && FrameLength(s) <= |s|
  }

  /** The packets in a received stream, and the bytes of one that is not complete yet. */
  function SplitFrames(s: Bytes): (seq<Bytes>, Bytes)
    decreases |s|
  {
    if !HasFrame(s) then ([], s)
    else
      var n := FrameLength(s);
      var (fs, rest) := SplitFrames(s[n..]);
      ([s[..n]] + fs, rest)
  }

  lemma SplitNext(s: Bytes)
    requires HasFrame(s)
    ensures var n := FrameLength(s);
            SplitFrames(s) == ([s[..n]] + SplitFrames(s[n..]).0, SplitFrames(s[n..]).1)
  {
  }

  lemma FrameFirst(f: Bytes, rest: Bytes)
    requires IsFrame(f)
    ensures HasFrame(f + rest) && FrameLength(f + rest) == |f|
    ensures (f + rest)[..|f|] == f && (f + rest)[|f|..] == rest
  {
    assert (f + rest)[..|f|] == f;
    assert forall k :: 0 <= k < 4 ==> (f + rest)[k] == f[k];
  }

  /** A proper beginning of a frame is not taken for a frame. */
  lemma PartialFrame(f: Bytes, n: nat)
    requires IsFrame(f) && n < |f|
    ensures !HasFrame(f[..n])
  {
    if n >= 12 { assert forall k :: 0 <= k < 4 ==> f[..n][k] == f[k]; }
  }

  /** Splitting the stream gives the packets back. */
  lemma {:induction false} FramesSplit(fs: seq<Bytes>, rest: Bytes)
    requires (forall f :: f in fs ==> IsFrame(f)) && !HasFrame(rest)
    ensures SplitFrames(Concat(fs) + rest) == (fs, rest)
    decreases |fs|
  {
    if fs == [] {
      assert Concat(fs) + rest == rest;
    } else {
      ConcatFront(fs);
      Assoc(fs[0], Concat(fs[1..]), rest);
      FrameFirst(fs[0], Concat(fs[1..]) + rest);
      FramesSplit(fs[1..], rest);
      assert [fs[0]] + fs[1..] == fs;
    }
  }

  lemma ReceiverSees(l: Link)
    requires LinkOk(l) && forall p :: p in l.sent ==> IsFrame(p)
    ensures SplitFrames(l.wire) == (l.done, Partial(l))
  {
    if l.cur.Some? {
      assert l.queue[0] in l.sent;
      PartialFrame(l.cur.value, l.offset);
    }
    assert forall p :: p in l.done ==> p in l.sent;
    FramesSplit(l.done, Partial(l));
  }

  /** Whatever the partial sends, the receiver's framing finds exactly the completed packets on the wire. */
  lemma ReceiverSeesCompleted(es: seq<Event>)
    requires IsRun(OPEN, es)
    requires forall p :: p in Run(OPEN, es).sent ==> IsFrame(p)
    ensures var l := Run(OPEN, es);
            && (l.cur.Some? ==> l.offset <= |l.cur.value|)
            && SplitFrames(l.wire) == (l.done, if l.cur.Some? then l.cur.value[..l.offset] else [])
  {
    RunKeeps(OPEN, es);
    ReceiverSees(Run(OPEN, es));
  }
}
