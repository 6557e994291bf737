// The packet source object of src/hnode-pktsrc.c for a TCP link. The socket is modelled by what send and recv
// return: any count up to what was offered, and the next bytes of the incoming stream.

module PktSrc {
  import opened Basics
  import opened NodeCodec
  import opened PacketBuffer
  import opened TxStream

  /** g_list_remove: the list without the first occurrence of x. */
  function RemoveFirst(list: seq<Packet>, x: Packet): seq<Packet> {
    if list == [] then [] else if list[0] == x then list[1..] else [list[0]] + RemoveFirst(list[1..], x)
  }

  class PacketSource {
    var txPackets: seq<Packet>
    var curTx: Packet?
    var curTxOffset: nat
    var wantsOut: bool
    var incoming: Bytes
    ghost var sent: seq<Bytes>
    ghost var done: seq<Bytes>
    ghost var wire: Bytes

    ghost predicate Valid()
      reads this, txPackets
    {
      && (forall p :: p in txPackets ==> p.Valid())
      && (curTx != null ==> txPackets != [] && txPackets[0] == curTx && curTxOffset <= curTx.dataLength)
    }

    ghost function Payloads(ps: seq<Packet>): (r: seq<Bytes>)
      requires forall p :: p in ps ==> p.Valid()
      reads ps
      ensures |r| == |ps|
      ensures forall i :: 0 <= i < |ps| ==> r[i] == ps[i].Contents()
    {
      seq(|ps|, i requires 0 <= i < |ps| && ps[i].Valid() reads ps => ps[i].Contents())
    }

    ghost function Value(): Link
      requires Valid()
      reads this, txPackets
    {
      Link(Payloads(txPackets), if curTx == null then None else Some(curTx.Contents()),
           if curTx == null then 0 else curTxOffset, wantsOut, sent, done, wire)
    }

    constructor (stream: Bytes)
      ensures Valid() && Value() == OPEN && incoming == stream
    {
      txPackets, curTx, curTxOffset, wantsOut, incoming := [], null, 0, false, stream;
      sent, done, wire := [], [], [];
      new;
      assert Payloads(txPackets) == [];
    }

    method SendPacket(packet: Packet)
      requires Valid() && packet.Valid()
      modifies this`txPackets, this`wantsOut, this`sent
      ensures Valid() && txPackets == old(txPackets) + [packet]
      ensures Value() == Queue(old(Value()), packet.Contents())
    {
      txPackets := txPackets + [packet];
      sent := sent + [packet.Contents()];
      wantsOut := true;
      assert Payloads(txPackets) == old(Value()).queue + [packet.Contents()];
    }

    /** What the completion callback does to this source: it queues packets. */
    method SendAll(packets: seq<Packet>)
      requires Valid() && forall p :: p in packets ==> p.Valid()
      modifies this`txPackets, this`wantsOut, this`sent
      ensures Valid() && txPackets == old(txPackets) + packets
      ensures Value() == QueueAll(old(Value()), Payloads(packets))
    {
      if packets != [] {
        SendAll(packets[..|packets| - 1]);
        SendPacket(packets[|packets| - 1]);
        assert Payloads(packets)[..|packets| - 1] == Payloads(packets[..|packets| - 1]);
        assert txPackets == old(txPackets) + packets;
      } else {
        assert txPackets == old(txPackets) + packets;
      }
    }

    /** The current packet is through: it leaves the list before the callback runs, which may queue more. */
    method CompleteCurrent(more: seq<Packet>) returns (completed: Packet)
      requires Valid() && curTx != null && forall p :: p in more ==> p.Valid()
      modifies this
      ensures Valid() && completed == old(curTx) && incoming == old(incoming)
      ensures var l := old(Value());
              var c := QueueAll(l.(queue := l.queue[1..], done := l.done + [l.cur.value]), Payloads(more));
              Value() == c.(cur := None, offset := 0, wantsOut := c.wantsOut && c.queue != [])
    {
      completed := curTx;
      ghost var l := Value();
      txPackets := RemoveFirst(txPackets, curTx);
      done := done + [completed.Contents()];
      curTx := null;
      assert Payloads(txPackets) == l.queue[1..];
      SendAll(more);
      if txPackets == [] { wantsOut := false; }
    }

    /** Without a current packet a dispatch takes the next one, and sends nothing yet. */
    method PickCurrent()
      requires Valid() && curTx == null
      modifies this`curTx, this`curTxOffset
      ensures Valid()
      ensures var l := old(Value()); Value() == if l.queue == [] then l else l.(cur := Some(l.queue[0]), offset := 0)
    {
      if txPackets != [] {
        curTx := txPackets[0];
        curTxOffset := 0;
      }
    }

    /** A dispatch with G_IO_OUT set, in which a send takes n bytes. */
    method DispatchOut(n: nat, more: seq<Packet>) returns (completed: Packet?)
      requires Valid() && CanDispatch(Value(), n) && forall p :: p in more ==> p.Valid()
      modifies this
      ensures Valid() && incoming == old(incoming)
      ensures Value() == Dispatch(old(Value()), n, Payloads(more))
      ensures completed == null ==> done == old(done)
      ensures completed != null ==> completed == old(curTx) && done == old(done) + [old(Value()).cur.value]
    {
      completed := null;
      if curTx == null {
        PickCurrent();
        return;
      }
      wire := wire + curTx.Contents()[curTxOffset..curTxOffset + n];
      if n == curTx.dataLength - curTxOffset {
        completed := CompleteCurrent(more);
      } else {
        curTxOffset := curTxOffset + n;
      }
    }

    // ---- receiving ----

    method Recv(count: nat) returns (bs: Bytes)
      requires count <= |incoming|
      modifies this`incoming
      ensures bs == old(incoming)[..count] && incoming == old(incoming)[count..]
    {
      bs := incoming[..count];
      incoming := incoming[count..];
    }

    /** The header, then the rest of the frame that its length word announces. */
    method DispatchIn() returns (packet: Packet)
      requires HasFrame(incoming)
      modifies this`incoming
      ensures fresh(packet) && packet.Valid() && packet.curOffset == 0
      ensures packet.Contents() == old(incoming)[..FrameLength(old(incoming))]
      ensures incoming == old(incoming)[FrameLength(old(incoming))..]
    {
      packet := new Packet();
      packet.GetBufferPtr(12);
      ghost var s := incoming;
      var header := Recv(12);
      packet.Receive(header);
      assert packet.Contents() == s[..12];
      assert packet.data[..4] == s[..4];
      var packetLength := packet.GetUint();
      assert packetLength == U32At(s, 0);
      packet.SkipBytes(8);
      if packetLength > 12 {
        packet.GetBufferPtr(packetLength);
        var rest := Recv(packetLength - 12);
        packet.Receive(rest);
        assert s[..12] + s[12..][..packetLength - 12] == s[..packetLength];
      }
      packet.Reset();
    }

    /** Dispatches for as long as the stream holds a whole frame: the packets are those it splits into. */
    method DispatchAll() returns (packets: seq<Packet>)
      modifies this`incoming
      ensures forall p :: p in packets ==> fresh(p) && p.Valid() && p.curOffset == 0
      ensures var (frames, rest) := SplitFrames(old(incoming));
              Payloads(packets) == frames && incoming == rest
    {
      packets := [];
      ghost var frames := [];
      ghost var s := incoming;
      assert frames + SplitFrames(s).0 == SplitFrames(s).0;
      while HasFrame(incoming)
        invariant forall p :: p in packets ==> fresh(p) && p.Valid() && p.curOffset == 0
        invariant |frames| == |packets| && forall i :: 0 <= i < |packets| ==> packets[i].Contents() == frames[i]
        invariant SplitFrames(s) == (frames + SplitFrames(incoming).0, SplitFrames(incoming).1)
        decreases |incoming|
      {
        ghost var was := incoming;
        var packet := DispatchIn();
        SplitNext(was);
        Assoc(frames, [packet.Contents()], SplitFrames(incoming).0);
        packets, frames := packets + [packet], frames + [packet.Contents()];
      }
      assert SplitFrames(incoming) == ([], incoming);
      assert Payloads(packets) == frames;
    }
  }
}
