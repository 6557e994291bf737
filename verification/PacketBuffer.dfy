// The growable big-endian cursor buffer that every packet is built in and parsed from (src/hnode-packet.c).

module PacketBuffer {
  import opened Basics

  /** Allocation is done in 512-byte steps. */
  function RoundUp(n: nat): nat {
    if n % 0x200 != 0 then n / 0x200 * 0x200 + 0x200 else n
  }

  /** The rounded size is the least multiple of 512 that covers the request. */
  lemma RoundUpIsLeast(n: nat, m: nat)
    ensures RoundUp(n) % 0x200 == 0 && n <= RoundUp(n)
    ensures m % 0x200 == 0 && n <= m ==> RoundUp(n) <= m
  {
    if m % 0x200 == 0 && n <= m && n % 0x200 != 0 {
      assert m == m / 0x200 * 0x200 && n / 0x200 < m / 0x200;
    }
  }

  /** The log after bs has been written at a cursor inside it: extended at its end, overwritten before it. */
  function Overwrite(log: Bytes, at: nat, bs: Bytes): (r: Bytes)
    requires at <= |log|
    ensures |r| == if at + |bs| <= |log| then |log| else at + |bs|
  {
    if at == |log| then log + bs
    else log[..at] + bs + if at + |bs| <= |log| then log[at + |bs|..] else []
  }

  /** Written bytes replace what they cover and leave the rest. */
  lemma OverwriteAt(log: Bytes, at: nat, bs: Bytes, k: nat)
    requires at <= |log| && k < |Overwrite(log, at, bs)|
    ensures Overwrite(log, at, bs)[k] == if at <= k < at + |bs| then bs[k - at] else log[k]
  {
  }

  class Packet {
    var data: Bytes
    var dataLength: nat
    var curOffset: nat

    ghost predicate Valid()
      reads this
    {
      dataLength <= |data| && curOffset <= |data| && |data| % 0x200 == 0
    }

    /** The bytes of the packet; what the buffer holds behind them is left over from its allocation. */
    ghost function Contents(): Bytes
      requires Valid()
      reads this
    {
      data[..dataLength]
    }

    constructor ()
      ensures Valid() && data == [] && Contents() == [] && curOffset == 0
    {
      data, dataLength, curOffset := [], 0, 0;
    }

    /** Makes room for total bytes, keeping the packet's own bytes. */
    method GetBufferPtr(total: nat)
      requires Valid()
      modifies this`data
      ensures Valid() && total <= |data|
      ensures old(|data|) >= total ==> data == old(data)
      ensures old(|data|) < total ==> |data| == RoundUp(total)
      ensures Contents() == old(Contents())
    {
      if total <= |data| { return; }
      RoundUpIsLeast(total, 0);
      var size := if total % 0x200 != 0 then total / 0x200 * 0x200 + 0x200 else total;
      ghost var zeros: Bytes := seq(size - dataLength, _ => 0);
      assert |zeros| == size - dataLength;
      var rest: Bytes :| |rest| == size - dataLength;
      data := data[..dataLength] + rest;
    }

    method UpdateDataLength()
      requires Valid()
      modifies this`dataLength
      ensures Valid() && dataLength == if curOffset > old(dataLength) then curOffset else old(dataLength)
    {
      if curOffset > dataLength { dataLength := curOffset; }
    }

    method Reset()
      requires Valid()
      modifies this`curOffset
      ensures Valid() && curOffset == 0
    {
      curOffset := 0;
    }

    method SetBytes(bs: Bytes)
      requires Valid() && curOffset <= dataLength
      modifies this
      ensures Valid() && curOffset == old(curOffset) + |bs| <= dataLength
      ensures Contents() == Overwrite(old(Contents()), old(curOffset), bs)
    {
      GetBufferPtr(curOffset + |bs|);
      data := data[..curOffset] + bs + data[curOffset + |bs|..];
      ghost var log, at := old(Contents()), curOffset;
      curOffset := curOffset + |bs|;
      UpdateDataLength();
      forall k | 0 <= k < dataLength ensures data[k] == Overwrite(log, at, bs)[k] {
        OverwriteAt(log, at, bs, k);
      }
    }

    method SetUint(value: u32)
      requires Valid() && curOffset <= dataLength
      modifies this
      ensures Valid() && curOffset == old(curOffset) + 4 <= dataLength
      ensures Contents() == Overwrite(old(Contents()), old(curOffset), U32Bytes(value))
    {
      var v1 := value / 0x100;
      var v2 := v1 / 0x100;
      SetBytes([v2 / 0x100, v2 % 0x100, v1 % 0x100, value % 0x100]);
    }

    method SetShort(value: u16)
      requires Valid() && curOffset <= dataLength
      modifies this
      ensures Valid() && curOffset == old(curOffset) + 2 <= dataLength
      ensures Contents() == Overwrite(old(Contents()), old(curOffset), U16Bytes(value))
    {
      SetBytes([value / 0x100, value % 0x100]);
    }

    method SetChar(value: byte)
      requires Valid() && curOffset <= dataLength
      modifies this
      ensures Valid() && curOffset == old(curOffset) + 1 <= dataLength
      ensures Contents() == Overwrite(old(Contents()), old(curOffset), [value])
    {
      SetBytes([value]);
    }

    method GetUint() returns (value: u32)
      requires Valid() && curOffset + 4 <= |data|
      modifies this`curOffset
      ensures Valid() && curOffset == old(curOffset) + 4 && value == U32At(data, old(curOffset))
    {
      var v: int := data[curOffset];
      v := v * 0x100 + data[curOffset + 1];
      v := v * 0x100 + data[curOffset + 2];
      v := v * 0x100 + data[curOffset + 3];
      value := v;
      curOffset := curOffset + 4;
    }

    method GetShort() returns (value: u16)
      requires Valid() && curOffset + 2 <= |data|
      modifies this`curOffset
      ensures Valid() && curOffset == old(curOffset) + 2 && value == U16At(data, old(curOffset))
    {
      var v: int := data[curOffset];
      value := v * 0x100 + data[curOffset + 1];
      curOffset := curOffset + 2;
    }

    method GetChar() returns (value: byte)
      requires Valid() && curOffset + 1 <= |data|
      modifies this`curOffset
      ensures Valid() && curOffset == old(curOffset) + 1 && value == data[old(curOffset)]
    {
      value := data[curOffset];
      curOffset := curOffset + 1;
    }

    method GetBytes(count: nat) returns (bs: Bytes)
      requires Valid() && curOffset + count <= |data|
      modifies this`curOffset
      ensures Valid() && curOffset == old(curOffset) + count && bs == data[old(curOffset)..old(curOffset) + count]
    {
      bs := data[curOffset..curOffset + count];
      curOffset := curOffset + count;
    }

    /** Moves the cursor over bytes that stay as they are; the callers keep it inside the allocated buffer. */
    method SkipBytes(count: nat)
      requires Valid() && curOffset + count <= |data|
      modifies this`curOffset, this`dataLength
      ensures Valid() && curOffset == old(curOffset) + count
      ensures dataLength == if curOffset > old(dataLength) then curOffset else old(dataLength)
    {
      curOffset := curOffset + count;
      UpdateDataLength();
    }

    /** What the socket layer does with received bytes: they go to the end of the data, which grows by their number. */
    method Receive(bs: Bytes)
      requires Valid() && dataLength + |bs| <= |data|
      modifies this`dataLength, this`data
      ensures Valid() && |data| == old(|data|) && Contents() == old(Contents()) + bs
    {
      data := data[..dataLength] + bs + data[dataLength + |bs|..];
      dataLength := dataLength + |bs|;
    }
  }

  // ---- writes are read back ----

  datatype Item = Uint(u: u32) | Short(w: u16) | Char(b: byte) | Block(bs: Bytes)

  /** What a reader has to know in advance about an item. */
  datatype Shape = UintShape | ShortShape | CharShape | BlockShape(count: nat)

  function ShapeOf(it: Item): Shape {
    match it
    case Uint(_) => UintShape
    case Short(_) => ShortShape
    case Char(_) => CharShape
    case Block(bs) => BlockShape(|bs|)
  }

  function ItemBytes(it: Item): Bytes {
    match it
    case Uint(u) => U32Bytes(u)
    case Short(w) => U16Bytes(w)
    case Char(b) => [b]
    case Block(bs) => bs
  }

  /** The byte log of a sequence of writes. */
  function LogOf(items: seq<Item>): Bytes {
    if items == [] then [] else ItemBytes(items[0]) + LogOf(items[1..])
  }

  method WriteItem(p: Packet, it: Item)
    requires p.Valid() && p.curOffset == p.dataLength
    modifies p
    ensures p.Valid() && p.curOffset == p.dataLength
    ensures p.Contents() == old(p.Contents()) + ItemBytes(it)
  {
    match it
    case Uint(u) => p.SetUint(u);
    case Short(w) => p.SetShort(w);
    case Char(b) => p.SetChar(b);
    case Block(bs) => p.SetBytes(bs);
  }

  method ReadItem(p: Packet, ghost it: Item, shape: Shape) returns (r: Item)
    requires p.Valid() && shape == ShapeOf(it) && Has(p.Contents(), p.curOffset, ItemBytes(it))
    modifies p`curOffset
    ensures p.Valid() && p.curOffset == old(p.curOffset) + |ItemBytes(it)| && r == it
  {
    ghost var at := p.curOffset;
    ghost var n := |ItemBytes(it)|;
    assert Has(p.data, at, ItemBytes(it)) by {
      assert p.Contents() == p.data[..p.dataLength];
    }
    match shape {
      case UintShape =>
        var u := p.GetUint();
        HasU32(p.data, at, it.u);
        r := Uint(u);
      case ShortShape =>
        var w := p.GetShort();
        HasU16(p.data, at, it.w);
        r := Short(w);
      case CharShape =>
        var b := p.GetChar();
        HasByte(p.data, at, it.b);
        r := Char(b);
      case BlockShape(count) =>
        var bs := p.GetBytes(count);
        HasSlice(p.data, at, it.bs);
        r := Block(bs);
    }
  }

  method WriteAll(p: Packet, items: seq<Item>)
    requires p.Valid() && p.curOffset == p.dataLength
    modifies p
    ensures p.Valid() && p.curOffset == p.dataLength
    ensures p.Contents() == old(p.Contents()) + LogOf(items)
  {
    if items != [] {
      ghost var log, first, rest := p.Contents(), ItemBytes(items[0]), LogOf(items[1..]);
      WriteItem(p, items[0]);
      WriteAll(p, items[1..]);
      assert log + (first + rest) == log + first + rest;
    }
  }

  method ReadAll(p: Packet, ghost items: seq<Item>, shapes: seq<Shape>) returns (out: seq<Item>)
    requires p.Valid() && |shapes| == |items| && forall k :: 0 <= k < |items| ==> shapes[k] == ShapeOf(items[k])
    requires Has(p.Contents(), p.curOffset, LogOf(items))
    modifies p`curOffset
    ensures out == items
    decreases shapes
  {
    if shapes == [] { return []; }
    HasSplit(p.Contents(), p.curOffset, ItemBytes(items[0]), LogOf(items[1..]));
    var first := ReadItem(p, items[0], shapes[0]);
    var rest := ReadAll(p, items[1..], shapes[1..]);
    out := [first] + rest;
  }

  /** Any writes to a new packet, then a reset and the matching reads: the reads return what was written. */
  method Echo(items: seq<Item>) returns (out: seq<Item>)
    ensures out == items
  {
    var p := new Packet();
    WriteAll(p, items);
    p.Reset();
    assert p.Contents() == LogOf(items);
    out := ReadAll(p, items, seq(|items|, i requires 0 <= i < |items| => ShapeOf(items[i])));
  }
}
