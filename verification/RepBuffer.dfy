// The data item of the REST layer that collects content in memory (src/REST/HNRESTRepresentation.cpp:100-185).

module RepBuffer {
  import opened Basics

  /** n & ~1024: only bit ten is cleared, the lower bits stay. */
  function ClearBitTen(n: nat): nat {
    if n / 0x400 % 2 == 1 then n - 0x400 else n
  }

  /** The size of the new buffer. */
  function GrownSize(needed: nat): nat {
    ClearBitTen(needed) + 0x400
  }

  /** The mask does not round, but the new buffer is always large enough: exactly so when bit ten of the request is
      set, and 1024 bytes larger otherwise. */
  lemma GrownSizeSuffices(needed: nat)
    ensures GrownSize(needed) == needed + if needed / 0x400 % 2 == 1 then 0 else 0x400
  {
  }

  /** It is a multiple of 1024 exactly when the request is. */
  lemma GrownSizeRoundsIff(needed: nat)
    ensures GrownSize(needed) % 0x400 == 0 <==> needed % 0x400 == 0
  {
    GrownSizeSuffices(needed);
  }

  class RESTRepDataItem {
    var buffer: array<byte>
    var dataLength: nat

    ghost predicate Valid()
      reads this
    {
      dataLength <= buffer.Length
    }

    ghost function Contents(): Bytes
      requires Valid()
      reads this, buffer
    {
      buffer[..dataLength]
    }

    constructor ()
      ensures Valid() && fresh(buffer) && Contents() == []
    {
      buffer := new byte[0];
      dataLength := 0;
    }

    method ResetData()
      requires Valid()
      modifies this`dataLength
      ensures Valid() && Contents() == []
    {
      dataLength := 0;
    }

    method AppendDataToBuffer(bs: Bytes)
      requires Valid()
      modifies this, buffer
      ensures Valid() && (buffer == old(buffer) || fresh(buffer))
      ensures Contents() == old(Contents()) + bs
      ensures buffer.Length == if old(dataLength) + |bs| > old(buffer.Length) then GrownSize(old(dataLength) + |bs|)
              else old(buffer.Length)
    {
      var neededBytes := dataLength + |bs|;
      if neededBytes > buffer.Length {
        GrownSizeSuffices(neededBytes);
        var tmpBuf := new byte[GrownSize(neededBytes)];
        forall i | 0 <= i < dataLength {
          tmpBuf[i] := buffer[i];
        }
        buffer := tmpBuf;
      }
      forall i | 0 <= i < |bs| {
        buffer[dataLength + i] := bs[i];
      }
      dataLength := dataLength + |bs|;
    }

    /** The pieces in which an upload arrives. */
    method AppendAll(pieces: seq<Bytes>)
      requires Valid()
      modifies this, buffer
      ensures Valid() && (buffer == old(buffer) || fresh(buffer))
      ensures Contents() == old(Contents()) + Concat(pieces)
    {
      ghost var was := Contents();
      var i := 0;
      while i < |pieces|
        invariant i <= |pieces| && Valid() && (buffer == old(buffer) || fresh(buffer))
        invariant Contents() == was + Concat(pieces[..i])
      {
        assert pieces[..i + 1][..i] == pieces[..i];
        Assoc(was, Concat(pieces[..i]), pieces[i]);
        AppendDataToBuffer(pieces[i]);
        i := i + 1;
      }
      assert pieces[..i] == pieces;
    }

    method GetData() returns (bs: Bytes)
      requires Valid()
      ensures bs == Contents()
    {
      bs := buffer[..dataLength];
    }
  }

  /** Whatever the sizes of the pieces, what was appended is what comes out. */
  method Collect(pieces: seq<Bytes>) returns (bs: Bytes)
    ensures bs == Concat(pieces)
  {
    var item := new RESTRepDataItem();
    item.AppendAll(pieces);
    bs := item.GetData();
    assert [] + Concat(pieces) == Concat(pieces);
  }
}
