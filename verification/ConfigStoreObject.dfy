// The configuration memory as the program keeps it: one array written in place (src/hnode.c:250-573).

module ConfigStoreObject {
  import opened Basics
  import opened ConfigStore

  class ConfigMemory {
    var gNodeMem: array<byte>

    ghost predicate Valid()
      reads this
    {
      gNodeMem.Length == MEM_SIZE
    }

    ghost function Value(): Memory
      requires Valid()
      reads this, gNodeMem
    {
      gNodeMem[..]
    }

    /** hnode_init_config_store. */
    constructor ()
      ensures Valid() && fresh(gNodeMem) && Value() == Initial()
    {
      gNodeMem := new byte[MEM_SIZE];
      new;
      var i := 0;
      while i < MEM_SIZE
        invariant i <= MEM_SIZE && gNodeMem.Length == MEM_SIZE && fresh(gNodeMem)
        invariant forall k :: 0 <= k < i ==> gNodeMem[k] == InitialByte(k)
      {
        gNodeMem[i] := i % 0x100;
        i := i + 1;
      }
      assert forall k :: 0 <= k < MEM_SIZE ==> gNodeMem[..][k] == Initial()[k];
    }

    /** The loop over the segments of a region. */
    static method CheckMemoryAccess(region: nat, address: nat, length: nat) returns (access: Access)
      ensures access == CheckAccess(region, address, length)
    {
      if region >= FENCE { return Access(RESULT_ACCESS_OUT_OF_BOUNDS, None); }
      var segs := SegmentsOf(region);
      var i := 0;
      while i < |segs|
        invariant i <= |segs|
        invariant FindAccess(segs, address, length) == FindAccess(segs[i..], address, length)
      {
        assert segs[i..][1..] == segs[i + 1..];
        var s := segs[i];
        if address >= s.address && address < s.address + s.length {
          if length > ACCESS_SIZE { return Access(RESULT_TOO_LONG, None); }
          if address % ACCESS_ALIGNMENT != 0 { return Access(RESULT_MISALIGNED_ADDRESS, None); }
          if address + length > s.address + s.length { return Access(RESULT_ACCESS_OUT_OF_BOUNDS, None); }
          return Access(RESULT_OK, Some(s));
        }
        i := i + 1;
      }
      access := Access(RESULT_BAD_ADDRESS, None);
    }

    method CopyIn(at: nat, bs: Bytes)
      requires Valid() && at + |bs| <= MEM_SIZE
      modifies gNodeMem
      ensures Valid() && Value() == Store(old(Value()), at, bs)
    {
      forall i | 0 <= i < |bs| {
        gNodeMem[at + i] := bs[i];
      }
      assert gNodeMem[..] == Store(old(Value()), at, bs);
    }

    method ReadMem(region: nat, address: nat, length: nat) returns (reply: Reply)
      requires Valid()
      ensures reply == Serve(Value(), Read(region, address, length)).1
    {
      var access := CheckMemoryAccess(region, address, length);
      if access.status != RESULT_OK { return Failed(access.status); }
      AcceptedIff(region, address, length);
      var offset := access.segment.value.offset + (address - access.segment.value.address);
      reply := Data(gNodeMem[offset..offset + length]);
    }

    method WriteMem(region: nat, address: nat, data: Bytes) returns (reply: Reply)
      requires Valid()
      modifies gNodeMem
      ensures Valid() && (Value(), reply) == Serve(old(Value()), Write(region, address, data))
    {
      var access := CheckMemoryAccess(region, address, |data|);
      if access.status != RESULT_OK { return Failed(access.status); }
      AcceptedIff(region, address, |data|);
      var offset := access.segment.value.offset + (address - access.segment.value.address);
      CopyIn(offset, data);
      reply := Done;
    }

    method EraseMem(region: nat) returns (reply: Reply)
      requires Valid()
      modifies gNodeMem
      ensures Valid() && (Value(), reply) == Serve(old(Value()), Erase(region))
    {
      if region >= FENCE { return Failed(RESULT_ACCESS_OUT_OF_BOUNDS); }
      var segs := SegmentsOf(region);
      var i := 0;
      assert segs[0..] == segs;
      while i < |segs|
        invariant i <= |segs| && Valid()
        invariant EraseSegments(old(Value()), segs) == EraseSegments(Value(), segs[i..])
      {
        assert segs[i..][1..] == segs[i + 1..];
        assert InMemory(segs[i]);
        CopyIn(segs[i].offset, seq(segs[i].length, _ => 0xFF));
        i := i + 1;
      }
      reply := Done;
    }
  }
}
