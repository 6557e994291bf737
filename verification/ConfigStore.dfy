// The configuration memory of the sample node (src/hnode.c:128-338 and 458-573): five named regions, made of
// segments that lie somewhere in one array. Two regions share their segments.

module ConfigStore {
  import opened Basics

  const BASE_PRG := 0
  const BASE_CFG := 1
  const APP_PRG := 2
  const APP_CFG := 3
  const DUMP := 4
  const FENCE := 5

  const RESULT_OK := 0
  const RESULT_TOO_LONG := 3
  const RESULT_BAD_ADDRESS := 4
  const RESULT_MISALIGNED_ADDRESS := 5
  const RESULT_ACCESS_OUT_OF_BOUNDS := 6

  const MEM_SIZE := 0x4_0000
  const ACCESS_SIZE := 512
  const ACCESS_ALIGNMENT := 0x200

  /** A stretch of addresses and where it starts in the memory. */
  datatype Segment = Segment(address: nat, length: nat, offset: nat)

  /** The region tables. */
  function SegmentsOf(region: nat): seq<Segment> {
    if region == BASE_PRG then [Segment(0x1000, 512, 0)]
    else if region == BASE_CFG then [Segment(0x0000, 512, 512)]
    else if region == APP_CFG then [Segment(0x1600, 512, 512 * 3)]
    else if region == APP_PRG || region == DUMP then [Segment(0x8200, 512, 512 * 2), Segment(0x8400, 8192, 512 * 4)]
    else []
  }

  type Memory = m: Bytes | |m| == MEM_SIZE witness seq(MEM_SIZE, _ => 0)

  predicate Covers(s: Segment, address: nat) {
    s.address <= address < s.address + s.length
  }

  datatype Access = Access(status: nat, segment: Option<Segment>)

  /** The search through the segments of a region. */
  function FindAccess(segs: seq<Segment>, address: nat, length: nat): Access {
    if segs == [] then Access(RESULT_BAD_ADDRESS, None)
    else if Covers(segs[0], address) then
      if length > ACCESS_SIZE then Access(RESULT_TOO_LONG, None)
      else if address % ACCESS_ALIGNMENT != 0 then Access(RESULT_MISALIGNED_ADDRESS, None)
      else if address + length > segs[0].address + segs[0].length then Access(RESULT_ACCESS_OUT_OF_BOUNDS, None)
      else Access(RESULT_OK, Some(segs[0]))
    else FindAccess(segs[1..], address, length)
  }

  /** hnode_check_memory_access. */
  function CheckAccess(region: nat, address: nat, length: nat): Access {
    if region >= FENCE then Access(RESULT_ACCESS_OUT_OF_BOUNDS, None)
      else FindAccess(SegmentsOf(region), address, length)
  }

  // ---- the store as a map ----

  /** DUMP is another name for APP_PRG. */
  function Canonical(region: nat): nat {
    if region == DUMP then APP_PRG else region
  }

  /** Where the byte of an address lies, if the region has that address. */
  function Place(segs: seq<Segment>, address: nat): Option<nat> {
    if segs == [] then None
    else if Covers(segs[0], address) then Some(segs[0].offset + (address - segs[0].address))
    else Place(segs[1..], address)
  }

  function PlaceOf(region: nat, address: nat): Option<nat> {
    Place(SegmentsOf(region), address)
  }

  lemma PlaceOne(s: Segment, address: nat)
    ensures Place([s], address) == if Covers(s, address) then Some(s.offset + (address - s.address)) else None
  {
    assert [s][1..] == [];
  }

  lemma PlaceTwo(s: Segment, t: Segment, address: nat)
    ensures Place([s, t], address) == if Covers(s, address) then Some(s.offset + (address - s.address))
            else Place([t], address)
  {
    assert [s, t][1..] == [t];
  }

  lemma FindOne(s: Segment, address: nat, length: nat)
    ensures !Covers(s, address) ==> FindAccess([s], address, length) == Access(RESULT_BAD_ADDRESS, None)
  {
    assert [s][1..] == [];
  }

  lemma FindTwo(s: Segment, t: Segment, address: nat, length: nat)
    ensures !Covers(s, address) ==> FindAccess([s, t], address, length) == FindAccess([t], address, length)
  {
    assert [s, t][1..] == [t];
  }

  /** Unrolls the tables for one address. */
  lemma Tables(region: nat, address: nat, length: nat)
    ensures var segs := SegmentsOf(region);
            && (|segs| == 1 ==>
              && Place(segs, address) ==
                (if Covers(segs[0], address) then Some(segs[0].offset + (address - segs[0].address)) else None)
              && (!Covers(segs[0], address) ==> FindAccess(segs, address, length) == Access(RESULT_BAD_ADDRESS, None)))
            && (|segs| == 2 ==>
              && Place(segs, address) ==
                (if Covers(segs[0], address) then Some(segs[0].offset + (address - segs[0].address))
                 else if Covers(segs[1], address) then Some(segs[1].offset + (address - segs[1].address))
                 else None)
              && (!Covers(segs[0], address) ==>
                FindAccess(segs, address, length) == FindAccess([segs[1]], address, length))
              && (!Covers(segs[0], address) && !Covers(segs[1], address) ==>
                FindAccess(segs, address, length) == Access(RESULT_BAD_ADDRESS, None)))
  {
    var segs := SegmentsOf(region);
    if |segs| == 1 {
      PlaceOne(segs[0], address);
      FindOne(segs[0], address, length);
      assert segs == [segs[0]];
    } else if |segs| == 2 {
      PlaceTwo(segs[0], segs[1], address);
      PlaceOne(segs[1], address);
      FindTwo(segs[0], segs[1], address, length);
      FindOne(segs[1], address, length);
      assert segs == [segs[0], segs[1]];
    }
  }

  /** The tables, read off in the numbers of the interface: every region's places, all inside the memory. */
  lemma PlacesAre(region: nat, address: nat)
    ensures PlaceOf(region, address) ==
            if region == 0 && 0x1000 <= address < 0x1200 then Some(address - 0x1000)
            else if region == 1 && address < 0x200 then Some(0x200 + address)
            else if region == 3 && 0x1600 <= address < 0x1800 then Some(0x600 + (address - 0x1600))
            else if region in {2, 4} && 0x8200 <= address < 0x8400 then Some(0x400 + (address - 0x8200))
            else if region in {2, 4} && 0x8400 <= address < 0xA400 then Some(0x800 + (address - 0x8400))
            else None
    ensures PlaceOf(region, address).Some? ==> PlaceOf(region, address).value < MEM_SIZE
  {
    Tables(region, address, 0);
  }

  /** Different places for different addresses: the segments are disjoint, but for the two names of APP_PRG. */
  lemma PlacesAreDistinct(r: nat, a: nat, r': nat, a': nat)
    requires PlaceOf(r, a).Some? && PlaceOf(r', a').Some?
    ensures PlaceOf(r, a) == PlaceOf(r', a') <==> Canonical(r) == Canonical(r') && a == a'
  {
    PlacesAre(r, a);
    PlacesAre(r', a');
  }

  /** The byte a region holds at an address. */
  function At(m: Memory, region: nat, address: nat): byte
    requires PlaceOf(region, address).Some?
  {
    PlacesAre(region, address);
    m[PlaceOf(region, address).value]
  }

  // ---- what the check decides ----

  /** The answer to every request, in the order the code checks; the bounds error is only ever about the region. */
  lemma StatusIs(region: nat, address: nat, length: nat)
    ensures CheckAccess(region, address, length).status ==
            if region >= FENCE then RESULT_ACCESS_OUT_OF_BOUNDS
            else if PlaceOf(region, address).None? then RESULT_BAD_ADDRESS
            else if length > ACCESS_SIZE then RESULT_TOO_LONG
            else if address % ACCESS_ALIGNMENT != 0 then RESULT_MISALIGNED_ADDRESS
            else RESULT_OK
  {
    Tables(region, address, length);
  }

  /** The segment of an accepted access holds the whole of it. */
  lemma SegmentIs(region: nat, address: nat, length: nat)
    requires CheckAccess(region, address, length).status == RESULT_OK
    ensures var c := CheckAccess(region, address, length);
            && c.segment.Some? && c.segment.value in SegmentsOf(region)
            && Covers(c.segment.value, address) && address + length <= c.segment.value.address + c.segment.value.length
  {
    Tables(region, address, length);
  }

  lemma SegmentPlace(region: nat, s: Segment, address: nat)
    requires s in SegmentsOf(region) && Covers(s, address)
    ensures PlaceOf(region, address) == Some(s.offset + (address - s.address)) && s.offset + s.length <= MEM_SIZE
  {
    Tables(region, address, 0);
  }

  /** The bytes of these addresses lie side by side in the memory, from where the segment puts the first. */
  ghost predicate LiesIn(s: Segment, region: nat, address: nat, length: nat)
    requires Covers(s, address)
  {
    var at := s.offset + (address - s.address);
    at + length <= MEM_SIZE && forall b :: address <= b < address + length ==>
      PlaceOf(region, b) == Some(at + (b - address))
  }

  /** An access is let through exactly when its region exists, holds the address, and the access is aligned and no
      longer than a block; then all of its bytes lie side by side in the region. */
  lemma AcceptedIff(region: nat, address: nat, length: nat)
    ensures var c := CheckAccess(region, address, length);
            && (c.status == RESULT_OK <==>
              region < FENCE && PlaceOf(region, address).Some? && address % ACCESS_ALIGNMENT == 0
                && length <= ACCESS_SIZE)
            && (c.status == RESULT_OK ==> c.segment.Some? && Covers(c.segment.value, address))
            && (c.status == RESULT_OK ==> LiesIn(c.segment.value, region, address, length))
  {
    StatusIs(region, address, length);
    var c := CheckAccess(region, address, length);
    if c.status == RESULT_OK {
      SegmentIs(region, address, length);
      SegmentPlace(region, c.segment.value, address);
      forall b | address <= b < address + length
        ensures PlaceOf(region, b) == Some(c.segment.value.offset + (address - c.segment.value.address) + (b - address))
      {
        SegmentPlace(region, c.segment.value, b);
      }
    }
  }

  // ---- requests ----

  datatype Request =
    | Read(region: nat, address: nat, length: nat)
    | Write(region: nat, address: nat, data: Bytes)
    | Erase(region: nat)

  datatype Reply = Failed(status: nat) | Data(bytes: Bytes) | Done

  function Store(m: Memory, at: nat, bs: Bytes): Memory
    requires at + |bs| <= MEM_SIZE
  {
    m[..at] + bs + m[at + |bs|..]
  }

  predicate InMemory(s: Segment) {
    s.offset + s.length <= MEM_SIZE
  }

  function EraseSegments(m: Memory, segs: seq<Segment>): Memory
    requires forall s :: s in segs ==> InMemory(s)
    decreases |segs|
  {
    if segs == [] then m
    else
      assert segs[0] in segs && InMemory(segs[0]);
      EraseSegments(Store(m, segs[0].offset, seq(segs[0].length, _ => 0xFF)), segs[1..])
  }

  /** An accepted access as a position in the memory. */
  function Offset(region: nat, address: nat, length: nat): (at: nat)
    requires CheckAccess(region, address, length).status == RESULT_OK
    ensures at + length <= MEM_SIZE
  {
    AcceptedIff(region, address, length);
    var s := CheckAccess(region, address, length).segment.value;
    s.offset + (address - s.address)
  }

  function Serve(m: Memory, q: Request): (Memory, Reply) {
    match q
    case Read(r, a, n) =>
      var c := CheckAccess(r, a, n);
      if c.status != RESULT_OK then (m, Failed(c.status)) else (m, Data(m[Offset(r, a, n)..Offset(r, a, n) + n]))
    case Write(r, a, data) =>
      var c := CheckAccess(r, a, |data|);
      if c.status != RESULT_OK then (m, Failed(c.status)) else (Store(m, Offset(r, a, |data|), data), Done)
    case Erase(r) =>
      if r >= FENCE then (m, Failed(RESULT_ACCESS_OUT_OF_BOUNDS)) else (EraseSegments(m, SegmentsOf(r)), Done)
  }

  /** The contents at start: the low byte of every position. */
  function InitialByte(at: nat): byte { at % 0x100 }

  function Initial(): Memory {
    seq(MEM_SIZE, i => if i >= 0 then InitialByte(i) else 0)
  }

  // ---- refinement ----

  /** What a request sets the byte at an address of a region to, said in terms of regions and addresses. */
  function Sets(q: Request, region: nat, address: nat): Option<byte> {
    match q
    case Read(_, _, _) => None
    case Write(r, a, data) =>
      if CheckAccess(r, a, |data|).status == RESULT_OK && Canonical(r) == Canonical(region) && a <= address < a + |data|
      then Some(data[address - a]) else None
    case Erase(r) => if r < FENCE && Canonical(r) == Canonical(region) then Some(0xFF) else None
  }

  lemma StoreByte(m: Memory, at: nat, bs: Bytes, p: nat)
    requires at + |bs| <= MEM_SIZE && p < MEM_SIZE
    ensures Store(m, at, bs)[p] == if at <= p < at + |bs| then bs[p - at] else m[p]
  {
  }

  /** An address lies in the bytes of an accepted access exactly when it is one of its addresses, and at the same
      distance from the first. */
  lemma PlaceInAccess(r: nat, a: nat, n: nat, region: nat, address: nat)
    requires CheckAccess(r, a, n).status == RESULT_OK && PlaceOf(region, address).Some?
    ensures var at, p := Offset(r, a, n), PlaceOf(region, address).value;
            && (at <= p < at + n <==> Canonical(r) == Canonical(region) && a <= address < a + n)
            && (at <= p < at + n ==> p - at == address - a)
  {
    AcceptedIff(r, a, n);
    var at, p := Offset(r, a, n), PlaceOf(region, address).value;
    if at <= p < at + n {
      assert PlaceOf(r, a + (p - at)) == Some(p);
      PlacesAreDistinct(r, a + (p - at), region, address);
    } else if a <= address < a + n {
      assert PlaceOf(r, address) == Some(at + (address - a));
      PlacesAreDistinct(r, address, region, address);
    }
  }

  lemma WriteSets(m: Memory, r: nat, a: nat, data: Bytes, region: nat, address: nat)
    requires CheckAccess(r, a, |data|).status == RESULT_OK && PlaceOf(region, address).Some?
    ensures At(Store(m, Offset(r, a, |data|), data), region, address) ==
            if Canonical(r) == Canonical(region) && a <= address < a + |data| then data[address - a]
              else At(m, region, address)
  {
    PlacesAre(region, address);
    PlaceInAccess(r, a, |data|, region, address);
    StoreByte(m, Offset(r, a, |data|), data, PlaceOf(region, address).value);
  }

  ghost predicate Inside(segs: seq<Segment>, p: nat) {
    exists s :: s in segs && s.offset <= p < s.offset + s.length
  }

  lemma {:induction false} EraseFills(m: Memory, segs: seq<Segment>, p: nat)
    requires (forall s :: s in segs ==> InMemory(s)) && p < MEM_SIZE
    ensures EraseSegments(m, segs)[p] == if Inside(segs, p) then 0xFF else m[p]
    decreases |segs|
  {
    if segs != [] {
      var s := segs[0];
      assert s in segs;
      EraseFills(Store(m, s.offset, seq(s.length, _ => 0xFF)), segs[1..], p);
      assert Inside(segs, p) <==> (s.offset <= p < s.offset + s.length) || Inside(segs[1..], p);
    }
  }

  lemma EraseSets(m: Memory, r: nat, region: nat, address: nat)
    requires r < FENCE && PlaceOf(region, address).Some?
    ensures At(EraseSegments(m, SegmentsOf(r)), region, address) == if Canonical(r) == Canonical(region) then 0xFF
            else At(m, region, address)
  {
    PlacesAre(region, address);
    var p := PlaceOf(region, address).value;
    EraseFills(m, SegmentsOf(r), p);
    if Canonical(r) == Canonical(region) {
      var segs := SegmentsOf(r);
      assert Covers(segs[0], address) || (|segs| == 2 && Covers(segs[1], address));
      assert Inside(segs, p) by {
        if Covers(segs[0], address) { assert segs[0] in segs; } else { assert segs[1] in segs; }
      }
    }
  }

  /** Every request does to every region exactly what it says: the memory behaves as one map from regions and
      addresses to bytes, with DUMP and APP_PRG one region and all others apart. */
  lemma ServeSets(m: Memory, q: Request, region: nat, address: nat)
    requires PlaceOf(region, address).Some?
    ensures At(Serve(m, q).0, region, address) ==
            match Sets(q, region, address)
            case None => At(m, region, address)
            case Some(b) => b
  {
    match q
    case Read(_, _, _) =>
    case Write(r, a, data) =>
      if CheckAccess(r, a, |data|).status == RESULT_OK { WriteSets(m, r, a, data, region, address); }
    case Erase(r) => if r < FENCE { EraseSets(m, r, region, address); }
  }

  function Run(m: Memory, qs: seq<Request>): Memory
    decreases |qs|
  {
    if qs == [] then m else Serve(Run(m, qs[..|qs| - 1]), qs[|qs| - 1]).0
  }

  /** The last thing any of these requests set the byte to. */
  function Latest(qs: seq<Request>, region: nat, address: nat): Option<byte>
    decreases |qs|
  {
    if qs == [] then None
    else
      match Sets(qs[|qs| - 1], region, address)
      case Some(b) => Some(b)
      case None => Latest(qs[..|qs| - 1], region, address)
  }

  lemma {:induction false} RunIsLatest(m: Memory, qs: seq<Request>, region: nat, address: nat)
    requires PlaceOf(region, address).Some?
    ensures At(Run(m, qs), region, address) ==
            match Latest(qs, region, address)
            case None => At(m, region, address)
            case Some(b) => b
    decreases |qs|
  {
    if qs != [] {
      RunIsLatest(m, qs[..|qs| - 1], region, address);
      ServeSets(Run(m, qs[..|qs| - 1]), qs[|qs| - 1], region, address);
    }
  }

  /** After any requests an accepted read gives, byte for byte, the latest write to that address of that region,
      0xFF if it was erased since, and the initial contents if it was never touched. */
  lemma ReadsLatest(qs: seq<Request>, region: nat, address: nat, length: nat, i: nat)
    requires CheckAccess(region, address, length).status == RESULT_OK && i < length
    ensures PlaceOf(region, address + i).Some?
    ensures var reply := Serve(Run(Initial(), qs), Read(region, address, length)).1;
            && reply.Data? && |reply.bytes| == length
            && reply.bytes[i] ==
              match Latest(qs, region, address + i)
              case None => InitialByte(PlaceOf(region, address + i).value)
              case Some(b) => b
  {
    AcceptedIff(region, address, length);
    PlacesAre(region, address + i);
    RunIsLatest(Initial(), qs, region, address + i);
  }

  // ---- the answers ----

  /** The status of an access, in the numbers of the interface. */
  function Verdict(region: nat, address: nat, length: nat): nat {
    if region >= 5 then 6
    else if PlaceOf(region, address).None? then 4
    else if length > 512 then 3
    else if address % 512 != 0 then 5
    else 0
  }

  lemma VerdictIs(region: nat, address: nat, length: nat)
    ensures CheckAccess(region, address, length).status == Verdict(region, address, length)
  {
    StatusIs(region, address, length);
  }

  /** A read or a write is refused with a status exactly when that is its verdict, and not zero; an erase exactly for a
      region that there is not. What is refused changes nothing; a write that is not refused is answered Done, and a
      read with as many bytes as were asked for. */
  lemma Answers(m: Memory, q: Request)
    ensures var (t, reply) := Serve(m, q);
            && (reply.Failed? ==> t == m)
            && match q
               case Read(r, a, n) =>
                 && t == m && (forall st :: reply == Failed(st) <==> st == Verdict(r, a, n) != 0)
                 && (Verdict(r, a, n) == 0 ==> reply.Data? && |reply.bytes| == n)
               case Write(r, a, data) =>
                 && (forall st :: reply == Failed(st) <==> st == Verdict(r, a, |data|) != 0)
                 && (Verdict(r, a, |data|) == 0 ==> reply == Done)
               case Erase(r) => reply == if r < 5 then Done else Failed(6)
  {
    match q
    case Read(r, a, n) => VerdictIs(r, a, n);
    case Write(r, a, data) => VerdictIs(r, a, |data|);
    case Erase(r) =>
  }

  lemma SamePlace(r: nat, r': nat, a: nat, n: nat)
    requires CheckAccess(r, a, n).status == RESULT_OK && CheckAccess(r', a, n).status == RESULT_OK
    requires Canonical(r') == Canonical(r)
    ensures Offset(r, a, n) == Offset(r', a, n)
  {
    AcceptedIff(r, a, n);
    AcceptedIff(r', a, n);
    SegmentIs(r, a, n);
    SegmentIs(r', a, n);
    SegmentPlace(r, CheckAccess(r, a, n).segment.value, a);
    SegmentPlace(r', CheckAccess(r', a, n).segment.value, a);
    PlacesAre(r, a);
    PlacesAre(r', a);
  }

  /** What has been written is read back, also under the region's other name. */
  lemma WriteThenRead(m: Memory, r: nat, a: nat, data: Bytes, r': nat)
    requires Serve(m, Write(r, a, data)).1 == Done && Canonical(r') == Canonical(r)
    ensures Serve(Serve(m, Write(r, a, data)).0, Read(r', a, |data|)).1 == Data(data)
  {
    VerdictIs(r, a, |data|);
    VerdictIs(r', a, |data|);
    PlacesAre(r, a);
    PlacesAre(r', a);
    SamePlace(r, r', a, |data|);
  }

  /** An erased region reads as 0xFF wherever it can be read. */
  lemma EraseThenRead(m: Memory, r: nat, a: nat, n: nat, i: nat)
    requires CheckAccess(r, a, n).status == RESULT_OK && i < n
    ensures var reply := Serve(Serve(m, Erase(r)).0, Read(r, a, n)).1;
            Serve(m, Erase(r)).1 == Done && reply.Data? && |reply.bytes| == n && reply.bytes[i] == 0xFF
  {
    AcceptedIff(r, a, n);
    PlacesAre(r, a + i);
    EraseSets(m, r, r, a + i);
  }

  /** At the start every byte holds the low byte of its position in the array. */
  lemma InitialBytes(p: nat)
    requires p < 0x4_0000
    ensures |Initial()| == 0x4_0000 && Initial()[p] == p % 256
  {
  }
}
