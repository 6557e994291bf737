// Shared value types: machine integers of the C sources, big-endian words and Option.

module Basics {
  datatype Option<+T> = None | Some(value: T)

  type byte = x: int | 0 <= x < 0x100
  type u16 = x: int | 0 <= x < 0x1_0000
  type u32 = x: int | 0 <= x < 0x1_0000_0000

  type Bytes = seq<byte>
  type Uid16 = s: Bytes | |s| == 16 witness seq(16, _ => 0)

  type Ip4 = s: Bytes | |s| == 4 witness [0, 0, 0, 0]
  datatype SockAddr = SockAddr(ip: Ip4, port: u16)

  /** Big-endian forms, as the packet setters store them. */
  function U16Bytes(v: u16): (bs: Bytes)
    ensures |bs| == 2
  {
    [v / 0x100, v % 0x100]
  }

  function U32Bytes(v: u32): (bs: Bytes)
    ensures |bs| == 4
  {
    var v1 := v / 0x100;
    var v2 := v1 / 0x100;
    [v2 / 0x100, v2 % 0x100, v1 % 0x100, v % 0x100]
  }

  function U16At(s: Bytes, at: nat): u16
    requires at + 2 <= |s|
  {
    s[at] as int * 0x100 + s[at + 1]
  }

  function U32At(s: Bytes, at: nat): u32
    requires at + 4 <= |s|
  {
    ((s[at] as int * 0x100 + s[at + 1]) * 0x100 + s[at + 2]) * 0x100 + s[at + 3]
  }

  function Map<A, B>(f: A -> B, s: seq<A>): (r: seq<B>)
    ensures |r| == |s|
    ensures forall i :: 0 <= i < |s| ==> r[i] == f(s[i])
  {
    seq(|s|, i requires 0 <= i < |s| => f(s[i]))
  }

  lemma MapAppend<A, B>(f: A -> B, a: seq<A>, b: seq<A>)
    ensures Map(f, a + b) == Map(f, a) + Map(f, b)
  {
  }

  lemma HeadApart<T>(a: seq<T>, b: seq<T>)
    requires a != []
    ensures a + b == [a[0]] + (a[1..] + b)
  {
  }

  lemma Assoc<T>(a: seq<T>, b: seq<T>, c: seq<T>)
    ensures (a + b) + c == a + (b + c)
  {
  }

  /** Pieces appended one after the other make the nested concatenation. */
  lemma Chain5<T>(log: seq<T>, a: seq<T>, b: seq<T>, c: seq<T>, d: seq<T>, e: seq<T>)
    ensures log + a + b + c + d + e == log + (a + (b + (c + (d + e))))
  {
    Assoc(log + a + b + c, d, e);
    Assoc(log + a + b, c, d + e);
    Assoc(log + a, b, c + (d + e));
    Assoc(log, a, b + (c + (d + e)));
  }

  lemma Chain6<T>(log: seq<T>, a: seq<T>, b: seq<T>, c: seq<T>, d: seq<T>, e: seq<T>, f: seq<T>)
    ensures log + a + b + c + d + e + f == log + (a + (b + (c + (d + (e + f)))))
  {
    Assoc(log + a + b + c + d, e, f);
    Chain5(log, a, b, c, d, e + f);
  }

  lemma Chain7<T>(log: seq<T>, a: seq<T>, b: seq<T>, c: seq<T>, d: seq<T>, e: seq<T>, f: seq<T>, g: seq<T>)
    ensures log + a + b + c + d + e + f + g == log + (a + (b + (c + (d + (e + (f + g))))))
  {
    Assoc(log + a + b + c + d + e, f, g);
    Chain6(log, a, b, c, d, e, f + g);
  }

  /** All pieces, one after the other. */
  function Concat(ps: seq<Bytes>): Bytes {
    if ps == [] then [] else Concat(ps[..|ps| - 1]) + ps[|ps| - 1]
  }

  lemma ConcatFront(ps: seq<Bytes>)
    requires ps != []
    ensures Concat(ps) == ps[0] + Concat(ps[1..])
    decreases |ps|
  {
    var last := ps[|ps| - 1];
    if |ps| == 1 {
      assert ps[..0] == [] && ps[1..] == [];
    } else {
      ConcatFront(ps[..|ps| - 1]);
      assert ps[..|ps| - 1][1..] == ps[1..][..|ps| - 2];
      Assoc(ps[0], Concat(ps[1..][..|ps| - 2]), last);
    }
  }

  /** The bytes bs stand in s from position at on. */
  ghost predicate Has(s: Bytes, at: nat, bs: Bytes) {
    at + |bs| <= |s| && forall k {:trigger bs[k]} :: 0 <= k < |bs| ==> s[at + k] == bs[k]
  }

  lemma HasSlice(s: Bytes, at: nat, bs: Bytes)
    ensures Has(s, at, bs) <==> at + |bs| <= |s| && s[at..at + |bs|] == bs
  {
    if at + |bs| <= |s| && s[at..at + |bs|] == bs {
      forall k | 0 <= k < |bs| ensures s[at + k] == bs[k] {
        assert s[at + k] == s[at..at + |bs|][k];
      }
    }
  }

  lemma HasSplit(s: Bytes, at: nat, a: Bytes, b: Bytes)
    ensures Has(s, at, a + b) <==> Has(s, at, a) && Has(s, at + |a|, b)
  {
    var ab := a + b;
    if Has(s, at, ab) {
      forall k | 0 <= k < |a| ensures s[at + k] == a[k] { assert a[k] == ab[k]; }
      forall k | 0 <= k < |b| ensures s[at + |a| + k] == b[k] { assert b[k] == ab[|a| + k]; }
    }
    if Has(s, at, a) && Has(s, at + |a|, b) {
      forall k | 0 <= k < |ab| ensures s[at + k] == ab[k] {
        if k < |a| { assert ab[k] == a[k]; } else { assert ab[k] == b[k - |a|]; }
      }
    }
  }

  lemma HasU16(s: Bytes, at: nat, v: u16)
    requires Has(s, at, U16Bytes(v))
    ensures U16At(s, at) == v
  {
    var w := U16Bytes(v);
    assert s[at + 0] == w[0] && s[at + 1] == w[1];
  }

  lemma HasU32(s: Bytes, at: nat, v: u32)
    requires Has(s, at, U32Bytes(v))
    ensures U32At(s, at) == v
  {
    var w := U32Bytes(v);
    assert s[at + 0] == w[0] && s[at + 1] == w[1] && s[at + 2] == w[2] && s[at + 3] == w[3];
  }

  lemma HasByte(s: Bytes, at: nat, b: byte)
    requires Has(s, at, [b])
    ensures s[at] == b
  {
    assert s[at + 0] == [b][0];
  }
}
