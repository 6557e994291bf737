// Node UIDs (src/hnode-uid.c): sixteen bytes, and their text form hnode_xx:xx:...:xx.

module Uid {
  import opened Basics
  import opened Text

  /** g_ascii_isspace, which does not know the vertical tab. */
  predicate IsSpace(c: char) { c == ' ' || c == '\t' || c == '\n' || c == '\U{0C}' || c == '\r' }

  /** g_strstrip */
  function StripLeft(s: string): string {
    if s != [] && IsSpace(s[0]) then StripLeft(s[1..]) else s
  }

  function StripRight(s: string): string {
    if s != [] && IsSpace(s[|s| - 1]) then StripRight(s[..|s| - 1]) else s
  }

  function Lower(c: char): char {
    if 'A' <= c <= 'Z' then (c as int + 32) as char else c
  }

  /** g_ascii_strncasecmp(s, "hnode_", 6) == 0 */
  predicate HasUidPrefix(s: string) {
    |s| >= 6 && forall k :: 0 <= k < 6 ==> Lower(s[k]) == "hnode_"[k]
  }

  predicate IsHexPair(t: string) {
    |t| == 2 && DigitValue(t[0]).Some? && DigitValue(t[1]).Some?
  }

  function HexPair(t: string): byte
    requires IsHexPair(t)
  {
    DigitValue(t[0]).value * 16 + DigitValue(t[1]).value
  }

  /** The text after the prefix, cut at the colons; None when the string is not a UID string at all. */
  function Fields(s: string): Option<seq<string>> {
    var body := StripRight(StripLeft(s));
    if HasUidPrefix(body) then Some(Split(body[6..], ':')) else None
  }

  function HexByte(b: byte): string {
    [DigitChar(b / 16), DigitChar(b % 16)]
  }

  function JoinHex(id: Bytes): string
    requires id != []
  {
    if |id| == 1 then HexByte(id[0]) else HexByte(id[0]) + ":" + JoinHex(id[1..])
  }

  function Print(id: Uid16): string {
    "hnode_" + JoinHex(id)
  }

  /** No field before this one or at it is anything but a pair. */
  predicate PairsUpTo(ts: seq<string>, k: nat) {
    k < |ts| && forall j :: 0 <= j <= k ==> IsHexPair(ts[j])
  }

  /** The prefix in any case, then sixteen leading hex pairs; what follows the sixteenth is ignored. */
  predicate Accepts(s: string) {
    && Fields(s).Some? && |Fields(s).value| >= 16
    && forall k :: 0 <= k < 16 ==> IsHexPair(Fields(s).value[k])
  }

  function Parse(s: string): Uid16
    requires Accepts(s)
  {
    var ts := Fields(s).value;
    seq(16, i requires 0 <= i < 16 => HexPair(ts[i]))
  }

  lemma HexByteRoundTrip(b: byte)
    ensures IsHexPair(HexByte(b)) && HexPair(HexByte(b)) == b && ':' !in HexByte(b)
  {
    DigitRoundTrip(b / 16);
    DigitRoundTrip(b % 16);
  }

  lemma {:induction false} SplitJoinHex(id: Bytes)
    requires id != []
    ensures |Split(JoinHex(id), ':')| == |id|
    ensures forall k :: 0 <= k < |id| ==> Split(JoinHex(id), ':')[k] == HexByte(id[k])
  {
    HexByteRoundTrip(id[0]);
    if |id| == 1 {
      SplitFirst(HexByte(id[0]), "", ':');
    } else {
      var rest := JoinHex(id[1..]);
      SplitFirst(HexByte(id[0]), rest, ':');
      SplitJoinHex(id[1..]);
      assert Split(JoinHex(id), ':') == [HexByte(id[0])] + Split(rest, ':');
    }
  }

  lemma {:induction false} JoinHexEnds(id: Bytes)
    requires id != []
    ensures JoinHex(id) != []
    ensures !IsSpace(JoinHex(id)[|JoinHex(id)| - 1])
  {
    DigitRoundTrip(id[0] % 16);
    if |id| > 1 { JoinHexEnds(id[1..]); }
  }

  lemma FieldsOfPrint(id: Uid16)
    ensures Fields(Print(id)) == Some(Split(JoinHex(id), ':'))
  {
    JoinHexEnds(id);
    var s := Print(id);
    assert s[0] == 'h' && s[|s| - 1] == JoinHex(id)[|JoinHex(id)| - 1];
    assert StripLeft(s) == s && StripRight(s) == s;
    assert s[6..] == JoinHex(id);
  }

  /** The string of a UID is accepted and read back as the same sixteen bytes. */
  lemma ParseOfPrint(id: Uid16)
    ensures Accepts(Print(id)) && Parse(Print(id)) == id
  {
    FieldsOfPrint(id);
    SplitJoinHex(id);
    forall k | 0 <= k < 16 ensures IsHexPair(HexByte(id[k])) && HexPair(HexByte(id[k])) == id[k] {
      HexByteRoundTrip(id[k]);
    }
  }

  lemma LowerDigit(c: char)
    requires DigitValue(c).Some?
    ensures DigitValue(c).value < 16 && DigitChar(DigitValue(c).value) == Lower(c)
  {
  }

  lemma HexPairPrints(t: string)
    requires IsHexPair(t)
    ensures HexByte(HexPair(t)) == [Lower(t[0]), Lower(t[1])]
  {
    LowerDigit(t[0]);
    LowerDigit(t[1]);
    var hi, lo := DigitValue(t[0]).value, DigitValue(t[1]).value;
    assert (hi * 16 + lo) / 16 == hi && (hi * 16 + lo) % 16 == lo;
  }

  /** Printing what was parsed is canonical: field k comes back in lower case. */
  lemma PrintOfParse(s: string, k: nat)
    requires Accepts(s) && k < 16
    ensures HexByte(Parse(s)[k]) == [Lower(Fields(s).value[k][0]), Lower(Fields(s).value[k][1])]
  {
    HexPairPrints(Fields(s).value[k]);
  }

  /** The UID object. A failed parse leaves the bytes before the bad field overwritten, the others as they
      were, and the UID invalid. */
  class UidObject {
    const id: array<byte>
    var idValid: bool

    constructor ()
      ensures fresh(id) && id.Length == 16 && !idValid
    {
      id := new byte[16](_ => 0);
      idValid := false;
    }

    method SetUid(data: Uid16)
      requires id.Length == 16
      modifies this, id
      ensures id[..] == data && idValid
    {
      var i := 0;
      while i < 16
        invariant i <= 16 && id[..i] == data[..i]
      {
        id[i] := data[i];
        i := i + 1;
      }
      idValid := true;
    }

    method SetUidFromString(s: string) returns (error: bool)
      requires id.Length == 16
      modifies this, id
      ensures error <==> !Accepts(s)
      ensures Accepts(s) ==> idValid && id[..] == Parse(s)
      ensures Fields(s).None? ==> idValid == old(idValid) && id[..] == old(id[..])
      ensures Fields(s).Some? && !Accepts(s) ==> !idValid && forall k :: 0 <= k < 16 ==>
        id[k] == if PairsUpTo(Fields(s).value, k) then HexPair(Fields(s).value[k]) else old(id[k])
    {
      var body := StripRight(StripLeft(s));
      if !HasUidPrefix(body) { return true; }
      var tokens := Split(body[6..], ':');
      var i := 0;
      while i <= 15
        invariant i <= 16 && i <= |tokens|
        invariant forall k :: 0 <= k < i ==> IsHexPair(tokens[k]) && id[k] == HexPair(tokens[k])
        invariant forall k :: i <= k < 16 ==> id[k] == old(id[k])
      {
        if i >= |tokens| || !IsHexPair(tokens[i]) {
          idValid := false;
          return true;
        }
        id[i] := HexPair(tokens[i]);
        i := i + 1;
      }
      idValid := true;
      assert id[..] == Parse(s);
      return false;
    }

    method GetUidAsString() returns (valid: bool, s: string)
      requires id.Length == 16
      ensures valid == idValid && (valid ==> s == Print(id[..]))
    {
      valid, s := idValid, "";
      if valid { s := Print(id[..]); }
    }

    method IsEqual(other: UidObject) returns (equal: bool)
      requires id.Length == 16 && other.id.Length == 16
      ensures equal <==> idValid && other.idValid && id[..] == other.id[..]
    {
      if !idValid || !other.idValid { return false; }
      return id[..] == other.id[..];
    }
  }
}
