// What a UID string looks like (src/hnode-uid.c:216-294), spelt out: which strings are read, as which bytes, and what
// is printed.

module UidForms {
  import opened Basics
  import opened Text
  import opened Uid

  // ---- what is printed ----

  /** The printed form has 53 characters: the prefix, and for each byte its two digits, with colons between. */
  lemma {:induction false} JoinHexIs(id: Bytes, k: nat)
    requires k < |id|
    ensures var s := JoinHex(id);
            && |s| == 3 * |id| - 1
            && s[3 * k] == "0123456789abcdef"[id[k] / 16] && s[3 * k + 1] == "0123456789abcdef"[id[k] % 16]
            && (k + 1 < |id| ==> s[3 * k + 2] == ':')
  {
    if |id| > 1 {
      var rest := JoinHex(id[1..]);
      JoinHexIs(id[1..], if k == 0 then 0 else k - 1);
      assert JoinHex(id) == HexByte(id[0]) + ":" + rest;
      if k > 0 { assert id[1..][k - 1] == id[k]; }
    }
  }

  lemma PrintIs(id: Uid16, k: nat)
    requires k < 16
    ensures var s := Print(id);
            && |s| == 53 && s[..6] == "hnode_"
            && s[6 + 3 * k] == "0123456789abcdef"[id[k] / 16] && s[7 + 3 * k] == "0123456789abcdef"[id[k] % 16]
            && (k < 15 ==> s[8 + 3 * k] == ':')
  {
    JoinHexIs(id, k);
  }

  // ---- what is read ----

  predicate IsBlank(s: string) {
    forall c :: c in s ==> c in " \t\n\U{0C}\r"
  }

  /** The pairs with colons between them. */
  function Pairs(ts: seq<string>): string {
    if ts == [] then "" else if |ts| == 1 then ts[0] else ts[0] + ":" + Pairs(ts[1..])
  }

  predicate IsHexDigit(c: char) {
    '0' <= c <= '9' || 'a' <= c <= 'f' || 'A' <= c <= 'F'
  }

  predicate AreHexPairs(ts: seq<string>) {
    forall k :: 0 <= k < |ts| ==> |ts[k]| == 2 && IsHexDigit(ts[k][0]) && IsHexDigit(ts[k][1])
  }

  predicate IsPrefixWord(p: string) {
    && |p| == 6 && p[0] in "hH" && p[1] in "nN" && p[2] in "oO" && p[3] in "dD" && p[4] in "eE" && p[5] == '_'
  }

  /** White space, the prefix in any case, sixteen pairs of hexadecimal digits, and then white space or a colon and
      anything. */
  ghost predicate IsWritten(s: string, space: string, prefix: string, ts: seq<string>, rest: string) {
    && s == space + (prefix + (Pairs(ts) + rest))
    && IsBlank(space) && IsPrefixWord(prefix) && |ts| == 16 && AreHexPairs(ts)
    && (IsBlank(rest) || rest[0] == ':')
  }

  lemma SpaceIs(c: char)
    ensures IsSpace(c) <==> c in " \t\n\U{0C}\r"
  {
  }

  lemma PrefixIs(p: string)
    requires |p| >= 6
    ensures HasUidPrefix(p) <==> IsPrefixWord(p[..6])
  {
  }

  lemma HexDigitIs(c: char)
    ensures IsHexDigit(c) <==> DigitValue(c).Some?
  {
  }

  lemma {:induction false} StripLeftBehind(space: string, x: string)
    requires IsBlank(space) && x != [] && !IsSpace(x[0])
    ensures StripLeft(space + x) == x
  {
    if space == [] {
      assert space + x == x;
    } else {
      assert space[0] in space;
      SpaceIs(space[0]);
      assert (space + x)[1..] == space[1..] + x;
      StripLeftBehind(space[1..], x);
    }
  }

  lemma {:induction false} StripRightBehind(x: string, rest: string)
    requires x != [] && !IsSpace(x[|x| - 1])
    ensures StripRight(x + rest) == x + StripRight(rest)
    decreases |rest|
  {
    if rest == [] {
      assert x + rest == x;
    } else if IsSpace(rest[|rest| - 1]) {
      assert (x + rest)[..|x + rest| - 1] == x + rest[..|rest| - 1];
      StripRightBehind(x, rest[..|rest| - 1]);
    }
  }

  lemma {:induction false} BlankStrips(s: string)
    requires IsBlank(s)
    ensures StripRight(s) == ""
    decreases |s|
  {
    if s != [] {
      assert s[|s| - 1] in s;
      SpaceIs(s[|s| - 1]);
      BlankStrips(s[..|s| - 1]);
    }
  }

  lemma {:induction false} StripLeftCuts(s: string)
    ensures exists space :: IsBlank(space) && s == space + StripLeft(s)
  {
    if s != [] && IsSpace(s[0]) {
      StripLeftCuts(s[1..]);
      var space :| IsBlank(space) && s[1..] == space + StripLeft(s[1..]);
      SpaceIs(s[0]);
      assert IsBlank([s[0]] + space) && s == ([s[0]] + space) + StripLeft(s);
    } else {
      assert IsBlank("") && s == "" + StripLeft(s);
    }
  }

  lemma {:induction false} StripRightCuts(s: string)
    ensures exists space :: IsBlank(space) && s == StripRight(s) + space
    decreases |s|
  {
    if s != [] && IsSpace(s[|s| - 1]) {
      var front := s[..|s| - 1];
      StripRightCuts(front);
      var space :| IsBlank(space) && front == StripRight(front) + space;
      SpaceIs(s[|s| - 1]);
      assert IsBlank(space + [s[|s| - 1]]) && s == StripRight(s) + (space + [s[|s| - 1]]);
    } else {
      assert IsBlank("") && s == StripRight(s) + "";
    }
  }

  // ---- fields ----

  /** Pairs with nothing or a colon behind them are the first fields. */
  lemma {:induction false} PairsAreFields(ts: seq<string>, rest: string)
    requires ts != [] && (forall t :: t in ts ==> ':' !in t) && (rest == "" || rest[0] == ':')
    ensures ts <= Split(Pairs(ts) + rest, ':')
  {
    var t := ts[0];
    assert t in ts;
    if |ts| > 1 {
      var behind := Pairs(ts[1..]) + rest;
      assert Pairs(ts) + rest == t + [':'] + behind;
      SplitFirst(t, behind, ':');
      PairsAreFields(ts[1..], rest);
      assert ts == [t] + ts[1..];
    } else if rest == "" {
      assert Pairs(ts) + rest == t;
      SplitFirst(t, "", ':');
    } else {
      assert Pairs(ts) + rest == t + [':'] + rest[1..];
      SplitFirst(t, rest[1..], ':');
    }
  }

  /** The first field, and what is behind the colon after it. */
  lemma {:induction false} FirstField(x: string)
    ensures var ts := Split(x, ':');
            if |ts| == 1 then x == ts[0]
            else |x| > |ts[0]| && x == ts[0] + ":" + x[|ts[0]| + 1..] && Split(x[|ts[0]| + 1..], ':') == ts[1..]
  {
    if x != [] && x[0] != ':' {
      FirstField(x[1..]);
      var ts := Split(x[1..], ':');
      assert x == [x[0]] + x[1..];
      if |ts| > 1 { assert x[1..][|ts[0]| + 1..] == x[|ts[0]| + 2..]; }
    }
  }

  lemma FirstPair(t: string, ts: seq<string>, rest: string)
    requires ts != []
    ensures Pairs([t] + ts) + rest == t + ":" + (Pairs(ts) + rest)
  {
    assert ([t] + ts)[1..] == ts;
    Assoc(t + ":", Pairs(ts), rest);
  }

  lemma {:induction false} FieldsArePairs(x: string, n: nat) returns (rest: string)
    requires 0 < n <= |Split(x, ':')|
    ensures x == Pairs(Split(x, ':')[..n]) + rest && (rest == "" || rest[0] == ':')
    decreases n
  {
    var ts := Split(x, ':');
    FirstField(x);
    if n > 1 {
      rest := FieldsArePairs(x[|ts[0]| + 1..], n - 1);
      assert ts[..n] == [ts[0]] + ts[1..][..n - 1];
      FirstPair(ts[0], ts[1..][..n - 1], rest);
    } else if |ts| == 1 {
      rest := "";
      assert ts[..1] == ts;
    } else {
      rest := ":" + x[|ts[0]| + 1..];
      assert ts[..1] == [ts[0]];
      Assoc(ts[0], ":", x[|ts[0]| + 1..]);
    }
  }

  // ---- the strings that are accepted ----

  lemma PairsEnd(ts: seq<string>)
    requires ts != [] && AreHexPairs(ts)
    ensures Pairs(ts) != "" && IsHexDigit(Pairs(ts)[|Pairs(ts)| - 1])
  {
    if |ts| > 1 { PairsEnd(ts[1..]); }
  }

  /** What is left of such a string without the white space around it. */
  lemma WrittenStripped(s: string, space: string, prefix: string, ts: seq<string>, rest: string) returns (tail: string)
    requires IsWritten(s, space, prefix, ts, rest)
    ensures StripRight(StripLeft(s)) == prefix + (Pairs(ts) + tail) && (tail == "" || tail[0] == ':')
  {
    PairsEnd(ts);
    var x := prefix + Pairs(ts);
    assert x[0] == prefix[0] && x[|x| - 1] == Pairs(ts)[|Pairs(ts)| - 1];
    tail := StripRight(rest);
    Assoc(prefix, Pairs(ts), rest);
    StripLeftBehind(space, x + rest);
    StripRightBehind(x, rest);
    Assoc(prefix, Pairs(ts), tail);
    if IsBlank(rest) {
      BlankStrips(rest);
    } else {
      assert rest == ":" + rest[1..];
      StripRightBehind(":", rest[1..]);
    }
  }

  lemma WrittenIsAccepted(s: string, space: string, prefix: string, ts: seq<string>, rest: string)
    requires IsWritten(s, space, prefix, ts, rest)
    ensures Accepts(s) && forall k :: 0 <= k < 16 ==> Fields(s).value[k] == ts[k]
  {
    var tail := WrittenStripped(s, space, prefix, ts, rest);
    var body := StripRight(StripLeft(s));
    assert body[..6] == prefix && body[6..] == Pairs(ts) + tail;
    PrefixIs(body);
    PairsAreFields(ts, tail);
    forall k | 0 <= k < 16 ensures IsHexPair(ts[k]) {
      HexDigitIs(ts[k][0]);
      HexDigitIs(ts[k][1]);
    }
  }

  lemma AcceptedIsWritten(s: string)
    requires Accepts(s)
    ensures exists space, prefix, rest :: IsWritten(s, space, prefix, Fields(s).value[..16], rest)
  {
    StripLeftCuts(s);
    StripRightCuts(StripLeft(s));
    var space :| IsBlank(space) && s == space + StripLeft(s);
    var body := StripRight(StripLeft(s));
    var behind :| IsBlank(behind) && StripLeft(s) == body + behind;
    PrefixIs(body);
    var rest := FieldsArePairs(body[6..], 16);
    var ts := Fields(s).value[..16];
    forall k | 0 <= k < 16 ensures IsHexDigit(ts[k][0]) && IsHexDigit(ts[k][1]) {
      assert IsHexPair(Fields(s).value[k]);
      HexDigitIs(ts[k][0]);
      HexDigitIs(ts[k][1]);
    }
    assert s == space + (body[..6] + (Pairs(ts) + (rest + behind)));
    assert rest == "" ==> rest + behind == behind;
    assert IsWritten(s, space, body[..6], ts, rest + behind);
  }

  /** A hexadecimal digit in either case. */
  predicate IsDigitOf(c: char, v: nat) {
    v < 16 && (c == "0123456789abcdef"[v] || c == "0123456789ABCDEF"[v])
  }

  predicate Spells(t: string, b: byte) {
    |t| == 2 && IsDigitOf(t[0], b / 16) && IsDigitOf(t[1], b % 16)
  }

  lemma DigitSpells(c: char)
    requires DigitValue(c).Some?
    ensures IsDigitOf(c, DigitValue(c).value)
  {
  }

  lemma PairSpells(t: string)
    requires IsHexPair(t)
    ensures Spells(t, HexPair(t))
  {
    DigitSpells(t[0]);
    DigitSpells(t[1]);
    var hi, lo, b := DigitValue(t[0]).value, DigitValue(t[1]).value, HexPair(t);
    assert b == hi * 16 + lo && b / 16 == hi && b % 16 == lo;
  }

  ghost predicate AllSpell(ts: seq<string>, id: Uid16) {
    |ts| == 16 && forall k :: 0 <= k < 16 ==> Spells(ts[k], id[k])
  }

  /** A string is accepted exactly when it is written like this, and then its pairs spell the bytes. */
  lemma AcceptedIffWritten(s: string)
    ensures Accepts(s) <==> exists space, prefix, ts, rest :: IsWritten(s, space, prefix, ts, rest)
    ensures Accepts(s) ==>
            exists space, prefix, ts, rest :: IsWritten(s, space, prefix, ts, rest) && AllSpell(ts, Parse(s))
  {
    if Accepts(s) {
      AcceptedIsWritten(s);
      var ts := Fields(s).value[..16];
      var space, prefix, rest :| IsWritten(s, space, prefix, ts, rest);
      forall k | 0 <= k < 16 ensures Spells(ts[k], Parse(s)[k]) { PairSpells(ts[k]); }
    }
    if space, prefix, ts, rest :| IsWritten(s, space, prefix, ts, rest) {
      WrittenIsAccepted(s, space, prefix, ts, rest);
    }
  }
}
