// The strings that name an address (src/hnode-pktaddr.c:127-346): two schemes, hosts with and without brackets, with
// and without a port or a name behind them, and the numerals and dotted forms that the C library reads.

module AddressForms {
  import opened Basics
  import opened Text
  import opened Address

  // ---- schemes ----

  predicate IsScheme(scheme: string) {
    scheme == "hnode://" || scheme == "hmnode://"
  }

  lemma {:induction false} NotFound(p: string, s: string)
    requires p != [] && p[0] !in s
    ensures Find(p, s) == None
    decreases |s|
  {
    if s != [] { NotFound(p, s[1..]); }
  }

  /** Either scheme is cut off whole; "hnode://" is not taken for a part of "hmnode://". */
  lemma SchemeCutOff(scheme: string, rest: string)
    requires IsScheme(scheme) && 'h' !in rest
    ensures AfterScheme(scheme + rest) == Some(rest)
  {
    var s := scheme + rest;
    if scheme == "hnode://" {
      assert s[..8] == "hnode://" && s[8..] == rest;
    } else {
      assert s[..9] == "hmnode://" && s[9..] == rest;
      NotFound("hnode://", s[1..]);
      assert s[1] == 'm';
    }
  }

  lemma NoScheme(s: string)
    requires 'h' !in s
    ensures AfterScheme(s) == None
  {
    NotFound("hnode://", s);
    NotFound("hmnode://", s);
  }

  // ---- what stands behind the host and the port ----

  /** Nothing, or a slash and more. */
  predicate IsTail(tail: string) {
    tail == "" || tail[0] == '/'
  }

  /** A slash with more than white space behind it names something else than a node. */
  predicate Names(tail: string) {
    tail != "" && exists k :: 0 < k < |tail| && tail[k] !in SPACES
  }

  lemma {:induction false} SkippedAll(s: string)
    ensures SkipSpaces(s) == [] <==> forall k :: 0 <= k < |s| ==> s[k] in SPACES
    decreases |s|
  {
    if s != [] && s[0] in SPACES {
      SkippedAll(s[1..]);
      assert (forall k :: 0 <= k < |s| ==> s[k] in SPACES) <==>
        (forall k :: 0 <= k < |s[1..]| ==> s[1..][k] in SPACES) by {
        if forall k :: 0 <= k < |s[1..]| ==> s[1..][k] in SPACES {
          forall k | 0 <= k < |s| ensures s[k] in SPACES { if k > 0 { assert s[k] == s[1..][k - 1]; } }
        }
      }
    }
  }

  lemma NamesIs(tail: string)
    requires IsTail(tail) && tail != ""
    ensures HasName(tail[1..]) <==> Names(tail)
  {
    SkippedAll(tail[1..]);
    if Names(tail) {
      var k :| 0 < k < |tail| && tail[k] !in SPACES;
      assert tail[1..][k - 1] == tail[k];
    }
  }

  lemma Behind(front: string, tail: string, stop: string)
    requires IsTail(tail) && '/' in stop && forall k :: 0 <= k < |front| ==> front[k] !in stop
    ensures Span(front + tail, stop) == |front| && (front + tail)[..|front|] == front
    ensures tail != "" ==> (front + tail)[|front| + 1..] == tail[1..]
  {
    SpanIs(front + tail, stop, |front|);
  }

  // ---- the four forms ----

  /** host:port */
  lemma HostAndPort(host: string, port: string, tail: string)
    requires host != [] && port != [] && '/' !in host && ':' !in host && '/' !in port && IsTail(tail)
    ensures ScanTarget(host + (":" + (port + tail))) == if Names(tail) then Keep else Set(host, port)
  {
    var rest := host + (":" + (port + tail));
    SpanIs(rest, "/:", |host|);
    assert rest[..|host|] == host && rest[|host| + 1..] == port + tail;
    Behind(port, tail, "/");
    if tail != "" { NamesIs(tail); }
  }

  /** host alone: with nothing behind it, it is itself a name */
  lemma HostAlone(host: string, tail: string)
    requires host != [] && '/' !in host && ':' !in host && IsTail(tail)
    ensures ScanTarget(host + tail) == if tail == "" || Names(tail) then Keep else Set(host, "")
  {
    Behind(host, tail, "/:");
    Behind(host, tail, "/");
    if tail != "" {
      assert (host + tail)[|host|] == '/';
      NamesIs(tail);
    }
  }

  predicate IsNumeric(host: string) {
    forall k :: 0 <= k < |host| ==> host[k] in NUMERIC
  }

  lemma {:induction false} NumericIs(host: string, rest: string)
    requires IsNumeric(host) && rest != [] && rest[0] == ']'
    ensures NumericSpan(host + rest) == |host|
    decreases |host|
  {
    if host == [] {
      assert host + rest == rest;
    } else {
      assert (host + rest)[1..] == host[1..] + rest;
      NumericIs(host[1..], rest);
    }
  }

  lemma BracketHost(host: string, rest: string)
    requires host != [] && IsNumeric(host) && rest != [] && rest[0] == ']'
    ensures var s := "[" + (host + rest);
            NumericSpan(s[1..]) == |host| && s[1..1 + |host|] == host && s[1 + |host|..] == rest
  {
    var s := "[" + (host + rest);
    assert s[1..] == host + rest;
    NumericIs(host, rest);
  }

  lemma ScanIn(host: string, rest: string)
    requires host != [] && IsNumeric(host) && rest != [] && rest[0] == ']'
    ensures ScanBracket("[" + (host + rest)) == ScanBehind(host, rest)
  {
    BracketHost(host, rest);
  }

  /** [host]:port */
  lemma BracketAndPort(host: string, port: string, tail: string)
    requires host != [] && IsNumeric(host) && port != [] && '/' !in port && IsTail(tail)
    ensures ScanBracket("[" + (host + ("]:" + (port + tail)))) == if Names(tail) then Keep else Set(host, port)
  {
    var rest := "]:" + (port + tail);
    ScanIn(host, rest);
    assert rest[2..] == port + tail && rest[..2] == "]:";
    Behind(port, tail, "/");
    assert rest[2..2 + |port|] == port;
    if tail != "" {
      NamesIs(tail);
      assert rest[2 + |port| + 1..] == tail[1..];
    }
  }

  /** [host] */
  lemma BracketAlone(host: string, tail: string)
    requires host != [] && IsNumeric(host) && IsTail(tail)
    ensures ScanBracket("[" + (host + ("]" + tail))) == if Names(tail) then Keep else Set(host, "")
  {
    var rest := "]" + tail;
    ScanIn(host, rest);
    if tail != "" {
      NamesIs(tail);
      assert rest[2..] == tail[1..] && rest[1] == '/' && rest[..2] == "]/";
    }
  }

  // ---- what they do to an address ----

  function After(port: string, tail: string): string {
    if port == "" then tail else ":" + (port + tail)
  }

  /** An address as it is written: host and port, or host alone, with or without brackets. */
  function Written(scheme: string, brackets: bool, host: string, port: string, tail: string): string {
    scheme + (if brackets then "[" + (host + ("]" + After(port, tail))) else host + After(port, tail))
  }

  /** What can be written: no character of the host or the port is taken for something else. */
  predicate IsWritable(brackets: bool, host: string, port: string, tail: string) {
    && host != "" && IsTail(tail) && (if brackets then IsNumeric(host) else ':' !in host)
    && '/' !in host && '/' !in port
    && (forall c :: c in host || c in port || c in tail ==> c != 'h' && c != '[')
  }

  lemma TargetOfRest(scheme: string, rest: string)
    requires IsScheme(scheme) && 'h' !in rest
    ensures rest != "" && rest[0] == '[' ==> TargetOf(scheme + rest) == ScanBracket(rest)
    ensures '[' !in rest ==> TargetOf(scheme + rest) == ScanTarget(rest)
  {
    SchemeCutOff(scheme, rest);
  }

  lemma NotWithin(c: char, a: string, b: string)
    requires c !in a && c !in b
    ensures c !in a + b
  {
  }

  lemma AfterIs(port: string, tail: string)
    ensures "]" + After(port, tail) == if port == "" then "]" + tail else "]:" + (port + tail)
    ensures forall c :: c !in port && c !in tail && c != ':' ==> c !in After(port, tail)
  {
    if port != "" { assert "]" + (":" + (port + tail)) == "]:" + (port + tail); }
  }

  lemma BracketTarget(scheme: string, host: string, port: string, tail: string)
    requires IsScheme(scheme) && IsWritable(true, host, port, tail)
    ensures TargetOf(Written(scheme, true, host, port, tail)) == if Names(tail) then Keep else Set(host, port)
  {
    var rest := "[" + (host + ("]" + After(port, tail)));
    AfterIs(port, tail);
    NotWithin('h', "]", After(port, tail));
    NotWithin('h', host, "]" + After(port, tail));
    NotWithin('h', "[", host + ("]" + After(port, tail)));
    TargetOfRest(scheme, rest);
    if port == "" { BracketAlone(host, tail); } else { BracketAndPort(host, port, tail); }
  }

  lemma PlainTarget(scheme: string, host: string, port: string, tail: string)
    requires IsScheme(scheme) && IsWritable(false, host, port, tail)
    ensures TargetOf(Written(scheme, false, host, port, tail)) ==
            if Names(tail) || (port == "" && tail == "") then Keep else Set(host, port)
  {
    AfterIs(port, tail);
    NotWithin('h', host, After(port, tail));
    NotWithin('[', host, After(port, tail));
    TargetOfRest(scheme, host + After(port, tail));
    if port == "" { HostAlone(host, tail); } else { HostAndPort(host, port, tail); }
  }

  /** In every form the string names its host and port, unless a name follows; a bare host, without a port or a slash,
      is itself a name. */
  lemma WrittenTarget(scheme: string, brackets: bool, host: string, port: string, tail: string)
    requires IsScheme(scheme) && IsWritable(brackets, host, port, tail)
    ensures TargetOf(Written(scheme, brackets, host, port, tail)) ==
            if Names(tail) || (!brackets && port == "" && tail == "") then Keep else Set(host, port)
  {
    if brackets { BracketTarget(scheme, host, port, tail); } else { PlainTarget(scheme, host, port, tail); }
  }

  // ---- dotted hosts ----

  lemma DigitIsNumeric(c: char)
    requires IsDigit(c) || c == '.'
    ensures c in NUMERIC
  {
    if IsDigit(c) { assert c == "0123456789"[c as int - '0' as int]; }
    assert NUMERIC == ['1', '2', '3', '4', '5', '6', '7', '8', '9', '0', ':', '.'];
  }

  lemma HostOfQuad(ip: Ip4)
    ensures IsNumeric(DottedQuad(ip)) && DottedQuad(ip) != "" && |DottedQuad(ip)| <= 15
    ensures forall c :: c in DottedQuad(ip) ==> IsDigit(c) || c == '.'
  {
    DottedChars(ip);
    assert Pow10(3) == 1000;
    DecimalLength(ip[0], 3);
    DecimalLength(ip[1], 3);
    DecimalLength(ip[2], 3);
    DecimalLength(ip[3], 3);
    forall k | 0 <= k < |DottedQuad(ip)| ensures DottedQuad(ip)[k] in NUMERIC { DigitIsNumeric(DottedQuad(ip)[k]); }
  }

  lemma SetsTo(a: Addr, s: string, host: string, portStr: string, ip: Ip4, port: u16)
    requires |s| < 128 && TargetOf(s) == Set(host, portStr) && InetAton(host) == Some(ip) && PortOf(portStr) == port
    ensures SetStr(a, s) == Addr(ip, port, s)
  {
  }

  lemma SetsNothing(a: Addr, s: string)
    requires |s| < 128 && TargetOf(s) == Keep
    ensures SetStr(a, s) == a.(str := s)
  {
  }

  lemma WrittenLength(scheme: string, brackets: bool, host: string, port: string, tail: string)
    requires IsScheme(scheme)
    ensures |Written(scheme, brackets, host, port, tail)| <= 12 + |host| + |port| + |tail|
  {
  }

  /** An IPv4 address written with its port in any of these ways sets exactly that address and port; with a name
      behind it, it sets nothing. */
  lemma AddressIsSet(a: Addr, scheme: string, brackets: bool, ip: Ip4, port: u16, tail: string)
    requires IsScheme(scheme) && IsTail(tail) && 'h' !in tail && '[' !in tail && |tail| <= 90
    ensures var s := Written(scheme, brackets, DottedQuad(ip), Decimal(port), tail);
            SetStr(a, s) == if Names(tail) then a.(str := s) else Addr(ip, port, s)
  {
    var host, portStr := DottedQuad(ip), Decimal(port);
    var s := Written(scheme, brackets, host, portStr, tail);
    HostOfQuad(ip);
    DecimalDigits(port);
    assert Pow10(5) == 100000;
    DecimalLength(port, 5);
    WrittenLength(scheme, brackets, host, portStr, tail);
    WrittenTarget(scheme, brackets, host, portStr, tail);
    if Names(tail) {
      SetsNothing(a, s);
    } else {
      InetAtonOfDotted(ip);
      PortOfDecimal(port);
      SetsTo(a, s, host, portStr, ip, port);
    }
  }

  lemma PortOfNothing()
    ensures PortOf("") == 0
  {
  }

  /** Without a port it is port 0, and without brackets it takes a slash. */
  lemma AddressWithoutPort(a: Addr, scheme: string, brackets: bool, ip: Ip4, tail: string)
    requires IsScheme(scheme) && IsTail(tail) && 'h' !in tail && '[' !in tail && |tail| <= 90
    ensures var s := Written(scheme, brackets, DottedQuad(ip), "", tail);
            SetStr(a, s) == if Names(tail) || (!brackets && tail == "") then a.(str := s) else Addr(ip, 0, s)
  {
    var host := DottedQuad(ip);
    var s := Written(scheme, brackets, host, "", tail);
    HostOfQuad(ip);
    WrittenLength(scheme, brackets, host, "", tail);
    WrittenTarget(scheme, brackets, host, "", tail);
    if Names(tail) || (!brackets && tail == "") {
      SetsNothing(a, s);
    } else {
      InetAtonOfDotted(ip);
      PortOfNothing();
      SetsTo(a, s, host, "", ip, 0);
    }
  }

  /** A host that is no IPv4 address leaves the IP as it was; the port is set all the same. */
  lemma HostUnread(a: Addr, scheme: string, brackets: bool, host: string, port: string, tail: string)
    requires IsScheme(scheme) && IsWritable(brackets, host, port, tail) && !Names(tail) && port != ""
    requires |host| + |port| + |tail| < 116 && InetAton(host) == None
    ensures var s := Written(scheme, brackets, host, port, tail);
            SetStr(a, s) == Addr(a.ip, PortOf(port), s)
  {
    WrittenLength(scheme, brackets, host, port, tail);
    WrittenTarget(scheme, brackets, host, port, tail);
  }

  /** A part that is not a number is no part of an address. */
  lemma {:induction false} BadPart(ts: seq<string>, room: nat, k: nat)
    requires k < |ts| && Numeral(ts[k]).None?
    ensures PartBytes(ts, room) == None
    decreases k
  {
    if k > 0 && |ts| > 1 && room > 1 { BadPart(ts[1..], room - 1, k - 1); }
  }

  /** Where no host can be scanned, the IP is left as it was and the port is zero. */
  lemma NoHost(a: Addr, scheme: string, rest: string)
    requires IsScheme(scheme) && 'h' !in rest && |rest| < 116
    requires if '[' in rest then rest[0] != '[' else rest == "" || rest[0] in "/:"
    ensures SetStr(a, scheme + rest) == Addr(a.ip, 0, scheme + rest)
  {
    SchemeCutOff(scheme, rest);
    PortOfNothing();
    assert InetAton("") == None by { BadPart([""], 4, 0); }
  }

  /** A string with neither scheme is only kept, and of a long one only what fits the buffer. */
  lemma StringWithoutScheme(a: Addr, s: string)
    requires 'h' !in s
    ensures SetStr(a, s) == a.(str := if |s| < 128 then s else s[..127])
  {
    NoScheme(Stored(s));
  }

  /** The forms spelt out, for every address and port. */
  lemma SpeltOut(a: Addr, ip: Ip4, port: u16)
    ensures var (host, portStr) := (DottedQuad(ip), Decimal(port));
            && SetStr(a, "hnode://" + (host + (":" + portStr))) == Addr(ip, port, "hnode://" + (host + (":" + portStr)))
            && SetStr(a, "hmnode://" + (host + (":" + portStr))) ==
              Addr(ip, port, "hmnode://" + (host + (":" + portStr)))
            && SetStr(a, "hnode://" + ("[" + (host + ("]:" + portStr)))) ==
               Addr(ip, port, "hnode://" + ("[" + (host + ("]:" + portStr))))
            && SetStr(a, "hmnode://" + ("[" + (host + ("]:" + portStr)))) ==
               Addr(ip, port, "hmnode://" + ("[" + (host + ("]:" + portStr))))
  {
    var portStr := Decimal(port);
    DecimalDigits(port);
    assert portStr + "" == portStr;
    assert "]" + (":" + portStr) == "]:" + portStr;
    AddressIsSet(a, "hnode://", false, ip, port, "");
    AddressIsSet(a, "hmnode://", false, ip, port, "");
    AddressIsSet(a, "hnode://", true, ip, port, "");
    AddressIsSet(a, "hmnode://", true, ip, port, "");
  }

  /** One address as it is printed. */
  lemma PrintedExample()
    ensures CreateAddressStr([10, 0, 2, 3], 81) == "hnode://10.0.2.3:81"
  {
    assert Decimal(1) == "1" && Decimal(10) == "10" && Decimal(0) == "0" && Decimal(2) == "2" && Decimal(3) == "3";
    assert Decimal(8) == "8" && Decimal(81) == "81";
    assert DottedQuad([10, 0, 2, 3]) == "10.0.2.3";
  }

  // ---- hosts with fewer parts ----

  lemma LowTwo(v: nat)
    ensures BigEndian(v, 2) == [v / 0x100 % 0x100, v % 0x100]
  {
    assert BigEndian(v / 0x100, 1) == [v / 0x100 % 0x100];
  }

  lemma LowThree(v: nat)
    ensures BigEndian(v, 3) == [v / 0x100 / 0x100 % 0x100, v / 0x100 % 0x100, v % 0x100]
  {
    LowTwo(v / 0x100);
  }

  lemma LowFour(v: nat)
    ensures BigEndian(v, 4) == [v / 0x100 / 0x100 / 0x100 % 0x100, v / 0x100 / 0x100 % 0x100, v / 0x100 % 0x100,
            v % 0x100]
  {
    LowThree(v / 0x100);
  }

  lemma WordBytes(v: u32)
    ensures U32Bytes(v) ==
            [v / 0x100 / 0x100 / 0x100 % 0x100, v / 0x100 / 0x100 % 0x100, v / 0x100 % 0x100, v % 0x100]
  {
    assert v / 0x100 / 0x100 / 0x100 < 0x100;
  }

  /** The lowest bytes of a word. */
  lemma LowBytes(v: u32)
    ensures BigEndian(v, 4) == U32Bytes(v)
    ensures BigEndian(v, 3) == U32Bytes(v)[1..]
    ensures BigEndian(v, 2) == U32Bytes(v)[2..]
  {
    WordBytes(v);
    LowTwo(v);
    LowThree(v);
    LowFour(v);
  }

  lemma Powers()
    ensures Pow256(4) == 0x1_0000_0000 && Pow256(3) == 0x100_0000 && Pow256(2) == 0x1_0000
  {
    assert Pow256(1) == 0x100;
  }

  lemma LastPart(v: nat, room: nat)
    ensures PartBytes([Decimal(v)], room) == if v < Pow256(room) then Some(BigEndian(v, room)) else None
  {
    NumeralOfDecimal(v);
  }

  lemma NotASpace(c: char)
    requires IsDigit(c) || c in ".+-"
    ensures c !in SPACES
  {
    assert SPACES == [' ', '\t', '\n', '\U{0B}', '\U{0C}', '\r'];
  }

  lemma NoSpaces(host: string)
    requires forall c :: c in host ==> IsDigit(c) || c == '.'
    ensures Span(host, SPACES) == |host| && host[..|host|] == host
  {
    forall k | 0 <= k < |host| ensures host[k] !in SPACES { NotASpace(host[k]); }
    SpanIs(host, SPACES, |host|);
  }

  /** One number is the whole address. */
  lemma HostOfOne(v: nat)
    ensures InetAton(Decimal(v)) == if v < 0x1_0000_0000 then Some(U32Bytes(v)) else None
  {
    DecimalDigits(v);
    NoSpaces(Decimal(v));
    NumeralOfDecimal(v);
    SplitFirst(Decimal(v), "", '.');
    LastPart(v, 4);
    Powers();
    if v < 0x1_0000_0000 { LowBytes(v); }
  }

  lemma FirstPart(b: byte, ts: seq<string>, room: nat)
    requires ts != [] && room > 0
    ensures PartBytes([Decimal(b)] + ts, room + 1) ==
            match PartBytes(ts, room) case None => None case Some(bs) => Some([b] + bs)
  {
    NumeralOfDecimal(b);
    assert ([Decimal(b)] + ts)[1..] == ts;
  }

  /** Two are its first byte and the other three. */
  lemma HostOfTwo(b: byte, v: nat)
    ensures InetAton(Decimal(b) + "." + Decimal(v)) == if v < 0x100_0000 then Some([b] + U32Bytes(v)[1..]) else None
  {
    DecimalDigits(b);
    DecimalDigits(v);
    NoSpaces(Decimal(b) + "." + Decimal(v));
    NumeralOfDecimal(b);
    NumeralOfDecimal(v);
    SplitFirst(Decimal(b), Decimal(v), '.');
    SplitFirst(Decimal(v), "", '.');
    LastPart(v, 3);
    FirstPart(b, [Decimal(v)], 3);
    Powers();
    if v < 0x100_0000 { LowBytes(v); }
  }

  lemma ThreeParts(b: byte, c: byte, v: nat)
    ensures PartBytes([Decimal(b)] + ([Decimal(c)] + [Decimal(v)]), 4) ==
            if v < 0x1_0000 then Some([b] + ([c] + U32Bytes(v)[2..])) else None
  {
    LastPart(v, 2);
    FirstPart(c, [Decimal(v)], 2);
    FirstPart(b, [Decimal(c)] + [Decimal(v)], 3);
    Powers();
    if v < 0x1_0000 { LowBytes(v); }
  }

  lemma SplitInTwo(a: string, b: string)
    requires '.' !in a && '.' !in b
    ensures Split(a + "." + b, '.') == [a] + [b]
  {
    SplitFirst(a, b, '.');
    SplitFirst(b, "", '.');
  }

  /** Three are two bytes and the other two. */
  lemma HostOfThree(b: byte, c: byte, v: nat)
    ensures InetAton(Decimal(b) + "." + (Decimal(c) + "." + Decimal(v))) ==
            if v < 0x1_0000 then Some([b] + ([c] + U32Bytes(v)[2..])) else None
  {
    DecimalDigits(b);
    DecimalDigits(c);
    DecimalDigits(v);
    NoSpaces(Decimal(b) + "." + (Decimal(c) + "." + Decimal(v)));
    NumeralOfDecimal(b);
    NumeralOfDecimal(c);
    NumeralOfDecimal(v);
    SplitFirst(Decimal(b), Decimal(c) + "." + Decimal(v), '.');
    SplitInTwo(Decimal(c), Decimal(v));
    ThreeParts(b, c, v);
  }

  /** More than four parts are no address. */
  lemma {:induction false} TooManyParts(ts: seq<string>, room: nat)
    requires |ts| > room && room > 0
    ensures PartBytes(ts, room) == None
    decreases room
  {
    if room > 1 { TooManyParts(ts[1..], room - 1); }
  }

  /** Neither is nothing at all, or a number with something else behind it. */
  lemma BadHost(n: nat, rest: string)
    requires rest != "" && DigitValue(rest[0]).None? && rest[0] !in "xX"
    requires forall c :: c in rest ==> c != '.' && c !in SPACES
    ensures InetAton(Decimal(n) + rest) == None && InetAton("") == None
  {
    var s := Decimal(n) + rest;
    StrToULReadsDecimal(n, rest);
    DecimalDigits(n);
    forall k | 0 <= k < |s| ensures s[k] !in SPACES && s[k] != '.' {
      if k < |Decimal(n)| { NotASpace(s[k]); } else { assert s[k] == rest[k - |Decimal(n)|]; }
    }
    SpanIs(s, SPACES, |s|);
    assert s[..|s|] == s;
    SplitFirst(s, "", '.');
    BadPart([s], 4, 0);
    BadPart([""], 4, 0);
  }

  /** What follows white space in a host is not looked at. */
  lemma HostBeforeSpace(host: string, c: char, rest: string)
    requires c in SPACES && forall k :: 0 <= k < |host| ==> host[k] !in SPACES
    ensures InetAton(host + [c] + rest) == InetAton(host)
  {
    var s := host + [c] + rest;
    SpanIs(s, SPACES, |host|);
    SpanIs(host, SPACES, |host|);
    assert s[..|host|] == host && host[..|host|] == host;
  }

  // ---- ports ----

  lemma {:induction false} SpacesSkipped(spaces: string, s: string)
    requires (forall c :: c in spaces ==> c in SPACES) && s != "" && s[0] !in SPACES
    ensures SkipSpaces(spaces + s) == s
    decreases |spaces|
  {
    if spaces == "" {
      assert spaces + s == s;
    } else {
      assert (spaces + s)[1..] == spaces[1..] + s;
      assert spaces[0] in spaces && forall c :: c in spaces[1..] ==> c in spaces;
      SpacesSkipped(spaces[1..], s);
    }
  }

  /** What a numeral with this value and sign is as a port. */
  function PortFrom(sign: string, v: nat): u16 {
    if v > 0xFFFF_FFFF_FFFF_FFFF then 0xFFFF else (if sign == "-" then -(v as int) else v as int) % 0x1_0000
  }

  lemma SignedPortOf(sign: string, s: string)
    requires sign in {"", "+", "-"} && s != "" && IsDigit(s[0])
    ensures SignedPort(sign + s) == PortFrom(sign, StrToUL(s).0)
  {
    if sign == "" { assert sign + s == s; } else { assert (sign + s)[1..] == s && (sign + s)[0] == sign[0]; }
  }

  lemma FirstIsNoSpace(sign: string, s: string)
    requires sign in {"", "+", "-"} && s != "" && IsDigit(s[0])
    ensures (sign + s)[0] !in SPACES
  {
    NotASpace((sign + s)[0]);
  }

  /** White space, a sign, and a numeral: the port is its value modulo 65536, negated behind a minus; a value that no
      word of 64 bits can hold gives the highest port. */
  lemma PortOfSigned(spaces: string, sign: string, s: string)
    requires (forall c :: c in spaces ==> c in SPACES) && sign in {"", "+", "-"} && s != "" && IsDigit(s[0])
    ensures PortOf(spaces + (sign + s)) == PortFrom(sign, StrToUL(s).0)
  {
    FirstIsNoSpace(sign, s);
    SpacesSkipped(spaces, sign + s);
    SignedPortOf(sign, s);
  }

  /** A port may be written in decimal, in hexadecimal behind "0x", and in octal behind "0". */
  lemma PortInAnyBase(spaces: string, sign: string, v: nat)
    requires (forall c :: c in spaces ==> c in SPACES) && sign in {"", "+", "-"}
    ensures PortOf(spaces + (sign + Decimal(v))) == PortFrom(sign, v)
    ensures PortOf(spaces + (sign + ("0x" + (DigitsIn(v, 16) + "")))) == PortFrom(sign, v)
    ensures PortOf(spaces + (sign + ("0" + DigitsIn(v, 8) + ""))) == PortFrom(sign, v)
  {
    NumeralOfDecimal(v);
    PortOfSigned(spaces, sign, Decimal(v));
    StrToULReadsHex(v, 'x', "");
    assert "0" + ['x'] == "0x";
    assert IsDigit(("0x" + (DigitsIn(v, 16) + ""))[0]);
    PortOfSigned(spaces, sign, "0x" + (DigitsIn(v, 16) + ""));
    StrToULReadsOctal(v, "");
    PortOfSigned(spaces, sign, "0" + DigitsIn(v, 8) + "");
  }
}
