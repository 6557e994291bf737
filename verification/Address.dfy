// Node addresses (src/hnode-pktaddr.c): an IPv4 socket address kept next to its printed form.

module Address {
  import opened Basics
  import opened Text

  /** The value of an address object. */
  datatype Addr = Addr(ip: Ip4, port: u16, str: string)

  function DottedQuad(ip: Ip4): string {
    Decimal(ip[0]) + "." + (Decimal(ip[1]) + "." + (Decimal(ip[2]) + "." + Decimal(ip[3])))
  }

  function CreateAddressStr(ip: Ip4, port: u16): string {
    "hnode://" + (DottedQuad(ip) + ":" + Decimal(port))
  }

  // ---- what the C library makes of a host and a port ----

  const SPACES := " \t\n\U{0B}\U{0C}\r"
  const ULONG_MAX := 0xFFFF_FFFF_FFFF_FFFF

  /** The lowest n bytes of v, most significant first. */
  function BigEndian(v: nat, n: nat): (bs: Bytes)
    ensures |bs| == n
  {
    if n == 0 then [] else BigEndian(v / 0x100, n - 1) + [v % 0x100]
  }

  function Pow256(n: nat): nat {
    if n == 0 then 1 else 0x100 * Pow256(n - 1)
  }

  /** One part of an address: a numeral that is used up entirely. */
  function Numeral(t: string): Option<nat> {
    var (v, n) := StrToUL(t);
    if t != [] && n == |t| then Some(v) else None
  }

  /** The parts of an address fill `room` bytes: each part but the last fills one, the last fills all that are left. */
  function PartBytes(ts: seq<string>, room: nat): (r: Option<Bytes>)
    requires ts != []
    ensures r.Some? ==> |r.value| == room
    decreases |ts|
  {
    match Numeral(ts[0])
    case None => None
    case Some(v) =>
      if |ts| == 1 then
        if v < Pow256(room) then Some(BigEndian(v, room)) else None
      else if room <= 1 || v >= 0x100 then None
      else
        match PartBytes(ts[1..], room - 1)
        case None => None
        case Some(bs) => Some([v] + bs)
  }

  /** inet_aton: one to four parts; whatever follows the first white space is not looked at. */
  function InetAton(host: string): Option<Ip4> {
    match PartBytes(Split(host[..Span(host, SPACES)], '.'), 4)
    case None => None
    case Some(bs) => Some(bs)
  }

  function SkipSpaces(s: string): string {
    if s != [] && s[0] in SPACES then SkipSpaces(s[1..]) else s
  }

  function Port16(negative: bool, v: nat): u16 {
    if v > ULONG_MAX then ULONG_MAX % 0x1_0000 else (if negative then -(v as int) else v as int) % 0x1_0000
  }

  /** A sign, if there is one, and a numeral; a sum too large reads as the largest. */
  function SignedPort(t: string): u16 {
    if t != [] && (t[0] == '+' || t[0] == '-') then Port16(t[0] == '-', StrToUL(t[1..]).0)
      else Port16(false, StrToUL(t).0)
  }

  /** strtoul and the cast to sixteen bits: white space is passed over. */
  function PortOf(s: string): u16 {
    SignedPort(SkipSpaces(s))
  }

  // ---- the scan of an address string ----

  /** What follows the scheme of an address string, if it has one. */
  function AfterScheme(s: string): Option<string> {
    match Find("hnode://", s)
    case Some(i) => Some(s[i + 8..])
    case None =>
      match Find("hmnode://", s)
      case Some(i) => Some(s[i + 9..])
      case None => None
  }

  datatype Target = Keep | Set(host: string, port: string)

  /** What %s finds behind a slash: a name, unless there is nothing but white space. */
  predicate HasName(s: string) {
    SkipSpaces(s) != []
  }

  /** The fallback when only the host was scanned: with a slash it is scanned again for a name, and without one
      it is itself a name. */
  function ScanName(rest: string): Target {
    var n := Span(rest, "/");
    if n == |rest| || HasName(rest[n + 1..]) then Keep else Set(rest[..n], "")
  }

  /** The scan "%[^/:]:%[^/]/%s" and the choice made on the number of fields it fills. */
  function ScanTarget(rest: string): Target {
    var h := Span(rest, "/:");
    if h == 0 then Set("", "")
    else if h < |rest| && rest[h] == ':' then
      var tail := rest[h + 1..];
      var p := Span(tail, "/");
      if p == 0 then ScanName(rest)
      else if p < |tail| && HasName(tail[p + 1..]) then Keep
      else Set(rest[..h], tail[..p])
    else ScanName(rest)
  }

  const NUMERIC := "1234567890:."

  function NumericSpan(s: string): (n: nat)
    ensures n <= |s|
  {
    if s == [] || s[0] !in NUMERIC then 0 else 1 + NumericSpan(s[1..])
  }

  /** What stands behind a host in a bracket: "]:%[^/]/%s", or else "]/%s". */
  function ScanBehind(host: string, tail: string): Target {
    if IsPrefix("]:", tail) && Span(tail[2..], "/") > 0 then
      var p := Span(tail[2..], "/");
      if p < |tail[2..]| && HasName(tail[2 + p + 1..]) then Keep else Set(host, tail[2..2 + p])
    else if IsPrefix("]/", tail) && HasName(tail[2..]) then Keep
    else Set(host, "")
  }

  /** The scans "[%[1234567890:.]]:%[^/]/%s" and, if that finds only the host, "[%[1234567890:.]]/%s". */
  function ScanBracket(rest: string): Target {
    if rest == [] || rest[0] != '[' then Set("", "")
    else
      var h := NumericSpan(rest[1..]);
      if h == 0 then Set("", "") else ScanBehind(rest[1..1 + h], rest[1 + h..])
  }

  function TargetOf(s: string): Target {
    match AfterScheme(s)
    case None => Keep
    case Some(rest) => if '[' in rest then ScanBracket(rest) else ScanTarget(rest)
  }

  /** The socket address changes only when the string names a target, its IP only when the host is one. */
  function Resolve(a: Addr): Addr {
    match TargetOf(a.str)
    case Keep => a
    case Set(host, port) =>
      match InetAton(host)
      case None => a.(port := PortOf(port))
      case Some(ip) => a.(ip := ip, port := PortOf(port))
  }

  /** The string is copied into a buffer of 128 bytes. */
  function Stored(s: string): string {
    if |s| < 128 then s else s[..127]
  }

  /** The address after its string has been set to s. */
  function SetStr(a: Addr, s: string): Addr {
    Resolve(a.(str := Stored(s)))
  }

  function SetPort(a: Addr, port: u16): Addr {
    Addr(a.ip, port, CreateAddressStr(a.ip, port))
  }

  /** The string of the address is the one its socket address prints as. */
  predicate Canonical(a: Addr) {
    a.str == CreateAddressStr(a.ip, a.port)
  }

  lemma NumeralOfDecimal(n: nat)
    ensures Numeral(Decimal(n)) == Some(n) && Decimal(n) != [] && IsDigit(Decimal(n)[0]) && '.' !in Decimal(n)
  {
    assert Decimal(n) + "" == Decimal(n);
    StrToULReadsDecimal(n, "");
    DecimalDigits(n);
  }

  lemma SplitQuad(a: string, b: string, c: string, d: string)
    requires '.' !in a && '.' !in b && '.' !in c && '.' !in d
    ensures Split(a + "." + (b + "." + (c + "." + d)), '.') == [a, b, c, d]
  {
    SplitFirst(d, "", '.');
    SplitFirst(c, d, '.');
    SplitFirst(b, c + "." + d, '.');
    SplitFirst(a, b + "." + (c + "." + d), '.');
  }

  lemma LastByte(b: byte)
    ensures b < Pow256(1) && BigEndian(b, 1) == [b]
  {
  }

  lemma OnePart(b: byte)
    ensures PartBytes([Decimal(b)], 1) == Some([b])
  {
    NumeralOfDecimal(b);
    LastByte(b);
  }

  lemma MorePart(b: byte, ts: seq<string>, room: nat, bs: Bytes)
    requires ts != [] && room > 0 && PartBytes(ts, room) == Some(bs)
    ensures PartBytes([Decimal(b)] + ts, room + 1) == Some([b] + bs)
  {
    NumeralOfDecimal(b);
    assert ([Decimal(b)] + ts)[1..] == ts;
  }

  lemma FourInOne<T>(a: T, b: T, c: T, d: T)
    ensures [a] + ([b] + ([c] + [d])) == [a, b, c, d]
  {
  }

  /** The four parts of a dotted quad are its four bytes. */
  lemma QuadBytes(a: byte, b: byte, c: byte, d: byte)
    ensures PartBytes([Decimal(a)] + ([Decimal(b)] + ([Decimal(c)] + [Decimal(d)])), 4) ==
            Some([a] + ([b] + ([c] + [d])))
  {
    OnePart(d);
    MorePart(c, [Decimal(d)], 1, [d]);
    MorePart(b, [Decimal(c)] + [Decimal(d)], 2, [c] + [d]);
    MorePart(a, [Decimal(b)] + ([Decimal(c)] + [Decimal(d)]), 3, [b] + ([c] + [d]));
  }

  lemma SplitDotted(ip: Ip4)
    ensures Split(DottedQuad(ip), '.') == [Decimal(ip[0]), Decimal(ip[1]), Decimal(ip[2]), Decimal(ip[3])]
  {
    NumeralOfDecimal(ip[0]);
    NumeralOfDecimal(ip[1]);
    NumeralOfDecimal(ip[2]);
    NumeralOfDecimal(ip[3]);
    SplitQuad(Decimal(ip[0]), Decimal(ip[1]), Decimal(ip[2]), Decimal(ip[3]));
  }

  lemma DottedChars(ip: Ip4)
    ensures DottedQuad(ip) != []
    ensures forall k :: 0 <= k < |DottedQuad(ip)| ==> IsDigit(DottedQuad(ip)[k]) || DottedQuad(ip)[k] == '.'
  {
    DecimalDigits(ip[0]);
    DecimalDigits(ip[1]);
    DecimalDigits(ip[2]);
    DecimalDigits(ip[3]);
  }

  lemma InetAtonOfDotted(ip: Ip4)
    ensures InetAton(DottedQuad(ip)) == Some(ip)
  {
    var host := DottedQuad(ip);
    DottedChars(ip);
    SpanIs(host, SPACES, |host|);
    assert host[..|host|] == host;
    SplitDotted(ip);
    QuadBytes(ip[0], ip[1], ip[2], ip[3]);
    FourInOne(Decimal(ip[0]), Decimal(ip[1]), Decimal(ip[2]), Decimal(ip[3]));
    FourInOne(ip[0], ip[1], ip[2], ip[3]);
    assert ip == [ip[0], ip[1], ip[2], ip[3]];
  }

  lemma ScanHostPort(host: string, port: string)
    requires host != [] && port != []
    requires '/' !in host && ':' !in host && '/' !in port
    ensures ScanTarget(host + ":" + port) == Set(host, port)
  {
    var rest := host + ":" + port;
    SpanIs(rest, "/:", |host|);
    assert rest[..|host|] == host && rest[|host| + 1..] == port;
    SpanIs(port, "/", |port|);
    assert port[..|port|] == port;
  }

  lemma AfterOwnScheme(rest: string)
    ensures AfterScheme("hnode://" + rest) == Some(rest)
  {
    var s := "hnode://" + rest;
    assert s[..8] == "hnode://" && s[8..] == rest;
  }

  lemma NoSign(s: string)
    requires s != [] && IsDigit(s[0]) && StrToUL(s).0 < 0x1_0000
    ensures PortOf(s) == StrToUL(s).0
  {
  }

  lemma PortOfDecimal(port: u16)
    ensures PortOf(Decimal(port)) == port
  {
    NumeralOfDecimal(port);
    NoSign(Decimal(port));
  }

  lemma TargetOfParts(s: string, rest: string, host: string, portStr: string)
    requires host != [] && portStr != [] && '/' !in host && ':' !in host && '/' !in portStr && '[' !in rest
    requires rest == host + ":" + portStr && s == "hnode://" + rest
    ensures TargetOf(s) == Set(host, portStr)
  {
    AfterOwnScheme(rest);
    ScanHostPort(host, portStr);
  }

  lemma NotInJoined(c: char, a: string, b: string)
    requires c !in a && c !in b && c != ':'
    ensures c !in a + ":" + b
  {
  }

  lemma TargetOfCreated(ip: Ip4, port: u16)
    ensures TargetOf(CreateAddressStr(ip, port)) == Set(DottedQuad(ip), Decimal(port))
  {
    var host, portStr := DottedQuad(ip), Decimal(port);
    DottedChars(ip);
    DecimalDigits(port);
    NotInJoined('[', host, portStr);
    TargetOfParts(CreateAddressStr(ip, port), host + ":" + portStr, host, portStr);
  }

  lemma ResolveTo(a: Addr, host: string, portStr: string, ip: Ip4, port: u16)
    requires TargetOf(a.str) == Set(host, portStr) && InetAton(host) == Some(ip) && PortOf(portStr) == port
    ensures Resolve(a) == Addr(ip, port, a.str)
  {
  }

  function Pow10(k: nat): nat { if k == 0 then 1 else 10 * Pow10(k - 1) }

  /** Printed addresses fit the 128-byte buffers of the sources and are plain ASCII. */
  lemma {:induction false} DecimalLength(n: nat, digits: nat)
    requires digits > 0 && n < Pow10(digits)
    ensures |Decimal(n)| <= digits
    decreases digits
  {
    if n >= 10 { DecimalLength(n / 10, digits - 1); }
  }

  lemma CreatedIsShortAscii(ip: Ip4, port: u16)
    ensures |CreateAddressStr(ip, port)| < 128
    ensures forall k :: 0 <= k < |CreateAddressStr(ip, port)| ==> CreateAddressStr(ip, port)[k] < 128 as char
  {
    assert Pow10(3) == 1000 && Pow10(5) == 100000;
    DecimalLength(ip[0], 3);
    DecimalLength(ip[1], 3);
    DecimalLength(ip[2], 3);
    DecimalLength(ip[3], 3);
    DecimalLength(port, 5);
    DottedChars(ip);
    DecimalDigits(port);
  }

  lemma CreatedIsStored(ip: Ip4, port: u16)
    ensures Stored(CreateAddressStr(ip, port)) == CreateAddressStr(ip, port)
  {
    CreatedIsShortAscii(ip, port);
  }

  /** Resolving the string made from a socket address gives that socket address back. */
  lemma ResolveCreated(a: Addr, ip: Ip4, port: u16)
    ensures SetStr(a, CreateAddressStr(ip, port)) == Addr(ip, port, CreateAddressStr(ip, port))
  {
    var b := a.(str := CreateAddressStr(ip, port));
    CreatedIsStored(ip, port);
    TargetOfCreated(ip, port);
    InetAtonOfDotted(ip);
    PortOfDecimal(port);
    ResolveTo(b, DottedQuad(ip), Decimal(port), ip, port);
  }

  /** The printed form identifies the socket address. */
  lemma CreateInjective(ip: Ip4, port: u16, ip': Ip4, port': u16)
    requires CreateAddressStr(ip, port) == CreateAddressStr(ip', port')
    ensures ip == ip' && port == port'
  {
    var a := Addr(ip, port, "");
    ResolveCreated(a, ip, port);
    ResolveCreated(a, ip', port');
  }

  /** The address object of src/hnode-pktaddr.c. */
  class AddressObject {
    var ip: Ip4
    var port: u16
    var str: string

    function Value(): Addr
      reads this
    {
      Addr(ip, port, str)
    }

    constructor ()
      ensures Value() == Addr([0, 0, 0, 0], 0, "")
    {
      ip, port, str := [0, 0, 0, 0], 0, "";
    }

    /** ResolveAddressStr: fills the socket address from the string. */
    method ResolveAddressStr()
      modifies this
      ensures Value() == Resolve(old(Value()))
    {
      match TargetOf(str) {
        case Keep =>
        case Set(host, tmpport) =>
          port := PortOf(tmpport);
          match InetAton(host) {
            case None =>
            case Some(a) => ip := a;
          }
      }
    }

    method SetAddressStr(s: string)
      modifies this
      ensures Value() == SetStr(old(Value()), s)
    {
      str := Stored(s);
      ResolveAddressStr();
    }

    /** Stores a new port and prints the address again. */
    method SetPortNumber(p: u16)
      modifies this
      ensures Value() == SetPort(old(Value()), p) && Canonical(Value())
    {
      port := p;
      str := CreateAddressStr(ip, port);
    }

    method IsEqual(other: AddressObject) returns (equal: bool)
      ensures equal <==> ip == other.ip && port == other.port
      ensures Canonical(Value()) && Canonical(other.Value()) ==> (equal <==> str == other.str)
    {
      if port != other.port { equal := false; } else { equal := ip == other.ip; }
      if Canonical(Value()) && Canonical(other.Value()) && str == other.str {
        CreateInjective(ip, port, other.ip, other.port);
      }
    }
  }
}
