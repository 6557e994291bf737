// Text helpers of the C library that the address, UID and object-ID code relies on.

module Text {
  import opened Basics

  /** The digit characters of %u and %x. */
  function DigitChar(d: nat): (c: char)
    requires d < 16
  {
    "0123456789abcdef"[d]
  }

  /** The value of a hexadecimal digit of either case. */
  function DigitValue(c: char): Option<nat> {
    if '0' <= c <= '9' then Some(c as int - '0' as int)
    else if 'a' <= c <= 'f' then Some(c as int - 'a' as int + 10)
    else if 'A' <= c <= 'F' then Some(c as int - 'A' as int + 10)
    else None
  }

  lemma DigitRoundTrip(d: nat)
    requires d < 16
    ensures DigitValue(DigitChar(d)) == Some(d)
    ensures DigitChar(d) == '0' <==> d == 0
    ensures d < 10 ==> '0' <= DigitChar(d) <= '9'
    ensures DigitChar(d) !in "./:[_ xX"
  {
  }

  function Decimal(n: nat): string
    decreases n
  {
    if n < 10 then [DigitChar(n)] else Decimal(n / 10) + [DigitChar(n % 10)]
  }

  predicate IsDigit(c: char) { '0' <= c <= '9' }

  /** The longest prefix of digits below the base, read as a number. */
  function DigitsPrefix(s: string, radix: nat): (n: nat)
    ensures n <= |s|
    ensures forall k :: 0 <= k < n ==> DigitValue(s[k]).Some? && DigitValue(s[k]).value < radix
    ensures n < |s| ==> DigitValue(s[n]).None? || DigitValue(s[n]).value >= radix
  {
    if s == [] || DigitValue(s[0]).None? || DigitValue(s[0]).value >= radix then 0 else 1 + DigitsPrefix(s[1..], radix)
  }

  function Value(s: string, radix: nat): nat
    requires forall k :: 0 <= k < |s| ==> DigitValue(s[k]).Some?
  {
    if s == [] then 0 else Value(s[..|s| - 1], radix) * radix + DigitValue(s[|s| - 1]).value
  }

  /** strtoul with base 0 on an unsigned numeral: value and number of characters used. */
  function StrToUL(s: string): (r: (nat, nat))
    ensures r.1 <= |s|
  {
    if |s| >= 3 && s[0] == '0' && s[1] in "xX" && DigitValue(s[2]).Some? then
      var n := DigitsPrefix(s[2..], 16);
      (Value(s[2..][..n], 16), n + 2)
    else if s != [] && s[0] == '0' then
      var n := DigitsPrefix(s, 8);
      (Value(s[..n], 8), n)
    else
      var n := DigitsPrefix(s, 10);
      (Value(s[..n], 10), n)
  }

  lemma {:induction false} DecimalDigits(n: nat)
    ensures Decimal(n) != []
    ensures forall k :: 0 <= k < |Decimal(n)| ==> IsDigit(Decimal(n)[k])
    ensures Decimal(n)[0] == '0' <==> n == 0
    decreases n
  {
    DigitRoundTrip(n % 10);
    if n >= 10 { DecimalDigits(n / 10); }
  }

  lemma {:induction false} DecimalValue(n: nat)
    ensures forall k :: 0 <= k < |Decimal(n)| ==>
            DigitValue(Decimal(n)[k]).Some? && DigitValue(Decimal(n)[k]).value < 10
    ensures Value(Decimal(n), 10) == n
    decreases n
  {
    DigitRoundTrip(n % 10);
    if n >= 10 {
      DecimalValue(n / 10);
      assert Decimal(n)[..|Decimal(n)| - 1] == Decimal(n / 10);
    } else {
      assert Decimal(n)[..0] == [];
    }
  }

  /** Printing in decimal loses nothing. */
  lemma DecimalInjective(m: nat, n: nat)
    requires Decimal(m) == Decimal(n)
    ensures m == n
  {
    DecimalValue(m);
    DecimalValue(n);
  }

  lemma {:induction false} PrefixOfDigits(s: string, rest: string)
    requires forall k :: 0 <= k < |s| ==> DigitValue(s[k]).Some? && DigitValue(s[k]).value < 10
    requires rest == [] || DigitValue(rest[0]).None?
    ensures DigitsPrefix(s + rest, 10) == |s|
  {
    if s == [] {
      assert s + rest == rest;
    } else {
      PrefixOfDigits(s[1..], rest);
      assert (s + rest)[1..] == s[1..] + rest;
    }
  }

  /** A printed number, followed by anything that is not a digit, is read back whole. */
  lemma StrToULReadsDecimal(n: nat, rest: string)
    requires rest == [] || (DigitValue(rest[0]).None? && rest[0] !in "xX")
    ensures StrToUL(Decimal(n) + rest) == (n, |Decimal(n)|)
  {
    var s := Decimal(n) + rest;
    DecimalDigits(n);
    DecimalValue(n);
    PrefixOfDigits(Decimal(n), rest);
    assert s[..|Decimal(n)|] == Decimal(n);
    if n == 0 {
      assert Decimal(0) == "0";
      assert s[1..] == rest;
      assert DigitsPrefix(s, 8) == 1 + DigitsPrefix(rest, 8);
      assert s[..1] == "0" && "0"[..0] == "";
      assert Value("0", 8) == 0;
    }
  }

  predicate IsPrefix(p: string, s: string) {
    |p| <= |s| && s[..|p|] == p
  }

  /** strstr */
  function Find(p: string, s: string): (r: Option<nat>)
    ensures r.Some? ==> r.value + |p| <= |s| && s[r.value..r.value + |p|] == p
    decreases |s|
  {
    if IsPrefix(p, s) then Some(0)
    else if s == [] then None
    else match Find(p, s[1..])
      case None => None
      case Some(i) => Some(i + 1)
  }

  /** The span of characters outside `stop`, as the scanset %[^...] takes it. */
  function Span(s: string, stop: string): (n: nat)
    ensures n <= |s|
    ensures forall k :: 0 <= k < n ==> s[k] !in stop
    ensures n < |s| ==> s[n] in stop
  {
    if s == [] || s[0] in stop then 0 else 1 + Span(s[1..], stop)
  }

  lemma {:induction false} SpanIs(s: string, stop: string, n: nat)
    requires n <= |s| && (forall k :: 0 <= k < n ==> s[k] !in stop) && (n < |s| ==> s[n] in stop)
    ensures Span(s, stop) == n
  {
    if n > 0 {
      assert s[0] !in stop;
      SpanIs(s[1..], stop, n - 1);
    }
  }

  /** The tokens of s between occurrences of sep; never empty. */
  function Split(s: string, sep: char): (ts: seq<string>)
    ensures |ts| > 0
    ensures forall k :: 0 <= k < |ts| ==> sep !in ts[k]
  {
    if s == [] then [""]
    else
      var ts := Split(s[1..], sep);
      if s[0] == sep then [""] + ts else [[s[0]] + ts[0]] + ts[1..]
  }

  lemma {:induction false} SplitFirst(t: string, rest: string, sep: char)
    requires sep !in t
    ensures Split(t, sep) == [t]
    ensures Split(t + [sep] + rest, sep) == [t] + Split(rest, sep)
  {
    if t == [] {
      assert t + [sep] + rest == [sep] + rest;
      assert ([sep] + rest)[1..] == rest;
    } else {
      SplitFirst(t[1..], rest, sep);
      assert (t + [sep] + rest)[1..] == t[1..] + [sep] + rest;
      assert [t[0]] + t[1..] == t;
    }
  }

  // ---- numerals in other bases ----

  /** A number written with the digits of %x. */
  function DigitsIn(n: nat, radix: nat): string
    requires radix == 8 || radix == 16
    decreases n
  {
    if n < radix then [DigitChar(n)] else DigitsIn(n / radix, radix) + [DigitChar(n % radix)]
  }

  predicate AreDigits(s: string, radix: nat) {
    forall k :: 0 <= k < |s| ==> DigitValue(s[k]).Some? && DigitValue(s[k]).value < radix
  }

  lemma OneMoreDigit(s: string, d: nat, radix: nat)
    requires AreDigits(s, radix) && d < radix <= 16
    ensures AreDigits(s + [DigitChar(d)], radix) && Value(s + [DigitChar(d)], radix) == Value(s, radix) * radix + d
  {
    DigitRoundTrip(d);
    var t := s + [DigitChar(d)];
    assert t[..|t| - 1] == s;
  }

  lemma DivideBy(n: nat, radix: nat)
    requires radix == 8 || radix == 16
    ensures n / radix * radix + n % radix == n && n % radix < radix && (n >= radix ==> n / radix < n)
  {
    if radix == 8 { assert n / 8 * 8 + n % 8 == n; } else { assert n / 16 * 16 + n % 16 == n; }
  }

  lemma LongerNumeral(front: string, q: nat, d: nat, radix: nat)
    requires (radix == 8 || radix == 16) && AreDigits(front, radix) && Value(front, radix) == q && d < radix
    ensures AreDigits(front + [DigitChar(d)], radix) && Value(front + [DigitChar(d)], radix) == q * radix + d
  {
    OneMoreDigit(front, d, radix);
  }

  lemma {:induction false} DigitsInAre(n: nat, radix: nat)
    requires radix == 8 || radix == 16
    ensures DigitsIn(n, radix) != [] && AreDigits(DigitsIn(n, radix), radix)
    ensures Value(DigitsIn(n, radix), radix) == n
    decreases n
  {
    DivideBy(n, radix);
    if n >= radix {
      var q := n / radix;
      DigitsInAre(q, radix);
      LongerNumeral(DigitsIn(q, radix), q, n % radix, radix);
    } else {
      LongerNumeral([], 0, n, radix);
      assert [] + [DigitChar(n)] == [DigitChar(n)];
    }
  }

  lemma {:induction false} PrefixInRadix(s: string, rest: string, radix: nat)
    requires AreDigits(s, radix) && (rest == [] || DigitValue(rest[0]).None?)
    ensures DigitsPrefix(s + rest, radix) == |s|
  {
    if s == [] {
      assert s + rest == rest;
    } else {
      PrefixInRadix(s[1..], rest, radix);
      assert (s + rest)[1..] == s[1..] + rest;
    }
  }

  lemma {:induction false} ZeroInFront(digits: string)
    requires forall k :: 0 <= k < |digits| ==> DigitValue(digits[k]).Some?
    ensures Value("0" + digits, 8) == Value(digits, 8)
    decreases |digits|
  {
    var s := "0" + digits;
    if digits != [] {
      var front := digits[..|digits| - 1];
      ZeroInFront(front);
      assert s[..|s| - 1] == "0" + front;
    } else {
      assert s[..0] == [];
    }
  }

  lemma HexScan(x: char, digits: string, rest: string)
    requires x in "xX" && digits != [] && AreDigits(digits, 16) && (rest == [] || DigitValue(rest[0]).None?)
    ensures StrToUL("0" + [x] + (digits + rest)) == (Value(digits, 16), 2 + |digits|)
  {
    var s := "0" + [x] + (digits + rest);
    PrefixInRadix(digits, rest, 16);
    assert s[2..] == digits + rest;
    assert (digits + rest)[..|digits|] == digits;
    assert s[2] == digits[0];
  }

  lemma OctalScan(digits: string, rest: string)
    requires digits != [] && AreDigits(digits, 8) && (rest == [] || DigitValue(rest[0]).None?)
    ensures StrToUL("0" + digits + rest) == (Value(digits, 8), 1 + |digits|)
  {
    var t := "0" + digits;
    assert AreDigits(t, 8);
    PrefixInRadix(t, rest, 8);
    assert (t + rest)[..|t|] == t;
    assert (t + rest)[1] == digits[0];
    ZeroInFront(digits);
  }

  /** "0x" or "0X" announces hexadecimal digits. */
  lemma StrToULReadsHex(n: nat, x: char, rest: string)
    requires x in "xX" && (rest == [] || DigitValue(rest[0]).None?)
    ensures StrToUL("0" + [x] + (DigitsIn(n, 16) + rest)) == (n, 2 + |DigitsIn(n, 16)|)
  {
    DigitsInAre(n, 16);
    HexScan(x, DigitsIn(n, 16), rest);
  }

  /** A zero in front announces octal digits. */
  lemma StrToULReadsOctal(n: nat, rest: string)
    requires rest == [] || DigitValue(rest[0]).None?
    ensures StrToUL("0" + DigitsIn(n, 8) + rest) == (n, 1 + |DigitsIn(n, 8)|)
  {
    DigitsInAre(n, 8);
    OctalScan(DigitsIn(n, 8), rest);
  }
}
