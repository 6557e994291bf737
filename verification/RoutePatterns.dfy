// How the text of a pattern becomes its elements, and a URL its segments (src/REST/HNRESTResource.cpp:106-181).

module RoutePatterns {
  import opened Basics
  import opened Text
  import opened Routing

  // ---- tokens ----

  predicate IsName(name: string) {
    name != "" && forall c :: c in name ==> IsNameChar(c)
  }

  /** Letters, digits and the hyphen, by their codes. */
  lemma NameChars(c: char)
    ensures IsNameChar(c) <==>
            65 <= c as int <= 90 || 97 <= c as int <= 122 || 48 <= c as int <= 57 || c as int == 45
  {
  }

  function Braced(name: string): string {
    "{" + (name + "}")
  }

  lemma TokenIsParam(t: string, name: string)
    ensures ParseToken(t) == Param(name) <==> IsName(name) && t == Braced(name)
  {
    if IsName(name) && t == Braced(name) {
      assert t[1..|t| - 1] == name;
      forall k | 0 < k < |t| - 1 ensures IsNameChar(t[k]) { assert t[k] == name[k - 1]; }
    }
    if ParseToken(t) == Param(name) {
      assert t == Braced(name);
      forall c | c in name ensures IsNameChar(c) {
        var k :| 0 <= k < |name| && name[k] == c;
        assert t[k + 1] == c;
      }
    }
  }

  /** A token is a parameter exactly when it is a name in braces, and its name is what is between them; it is the
      wildcard exactly when it is an asterisk; any other is a literal with its very text. */
  lemma TokenIs(t: string)
    ensures forall name :: ParseToken(t) == Param(name) <==> IsName(name) && t == Braced(name)
    ensures ParseToken(t) == Wild <==> t == "*"
    ensures ParseToken(t) == Lit(t) <==> t != "*" && forall name :: IsName(name) ==> t != Braced(name)
    ensures ParseToken(t).Lit? ==> ParseToken(t).text == t
  {
    forall name ensures ParseToken(t) == Param(name) <==> IsName(name) && t == Braced(name) {
      TokenIsParam(t, name);
    }
    if ParseToken(t).Param? {
      assert ParseToken(t) == Param(ParseToken(t).name);
    }
  }

  // ---- whole patterns ----

  /** An element as it is written in a pattern. */
  function Written(e: Elem): string {
    match e
    case Lit(t) => t
    case Param(name) => Braced(name)
    case Wild => "*"
  }

  /** Literals that look like neither a parameter nor the wildcard, and parameters with proper names. */
  ghost predicate IsWritable(e: Elem) {
    match e
    case Lit(t) => t != "" && '/' !in t && t != "*" && forall name :: IsName(name) ==> t != Braced(name)
    case Param(name) => IsName(name)
    case Wild => true
  }

  function WrittenAll(pattern: seq<Elem>): (ts: seq<string>)
    ensures |ts| == |pattern| && forall i :: 0 <= i < |pattern| ==> ts[i] == Written(pattern[i])
  {
    if pattern == [] then [] else [Written(pattern[0])] + WrittenAll(pattern[1..])
  }

  lemma WrittenIsRead(e: Elem)
    requires IsWritable(e)
    ensures ParseToken(Written(e)) == e && Written(e) != "" && '/' !in Written(e)
  {
    TokenIs(Written(e));
    if e.Param? {
      forall c | c in Written(e) ensures c != '/' {
        var k :| 0 <= k < |Written(e)| && Written(e)[k] == c;
        if 0 < k < |Written(e)| - 1 { assert e.name[k - 1] == c; }
      }
    }
  }

  lemma FirstToken(t: string, ts: seq<string>)
    ensures ParseTokens([t] + ts) == if ParseToken(t).Wild? then [ParseToken(t)] else [ParseToken(t)] + ParseTokens(ts)
  {
    assert ([t] + ts)[1..] == ts;
  }

  lemma {:induction false} TokensAreRead(pattern: seq<Elem>)
    requires Terminal(pattern) && forall e :: e in pattern ==> IsWritable(e)
    ensures ParseTokens(WrittenAll(pattern)) == pattern
    decreases |pattern|
  {
    if pattern != [] {
      assert pattern[0] in pattern;
      WrittenIsRead(pattern[0]);
      FirstToken(Written(pattern[0]), WrittenAll(pattern[1..]));
      forall e | e in pattern[1..] ensures IsWritable(e) { assert e in pattern; }
      assert Terminal(pattern[1..]) by {
        forall i | 0 <= i < |pattern[1..]| - 1 ensures !pattern[1..][i].Wild? { assert !pattern[i + 1].Wild?; }
      }
      TokensAreRead(pattern[1..]);
      assert pattern == [pattern[0]] + pattern[1..];
      if pattern[0].Wild? { assert |pattern| == 1; }
    }
  }

  /** The text of a pattern is read as that pattern: literals as they stand, parameters in braces, the wildcard as an
      asterisk, each behind a slash. */
  lemma PatternIsRead(pattern: seq<Elem>)
    requires Terminal(pattern) && forall e :: e in pattern ==> IsWritable(e)
    ensures ParseTokens(Segments(JoinURL(WrittenAll(pattern)))) == pattern
  {
    forall t | t in WrittenAll(pattern) ensures t != [] && '/' !in t {
      var i :| 0 <= i < |pattern| && t == Written(pattern[i]);
      assert pattern[i] in pattern;
      WrittenIsRead(pattern[i]);
    }
    SegmentsOfJoin(WrittenAll(pattern));
    TokensAreRead(pattern);
  }

  /** Whatever follows a wildcard is not part of the pattern. */
  lemma {:induction false} NothingAfterWild(ts: seq<string>, more: seq<string>)
    ensures ParseTokens(ts + ["*"] + more) == ParseTokens(ts + ["*"])
    decreases |ts|
  {
    TokenIs("*");
    if ts == [] {
      assert ts + ["*"] + more == ["*"] + more && (["*"] + more)[0] == "*";
      assert ts + ["*"] == ["*"];
    } else {
      NothingAfterWild(ts[1..], more);
      assert (ts + ["*"] + more)[1..] == ts[1..] + ["*"] + more && (ts + ["*"])[1..] == ts[1..] + ["*"];
    }
  }

  // ---- URLs ----

  lemma SplitOne(c: char, u: string)
    ensures Split([c] + u, '/') == if c == '/' then [""] + Split(u, '/')
            else [[c] + Split(u, '/')[0]] + Split(u, '/')[1..]
  {
    assert ([c] + u)[1..] == u;
  }

  lemma JoinFirstPart(c: char, a: seq<string>, b: seq<string>)
    requires a != []
    ensures [[c] + (a + b)[0]] + (a + b)[1..] == [[c] + a[0]] + a[1..] + b
    ensures [""] + (a + b) == [""] + a + b
  {
  }

  lemma {:induction false} SplitJoined(u: string, v: string)
    ensures Split(u + "/" + v, '/') == Split(u, '/') + Split(v, '/')
    decreases |u|
  {
    if u == "" {
      assert u + "/" + v == ['/'] + v;
      SplitOne('/', v);
    } else {
      var c, rest := u[0], u[1..];
      SplitJoined(rest, v);
      SplitOne(c, rest);
      SplitOne(c, rest + "/" + v);
      assert u == [c] + rest && u + "/" + v == [c] + (rest + "/" + v);
      JoinFirstPart(c, Split(rest, '/'), Split(v, '/'));
    }
  }

  lemma {:induction false} NonEmptyJoined(a: seq<string>, b: seq<string>)
    ensures NonEmpty(a + b) == NonEmpty(a) + NonEmpty(b)
    decreases |a|
  {
    if a == [] {
      assert a + b == b;
    } else {
      assert (a + b)[1..] == a[1..] + b;
      NonEmptyJoined(a[1..], b);
    }
  }

  /** A slash separates, and does nothing else: slashes in front, behind and in a row make no difference. */
  lemma SlashSeparates(u: string, v: string)
    ensures Segments(u + "/" + v) == Segments(u) + Segments(v)
  {
    SplitJoined(u, v);
    NonEmptyJoined(Split(u, '/'), Split(v, '/'));
  }

  lemma SegmentAlone(t: string)
    requires '/' !in t
    ensures Segments(t) == if t == "" then [] else [t]
  {
    SplitFirst(t, "", '/');
    assert NonEmpty([]) == [];
    NonEmptyFirst(t, []);
    assert [t] + [] == [t];
  }
}
