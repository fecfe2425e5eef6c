/** Properties of the JSON validator, stated over the functions of
    JsonGrammar: what each production consumes, which inputs it accepts,
    which it rejects and with which error, and where it never returns. */
module JsonFacts {
  import opened JavaLang
  import opened JsonGrammar

  /** Characters that may stand inside a key or a string without ending it
      or starting an escape. */
  predicate Plain(s: seq<char>) {
    forall i :: 0 <= i < |s| ==> s[i] != '"' && s[i] != '\\'
  }

  /** The text of a string that readString reads to its end: plain
      characters and escape pairs whose second character is one of the
      accepted escapes. */
  predicate Escaped(s: seq<char>)
    decreases |s|
  {
    if s == [] then true
    else if s[0] == '\\' then |s| >= 2 && IsEscapable(s[1]) && Escaped(s[2..])
    else s[0] != '"' && Escaped(s[1..])
  }

  predicate AllLetters(s: seq<char>) {
    forall i :: 0 <= i < |s| ==> IsLetter(s[i])
  }

  // ---------------------------------------------------------------------
  // The character cursor

  /** A run of characters satisfying p, followed by one that does not (or by
      nothing), is exactly what Span measures. */
  lemma {:induction false} SpanOfPrefix(p: char -> bool, a: seq<char>, b: seq<char>)
    requires forall i :: 0 <= i < |a| ==> p(a[i])
    requires b == [] || !p(b[0])
    ensures Span(p, a + b) == |a|
    decreases |a|
  {
    if a != [] {
      assert (a + b)[1..] == a[1..] + b;
      SpanOfPrefix(p, a[1..], b);
    }
  }

  /** Removing whitespace twice is removing it once. */
  lemma SkipWsIdempotent(s: seq<char>)
    ensures SkipWs(SkipWs(s)) == SkipWs(s)
  {
  }

  /** removeWhitespace only ever removes characters from the front. */
  lemma {:induction false} SkipWsIsSuffix(s: seq<char>)
    ensures SkipWs(s) == s[|s| - |SkipWs(s)|..]
    decreases |s|
  {
    if s != [] && IsWhitespace(s[0]) {
      SkipWsIsSuffix(s[1..]);
      assert s[1..][|s[1..]| - |SkipWs(s[1..])|..] == s[|s| - |SkipWs(s)|..];
    }
  }

  /** Suffix says exactly that r is s with its first |s| - |r| characters
      dropped: every production leaves what it has not polled, in order. */
  lemma {:induction false} SuffixIsDrop(r: seq<char>, s: seq<char>)
    ensures Suffix(r, s) <==> |r| <= |s| && r == s[|s| - |r|..]
    decreases |s|
  {
    if |r| <= |s| && r == s[|s| - |r|..] {
      DropIsSuffix(s, |s| - |r|);
    }
    if Suffix(r, s) && r != s {
      SuffixIsDrop(r, s[1..]);
      assert s[1..][|s| - 1 - |r|..] == s[|s| - |r|..];
    }
  }

  /** An array element that consumes nothing leaves the queue exactly as it
      found it, so the next pass of the element loop is this pass again. */
  lemma StalledElementLeavesQueue(t: seq<char>)
    requires Element(t).outcome == Ok && |Element(t).rest| == |t|
    ensures Element(t).rest == t
  {
    SuffixIsDrop(Element(t).rest, t);
  }

  /** Whitespace in front of the queue does not change what removeWhitespace
      leaves. */
  lemma {:induction false} SkipWsAfterWhitespace(w: seq<char>, s: seq<char>)
    requires forall i :: 0 <= i < |w| ==> IsWhitespace(w[i])
    ensures SkipWs(w + s) == SkipWs(s)
    decreases |w|
  {
    if w != [] {
      assert (w + s)[0] == w[0];
      assert (w + s)[1..] == w[1..] + s;
      SkipWsAfterWhitespace(w[1..], s);
    } else {
      assert w + s == s;
    }
  }

  /** Whitespace is removed up to the first other character, so what follows
      that character is untouched. */
  lemma {:induction false} SkipWsBeforeToken(w: seq<char>, s: seq<char>)
    requires s != [] && !IsWhitespace(s[0])
    ensures SkipWs(w + s) == SkipWs(w) + s
    decreases |w|
  {
    if w == [] {
      assert w + s == s;
    } else {
      assert (w + s)[0] == w[0];
      assert (w + s)[1..] == w[1..] + s;
      SkipWsBeforeToken(w[1..], s);
    }
  }

  /** A queue whose head is not whitespace is left as it is. */
  lemma SkipWsAtToken(s: seq<char>)
    requires s != [] && !IsWhitespace(s[0])
    ensures SkipWs(s) == s
  {
  }

  /** isNextToken(c) holds exactly when the first character that is not
      whitespace is c, wherever that character stands. */
  lemma NextTokenIsFirstNonWhitespace(s: seq<char>, c: char, k: nat)
    requires k < |s| && !IsWhitespace(s[k])
    requires forall i :: 0 <= i < k ==> IsWhitespace(s[i])
    ensures NextTokenIs(s, c) <==> s[k] == c
    ensures SkipWs(s) == s[k..]
  {
    assert s == s[..k] + s[k..];
    SkipWsAfterWhitespace(s[..k], s[k..]);
    SkipWsAtToken(s[k..]);
  }

  // ---------------------------------------------------------------------
  // One pass of each production, as an equation between its function and
  // the functions it calls.  The lemmas below chain these equations
  // instead of unfolding the whole mutually recursive family at once.

  /** parseObject and parseArray skip their first character unchecked. */
  lemma OpeningSkipped(c: char, s: seq<char>)
    ensures ParseObject([c] + s) == ObjectMembers(s)
    ensures ParseArray([c] + s) == ArrayElements(s)
  {
    assert ([c] + s)[1..] == s;
  }

  /** The member loop ends at '}' or at the end of the queue, polling once. */
  lemma MembersAtClose(s: seq<char>)
    requires SkipWs(s) == [] || SkipWs(s)[0] == '}'
    ensures ObjectMembers(s) == Step(Ok, Consume(SkipWs(s)))
  {
  }

  /** Otherwise it runs one member and, if that succeeds, goes round again. */
  lemma MembersAtMember(s: seq<char>)
    requires SkipWs(s) != [] && SkipWs(s)[0] != '}'
    ensures var m := Member(SkipWs(s));
      ObjectMembers(s) == if m.outcome != Ok then m else ObjectMembers(m.rest)
  {
  }

  /** The element loop ends at ']' or at the end of the queue, polling once. */
  lemma ElementsAtClose(s: seq<char>)
    requires SkipWs(s) == [] || SkipWs(s)[0] == ']'
    ensures ArrayElements(s) == Step(Ok, Consume(SkipWs(s)))
  {
  }

  /** Otherwise it runs one element and goes round again if the element
      consumed something; an element is a value ... */
  lemma ElementsAtValue(s: seq<char>)
    requires SkipWs(s) != [] && SkipWs(s)[0] != ']' && SkipWs(s)[0] != '{'
    ensures var t := SkipWs(s);
      var e := ParseValue(t);
      ArrayElements(s) ==
        if e.outcome != Ok then e
        else if |e.rest| == |t| then Step(Diverge, e.rest)
        else ArrayElements(e.rest)
  {
  }

  /** ... or, when it starts with '{', an object. */
  lemma ElementsAtObject(s: seq<char>)
    requires SkipWs(s) != [] && SkipWs(s)[0] == '{'
    ensures var t := SkipWs(s);
      var e := ParseObject(t);
      ArrayElements(s) ==
        if e.outcome != Ok then e
        else if |e.rest| == |t| then Step(Diverge, e.rest)
        else ArrayElements(e.rest)
  {
  }

  /** The element loop starts by removing whitespace. */
  lemma ElementsAfterWhitespace(s: seq<char>)
    ensures ArrayElements(SkipWs(s)) == ArrayElements(s)
  {
    SkipWsIdempotent(s);
  }

  /** So a space between elements is skipped. */
  lemma SpaceBeforeElement(z: seq<char>)
    ensures ArrayElements([' '] + z) == ArrayElements(z)
  {
    assert SkipWs([' '] + z) == SkipWs(z) by {
      assert ([' '] + z)[1..] == z;
    }
    ElementsAfterWhitespace([' '] + z);
    ElementsAfterWhitespace(z);
  }

  /** A member is its key followed by the rest of the member. */
  lemma MemberAtKey(t: seq<char>)
    ensures ParseKey(t).outcome != Ok ==> Member(t) == ParseKey(t)
    ensures ParseKey(t).outcome == Ok ==> Member(t) == MemberValue(ParseKey(t).rest)
  {
  }

  /** Without a comma at the head, parseKey goes straight to the opening
      quote; with one, the comma is polled first. */
  lemma KeyAtToken(t: seq<char>)
    requires t != [] && !IsWhitespace(t[0])
    ensures t[0] != ',' ==> ParseKey(t) == KeyOpening(t)
    ensures t[0] == ',' ==> ParseKey(t) == KeyOpening(t[1..])
  {
  }

  /** The opening quote is polled and the key loop runs on what follows. */
  lemma KeyOpeningAtQuote(t: seq<char>)
    requires t != [] && t[0] == '"'
    ensures KeyOpening(t) == KeyBody(t[1..])
  {
  }

  /** After the key, ':' must come next ... */
  lemma MemberValueAtColon(s: seq<char>)
    requires s != [] && s[0] == ':'
    ensures var v := ParseValue(s[1..]);
      MemberValue(s) == if v.outcome != Ok then v else Separator(v.rest)
  {
    SkipWsAtToken(s);
  }

  /** ... or the member is refused. */
  lemma MemberValueWithoutColon(s: seq<char>)
    requires SkipWs(s) == [] || SkipWs(s)[0] != ':'
    ensures MemberValue(s) == Step(Fail(MissingColon), SkipWs(s))
  {
  }

  /** The value dispatch, case by case, once whitespace is gone: '{' ... */
  lemma ValueAtObject(t: seq<char>)
    requires t != [] && t[0] == '{'
    ensures ParseValue(t) == ParseObject(t)
  {
  }

  /** ... '[' ... */
  lemma ValueAtArray(t: seq<char>)
    requires t != [] && t[0] == '['
    ensures ParseValue(t) == ParseArray(t)
  {
  }

  /** ... '"' ... */
  lemma ValueAtString(t: seq<char>)
    requires t != [] && t[0] == '"'
    ensures ParseValue(t) == ReadString(t)
  {
  }

  /** ... a digit or '-' ... */
  lemma ValueAtNumber(t: seq<char>)
    requires t != [] && IsNumberStart(t[0])
    ensures ParseValue(t) == Step(Ok, ReadNumber(t))
  {
  }

  /** ... 't', 'f' or 'n', which name the keyword expected ... */
  lemma ValueAtLiteral(t: seq<char>, keyword: seq<char>)
    requires t != []
    requires (t[0] == 't' && keyword == "true") || (t[0] == 'f' && keyword == "false")
      || (t[0] == 'n' && keyword == "null")
    ensures ParseValue(t) == ParseLiteral(t, keyword)
  {
    assert SkipWs(t) == t;
    if t[0] == 't' {
      assert ParseValue(t) == ParseLiteral(t, "true");
    } else if t[0] == 'f' {
      assert ParseValue(t) == ParseLiteral(t, "false");
    }
  }

  /** ... and anything else, which throws with up to twenty characters of
      context. */
  lemma ValueAtOther(t: seq<char>)
    requires t != [] && !IsWhitespace(t[0]) && !IsNumberStart(t[0])
    requires t[0] != '{' && t[0] != '[' && t[0] != '"' && t[0] != 't' && t[0] != 'f' && t[0] != 'n'
    ensures ParseValue(t) == Step(Fail(UnexpectedToken(ErrorSection(t).0)), ErrorSection(t).1)
  {
    SkipWsAtToken(t);
  }

  // ---------------------------------------------------------------------
  // Numbers and literals

  /** readNumber consumes a maximal run of digits and stops at the first
      non-digit, a sign or a decimal point included. */
  lemma {:induction false} ReadNumberTakesDigits(d: seq<char>, rest: seq<char>)
    requires AllDigits(d)
    requires rest == [] || !IsDigit(rest[0])
    ensures ReadNumber(d + rest) == rest
    decreases |d|
  {
    if d == [] {
      assert d + rest == rest;
    } else {
      assert (d + rest)[0] == d[0];
      assert (d + rest)[1..] == d[1..] + rest;
      ReadNumberTakesDigits(d[1..], rest);
    }
  }

  /** A leading minus sign is not consumed at all. */
  lemma ReadNumberStopsAtMinus(s: seq<char>)
    ensures ReadNumber(['-'] + s) == ['-'] + s
  {
  }

  /** The keyword stands at the head of the queue and is not followed by
      another letter. */
  predicate KeywordAtHead(s: seq<char>, keyword: seq<char>) {
    |keyword| <= |s| && s[..|keyword|] == keyword && (|s| == |keyword| || !IsLetter(s[|keyword|]))
  }

  /** parseStringEquals(k) succeeds exactly when k is at the head of the queue
      and is not followed by another letter: the whole run of letters must be
      the keyword. */
  lemma LiteralMatchesWholeRun(s: seq<char>, keyword: seq<char>)
    requires AllLetters(keyword)
    ensures ParseLiteral(s, keyword).outcome == Ok <==> KeywordAtHead(s, keyword)
    ensures ParseLiteral(s, keyword).outcome != Ok ==>
      ParseLiteral(s, keyword).outcome == Fail(WrongValue(s[..Span(IsLetter, s)], keyword))
  {
    var n := Span(IsLetter, s);
    if KeywordAtHead(s, keyword) {
      assert n == |keyword| by {
        assert s == keyword + s[|keyword|..];
        SpanOfPrefix(IsLetter, keyword, s[|keyword|..]);
      }
    } else {
      assert s[..n] != keyword;
    }
  }

  /** A keyword followed by a character that is not a letter is consumed. */
  lemma LiteralAccepted(keyword: seq<char>, rest: seq<char>)
    requires AllLetters(keyword)
    requires rest == [] || !IsLetter(rest[0])
    ensures ParseLiteral(keyword + rest, keyword) == Step(Ok, rest)
  {
    SpanOfPrefix(IsLetter, keyword, rest);
    assert (keyword + rest)[..|keyword|] == keyword;
    assert (keyword + rest)[|keyword|..] == rest;
  }

  /** So a truncated or an over-long keyword is rejected. */
  lemma LiteralPrefixOrExtensionFails()
    ensures ParseLiteral("true", "true") == Step(Ok, [])
    ensures ParseLiteral("true]", "true") == Step(Ok, "]")
    ensures ParseLiteral("tru", "true") == Step(Fail(WrongValue("tru", "true")), [])
    ensures ParseLiteral("truex", "true") == Step(Fail(WrongValue("truex", "true")), [])
  {
    assert "true" == "true" + [];
    SpanOfPrefix(IsLetter, "true", []);
    assert "true]" == "true" + "]";
    SpanOfPrefix(IsLetter, "true", "]");
    assert "tru" == "tru" + [];
    SpanOfPrefix(IsLetter, "tru", []);
    assert "truex" == "truex" + [];
    SpanOfPrefix(IsLetter, "truex", []);
  }

  // ---------------------------------------------------------------------
  // Escapes and strings

  /** isControlChar answers true exactly for a backslash followed by one of
      the eight escapable characters, throws for a backslash followed by
      anything else, and answers false otherwise, a lone trailing backslash
      included. */
  lemma ControlCharCases(s: seq<char>)
    ensures ControlChar(s) == Returns(true) <==> |s| >= 2 && s[0] == '\\' && IsEscapable(s[1])
    ensures ControlChar(s) == Throws(UnknownEscape) <==> |s| >= 2 && s[0] == '\\' && !IsEscapable(s[1])
    ensures s == ['\\'] ==> ControlChar(s) == Returns(false)
    ensures ControlChar(s) != Throws(UnknownEscape) && ControlChar(s).Throws? ==> false
  {
  }

  /** The escapes of the unicode and solidus forms are refused. */
  lemma UnicodeAndSolidusEscapesRefused(s: seq<char>)
    ensures ControlChar(['\\', 'u'] + s) == Throws(UnknownEscape)
    ensures ControlChar(['\\', '/'] + s) == Throws(UnknownEscape)
  {
  }

  /** readString takes an escape pair in one step, so an escaped quote does
      not end the string. */
  lemma EscapePairConsumedTogether(c: char, s: seq<char>)
    requires IsEscapable(c)
    ensures StringBody(['\\', c] + s) == StringBody(s)
  {
    assert (['\\', c] + s)[2..] == s;
  }

  /** A string body of plain characters and accepted escape pairs is
      consumed up to and including its closing quote. */
  lemma {:induction false} StringBodyAccepts(body: seq<char>, rest: seq<char>)
    requires Escaped(body)
    ensures StringBody(body + ['"'] + rest) == Step(Ok, rest)
    decreases |body|
  {
    var s := body + ['"'] + rest;
    if body == [] {
      assert s == ['"'] + rest;
    } else if body[0] == '\\' {
      assert s[..2] == body[..2];
      assert s[2..] == body[2..] + ['"'] + rest;
      StringBodyAccepts(body[2..], rest);
    } else {
      assert s[1..] == body[1..] + ['"'] + rest;
      StringBodyAccepts(body[1..], rest);
    }
  }

  /** An unknown escape after any readable text, escapes included, makes
      readString throw. */
  lemma {:induction false} StringBodyRefusesUnknownEscape(body: seq<char>, c: char, rest: seq<char>)
    requires Escaped(body) && !IsEscapable(c)
    ensures StringBody(body + ['\\', c] + rest) == Step(Fail(UnknownEscape), ['\\', c] + rest)
    decreases |body|
  {
    var s := body + ['\\', c] + rest;
    if body == [] {
      assert s == ['\\', c] + rest;
    } else if body[0] == '\\' {
      assert s[..2] == body[..2];
      assert s[2..] == body[2..] + ['\\', c] + rest;
      StringBodyRefusesUnknownEscape(body[2..], c, rest);
    } else {
      assert s[1..] == body[1..] + ['\\', c] + rest;
      StringBodyRefusesUnknownEscape(body[1..], c, rest);
    }
  }

  /** So "\n\x" is refused at its second escape, and "\n\"" is read whole. */
  lemma EscapesInStrings(good: seq<char>, bad: seq<char>)
    requires good == ['\\', 'n', '\\', '"'] && bad == ['\\', 'n', '\\', 'x']
    ensures StringBody(good + ['"']) == Step(Ok, [])
    ensures StringBody(bad + ['"']) == Step(Fail(UnknownEscape), ['\\', 'x', '"'])
  {
    assert Escaped(good[2..]);
    StringBodyAccepts(good, []);
    assert good + ['"'] + [] == good + ['"'];
    var pre := bad[..2];
    assert Escaped(pre) by {
      assert pre[2..] == [];
    }
    StringBodyRefusesUnknownEscape(pre, 'x', ['"']);
    assert pre + ['\\', 'x'] + ['"'] == bad + ['"'];
  }

  // ---------------------------------------------------------------------
  // Keys

  /** Plain text stays plain once whitespace is removed from its front. */
  lemma PlainAfterSkip(key: seq<char>)
    requires Plain(key)
    ensures Plain(SkipWs(key))
  {
    SkipWsIsSuffix(key);
  }

  /** A key of plain characters is consumed up to and including its closing
      quote (whitespace inside it is dropped on the way). */
  lemma {:induction false} KeyBodyAccepts(key: seq<char>, rest: seq<char>)
    requires Plain(key)
    ensures KeyBody(key + ['"'] + rest) == Step(Ok, rest)
    decreases |key|
  {
    var x := key + (['"'] + rest);
    assert key + ['"'] + rest == x;
    SkipWsBeforeToken(key, ['"'] + rest);
    var k := SkipWs(key);
    PlainAfterSkip(key);
    KeyBodyStep(x);
    if k == [] {
      assert SkipWs(x) == ['"'] + rest;
    } else {
      var t := SkipWs(x);
      assert t == k + (['"'] + rest);
      assert t[0] == k[0];
      assert t[1..] == k[1..] + ['"'] + rest;
      KeyBodyAccepts(k[1..], rest);
    }
  }

  /** Any backslash inside a key makes parseKey throw: a known escape with
      "Wrong key value", an unknown one with "Unknown escape character". */
  lemma {:induction false} KeyBodyRefusesEscapes(key: seq<char>, c: char, rest: seq<char>)
    requires Plain(key)
    ensures KeyBody(key + ['\\', c] + rest).outcome ==
      if IsEscapable(c) then Fail(WrongKeyValue) else Fail(UnknownEscape)
    decreases |key|
  {
    var x := key + (['\\', c] + rest);
    assert key + ['\\', c] + rest == x;
    SkipWsBeforeToken(key, ['\\', c] + rest);
    var k := SkipWs(key);
    PlainAfterSkip(key);
    KeyBodyStep(x);
    if k == [] {
      assert SkipWs(x) == ['\\', c] + rest;
    } else {
      var t := SkipWs(x);
      assert t == k + (['\\', c] + rest);
      assert t[0] == k[0];
      assert t[1..] == k[1..] + ['\\', c] + rest;
      KeyBodyRefusesEscapes(k[1..], c, rest);
    }
  }

  /** A key that is never closed makes parseKey spin forever once the queue
      runs out, a lone backslash at the very end included. */
  lemma {:induction false} UnterminatedKeyDiverges(key: seq<char>)
    requires forall i :: 0 <= i < |key| ==> key[i] != '"'
    requires forall i :: 0 <= i < |key| - 1 ==> key[i] != '\\'
    ensures KeyBody(key).outcome == Diverge
    decreases |key|
  {
    var t := SkipWs(key);
    SkipWsIsSuffix(key);
    KeyBodyStep(key);
    if t != [] {
      assert t[0] == key[|key| - |t|];
      UnterminatedKeyDiverges(t[1..]);
    }
  }

  /** parseKey absorbs one comma in front of a key. */
  lemma CommaBeforeKeyAbsorbed(s: seq<char>)
    ensures ParseKey([','] + s) == KeyOpening(s)
  {
    var x := [','] + s;
    assert x[1..] == s;
    SkipWsAtToken(x);
    KeyAtToken(x);
  }

  /** parseKey does not care about whitespace in front of the key. */
  lemma ParseKeyAfterWhitespace(s: seq<char>)
    ensures ParseKey(SkipWs(s)) == ParseKey(s)
  {
    SkipWsIdempotent(s);
    assert ParseKey(SkipWs(s)) == KeyOpening(AbsorbComma(SkipWs(s)));
  }

  /** The text of an object key, opening and closing quote included. */
  function KeyText(key: seq<char>): seq<char> {
    ['"'] + key + ['"']
  }

  /** After a well-formed key, parseKey leaves what follows the closing quote. */
  lemma ParseKeyOfText(key: seq<char>, rest: seq<char>)
    requires Plain(key)
    ensures ParseKey(KeyText(key) + rest) == Step(Ok, rest)
  {
    var x := KeyText(key) + rest;
    SkipWsAtToken(x);
    KeyAtToken(x);
    KeyOpeningAtQuote(x);
    assert x[1..] == key + ['"'] + rest;
    KeyBodyAccepts(key, rest);
  }

  /** A member that starts with a well-formed key continues after the key. */
  lemma MemberAfterKeyText(key: seq<char>, rest: seq<char>)
    requires Plain(key)
    ensures Member(KeyText(key) + rest) == MemberValue(rest)
  {
    ParseKeyOfText(key, rest);
    MemberAtKey(KeyText(key) + rest);
  }

  /** After ':' and a value that parses, only the separator check is left. */
  lemma MemberValueAfterValue(value: seq<char>, rest: seq<char>)
    requires ParseValue(value + rest) == Step(Ok, rest)
    ensures MemberValue([':'] + value + rest) == Separator(rest)
  {
    var r := [':'] + value + rest;
    assert r[1..] == value + rest;
    MemberValueAtColon(r);
  }

  /** The separator check passes on ',' and '}' without consuming them. */
  lemma SeparatorAccepts(rest: seq<char>)
    requires rest != [] && (rest[0] == ',' || rest[0] == '}')
    ensures Separator(rest) == Step(Ok, rest)
  {
    SkipWsAtToken(rest);
  }

  // ---------------------------------------------------------------------
  // Objects

  /** A comma in front of a member is silently absorbed, even in front of
      the first member. */
  lemma CommaBeforeMemberAbsorbed(s: seq<char>)
    requires SkipWs(s) != [] && SkipWs(s)[0] != ',' && SkipWs(s)[0] != '}'
    ensures ObjectMembers([','] + s) == ObjectMembers(s)
  {
    var x := [','] + s;
    var t := SkipWs(s);
    SkipWsAtToken(x);
    MembersAtMember(x);
    MembersAtMember(s);
    CommaBeforeKeyAbsorbed(s);
    SkipWsIdempotent(s);
    KeyAtToken(t);
    assert ParseKey(t) == KeyOpening(s) by {
      assert KeyOpening(t) == KeyOpening(s);
    }
    MemberAtKey(x);
    MemberAtKey(t);
  }

  /** A key that does not start with a quote is refused ("Key parsing error"). */
  lemma UnquotedKeyRefused(s: seq<char>)
    requires SkipWs(s) != [] && SkipWs(s)[0] != '"' && SkipWs(s)[0] != ',' && SkipWs(s)[0] != '}'
    ensures ParseObject(['{'] + s).outcome == Fail(KeyParsing)
  {
    OpeningSkipped('{', s);
    var t := SkipWs(s);
    MembersAtMember(s);
    KeyAtToken(t);
    MemberAtKey(t);
  }

  /** The first member of an object whose text starts with a well-formed key:
      the rest of the member decides. */
  lemma ObjectWithKey(key: seq<char>, s: seq<char>)
    requires Plain(key)
    ensures var m := MemberValue(s);
      ParseObject(['{'] + KeyText(key) + s) ==
        if m.outcome != Ok then m else ObjectMembers(m.rest)
  {
    var y := KeyText(key) + s;
    assert ['{'] + KeyText(key) + s == ['{'] + y;
    OpeningSkipped('{', y);
    SkipWsAtToken(y);
    MembersAtMember(y);
    ParseKeyOfText(key, s);
    MemberAtKey(y);
  }

  /** A key not followed by ':' is refused ("Missing double colon"). */
  lemma MissingColonRefused(key: seq<char>, s: seq<char>)
    requires Plain(key)
    requires SkipWs(s) == [] || SkipWs(s)[0] != ':'
    ensures ParseObject(['{'] + KeyText(key) + s).outcome == Fail(MissingColon)
  {
    ObjectWithKey(key, s);
    MemberValueWithoutColon(s);
  }

  /** A colon followed by no value at all ('}' or ',' or ':') is refused
      by the value dispatch, which reports the text that follows. */
  lemma MissingValueRefused(key: seq<char>, s: seq<char>)
    requires Plain(key)
    requires s != [] && (s[0] == '}' || s[0] == ',' || s[0] == ':')
    ensures ParseObject(['{'] + KeyText(key) + [':'] + s).outcome ==
      Fail(UnexpectedToken(ErrorSection(s).0))
  {
    var v := [':'] + s;
    assert ['{'] + KeyText(key) + [':'] + s == ['{'] + KeyText(key) + v;
    ObjectWithKey(key, v);
    MemberValueAtColon(v);
    assert v[1..] == s;
    SkipWsAtToken(s);
    ValueAtOther(s);
  }

  /** A number member followed by anything but ',' or '}' (a decimal point, a
      second number, the end of the text) is refused ("Unexpected EOF"). */
  lemma NumberMemberNeedsSeparator(key: seq<char>, digits: seq<char>, s: seq<char>)
    requires Plain(key) && digits != [] && AllDigits(digits)
    requires s == [] || !IsDigit(s[0])
    requires SkipWs(s) == [] || (SkipWs(s)[0] != ',' && SkipWs(s)[0] != '}')
    ensures ParseObject(['{'] + KeyText(key) + [':'] + digits + s).outcome == Fail(UnexpectedEof)
  {
    var n := digits + s;
    var v := [':'] + n;
    assert ['{'] + KeyText(key) + [':'] + digits + s == ['{'] + KeyText(key) + v;
    ObjectWithKey(key, v);
    MemberValueAtColon(v);
    assert v[1..] == n;
    SkipWsAtToken(n);
    ValueAtNumber(n);
    ReadNumberTakesDigits(digits, s);
  }

  /** A key that fails right after its opening quote ends the object with
      that failure. */
  lemma KeyFailureEndsObject(y: seq<char>)
    requires y != [] && y[0] == '"'
    ensures KeyBody(y[1..]).outcome != Ok ==> ParseObject(['{'] + y).outcome == KeyBody(y[1..]).outcome
  {
    OpeningSkipped('{', y);
    SkipWsAtToken(y);
    MembersAtMember(y);
    KeyAtToken(y);
    KeyOpeningAtQuote(y);
    MemberAtKey(y);
  }

  /** A key holding any escape is refused. */
  lemma EscapedKeyRefused(key: seq<char>, c: char, s: seq<char>)
    requires Plain(key)
    ensures ParseObject(['{', '"'] + key + ['\\', c] + s).outcome ==
      if IsEscapable(c) then Fail(WrongKeyValue) else Fail(UnknownEscape)
  {
    var y := ['"'] + key + ['\\', c] + s;
    assert ['{', '"'] + key + ['\\', c] + s == ['{'] + y;
    assert y[1..] == key + ['\\', c] + s;
    KeyBodyRefusesEscapes(key, c, s);
    KeyFailureEndsObject(y);
  }

  /** An object whose key is never closed makes parseKey spin forever. */
  lemma UnterminatedKeyObjectDiverges(key: seq<char>)
    requires Plain(key)
    ensures ParseObject(['{', '"'] + key).outcome == Diverge
  {
    var y := ['"'] + key;
    assert ['{', '"'] + key == ['{'] + y;
    assert y[1..] == key;
    UnterminatedKeyDiverges(key);
    KeyFailureEndsObject(y);
  }

  /** parseObject never looks at the character it skips first, and a text
      cut off right after it is accepted. */
  lemma ObjectOpeningUnchecked(c: char, s: seq<char>)
    ensures ParseObject([c] + s) == ParseObject(['{'] + s)
    ensures ParseObject("{") == Step(Ok, [])
    ensures ParseObject("{}") == Step(Ok, [])
  {
    OpeningSkipped(c, s);
    OpeningSkipped('{', s);
    assert "{" == ['{'] + [];
    OpeningSkipped('{', []);
    MembersAtClose([]);
    assert "{}" == ['{'] + "}";
    OpeningSkipped('{', "}");
    MembersAtClose("}");
  }

  // ---------------------------------------------------------------------
  // Arrays

  /** A comma between array elements reaches the value dispatch, which
      throws with the next twenty characters as context. */
  lemma ArrayCommaRefused(digits: seq<char>, s: seq<char>)
    requires digits != [] && AllDigits(digits)
    ensures ParseArray(['['] + digits + [','] + s).outcome ==
      Fail(UnexpectedToken(ErrorSection([','] + s).0))
  {
    var y := [','] + s;
    var x := digits + y;
    assert ['['] + digits + [','] + s == ['['] + x;
    OpeningSkipped('[', x);
    SkipWsAtToken(x);
    ElementsAtValue(x);
    ValueAtNumber(x);
    ReadNumberTakesDigits(digits, y);
    SkipWsAtToken(y);
    ElementsAtValue(y);
    ValueAtOther(y);
  }

  /** An element starting with '-' is never consumed: parseArray loops
      forever. */
  lemma ArrayMinusDiverges(s: seq<char>)
    ensures ParseArray(['[', '-'] + s).outcome == Diverge
  {
    var x := ['-'] + s;
    assert ParseArray(['[', '-'] + s) == ArrayElements(x) by {
      assert ['[', '-'] + s == ['['] + x;
      OpeningSkipped('[', x);
    }
    assert ParseValue(x) == Step(Ok, x) by {
      ValueAtNumber(x);
      ReadNumberStopsAtMinus(s);
    }
    assert ArrayElements(x) == Step(Diverge, x) by {
      SkipWsAtToken(x);
      ElementsAtValue(x);
    }
  }

  /** A text cut off after '[' is accepted, because the closing poll is not
      checked. */
  lemma ArrayOpeningOnly()
    ensures ParseArray("[") == Step(Ok, [])
    ensures ParseArray("[ ") == Step(Ok, [])
  {
    assert "[" == ['['] + [];
    OpeningSkipped('[', []);
    ElementsAtClose([]);
    assert "[ " == ['['] + " ";
    OpeningSkipped('[', " ");
    ElementsAtClose(" ");
  }
}
