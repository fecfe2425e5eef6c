/** What each production of the JSON validator does to the character queue,
    stated as functions from the queue before the call to the outcome and the
    queue after it.  The validator works on a queue that it only ever shortens
    from the front, so every function here returns a suffix of the queue it
    was given.

    The class in JsonLexer runs the same productions step by step and is
    proved to agree with these functions; the lemmas in JsonFacts are about
    these functions. */
module JsonGrammar {
  import opened JavaLang

  /** One tag per place where the validator throws. */
  datatype ErrorKind =
    | EmptyInput                               // null or empty text given to the constructor
    | UnexpectedToken(section: seq<char>)      // no production starts with the lookahead
    | UnknownEscape                            // a backslash followed by a character outside the escape set
    | MissingColon                             // an object key not followed by ':'
    | UnexpectedEof                            // an object member followed by neither ',' nor '}'
    | KeyParsing                               // an object key that does not start with '"'
    | KeyMissing                               // no character left where an object key must start
    | WrongKeyValue                            // a valid escape pair inside an object key
    | WrongValue(found: seq<char>, expected: seq<char>)  // a literal other than true, false or null

  /** How a production ends: normally, by throwing, or by spinning forever
      in a loop that no longer consumes anything. */
  datatype Outcome = Ok | Fail(error: ErrorKind) | Diverge

  /** The outcome of a production together with the queue it leaves. */
  datatype Step = Step(outcome: Outcome, rest: seq<char>)

  /** isControlChar either answers or throws. */
  datatype ControlCharResult = Returns(isControl: bool) | Throws(error: ErrorKind)

  /** r is what is left of s once some characters are taken off its front. */
  predicate Suffix(r: seq<char>, s: seq<char>)
    decreases |s|
  {
    r == s || (s != [] && Suffix(r, s[1..]))
  }

  /** Taking characters off the front twice is taking them off once. */
  lemma {:induction false} SuffixTransitive(a: seq<char>, b: seq<char>, c: seq<char>)
    requires Suffix(a, b) && Suffix(b, c)
    ensures Suffix(a, c)
    decreases |c|
  {
    if b != c {
      SuffixTransitive(a, b, c[1..]);
    }
  }

  /** So whatever is left of a suffix of s is left of s. */
  lemma SuffixesOfSuffix(t: seq<char>, s: seq<char>)
    requires Suffix(t, s)
    ensures forall a :: Suffix(a, t) ==> Suffix(a, s)
  {
    forall a | Suffix(a, t)
      ensures Suffix(a, s)
    {
      SuffixTransitive(a, t, s);
    }
  }

  /** Dropping a prefix leaves a suffix. */
  lemma {:induction false} DropIsSuffix(s: seq<char>, n: nat)
    requires n <= |s|
    ensures Suffix(s[n..], s)
    decreases n
  {
    if n > 0 {
      DropIsSuffix(s[1..], n - 1);
      assert s[1..][n - 1..] == s[n..];
    }
  }

  /** The head of the queue, as peek() returns it. */
  function Peek(s: seq<char>): (r: Option<char>)
    ensures r == None <==> s == []
    ensures r.Some? ==> r.value == s[0]
  {
    if s == [] then None else Some(s[0])
  }

  /** The queue after poll(): one character shorter, or still empty. */
  function Consume(s: seq<char>): (r: seq<char>)
    ensures |r| <= |s| && Suffix(r, s)
    ensures s != [] ==> |r| == |s| - 1
  {
    if s == [] then [] else s[1..]
  }

  /** The length of the longest prefix of s whose characters all satisfy p. */
  function Span(p: char -> bool, s: seq<char>): (n: nat)
    ensures n <= |s|
    ensures forall i :: 0 <= i < n ==> p(s[i])
    ensures n < |s| ==> !p(s[n])
    decreases |s|
  {
    if s != [] && p(s[0]) then 1 + Span(p, s[1..]) else 0
  }

  /** removeWhitespace: drops the whitespace at the head of the queue. */
  function SkipWs(s: seq<char>): (r: seq<char>)
    ensures |r| <= |s| && Suffix(r, s)
    ensures r == [] || !IsWhitespace(r[0])
    ensures forall i :: 0 <= i < |s| - |r| ==> IsWhitespace(s[i])
    decreases |s|
  {
    if s != [] && IsWhitespace(s[0]) then SkipWs(s[1..]) else s
  }

  /** isNextToken(c): after removing whitespace, is the head c? */
  function NextTokenIs(s: seq<char>, c: char): (b: bool)
    ensures b ==> !IsWhitespace(c)
  {
    var t := SkipWs(s);
    t != [] && t[0] == c
  }

  /** readNumber: drops the run of digits at the head of the queue. */
  function ReadNumber(s: seq<char>): (r: seq<char>)
    ensures |r| <= |s| && Suffix(r, s)
    ensures r == [] || !IsDigit(r[0])
    ensures forall i :: 0 <= i < |s| - |r| ==> IsDigit(s[i])
    decreases |s|
  {
    if s != [] && IsDigit(s[0]) then ReadNumber(s[1..]) else s
  }

  /** The characters the value dispatch sends to readNumber. */
  predicate IsNumberStart(c: char) {
    '0' <= c <= '9' || c == '-'
  }

  /** The characters accepted after a backslash. */
  predicate IsEscapable(c: char) {
    c == '"' || c == '\'' || c == '\\' || c == 't' || c == 'n' || c == 'r' || c == 'f' || c == 'b'
  }

  /** parseStringEquals(keyword): collects the run of letters at the head and
      compares it with the keyword. */
  function ParseLiteral(s: seq<char>, keyword: seq<char>): (r: Step)
    ensures |r.rest| <= |s| && Suffix(r.rest, s)
    ensures r.outcome != Diverge
  {
    var n := Span(IsLetter, s);
    DropIsSuffix(s, n);
    if s[..n] == keyword then Step(Ok, s[n..])
    else Step(Fail(WrongValue(s[..n], keyword)), s[n..])
  }

  /** getErrorSection: takes at most twenty characters off the queue. */
  function ErrorSection(s: seq<char>): (r: (seq<char>, seq<char>))
    ensures |r.0| == if |s| < 20 then |s| else 20
    ensures r.0 + r.1 == s
    ensures Suffix(r.1, s)
  {
    var n := if |s| < 20 then |s| else 20;
    DropIsSuffix(s, n);
    (s[..n], s[n..])
  }

  /** isControlChar: looks at the head and the character after it, without
      consuming either. */
  function ControlChar(s: seq<char>): (r: ControlCharResult)
    ensures r.Throws? ==> r.error == UnknownEscape
    ensures r != Returns(false) ==> |s| >= 2 && s[0] == '\\'
  {
    if s == [] then Returns(false)
    else if s[0] == '\\' && |s| > 1 then
      if IsEscapable(s[1]) then Returns(true) else Throws(UnknownEscape)
    else Returns(false)
  }

  /** The loop of readString, after the opening quote. */
  function StringBody(s: seq<char>): (r: Step)
    ensures |r.rest| <= |s| && Suffix(r.rest, s)
    ensures r.outcome != Diverge
    ensures r.outcome.Fail? ==> r.outcome.error == UnknownEscape && r.rest != [] && r.rest[0] == '\\'
    decreases |s|
  {
    if s == [] then Step(Ok, s)
    else if s[0] == '"' then Step(Ok, s[1..])
    else match ControlChar(s)
      case Throws(e) => Step(Fail(e), s)
      case Returns(true) =>
        var r := StringBody(s[2..]);
        DropIsSuffix(s, 2);
        SuffixTransitive(r.rest, s[2..], s);
        r
      case Returns(false) => StringBody(s[1..])
  }

  /** One pass of the readString loop over a character that is not '"'. */
  lemma StringBodyStep(s: seq<char>)
    requires s != [] && s[0] != '"' && ControlChar(s).Returns?
    ensures ControlChar(s).isControl ==> |s| > 1 && StringBody(s) == StringBody(s[2..])
    ensures !ControlChar(s).isControl ==> StringBody(s) == StringBody(s[1..])
  {
  }

  /** readString: skips the opening character, then runs the loop. */
  function ReadString(s: seq<char>): (r: Step)
    ensures |r.rest| <= |s| && Suffix(r.rest, s)
    ensures r.outcome != Diverge
    ensures r.outcome.Fail? ==> r.outcome.error == UnknownEscape
  {
    StringBody(Consume(s))
  }

  /** The loop of parseKey, after the opening quote. */
  function KeyBody(s: seq<char>): (r: Step)
    ensures |r.rest| <= |s| && Suffix(r.rest, s)
    ensures r.outcome == Ok ==> |r.rest| < |s|
    decreases |s|
  {
    var t := SkipWs(s);
    if t != [] && t[0] == '"' then
      SuffixTransitive(t[1..], t, s);
      Step(Ok, t[1..])
    else if t == [] then Step(Diverge, t)  // poll() on the empty queue changes nothing
    else match ControlChar(t)
      case Throws(e) => Step(Fail(e), t)
      case Returns(true) => Step(Fail(WrongKeyValue), t)
      case Returns(false) =>
        var r := KeyBody(t[1..]);
        SuffixTransitive(t[1..], t, s);
        SuffixTransitive(r.rest, t[1..], s);
        r
  }

  /** One pass of the parseKey loop, once whitespace is gone: the closing
      quote ends it, the end of the queue spins it, an escape throws, and any
      other character is consumed. */
  lemma KeyBodyStep(s: seq<char>)
    ensures var t := SkipWs(s);
      KeyBody(s) ==
        if t != [] && t[0] == '"' then Step(Ok, t[1..])
        else if t == [] then Step(Diverge, t)
        else match ControlChar(t)
          case Throws(e) => Step(Fail(e), t)
          case Returns(true) => Step(Fail(WrongKeyValue), t)
          case Returns(false) => KeyBody(t[1..])
  {
  }

  /** parseKey: absorbs one comma, then requires the opening quote. */
  function ParseKey(s: seq<char>): (r: Step)
    ensures |r.rest| <= |s| && Suffix(r.rest, s)
    ensures r.outcome == Ok ==> |r.rest| < |s|
  {
    var t := SkipWs(s);
    var t' := AbsorbComma(t);
    var r := KeyOpening(t');
    SuffixTransitive(t', t, s);
    SuffixTransitive(r.rest, t', s);
    r
  }

  /** The first step of parseKey, once whitespace is gone: a comma at the
      head is polled together with the whitespace after it. */
  function AbsorbComma(t: seq<char>): (r: seq<char>)
    ensures |r| <= |t| && Suffix(r, t)
    ensures t == [] || t[0] != ',' ==> r == t
  {
    if t != [] && t[0] == ',' then
      SuffixTransitive(Consume(SkipWs(t)), SkipWs(t), t);
      Consume(SkipWs(t))
    else t
  }

  /** The rest of parseKey: the opening quote is polled and compared, then
      the key loop runs. */
  function KeyOpening(t: seq<char>): (r: Step)
    ensures |r.rest| <= |t| && Suffix(r.rest, t)
    ensures r.outcome == Ok ==> |r.rest| < |t|
  {
    var u := SkipWs(t);
    if u == [] then Step(Fail(KeyMissing), u)
    else
      SuffixTransitive(u[1..], u, t);
      if u[0] != '"' then Step(Fail(KeyParsing), u[1..])
      else
        var r := KeyBody(u[1..]);
        SuffixTransitive(r.rest, u[1..], t);
        r
  }

  /** parseValue: removes whitespace and dispatches on the lookahead. */
  function ParseValue(s: seq<char>): (r: Step)
    ensures |r.rest| <= |s| && Suffix(r.rest, s)
    decreases |s|, 2
  {
    var t := SkipWs(s);
    SuffixesOfSuffix(t, s);
    if t == [] then Step(Ok, t)
    else if t[0] == '{' then ParseObject(t)
    else if t[0] == '[' then ParseArray(t)
    else if t[0] == '"' then ReadString(t)
    else if IsNumberStart(t[0]) then Step(Ok, ReadNumber(t))
    else if t[0] == 't' then ParseLiteral(t, "true")
    else if t[0] == 'f' then ParseLiteral(t, "false")
    else if t[0] == 'n' then ParseLiteral(t, "null")
    else
      var e := ErrorSection(t);
      Step(Fail(UnexpectedToken(e.0)), e.1)
  }

  /** parseObject: skips its first character, whatever it is, then reads
      members until '}' or the end of the queue. */
  function ParseObject(s: seq<char>): (r: Step)
    ensures |r.rest| <= |s| && Suffix(r.rest, s)
    decreases |s|, if s == [] then 5 else 1
  {
    ObjectMembers(Consume(s))
  }

  /** The member loop of parseObject, followed by the final unchecked poll. */
  function ObjectMembers(s: seq<char>): (r: Step)
    ensures |r.rest| <= |s| && Suffix(r.rest, s)
    decreases |s|, 4
  {
    var t := SkipWs(s);
    SuffixesOfSuffix(t, s);
    if t == [] || t[0] == '}' then Step(Ok, Consume(t))
    else
      var m := Member(t);
      if m.outcome != Ok then m
      else
        var r := ObjectMembers(m.rest);
        SuffixTransitive(r.rest, m.rest, s);
        r
  }

  /** One pass of the member loop: a key, then the rest of the member. */
  function Member(t: seq<char>): (r: Step)
    ensures |r.rest| <= |t| && Suffix(r.rest, t)
    ensures r.outcome == Ok ==> |r.rest| < |t| && r.rest != [] && (r.rest[0] == ',' || r.rest[0] == '}')
    decreases |t|, 3
  {
    var k := ParseKey(t);
    if k.outcome != Ok then k
    else
      var r := MemberValue(k.rest);
      SuffixTransitive(r.rest, k.rest, t);
      r
  }

  /** The rest of a member after its key: ':' (polled), a value, and the
      check that ',' or '}' comes next. */
  function MemberValue(s: seq<char>): (r: Step)
    ensures |r.rest| <= |s| && Suffix(r.rest, s)
    ensures r.outcome == Ok ==> r.rest != [] && (r.rest[0] == ',' || r.rest[0] == '}')
    decreases |s|, 3
  {
    var u := SkipWs(s);
    if u == [] || u[0] != ':' then Step(Fail(MissingColon), u)
    else
      SuffixTransitive(u[1..], u, s);
      var v := ParseValue(u[1..]);
      SuffixTransitive(v.rest, u[1..], s);
      if v.outcome != Ok then v
      else
        var w := Separator(v.rest);
        SuffixTransitive(w.rest, v.rest, s);
        w
  }

  /** The end of a member: ',' or '}' must come next; neither is consumed. */
  function Separator(s: seq<char>): (r: Step)
    ensures |r.rest| <= |s| && Suffix(r.rest, s)
    ensures r.outcome != Diverge
    ensures r.outcome == Ok <==> r.rest != [] && (r.rest[0] == ',' || r.rest[0] == '}')
  {
    var w := SkipWs(s);
    if w == [] || (w[0] != ',' && w[0] != '}') then Step(Fail(UnexpectedEof), w)
    else Step(Ok, w)
  }

  /** parseArray: skips its first character, then reads elements until ']'
      or the end of the queue. */
  function ParseArray(s: seq<char>): (r: Step)
    ensures |r.rest| <= |s| && Suffix(r.rest, s)
    decreases |s|, if s == [] then 5 else 1
  {
    ArrayElements(Consume(s))
  }

  /** One array element: an object when '{' comes next, a value otherwise. */
  function Element(t: seq<char>): (r: Step)
    ensures |r.rest| <= |t| && Suffix(r.rest, t)
    decreases |t|, 3
  {
    if t != [] && t[0] == '{' then ParseObject(t) else ParseValue(t)
  }

  /** The element loop of parseArray, followed by the final unchecked poll.
      An element that consumes nothing leaves the loop in the state it
      started from, so the loop would repeat it forever. */
  function ArrayElements(s: seq<char>): (r: Step)
    ensures |r.rest| <= |s| && Suffix(r.rest, s)
    decreases |s|, 4
  {
    var t := SkipWs(s);
    SuffixesOfSuffix(t, s);
    if t == [] || t[0] == ']' then Step(Ok, Consume(t))
    else
      var e := Element(t);
      if e.outcome != Ok then e
      else if |e.rest| == |t| then Step(Diverge, e.rest)
      else
        var r := ArrayElements(e.rest);
        SuffixTransitive(r.rest, e.rest, s);
        r
  }
}
