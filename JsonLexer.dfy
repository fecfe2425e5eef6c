/** The JSON validator as the program runs it: an object owning a queue of
    characters, with one method per production.  Every method that can
    change the queue is proved to do exactly what the matching function of
    JsonGrammar says.

    Where the program throws, a method returns Fail; where the program would
    loop forever (a loop pass that leaves the queue as it found it), a method
    returns Diverge instead of looping. */
module JsonLexer {
  import opened JavaLang
  import opened JsonGrammar

  /** The result of `new Lexer(input)`: the constructor either throws or
      yields a lexer. */
  datatype Construction = Rejected(error: ErrorKind) | Built(lexer: Lexer)

  /** The constructor's guard: null or empty text is refused, anything else
      is copied into a fresh queue. */
  method NewLexer(input: Option<seq<char>>) returns (r: Construction)
    ensures r.Rejected? <==> input == None || input == Some([])
    ensures r.Rejected? ==> r.error == EmptyInput
    ensures r.Built? ==> fresh(r.lexer) && r.lexer.queue == input.value
  {
    if input.None? || |input.value| == 0 {
      return Rejected(EmptyInput);
    }
    var lexer := new Lexer.Copy(input.value);
    return Built(lexer);
  }

  class Lexer {
    /** The characters not consumed yet, head first. */
    var queue: seq<char>

    /** copy: appends the characters of the input to the queue in order. */
    constructor Copy(input: seq<char>)
      ensures queue == input
    {
      var q := [];
      for i := 0 to |input|
        invariant q == input[..i]
      {
        q := q + [input[i]];
      }
      queue := q;
    }

    /** nextToken: peek at the head. */
    method NextToken() returns (c: Option<char>)
      ensures c == Peek(queue)
    {
      if queue == [] {
        return None;
      }
      return Some(queue[0]);
    }

    /** consumeNextToken: poll the head; polling an empty queue yields null
        and changes nothing. */
    method ConsumeNextToken() returns (c: Option<char>)
      modifies this
      ensures c == Peek(old(queue))
      ensures queue == Consume(old(queue))
    {
      if queue == [] {
        return None;
      }
      c := Some(queue[0]);
      queue := queue[1..];
    }

    method RemoveWhitespace()
      modifies this
      ensures queue == SkipWs(old(queue))
    {
      ghost var q0 := queue;
      var next := NextToken();
      while next.Some? && IsWhitespace(next.value)
        invariant SkipWs(queue) == SkipWs(q0)
        invariant next == Peek(queue)
        decreases |queue|
      {
        var polled := ConsumeNextToken();
        next := NextToken();
      }
    }

    method IsNextToken(c: char) returns (b: bool)
      modifies this
      ensures queue == SkipWs(old(queue))
      ensures b == NextTokenIs(old(queue), c)
    {
      RemoveWhitespace();
      var cc := NextToken();
      b := cc.Some? && cc.value == c;
    }

    /** isControlChar: reads the head and the character behind it. */
    method IsControlChar() returns (r: ControlCharResult)
      ensures r == ControlChar(queue)
    {
      var currentChar := NextToken();
      if currentChar.None? {
        return Returns(false);
      }
      if currentChar.value == '\\' && |queue| > 1 {
        var nextChar := queue[1];
        match nextChar
        case '"' | '\'' | '\\' | 't' | 'n' | 'r' | 'f' | 'b' =>
          return Returns(true);
        case _ =>
          return Throws(UnknownEscape);
      }
      return Returns(false);
    }

    /** getErrorSection: twenty polls, keeping the characters that were there. */
    method GetErrorSection() returns (section: seq<char>)
      modifies this
      ensures (section, queue) == ErrorSection(old(queue))
    {
      ghost var q0 := queue;
      section := [];
      for i := 0 to 20
        invariant section + queue == q0
        invariant |section| == if |q0| < i then |q0| else i
      {
        var next := NextToken();
        if next.Some? {
          var c := ConsumeNextToken();
          section := section + [c.value];
        }
      }
      assert section == q0[..|section|] && queue == q0[|section|..];
    }

    method ReadNumber()
      modifies this
      ensures queue == JsonGrammar.ReadNumber(old(queue))
    {
      ghost var q0 := queue;
      var next := NextToken();
      while next.Some? && IsDigit(next.value)
        invariant JsonGrammar.ReadNumber(queue) == JsonGrammar.ReadNumber(q0)
        invariant next == Peek(queue)
        decreases |queue|
      {
        var polled := ConsumeNextToken();
        next := NextToken();
      }
    }

    /** parseStringEquals: collects the letters at the head into a buffer and
        throws unless the buffer equals the keyword. */
    method ParseStringEquals(compare: seq<char>) returns (r: Outcome)
      modifies this
      ensures Step(r, queue) == ParseLiteral(old(queue), compare)
    {
      ghost var q0 := queue;
      var value := [];
      var next := NextToken();
      while next.Some? && IsLetter(next.value)
        invariant |value| <= Span(IsLetter, q0)
        invariant value == q0[..|value|] && queue == q0[|value|..]
        invariant next == Peek(queue)
        decreases |queue|
      {
        var c := ConsumeNextToken();
        value := value + [c.value];
        next := NextToken();
      }
      assert queue != [] ==> queue[0] == q0[|value|];
      assert |value| == Span(IsLetter, q0);
      if value != compare {
        return Fail(WrongValue(value, compare));
      }
      return Ok;
    }

    method ParseTrue() returns (r: Outcome)
      modifies this
      ensures Step(r, queue) == ParseLiteral(old(queue), "true")
    {
      r := ParseStringEquals("true");
    }

    method ParseFalse() returns (r: Outcome)
      modifies this
      ensures Step(r, queue) == ParseLiteral(old(queue), "false")
    {
      r := ParseStringEquals("false");
    }

    method ParseNull() returns (r: Outcome)
      modifies this
      ensures Step(r, queue) == ParseLiteral(old(queue), "null")
    {
      r := ParseStringEquals("null");
    }

    /** readString: skip the opening quote, then consume up to the closing
        one, taking an escape pair in one step. */
    method ReadString() returns (r: Outcome)
      modifies this
      ensures Step(r, queue) == JsonGrammar.ReadString(old(queue))
    {
      var polled := ConsumeNextToken();
      ghost var s0 := queue;
      while true
        invariant StringBody(queue) == StringBody(s0)
        decreases |queue|
      {
        var next := NextToken();
        if next.None? || next.value == '"' {
          break;
        }
        ghost var h := queue;
        var control := IsControlChar();
        match control
        case Throws(e) =>
          return Fail(e);
        case Returns(isControl) =>
          if isControl {
            polled := ConsumeNextToken();
            polled := ConsumeNextToken();
            StringBodyStep(h);
          } else {
            polled := ConsumeNextToken();
            StringBodyStep(h);
          }
      }
      polled := ConsumeNextToken();
      r := Ok;
    }

    /** parseKey: an optional comma, the opening quote, then characters up
        to the closing quote, refusing every escape. */
    method ParseKey() returns (r: Outcome)
      modifies this
      ensures Step(r, queue) == JsonGrammar.ParseKey(old(queue))
    {
      SkipComma();
      r := OpenKey();
    }

    /** The first part of parseKey: a comma after the whitespace is polled,
        with the whitespace that follows it. */
    method SkipComma()
      modifies this
      ensures queue == AbsorbComma(SkipWs(old(queue)))
    {
      var comma := IsNextToken(',');
      if comma {
        RemoveWhitespace();
        var polled := ConsumeNextToken();
      }
    }

    /** The rest of parseKey: the opening quote is polled and compared, then
        the key loop runs. */
    method OpenKey() returns (r: Outcome)
      modifies this
      ensures Step(r, queue) == KeyOpening(old(queue))
    {
      RemoveWhitespace();
      var polled := ConsumeNextToken();
      if polled.None? {
        // comparing the null that poll() returned with '"' throws
        return Fail(KeyMissing);
      }
      if polled.value != '"' {
        return Fail(KeyParsing);
      }
      r := KeyLoop();
    }

    /** The loop of parseKey, from the character after the opening quote to
        the closing one. */
    method KeyLoop() returns (r: Outcome)
      modifies this
      ensures Step(r, queue) == KeyBody(old(queue))
    {
      var polled: Option<char>;
      ghost var k0 := queue;
      while true
        invariant KeyBody(queue) == KeyBody(k0)
        decreases |queue|
      {
        KeyBodyStep(queue);
        var closing := IsNextToken('"');
        if closing {
          break;
        }
        var control := IsControlChar();
        match control
        case Throws(e) =>
          return Fail(e);
        case Returns(isControl) =>
          if isControl {
            return Fail(WrongKeyValue);
          }
        var size := |queue|;
        polled := ConsumeNextToken();
        if |queue| == size {
          // the queue is empty: every further pass of the loop is this one
          return Diverge;
        }
      }
      polled := ConsumeNextToken();
      r := Ok;
    }

    /** parseValue: dispatch on the first character after whitespace. */
    method ParseValue() returns (r: Outcome)
      modifies this
      ensures Step(r, queue) == JsonGrammar.ParseValue(old(queue))
      decreases |queue|, 2
    {
      RemoveWhitespace();
      var next := NextToken();
      if next.None? {
        return Ok;
      }
      match next.value
      case '{' =>
        r := ParseObject();
      case '[' =>
        r := ParseArray();
      case '"' =>
        r := ReadString();
      case '0' | '1' | '2' | '3' | '4' | '5' | '6' | '7' | '8' | '9' | '-' =>
        ReadNumber();
        r := Ok;
      case 't' =>
        r := ParseTrue();
      case 'f' =>
        r := ParseFalse();
      case 'n' =>
        r := ParseNull();
      case _ =>
        var section := GetErrorSection();
        r := Fail(UnexpectedToken(section));
    }

    /** parseObject: skip the first character, read members while the next
        token is neither '}' nor the end, then poll once more unchecked. */
    method ParseObject() returns (r: Outcome)
      modifies this
      ensures Step(r, queue) == JsonGrammar.ParseObject(old(queue))
      decreases |queue|, 1
    {
      ghost var q0 := queue;
      var polled := ConsumeNextToken();
      while true
        invariant |queue| < |q0| || queue == []
        invariant ObjectMembers(queue) == JsonGrammar.ParseObject(q0)
        decreases |queue|
      {
        ghost var h := queue;
        var closing := IsNextToken('}');
        var next := NextToken();
        if closing || next.None? {
          break;
        }
        r := Member();
        if r != Ok {
          return;
        }
      }
      polled := ConsumeNextToken();
      r := Ok;
    }

    /** The body of the member loop of parseObject: a key, then the rest of
        the member. */
    method Member() returns (r: Outcome)
      modifies this
      ensures Step(r, queue) == JsonGrammar.Member(old(queue))
      decreases |queue|, 3
    {
      r := ParseKey();
      if r != Ok {
        return;
      }
      r := MemberValue();
    }

    /** The rest of a member: ':', a value, and the check that ',' or '}'
        follows. */
    method MemberValue() returns (r: Outcome)
      modifies this
      ensures Step(r, queue) == JsonGrammar.MemberValue(old(queue))
      decreases |queue|, 3
    {
      var colon := IsNextToken(':');
      if !colon {
        return Fail(MissingColon);
      }
      var polled := ConsumeNextToken();
      r := ParseValue();
      if r != Ok {
        return;
      }
      r := Separator();
    }

    /** The check at the end of a member: the next token must be ',' or '}'. */
    method Separator() returns (r: Outcome)
      modifies this
      ensures Step(r, queue) == JsonGrammar.Separator(old(queue))
    {
      r := Ok;
      var comma := IsNextToken(',');
      if !comma {
        var brace := IsNextToken('}');
        if !brace {
          r := Fail(UnexpectedEof);
        }
      }
    }

    /** parseArray: skip the first character, read elements while the next
        token is neither ']' nor the end, then poll once more unchecked. */
    method ParseArray() returns (r: Outcome)
      modifies this
      ensures Step(r, queue) == JsonGrammar.ParseArray(old(queue))
      decreases |queue|, 1
    {
      ghost var q0 := queue;
      var polled := ConsumeNextToken();
      while true
        invariant |queue| < |q0| || queue == []
        invariant ArrayElements(queue) == JsonGrammar.ParseArray(q0)
        decreases |queue|
      {
        var closing := IsNextToken(']');
        var next := NextToken();
        if closing || next.None? {
          break;
        }
        var size := |queue|;
        var brace := IsNextToken('{');
        if brace {
          r := ParseObject();
        } else {
          r := ParseValue();
        }
        if r != Ok {
          return;
        }
        if |queue| == size {
          // nothing was consumed: every further pass of the loop is this one
          return Diverge;
        }
      }
      polled := ConsumeNextToken();
      r := Ok;
    }
  }
}
