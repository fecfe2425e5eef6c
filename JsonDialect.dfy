/** The dialect the validator accepts, and a completeness theorem for it:
    every document printed in that dialect is accepted in full.

    The dialect differs from RFC 8259 where the code does: object members are
    separated by ',', but array elements are separated by whitespace (a ','
    between elements is refused, see JsonFacts.ArrayCommaRefused); numbers
    are unsigned runs of digits; keys and strings hold no escapes (keys
    refuse them outright, strings accept the eight escapes of IsEscapable,
    which this printer does not produce). */
module JsonDialect {
  import opened JavaLang
  import opened JsonGrammar
  import opened JsonFacts

  datatype Json =
    | JObject(fields: seq<Field>)
    | JArray(elements: seq<Json>)
    | JString(text: seq<char>)
    | JNumber(digits: seq<char>)
    | JBool(b: bool)
    | JNull

  datatype Field = Field(key: seq<char>, value: Json)

  /** Documents the printer can write in the dialect. */
  predicate WellFormed(v: Json)
    decreases v
  {
    match v
    case JObject(fs) => forall i :: 0 <= i < |fs| ==> Plain(fs[i].key) && WellFormed(fs[i].value)
    case JArray(es) => forall i :: 0 <= i < |es| ==> WellFormed(es[i])
    case JString(t) => Escaped(t)
    case JNumber(d) => d != [] && AllDigits(d)
    case JBool(_) => true
    case JNull => true
  }

  function Print(v: Json): seq<char>
    decreases v
  {
    match v
    case JObject(fs) => ['{'] + PrintFields(fs) + ['}']
    case JArray(es) => ['['] + PrintElements(es) + [']']
    case JString(t) => ['"'] + t + ['"']
    case JNumber(d) => d
    case JBool(b) => if b then "true" else "false"
    case JNull => "null"
  }

  /** Members separated by ','. */
  function PrintFields(fs: seq<Field>): seq<char>
    decreases fs
  {
    if fs == [] then [] else PrintField(fs[0]) + MoreFields(fs[1..])
  }

  /** Further members, each preceded by ','. */
  function MoreFields(fs: seq<Field>): seq<char>
    decreases fs
  {
    if fs == [] then [] else [','] + PrintField(fs[0]) + MoreFields(fs[1..])
  }

  function PrintField(f: Field): seq<char>
    decreases f
  {
    KeyText(f.key) + [':'] + Print(f.value)
  }

  /** Elements, each followed by a space. */
  function PrintElements(es: seq<Json>): seq<char>
    decreases es
  {
    if es == [] then [] else Print(es[0]) + [' '] + PrintElements(es[1..])
  }

  /** Text that can follow a value without being read as part of it. */
  predicate Delimited(rest: seq<char>) {
    rest == [] || (!IsDigit(rest[0]) && !IsLetter(rest[0]))
  }

  /** A printed document starts with the character that selects its
      production. */
  lemma PrintHead(v: Json)
    requires WellFormed(v)
    ensures Print(v) != [] && !IsWhitespace(Print(v)[0]) && Print(v)[0] != ']'
    ensures Print(v)[0] == '{' <==> v.JObject?
  {
  }

  /** A printed member starts with the opening quote of its key. */
  lemma FieldHead(f: Field)
    ensures PrintField(f) != [] && PrintField(f)[0] == '"'
  {
  }

  /** Completeness: the value dispatch accepts a printed document and stops
      right after it. */
  lemma {:induction false} PrintedValueAccepted(v: Json, rest: seq<char>)
    requires WellFormed(v) && Delimited(rest)
    ensures ParseValue(Print(v) + rest) == Step(Ok, rest)
    decreases v, 0
  {
    match v
    case JObject(fs) => PrintedObjectValue(fs, rest);
    case JArray(es) => PrintedArrayValue(es, rest);
    case JString(t) => PrintedStringValue(t, rest);
    case JNumber(d) => PrintedNumberValue(d, rest);
    case JBool(_) => PrintedLiteralValue(v, rest);
    case JNull => PrintedLiteralValue(v, rest);
  }

  /** A string is read by readString up to its closing quote. */
  lemma PrintedStringValue(t: seq<char>, rest: seq<char>)
    requires Escaped(t)
    ensures ParseValue(Print(JString(t)) + rest) == Step(Ok, rest)
  {
    var x := ['"'] + (t + ['"'] + rest);
    assert Print(JString(t)) + rest == x;
    ValueAtString(x);
    assert Consume(x) == t + ['"'] + rest;
    StringBodyAccepts(t, rest);
  }

  /** A number is read by readNumber up to the first non-digit. */
  lemma PrintedNumberValue(d: seq<char>, rest: seq<char>)
    requires d != [] && AllDigits(d) && Delimited(rest)
    ensures ParseValue(Print(JNumber(d)) + rest) == Step(Ok, rest)
  {
    var x := d + rest;
    assert x[0] == d[0];
    ValueAtNumber(x);
    ReadNumberTakesDigits(d, rest);
  }

  /** true, false and null are read by parseStringEquals. */
  lemma PrintedLiteralValue(v: Json, rest: seq<char>)
    requires v.JBool? || v.JNull?
    requires Delimited(rest)
    ensures ParseValue(Print(v) + rest) == Step(Ok, rest)
  {
    var k := Print(v);
    var x := k + rest;
    assert x[0] == k[0];
    ValueAtLiteral(x, k);
    LiteralAccepted(k, rest);
  }

  /** An object is read by parseObject through its member loop. */
  lemma {:induction false} PrintedObjectValue(fs: seq<Field>, rest: seq<char>)
    requires forall i :: 0 <= i < |fs| ==> Plain(fs[i].key) && WellFormed(fs[i].value)
    requires Delimited(rest)
    ensures ParseValue(Print(JObject(fs)) + rest) == Step(Ok, rest)
    decreases fs, 4
  {
    var y := PrintFields(fs) + ['}'] + rest;
    var x := ['{'] + y;
    assert Print(JObject(fs)) + rest == x;
    ValueAtObject(x);
    OpeningSkipped('{', y);
    PrintedFieldsAccepted(fs, rest);
  }

  /** An array is read by parseArray through its element loop. */
  lemma {:induction false} PrintedArrayValue(es: seq<Json>, rest: seq<char>)
    requires forall i :: 0 <= i < |es| ==> WellFormed(es[i])
    requires Delimited(rest)
    ensures ParseValue(Print(JArray(es)) + rest) == Step(Ok, rest)
    decreases es, 4
  {
    var y := PrintElements(es) + [']'] + rest;
    var x := ['['] + y;
    assert Print(JArray(es)) + rest == x;
    ValueAtArray(x);
    OpeningSkipped('[', y);
    PrintedElementsAccepted(es, rest);
  }

  /** The member loop reads printed members up to and including the closing
      brace. */
  lemma {:induction false} PrintedFieldsAccepted(fs: seq<Field>, rest: seq<char>)
    requires forall i :: 0 <= i < |fs| ==> Plain(fs[i].key) && WellFormed(fs[i].value)
    requires Delimited(rest)
    ensures ObjectMembers(PrintFields(fs) + ['}'] + rest) == Step(Ok, rest)
    decreases fs, 3
  {
    if fs == [] {
      var y := ['}'] + rest;
      assert PrintFields(fs) + ['}'] + rest == y;
      SkipWsAtToken(y);
      MembersAtClose(y);
    } else {
      FieldThenMore(fs, rest);
    }
  }

  /** After a ',' the loop reads the next member, or stops at '}'. */
  lemma {:induction false} MoreFieldsAccepted(fs: seq<Field>, rest: seq<char>)
    requires forall i :: 0 <= i < |fs| ==> Plain(fs[i].key) && WellFormed(fs[i].value)
    requires Delimited(rest)
    ensures ObjectMembers(MoreFields(fs) + ['}'] + rest) == Step(Ok, rest)
    decreases fs, 2
  {
    if fs == [] {
      var y := ['}'] + rest;
      assert MoreFields(fs) + ['}'] + rest == y;
      SkipWsAtToken(y);
      MembersAtClose(y);
    } else {
      var w := PrintField(fs[0]) + MoreFields(fs[1..]) + ['}'] + rest;
      assert MoreFields(fs) + ['}'] + rest == [','] + w;
      FieldHead(fs[0]);
      assert w[0] == '"';
      SkipWsAtToken(w);
      CommaBeforeMemberAbsorbed(w);
      FieldThenMore(fs, rest);
    }
  }

  /** The first member, then the rest. */
  lemma {:induction false} FieldThenMore(fs: seq<Field>, rest: seq<char>)
    requires fs != []
    requires forall i :: 0 <= i < |fs| ==> Plain(fs[i].key) && WellFormed(fs[i].value)
    requires Delimited(rest)
    ensures ObjectMembers(PrintField(fs[0]) + MoreFields(fs[1..]) + ['}'] + rest) == Step(Ok, rest)
    decreases fs, 1
  {
    var tail := MoreFields(fs[1..]) + ['}'] + rest;
    var w := PrintField(fs[0]) + tail;
    assert PrintField(fs[0]) + MoreFields(fs[1..]) + ['}'] + rest == w;
    assert tail != [] && (tail[0] == ',' || tail[0] == '}');
    FieldHead(fs[0]);
    SkipWsAtToken(w);
    MembersAtMember(w);
    PrintedFieldAccepted(fs[0], tail);
    MoreFieldsAccepted(fs[1..], rest);
  }

  /** One printed member, followed by ',' or '}', is one pass of the member
      loop. */
  lemma {:induction false} PrintedFieldAccepted(f: Field, tail: seq<char>)
    requires Plain(f.key) && WellFormed(f.value)
    requires tail != [] && (tail[0] == ',' || tail[0] == '}')
    ensures Member(PrintField(f) + tail) == Step(Ok, tail)
    decreases f
  {
    var p := Print(f.value);
    var r := [':'] + p + tail;
    assert PrintField(f) + tail == KeyText(f.key) + r;
    MemberAfterKeyText(f.key, r);
    PrintedValueAccepted(f.value, tail);
    MemberValueAfterValue(p, tail);
    SeparatorAccepts(tail);
  }

  /** The element loop reads printed elements up to and including the
      closing bracket. */
  lemma {:induction false} PrintedElementsAccepted(es: seq<Json>, rest: seq<char>)
    requires forall i :: 0 <= i < |es| ==> WellFormed(es[i])
    requires Delimited(rest)
    ensures ArrayElements(PrintElements(es) + [']'] + rest) == Step(Ok, rest)
    decreases es, 3
  {
    if es == [] {
      var y := [']'] + rest;
      assert PrintElements(es) + [']'] + rest == y;
      SkipWsAtToken(y);
      ElementsAtClose(y);
    } else {
      ElementThenMore(es, rest);
      PrintedElementsAccepted(es[1..], rest);
    }
  }

  /** The first printed element and its space take one pass of the loop,
      which leaves the remaining elements. */
  lemma {:induction false} ElementThenMore(es: seq<Json>, rest: seq<char>)
    requires es != [] && WellFormed(es[0])
    ensures ArrayElements(PrintElements(es) + [']'] + rest) ==
      ArrayElements(PrintElements(es[1..]) + [']'] + rest)
    decreases es, 2
  {
    var z := PrintElements(es[1..]) + [']'] + rest;
    assert ArrayElements(PrintElements(es) + [']'] + rest) == ArrayElements([' '] + z) by {
      assert PrintElements(es) + [']'] + rest == Print(es[0]) + ([' '] + z);
      PrintedElementAccepted(es[0], z);
    }
    SpaceBeforeElement(z);
  }

  /** One printed element and the space after it make one pass of the
      element loop. */
  lemma {:induction false} PrintedElementAccepted(e: Json, z: seq<char>)
    requires WellFormed(e)
    ensures ArrayElements(Print(e) + ([' '] + z)) == ArrayElements([' '] + z)
    decreases e, 1
  {
    var y := Print(e) + ([' '] + z);
    PrintHead(e);
    assert y[0] == Print(e)[0];
    SkipWsAtToken(y);
    PrintedValueAccepted(e, [' '] + z);
    if e.JObject? {
      ValueAtObject(y);
      ElementsAtObject(y);
    } else {
      ElementsAtValue(y);
    }
  }

  /** parseObject, the entry point of the validator, accepts every printed
      object and consumes it entirely. */
  lemma PrintedObjectAccepted(fs: seq<Field>)
    requires WellFormed(JObject(fs))
    ensures ParseObject(Print(JObject(fs))) == Step(Ok, [])
  {
    var x := Print(JObject(fs));
    assert x + [] == x;
    PrintedValueAccepted(JObject(fs), []);
    ValueAtObject(x);
  }

  /** parseArray accepts a single printed element without a space before
      the closing bracket. */
  lemma SingleElementArrayAccepted(e: Json)
    requires WellFormed(e)
    ensures ParseArray(['['] + Print(e) + [']']) == Step(Ok, [])
  {
    var y := Print(e) + [']'];
    assert ['['] + Print(e) + [']'] == ['['] + y;
    OpeningSkipped('[', y);
    PrintHead(e);
    assert y[0] == Print(e)[0];
    SkipWsAtToken(y);
    PrintedValueAccepted(e, [']']);
    if e.JObject? {
      ValueAtObject(y);
      ElementsAtObject(y);
    } else {
      ElementsAtValue(y);
    }
    SkipWsAtToken([']']);
    ElementsAtClose([']']);
  }

  // ---------------------------------------------------------------------
  // Whole documents

  /** The printed form of two number members. */
  lemma FlatText(a: Field, b: Field)
    requires a == Field("a", JNumber("1")) && b == Field("b", JNumber("2"))
    ensures Print(JObject([a, b])) == "{\"a\":1,\"b\":2}"
  {
    assert PrintField(a) == "\"a\":1";
    assert MoreFields([b]) == ",\"b\":2" by {
      assert PrintField(b) == "\"b\":2";
    }
    assert [a, b][1..] == [b];
  }

  /** Two number members. */
  lemma FlatObjectAccepted(d: seq<char>)
    requires d == "{\"a\":1,\"b\":2}"
    ensures ParseObject(d) == Step(Ok, [])
  {
    var a := Field("a", JNumber("1"));
    var b := Field("b", JNumber("2"));
    FlatText(a, b);
    PrintedObjectAccepted([a, b]);
  }

  /** The printed form of an array of two numbers. */
  lemma ArrayText(es: seq<Json>)
    requires es == [JNumber("1"), JNumber("2")]
    ensures Print(JArray(es)) == "[1 2 ]"
  {
    assert es[1..] == [JNumber("2")];
    assert PrintElements([JNumber("2")]) == "2 " by {
      assert [JNumber("2")][1..] == [];
    }
    assert Print(es[0]) == "1";
    var e := PrintElements(es);
    assert e == Print(es[0]) + [' '] + PrintElements(es[1..]);
    assert e == "1 2 ";
    assert Print(JArray(es)) == ['['] + e + [']'];
  }

  /** The printed form of a member holding that array. */
  lemma ArrayMemberText(k: Field)
    requires k == Field("k", JArray([JNumber("1"), JNumber("2")]))
    ensures Print(JObject([k])) == "{\"k\":[1 2 ]}"
  {
    ArrayText(k.value.elements);
    var t := PrintField(k);
    assert t == KeyText("k") + [':'] + Print(k.value);
    assert t == "\"k\":[1 2 ]";
    assert PrintFields([k]) == t by {
      assert MoreFields([k][1..]) == [];
    }
  }

  /** A member whose value is an array written in the dialect: elements
      separated by whitespace. */
  lemma SpaceSeparatedArrayAccepted(d: seq<char>)
    requires d == "{\"k\":[1 2 ]}"
    ensures ParseObject(d) == Step(Ok, [])
  {
    var k := Field("k", JArray([JNumber("1"), JNumber("2")]));
    ArrayMemberText(k);
    assert WellFormed(JObject([k])) by {
      assert WellFormed(k.value);
    }
    PrintedObjectAccepted([k]);
  }

  /** An array written with commas, as RFC 8259 writes it, is refused at the
      first comma when it is the value of a member. */
  lemma CommaSeparatedArrayMemberRefused(key: seq<char>, digits: seq<char>, s: seq<char>)
    requires Plain(key) && digits != [] && AllDigits(digits)
    ensures ParseObject(['{'] + KeyText(key) + [':', '['] + digits + [','] + s).outcome ==
      Fail(UnexpectedToken(ErrorSection([','] + s).0))
  {
    var a := ['['] + digits + [','] + s;
    var m := [':'] + a;
    assert ['{'] + KeyText(key) + [':', '['] + digits + [','] + s == ['{'] + KeyText(key) + m;
    ObjectWithKey(key, m);
    assert m[1..] == a;
    MemberValueAtColon(m);
    ValueAtArray(a);
    ArrayCommaRefused(digits, s);
  }

  /** A number with a decimal point ends the member early. */
  lemma DecimalPointRefused()
    ensures ParseObject("{\"a\":1.2.3}").outcome == Fail(UnexpectedEof)
  {
    assert "{\"a\":1.2.3}" == ['{'] + KeyText("a") + [':'] + "1" + ".2.3}";
    SkipWsAtToken(".2.3}");
    NumberMemberNeedsSeparator("a", "1", ".2.3}");
  }

  /** "[1]" and "[{\"a\":1}]" are accepted in full. */
  lemma OneElementArraysAccepted(d: seq<char>, o: seq<char>, a: Field)
    requires d == "[1]" && o == "[{\"a\":1}]" && a == Field("a", JNumber("1"))
    ensures ParseArray(d) == Step(Ok, []) && ParseArray(o) == Step(Ok, [])
  {
    assert d == ['['] + Print(JNumber("1")) + [']'];
    SingleElementArrayAccepted(JNumber("1"));
    var v := JObject([a]);
    assert Print(v) == ['{'] + PrintField(a) + ['}'] by {
      assert PrintFields([a]) == PrintField(a) + MoreFields([]);
    }
    assert PrintField(a) == "\"a\":1";
    assert o == ['['] + Print(v) + [']'];
    SingleElementArrayAccepted(v);
  }
}
