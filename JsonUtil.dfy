/** The character-sequence predicates of the JSON tool's utility class. */
module JsonUtil {
  import opened JavaLang

  /** isAlphaNumeric: an ASCII digit or an ASCII letter. */
  function IsAlphaNumeric(c: char): (b: bool)
    ensures b <==> ('0' <= c <= '9' || 'a' <= c <= 'z' || 'A' <= c <= 'Z')
  {
    IsDigit(c) || IsAlphabetic(c)
  }

  /** isEmpty: a null reference or a sequence of length zero. */
  function IsEmpty(cs: Option<seq<char>>): (b: bool)
    ensures b <==> (cs == None || cs == Some([]))
  {
    match cs
    case None => true
    case Some(s) => |s| == 0
  }

  /** What isNumeric promises: present, non-empty, and digits throughout. */
  predicate Numeric(cs: Option<seq<char>>) {
    cs.Some? && |cs.value| > 0 && AllDigits(cs.value)
  }

  /** isNumeric: rejects null and empty input, then scans for a non-digit. */
  method IsNumeric(cs: Option<seq<char>>) returns (b: bool)
    ensures b <==> Numeric(cs)
  {
    if IsEmpty(cs) {
      return false;
    }
    var s := cs.value;
    for i := 0 to |s|
      invariant forall j :: 0 <= j < i ==> IsDigit(s[j])
    {
      if !IsDigit(s[i]) {
        return false;
      }
    }
    return true;
  }

  /** Null and empty input are never numeric. */
  lemma EmptyIsNotNumeric(cs: Option<seq<char>>)
    requires IsEmpty(cs)
    ensures !Numeric(cs)
  {
  }

  /** A single non-digit anywhere makes a sequence non-numeric. */
  lemma NonDigitIsNotNumeric(s: seq<char>, i: nat)
    requires i < |s| && !IsDigit(s[i])
    ensures !Numeric(Some(s))
  {
  }

  /** So a sign or a decimal point is enough to reject a number. */
  lemma SignAndPointAreNotNumeric()
    ensures !Numeric(Some("-1"))
    ensures !Numeric(Some("1.5"))
    ensures Numeric(Some("15"))
  {
    NonDigitIsNotNumeric("-1", 0);
    NonDigitIsNotNumeric("1.5", 1);
  }

  /** Numeric sequences are closed under concatenation. */
  lemma NumericConcat(a: seq<char>, b: seq<char>)
    requires Numeric(Some(a)) && Numeric(Some(b))
    ensures Numeric(Some(a + b))
  {
    forall i | 0 <= i < |a + b|
      ensures IsDigit((a + b)[i])
    {
      if i >= |a| {
        assert (a + b)[i] == b[i - |a|];
      }
    }
  }
}
