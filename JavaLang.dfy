/** The parts of java.lang that both programs lean on: a nullable reference
    and the character classes of java.lang.Character, restricted to ASCII. */
module JavaLang {

  /** A Java reference that may be null. */
  datatype Option<+T> = None | Some(value: T)

  /** Character.isWhitespace on the ASCII range: space, the C0 controls
      TAB, LF, VT, FF, CR and the four separators FS, GS, RS, US. */
  predicate IsWhitespace(c: char) {
    c == ' ' || c == '\t' || c == '\n' || c == '\U{B}' || c == '\U{C}' || c == '\r'
    || ('\U{1C}' <= c <= '\U{1F}')
  }

  /** Character.isDigit on the ASCII range. */
  predicate IsDigit(c: char) {
    '0' <= c <= '9'
  }

  /** Text made of digits only (the empty text included). */
  predicate AllDigits(s: seq<char>) {
    forall i :: 0 <= i < |s| ==> IsDigit(s[i])
  }

  /** Character.isLetter on the ASCII range. */
  predicate IsLetter(c: char) {
    'a' <= c <= 'z' || 'A' <= c <= 'Z'
  }

  /** Character.isAlphabetic on the ASCII range (the same letters). */
  predicate IsAlphabetic(c: char) {
    'a' <= c <= 'z' || 'A' <= c <= 'Z'
  }

  /** Character.toLowerCase on the ASCII range. */
  function ToLower(c: char): char {
    if 'A' <= c <= 'Z' then (c as int + 32) as char else c
  }

  /** String.equalsIgnoreCase on ASCII text: same length, and the characters
      agree once both are lower-cased. */
  predicate EqualsIgnoreCase(a: seq<char>, b: seq<char>) {
    |a| == |b| && forall i :: 0 <= i < |a| ==> ToLower(a[i]) == ToLower(b[i])
  }

  /** String.startsWith. */
  predicate StartsWith(s: seq<char>, prefix: seq<char>) {
    |prefix| <= |s| && s[..|prefix|] == prefix
  }
}
