/** The text predicates of the word-count tool: isBlank, and the word count
    that countWords takes from java.util.StringTokenizer with its default
    delimiters. */
module CcwcText {
  import opened JavaLang

  /** length: a null sequence has length zero. */
  function Length(cs: Option<seq<char>>): (n: nat)
    ensures cs == None ==> n == 0
    ensures cs.Some? ==> n == |cs.value|
  {
    if cs == None then 0 else |cs.value|
  }

  /** What isBlank promises: null, empty, or whitespace throughout. */
  predicate Blank(cs: Option<seq<char>>) {
    cs == None || forall i :: 0 <= i < |cs.value| ==> IsWhitespace(cs.value[i])
  }

  /** isBlank: true for a zero length, otherwise scans for a character that is
      not whitespace. */
  method IsBlank(cs: Option<seq<char>>) returns (b: bool)
    ensures b <==> Blank(cs)
  {
    var strLen := Length(cs);
    if strLen == 0 {
      return true;
    }
    for i := 0 to strLen
      invariant forall j :: 0 <= j < i ==> IsWhitespace(cs.value[j])
    {
      if !IsWhitespace(cs.value[i]) {
        return false;
      }
    }
    return true;
  }

  // ---------------------------------------------------------------------
  // Words

  /** The default delimiters of StringTokenizer: space, tab, newline,
      carriage return and form feed. */
  predicate IsDelimiter(c: char)
    ensures IsDelimiter(c) ==> IsWhitespace(c)
  {
    c == ' ' || c == '\t' || c == '\n' || c == '\r' || c == '\U{C}'
  }

  /** Drops the delimiters at the head. */
  function SkipDelimiters(s: seq<char>): (r: seq<char>)
    ensures |r| <= |s|
    ensures r == [] || !IsDelimiter(r[0])
    decreases |s|
  {
    if s != [] && IsDelimiter(s[0]) then SkipDelimiters(s[1..]) else s
  }

  /** Drops the token at the head, up to the next delimiter. */
  function ScanToken(s: seq<char>): (r: seq<char>)
    ensures |r| <= |s|
    ensures r == [] || IsDelimiter(r[0])
    ensures s != [] && !IsDelimiter(s[0]) ==> |r| < |s|
    decreases |s|
  {
    if s != [] && !IsDelimiter(s[0]) then ScanToken(s[1..]) else s
  }

  /** countTokens: alternately skips delimiters and scans a token, counting
      the tokens. */
  function CountWords(s: seq<char>): (n: nat)
    ensures n <= |s|
    decreases |s|
  {
    var t := SkipDelimiters(s);
    if t == [] then 0 else 1 + CountWords(ScanToken(t))
  }

  /** Words counted by where they start: a character that is not a delimiter
      and comes first or right after a delimiter. */
  function WordStarts(s: seq<char>, afterDelimiter: bool): nat
    decreases |s|
  {
    if s == [] then 0
    else (if afterDelimiter && !IsDelimiter(s[0]) then 1 else 0) + WordStarts(s[1..], IsDelimiter(s[0]))
  }

  /** Skipping delimiters skips no word start. */
  lemma {:induction false} SkipDelimitersKeepsStarts(s: seq<char>)
    ensures WordStarts(SkipDelimiters(s), true) == WordStarts(s, true)
    decreases |s|
  {
    if s != [] && IsDelimiter(s[0]) {
      SkipDelimitersKeepsStarts(s[1..]);
    }
  }

  /** Inside a token, the rest of the token holds no word start. */
  lemma {:induction false} ScanTokenKeepsStarts(s: seq<char>)
    ensures WordStarts(ScanToken(s), true) == WordStarts(s, false)
    decreases |s|
  {
    if s != [] && !IsDelimiter(s[0]) {
      ScanTokenKeepsStarts(s[1..]);
    }
  }

  /** The tokenizer counts exactly the maximal runs of non-delimiters. */
  lemma {:induction false} CountWordsCountsStarts(s: seq<char>)
    ensures CountWords(s) == WordStarts(s, true)
    decreases |s|
  {
    var t := SkipDelimiters(s);
    SkipDelimitersKeepsStarts(s);
    if t != [] {
      ScanTokenKeepsStarts(t[1..]);
      assert ScanToken(t) == ScanToken(t[1..]);
      CountWordsCountsStarts(ScanToken(t));
    }
  }

  /** Word starts on either side of a delimiter add up. */
  lemma {:induction false} WordStartsSplit(a: seq<char>, d: char, b: seq<char>, x: bool)
    requires IsDelimiter(d)
    ensures WordStarts(a + [d] + b, x) == WordStarts(a, x) + WordStarts(b, true)
    decreases |a|
  {
    if a == [] {
      assert a + [d] + b == [d] + b;
      assert ([d] + b)[1..] == b;
    } else {
      assert (a + [d] + b)[1..] == a[1..] + [d] + b;
      WordStartsSplit(a[1..], d, b, IsDelimiter(a[0]));
    }
  }

  /** So two texts joined by a delimiter hold the words of both. */
  lemma CountWordsSplit(a: seq<char>, d: char, b: seq<char>)
    requires IsDelimiter(d)
    ensures CountWords(a + [d] + b) == CountWords(a) + CountWords(b)
  {
    CountWordsCountsStarts(a + [d] + b);
    CountWordsCountsStarts(a);
    CountWordsCountsStarts(b);
    WordStartsSplit(a, d, b, true);
  }

  /** A text without word starts is made of delimiters. */
  lemma {:induction false} NoStartsAllDelimiters(s: seq<char>)
    requires WordStarts(s, true) == 0
    ensures forall i :: 0 <= i < |s| ==> IsDelimiter(s[i])
    decreases |s|
  {
    if s != [] {
      NoStartsAllDelimiters(s[1..]);
      forall i | 0 <= i < |s|
        ensures IsDelimiter(s[i])
      {
        if i > 0 {
          assert s[i] == s[1..][i - 1];
        }
      }
    }
  }

  /** A text without words is blank, since every delimiter is whitespace. */
  lemma NoWordsIsBlank(s: seq<char>)
    requires CountWords(s) == 0
    ensures Blank(Some(s))
  {
    CountWordsCountsStarts(s);
    NoStartsAllDelimiters(s);
  }

  /** The converse fails: a vertical tab is whitespace to isBlank but a word
      to the tokenizer. */
  lemma BlankTextWithAWord()
    ensures Blank(Some("\U{B}")) && CountWords("\U{B}") == 1
  {
    assert ScanToken("\U{B}") == [];
  }
}
