/** The counting side of the word-count tool: the flags App reads from the
    options map, their defaults, the per-input Result that count records and
    the largest line length over all results. */
module CcwcCount {
  import opened JavaLang
  import opened CcwcText
  import opened CcwcArgs

  /** Result: the counts of one input and the name it was read under. */
  datatype Result = Result(lineCount: nat, wordCount: nat, byteCount: nat, maxLineLength: nat,
                           chars: nat, file: seq<char>)

  /** The five count flags. */
  datatype Flags = Flags(lines: bool, words: bool, bytes: bool, chars: bool, maxLineLength: bool)
  {
    predicate AnyCount() {
      lines || words || bytes || chars || maxLineLength
    }
  }

  /** applyDefaultOptions, on values: with no flag set, count lines, words
      and bytes; with any flag set, change nothing. */
  function WithDefaults(f: Flags): (g: Flags)
    ensures g.AnyCount()
    ensures f.AnyCount() ==> g == f
    ensures !f.AnyCount() ==> g == Flags(true, true, true, false, false)
  {
    if !f.AnyCount() then Flags(true, true, true, false, false) else f
  }

  /** Applying the defaults twice is applying them once. */
  lemma DefaultsIdempotent(f: Flags)
    ensures WithDefaults(WithDefaults(f)) == WithDefaults(f)
  {
  }

  /** The defaults only ever switch flags on. */
  lemma DefaultsOnlyAdd(f: Flags)
    ensures f.lines ==> WithDefaults(f).lines
    ensures f.words ==> WithDefaults(f).words
    ensures f.bytes ==> WithDefaults(f).bytes
    ensures WithDefaults(f).chars == f.chars
    ensures WithDefaults(f).maxLineLength == f.maxLineLength
  {
  }

  // ---------------------------------------------------------------------
  // The fold of count

  /** What the loop of count has computed after the lines `ls`, for a text
      read under the name `file`; `bytesOf` stands for getBytes().length in
      the platform charset. */
  function Tally(ls: seq<seq<char>>, file: seq<char>, bytesOf: seq<char> -> nat): (r: Result)
    ensures r.lineCount == |ls| && r.file == file
    decreases |ls|
  {
    if ls == [] then Result(0, 0, 0, 0, 0, file)
    else
      var p := Tally(ls[..|ls| - 1], file, bytesOf);
      var current := ls[|ls| - 1];
      var w := CountWords(current);
      Result(p.lineCount + 1, p.wordCount + w, p.byteCount + bytesOf(current),
             if w > p.maxLineLength then w else p.maxLineLength, p.chars + |current|, file)
  }

  /** Lines joined by line breaks, as a reader would have them. */
  function Joined(ls: seq<seq<char>>): seq<char>
    decreases |ls|
  {
    if ls == [] then []
    else if |ls| == 1 then ls[0]
    else Joined(ls[..|ls| - 1]) + ['\n'] + ls[|ls| - 1]
  }

  /** The counts of two inputs read one after the other combine: counts
      add up, and the maximum is the larger of the two. */
  lemma {:induction false} TallyAppend(a: seq<seq<char>>, b: seq<seq<char>>, file: seq<char>,
                                        bytesOf: seq<char> -> nat)
    ensures var x := Tally(a, file, bytesOf);
            var y := Tally(b, file, bytesOf);
            Tally(a + b, file, bytesOf) ==
              Result(x.lineCount + y.lineCount, x.wordCount + y.wordCount, x.byteCount + y.byteCount,
                     if y.maxLineLength > x.maxLineLength then y.maxLineLength else x.maxLineLength,
                     x.chars + y.chars, file)
    decreases |b|
  {
    if b == [] {
      assert a + b == a;
    } else {
      assert (a + b)[..|a + b| - 1] == a + b[..|b| - 1];
      TallyAppend(a, b[..|b| - 1], file, bytesOf);
    }
  }

  /** maxLineLength is the largest word count of a line (not its length in
      characters), and 0 without lines. */
  lemma {:induction false} TallyMaximum(ls: seq<seq<char>>, file: seq<char>, bytesOf: seq<char> -> nat)
    ensures forall i :: 0 <= i < |ls| ==> CountWords(ls[i]) <= Tally(ls, file, bytesOf).maxLineLength
    ensures ls == [] ==> Tally(ls, file, bytesOf).maxLineLength == 0
    ensures ls != [] ==> exists i :: 0 <= i < |ls| && CountWords(ls[i]) == Tally(ls, file, bytesOf).maxLineLength
    decreases |ls|
  {
    if ls != [] {
      var q := ls[..|ls| - 1];
      TallyMaximum(q, file, bytesOf);
      forall i | 0 <= i < |ls| - 1
        ensures CountWords(ls[i]) <= Tally(ls, file, bytesOf).maxLineLength
      {
        assert ls[i] == q[i];
      }
      if q != [] {
        var j :| 0 <= j < |q| && CountWords(q[j]) == Tally(q, file, bytesOf).maxLineLength;
        assert ls[j] == q[j];
      }
    }
  }

  /** wordCount is the number of words of the whole text: a line break is a
      delimiter, so no word spans two lines. */
  lemma {:induction false} TallyWords(ls: seq<seq<char>>, file: seq<char>, bytesOf: seq<char> -> nat)
    ensures Tally(ls, file, bytesOf).wordCount == CountWords(Joined(ls))
    decreases |ls|
  {
    if |ls| > 1 {
      var q := ls[..|ls| - 1];
      TallyWords(q, file, bytesOf);
      CountWordsSplit(Joined(q), '\n', ls[|ls| - 1]);
    } else if |ls| == 1 {
      assert ls[..0] == [];
    }
  }

  /** chars is the length of the text less its line breaks. */
  lemma {:induction false} TallyChars(ls: seq<seq<char>>, file: seq<char>, bytesOf: seq<char> -> nat)
    requires ls != []
    ensures Tally(ls, file, bytesOf).chars + |ls| - 1 == |Joined(ls)|
    decreases |ls|
  {
    if |ls| > 1 {
      TallyChars(ls[..|ls| - 1], file, bytesOf);
    } else {
      assert ls[..0] == [];
    }
  }

  /** With one byte per character (ASCII text), bytes and chars agree. */
  lemma {:induction false} TallyBytesOfAscii(ls: seq<seq<char>>, file: seq<char>, bytesOf: seq<char> -> nat)
    requires forall s :: bytesOf(s) == |s|
    ensures Tally(ls, file, bytesOf).byteCount == Tally(ls, file, bytesOf).chars
    decreases |ls|
  {
    if ls != [] {
      TallyBytesOfAscii(ls[..|ls| - 1], file, bytesOf);
    }
  }

  /** The largest maxLineLength over a list of results, 0 for none. */
  predicate IsMaxLineLength(results: seq<Result>, m: nat) {
    (forall i :: 0 <= i < |results| ==> results[i].maxLineLength <= m)
    && (results == [] ==> m == 0)
    && (results != [] ==> exists i :: 0 <= i < |results| && results[i].maxLineLength == m)
  }

  // ---------------------------------------------------------------------
  // The application object

  /** App: the flags read from the options map, the files to read, the name
      of the input being read and the results so far. */
  class App {
    var lines: bool
    var words: bool
    var bytes: bool
    const chars: bool
    const maxLineLength: bool
    const help: bool
    var fileNames: seq<seq<char>>
    var currentFile: seq<char>
    var results: seq<Result>

    function CountFlags(): Flags
      reads this
    {
      Flags(lines, words, bytes, chars, maxLineLength)
    }

    /** A flag is set exactly when its long form is a key of the map; the
        file list is the one under "files", or empty. */
    constructor (options: map<seq<char>, Entry>)
      requires WellTyped(options)
      ensures lines <==> "lines" in options
      ensures words <==> "words" in options
      ensures bytes <==> "bytes" in options
      ensures chars <==> "chars" in options
      ensures maxLineLength <==> "max-line-length" in options
      ensures help <==> "help" in options
      ensures fileNames == FilesOf(options)
      ensures currentFile == [] && results == []
    {
      lines := "lines" in options;
      words := "words" in options;
      bytes := "bytes" in options;
      chars := "chars" in options;
      maxLineLength := "max-line-length" in options;
      help := "help" in options;
      fileNames := if "files" in options then options["files"].files else [];
      currentFile := [];
      results := [];
    }

    /** applyDefaultOptions. */
    method ApplyDefaultOptions()
      modifies this
      ensures CountFlags() == WithDefaults(old(CountFlags()))
      ensures fileNames == old(fileNames) && currentFile == old(currentFile) && results == old(results)
    {
      if !lines && !words && !bytes && !chars && !maxLineLength {
        lines := true;
        words := true;
        bytes := true;
      }
    }

    /** count: one pass over the lines of an input, then one Result for it. */
    method Count(ls: seq<seq<char>>, bytesOf: seq<char> -> nat)
      modifies this
      ensures results == old(results) + [Tally(ls, currentFile, bytesOf)]
      ensures CountFlags() == old(CountFlags())
      ensures fileNames == old(fileNames) && currentFile == old(currentFile)
    {
      var lineCount: nat, wordCount: nat, byteCount: nat, maxLen: nat, currentLineLength: nat, charCount: nat
        := 0, 0, 0, 0, 0, 0;
      var i := 0;
      while i < |ls|
        invariant 0 <= i <= |ls|
        invariant Tally(ls[..i], currentFile, bytesOf) ==
          Result(lineCount, wordCount, byteCount, maxLen, charCount, currentFile)
      {
        var current := ls[i];
        assert ls[..i + 1][..i] == ls[..i];
        lineCount := lineCount + 1;
        currentLineLength := CountWords(current);
        wordCount := wordCount + currentLineLength;
        byteCount := byteCount + bytesOf(current);
        charCount := charCount + |current|;
        if currentLineLength > maxLen {
          maxLen := currentLineLength;
        }
        i := i + 1;
      }
      assert ls[..|ls|] == ls;
      results := results + [Result(lineCount, wordCount, byteCount, maxLen, charCount, currentFile)];
    }

    /** getMaxLineLength: the largest maxLineLength over the results. */
    method GetMaxLineLength() returns (m: nat)
      ensures IsMaxLineLength(results, m)
    {
      if results == [] {
        return 0;
      }
      m := 0;
      for i := 0 to |results|
        invariant forall j :: 0 <= j < i ==> results[j].maxLineLength <= m
        invariant m == 0 || exists j :: 0 <= j < i && results[j].maxLineLength == m
      {
        if results[i].maxLineLength > m {
          m := results[i].maxLineLength;
        }
      }
      if m == 0 {
        assert results[0].maxLineLength == 0;
      }
    }
  }
}
