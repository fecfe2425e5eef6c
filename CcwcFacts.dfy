/** What ParseArgs makes of a command line: which keys it records, where the
    file names go, what a second parse does, and the command lines of the
    tool's own tests. */
module CcwcFacts {
  import opened JavaLang
  import opened CcwcText
  import opened CcwcArgs

  /** The long forms that record something: all but "help". */
  predicate IsCountName(s: seq<char>) {
    s in LongOptions && NamesCountOption(s)
  }

  /** The long form a short letter stands for. */
  function LongFormOf(c: char): Option<seq<char>> {
    if c == 'l' then Some("lines")
    else if c == 'w' then Some("words")
    else if c == 'c' then Some("bytes")
    else if c == 'm' then Some("chars")
    else if c == 'L' then Some("max-line-length")
    else None
  }

  // ---------------------------------------------------------------------
  // Options

  /** Two texts whose first letters differ in more than case differ. */
  lemma FirstLetterDiffers(a: seq<char>, b: seq<char>)
    requires a != [] && b != [] && ToLower(a[0]) != ToLower(b[0])
    ensures !EqualsIgnoreCase(a, b)
  {
  }

  /** The six long forms differ from one another even ignoring case. */
  lemma LongFormsDistinct(a: seq<char>, b: seq<char>)
    requires a in LongOptions && b in LongOptions
    ensures EqualsIgnoreCase(a, b) <==> a == b
  {
    if a != b && |a| == |b| {
      assert |a| == 5;
      FirstLetterDiffers(a, b);
    }
  }

  /** The option handleOption builds answers exactly one of the is-queries,
      the one it was named by, and never isHelp. */
  lemma OptionKinds(option: seq<char>)
    requires NamesCountOption(option)
    ensures var o := HandleOption(option).value;
      && (o.IsLines() <==> option == "lines" || option == "l")
      && (o.IsWords() <==> option == "words" || option == "w")
      && (o.IsBytes() <==> option == "bytes" || option == "c")
      && (o.IsChars() <==> option == "chars" || option == "m")
      && (o.IsMaxLineLength() <==> option == "max-line-length" || option == "L")
      && !o.IsHelp()
  {
    var o := HandleOption(option).value;
    forall n | n in LongOptions
      ensures EqualsIgnoreCase(o.longForm, n) <==> o.longForm == n
    {
      LongFormsDistinct(o.longForm, n);
    }
    assert "lines" in LongOptions && "words" in LongOptions && "bytes" in LongOptions;
    assert "chars" in LongOptions && "max-line-length" in LongOptions && "help" in LongOptions;
  }

  /** --lines, --words, --bytes, --chars and --max-line-length record their
      option under their own name, and repeating one overwrites it with the
      same value. */
  lemma LongOptionRecorded(m: map<seq<char>, Entry>, s: seq<char>)
    requires IsCountName(s)
    ensures HandleOption(s).Some? && HandleOption(s).value.longForm == s
    ensures LongStep(m, s) == m[s := OptionEntry(HandleOption(s).value)]
    ensures LongStep(LongStep(m, s), s) == LongStep(m, s)
  {
    assert s in LongOptions;
  }

  /** --help and every name that is not a counting long form record nothing. */
  lemma OtherLongOptionIgnored(m: map<seq<char>, Entry>, s: seq<char>)
    requires !IsCountName(s)
    ensures LongStep(m, s) == m
  {
    if s in LongOptions {
      assert s == "help";
    }
  }

  /** A letter of a short cluster means what its long form means; -h and
      unknown letters mean nothing. */
  lemma LetterIsLongForm(m: map<seq<char>, Entry>, c: char)
    ensures LetterStep(m, c) == match LongFormOf(c)
      case None => m
      case Some(n) => LongStep(m, n)
  {
    if LongFormOf(c).Some? {
      LongOptionRecorded(m, LongFormOf(c).value);
      assert [c] in ShortOptions;
    }
  }

  /** A cluster such as -lw records the long forms of its known letters, and
      nothing else. */
  lemma {:induction false} ShortClusterKeys(m: map<seq<char>, Entry>, cs: seq<char>)
    ensures forall k :: k in ShortStep(m, cs) <==>
      k in m || exists i :: 0 <= i < |cs| && LongFormOf(cs[i]) == Some(k)
    decreases |cs|
  {
    if cs != [] {
      var q := cs[..|cs| - 1];
      var c := cs[|cs| - 1];
      var p := ShortStep(m, q);
      ShortClusterKeys(m, q);
      assert ShortStep(m, cs) == LetterStep(p, c);
      LetterKeys(p, c);
      forall k
        ensures k in ShortStep(m, cs) <==>
          k in m || exists i :: 0 <= i < |cs| && LongFormOf(cs[i]) == Some(k)
      {
        LastLetter(cs, q, k);
      }
    }
  }

  /** A letter adds at most the key of its long form. */
  lemma LetterKeys(m: map<seq<char>, Entry>, c: char)
    ensures forall k :: k in LetterStep(m, c) <==> k in m || LongFormOf(c) == Some(k)
  {
    LetterIsLongForm(m, c);
    if LongFormOf(c).Some? {
      LongOptionRecorded(m, LongFormOf(c).value);
    }
  }

  /** A letter of a cluster is one of its first letters or its last. */
  lemma LastLetter(cs: seq<char>, q: seq<char>, k: seq<char>)
    requires cs != [] && q == cs[..|cs| - 1]
    ensures (exists i :: 0 <= i < |cs| && LongFormOf(cs[i]) == Some(k)) <==>
      (exists i :: 0 <= i < |q| && LongFormOf(q[i]) == Some(k)) ||
      LongFormOf(cs[|cs| - 1]) == Some(k)
  {
    if exists i :: 0 <= i < |cs| && LongFormOf(cs[i]) == Some(k) {
      var i :| 0 <= i < |cs| && LongFormOf(cs[i]) == Some(k);
      if i < |cs| - 1 {
        assert q[i] == cs[i];
      }
    }
    if exists i :: 0 <= i < |q| && LongFormOf(q[i]) == Some(k) {
      var i :| 0 <= i < |q| && LongFormOf(q[i]) == Some(k);
      assert cs[i] == q[i];
    }
  }

  // ---------------------------------------------------------------------
  // File names

  /** The arguments parse treats as file names and handleFiles keeps: those
      that start with no '-' and are not blank, in order. */
  function FileArguments(args: seq<seq<char>>): seq<seq<char>>
    decreases |args|
  {
    if args == [] then []
    else
      var s := args[|args| - 1];
      FileArguments(args[..|args| - 1])
        + (if !StartsWith(s, "-") && !Blank(Some(s)) then [s] else [])
  }

  /** One argument adds itself to the files exactly when it is a file
      argument. */
  lemma ArgStepFiles(m: map<seq<char>, Entry>, s: seq<char>)
    requires WellTyped(m)
    ensures FilesOf(ArgStep(m, s)) ==
      FilesOf(m) + (if !StartsWith(s, "-") && !Blank(Some(s)) then [s] else [])
  {
    if StartsWith(s, "--") {
      assert StartsWith(s, "-");
      RecordKeepsShape(m, s[2..]);
    } else if StartsWith(s, "-") {
      ShortStepKeepsShape(m, s[1..]);
    }
  }

  /** parse appends the file arguments, in order, to the files already
      recorded; options leave them alone and blank names are skipped. */
  lemma {:induction false} ParseAllFiles(m: map<seq<char>, Entry>, args: seq<seq<char>>)
    requires WellTyped(m)
    ensures FilesOf(ParseAll(m, args)) == FilesOf(m) + FileArguments(args)
    decreases |args|
  {
    if args != [] {
      var q := args[..|args| - 1];
      ParseAllFiles(m, q);
      ArgStepFiles(ParseAll(m, q), args[|args| - 1]);
    }
  }

  // ---------------------------------------------------------------------
  // Keys

  /** The keys one argument adds do not depend on the map it is added to. */
  lemma ArgStepKeys(m: map<seq<char>, Entry>, s: seq<char>)
    requires WellTyped(m)
    ensures ArgStep(m, s).Keys == m.Keys + ArgStep(map[], s).Keys
  {
    if StartsWith(s, "--") {
      if IsCountName(s[2..]) {
        LongOptionRecorded(m, s[2..]);
        LongOptionRecorded(map[], s[2..]);
      } else {
        OtherLongOptionIgnored(m, s[2..]);
        OtherLongOptionIgnored(map[], s[2..]);
      }
    } else if StartsWith(s, "-") {
      ShortClusterKeys(m, s[1..]);
      ShortClusterKeys(map[], s[1..]);
    }
  }

  /** So the keys of a parse are the keys it started from and the keys the
      same arguments give on their own. */
  lemma {:induction false} ParseAllKeys(m: map<seq<char>, Entry>, args: seq<seq<char>>)
    requires WellTyped(m)
    ensures ParseAll(m, args).Keys == m.Keys + ParseAll(map[], args).Keys
    decreases |args|
  {
    if args != [] {
      var q := args[..|args| - 1];
      var s := args[|args| - 1];
      ParseAllKeys(m, q);
      ArgStepKeys(ParseAll(m, q), s);
      ArgStepKeys(ParseAll(map[], q), s);
    }
  }

  /** Calling parse a second time on the same object keeps the keys but
      appends every file name to the list a second time. */
  lemma ParseTwice(args: seq<seq<char>>)
    ensures var once := ParseAll(map[], args);
      && ParseAll(once, args).Keys == once.Keys
      && FilesOf(ParseAll(once, args)) == FilesOf(once) + FilesOf(once)
  {
    var once := ParseAll(map[], args);
    ParseAllKeys(once, args);
    FilesParsedAgain(once, args);
  }

  lemma FilesParsedAgain(once: map<seq<char>, Entry>, args: seq<seq<char>>)
    requires once == ParseAll(map[], args)
    ensures FilesOf(ParseAll(once, args)) == FilesOf(once) + FilesOf(once)
  {
    var empty: map<seq<char>, Entry> := map[];
    assert FilesOf(empty) == [];
    ParseAllFiles(empty, args);
    assert FilesOf(once) == FileArguments(args);
    ParseAllFiles(once, args);
  }

  // ---------------------------------------------------------------------
  // Command lines

  /** A command line of one or two arguments. */
  lemma ParseOneOrTwo(m: map<seq<char>, Entry>, x: seq<char>, y: seq<char>)
    requires WellTyped(m)
    ensures ParseAll(m, [x]) == ArgStep(m, x)
    ensures ParseAll(m, [x, y]) == ArgStep(ParseAll(m, [x]), y)
  {
    assert [x][..0] == [];
    assert [x, y][..1] == [x];
  }

  /** An argument that starts with "--" is a long option. */
  lemma LongArgument(m: map<seq<char>, Entry>, s: seq<char>)
    requires WellTyped(m) && StartsWith(s, "--")
    ensures ArgStep(m, s) == LongStep(m, s[2..])
  {
  }

  /** "-" followed by one letter that is not '-' is that letter. */
  lemma LetterArgument(m: map<seq<char>, Entry>, s: seq<char>)
    requires WellTyped(m) && |s| == 2 && s[0] == '-' && s[1] != '-'
    ensures ArgStep(m, s) == LetterStep(m, s[1])
  {
    assert s[..1] == "-";
    assert s[..2] != "--" by {
      assert s[..2][1] != "--"[1];
    }
    var t := s[1..];
    assert t[..0] == [] && t[0] == s[1];
    assert ShortStep(m, t) == LetterStep(ShortStep(m, []), s[1]);
  }

  /** A name that starts with a letter is a file name. */
  lemma FileArgument(m: map<seq<char>, Entry>, f: seq<char>)
    requires WellTyped(m) && f != [] && IsLetter(f[0])
    ensures ArgStep(m, f) == FilesStep(m, f) && !Blank(Some(f))
  {
    assert !StartsWith(f, "-") by {
      assert f[..1] != "-" by {
        assert f[..1][0] == f[0];
      }
    }
    assert !StartsWith(f, "--");
    assert !IsWhitespace(f[0]);
  }

  /** "--chars ignore.file": two keys, the chars option and the file list. */
  lemma CharsAndFile(args: seq<seq<char>>)
    requires args == ["--chars", "ignore.file"]
    ensures ParseAll(map[], args) ==
      map["chars" := OptionEntry(CommandOption("m", "chars", "Count chars")),
          "files" := FilesEntry(["ignore.file"])]
  {
    var x, y := args[0], args[1];
    assert args == [x, y];
    ParseOneOrTwo(map[], x, y);
    CharsRecorded(x);
    var first := map["chars" := OptionEntry(CommandOption("m", "chars", "Count chars"))];
    assert y[0] == 'i';
    FileArgument(first, y);
  }

  lemma CharsRecorded(x: seq<char>)
    requires x == "--chars"
    ensures ParseAll(map[], [x]) == map["chars" := OptionEntry(CommandOption("m", "chars", "Count chars"))]
  {
    ParseOneOrTwo(map[], x, x);
    assert StartsWith(x, "--") && x[2..] == "chars";
    LongArgument(map[], x);
    LongOptionRecorded(map[], x[2..]);
  }

  /** "-l": one key, the lines option. */
  lemma LinesLetter(args: seq<seq<char>>)
    requires args == ["-l"]
    ensures ParseAll(map[], args) == map["lines" := OptionEntry(CommandOption("l", "lines", "Count lines"))]
  {
    var x := args[0];
    assert args == [x];
    ParseOneOrTwo(map[], x, []);
    assert |x| == 2 && x[0] == '-' && x[1] == 'l';
    LetterArgument(map[], x);
    LetterIsLongForm(map[], x[1]);
    LongOptionRecorded(map[], LongFormOf(x[1]).value);
  }

  /** "--head" and "-s" are unknown and record nothing. */
  lemma UnknownOptionsRecordNothing(a: seq<seq<char>>, b: seq<seq<char>>)
    requires a == ["--head"] && b == ["-s"]
    ensures ParseAll(map[], a) == map[] && ParseAll(map[], b) == map[]
  {
    var x, y := a[0], b[0];
    assert a == [x] && b == [y];
    ParseOneOrTwo(map[], x, []);
    assert StartsWith(x, "--") && x[2..] == "head";
    LongArgument(map[], x);
    OtherLongOptionIgnored(map[], x[2..]);
    ParseOneOrTwo(map[], y, []);
    assert |y| == 2 && y[0] == '-' && y[1] == 's';
    LetterArgument(map[], y);
    LetterIsLongForm(map[], y[1]);
  }

  /** Neither do "--help" and "-h". */
  lemma HelpRecordsNothing(a: seq<seq<char>>, b: seq<seq<char>>)
    requires a == ["--help"] && b == ["-h"]
    ensures ParseAll(map[], a) == map[] && ParseAll(map[], b) == map[]
  {
    var x, y := a[0], b[0];
    assert a == [x] && b == [y];
    ParseOneOrTwo(map[], x, []);
    assert StartsWith(x, "--") && x[2..] == "help";
    LongArgument(map[], x);
    OtherLongOptionIgnored(map[], x[2..]);
    ParseOneOrTwo(map[], y, []);
    assert |y| == 2 && y[0] == '-' && y[1] == 'h';
    LetterArgument(map[], y);
    LetterIsLongForm(map[], y[1]);
  }

  /** Without arguments, parse returns an empty map. */
  method ParseWithoutArguments(a: Option<seq<seq<char>>>) returns (m: map<seq<char>, Entry>)
    requires a == None || a == Some([])
    ensures m == map[]
  {
    var p := new ParseArgs(a);
    m := p.Parse();
  }
}
