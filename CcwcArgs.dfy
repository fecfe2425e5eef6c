/** The command line of the word-count tool: the options it knows, and
    ParseArgs, which folds the arguments into a map from option names (and
    "files") to what they stand for. */
module CcwcArgs {
  import opened JavaLang
  import opened CcwcText

  /** CommandOption: a short form, a long form and a description. */
  datatype CommandOption = CommandOption(shortForm: seq<char>, longForm: seq<char>, description: seq<char>)
  {
    predicate IsBytes() {
      shortForm == "c" || EqualsIgnoreCase(longForm, "bytes")
    }

    predicate IsChars() {
      shortForm == "m" || EqualsIgnoreCase(longForm, "chars")
    }

    predicate IsLines() {
      shortForm == "l" || EqualsIgnoreCase(longForm, "lines")
    }

    predicate IsWords() {
      shortForm == "w" || EqualsIgnoreCase(longForm, "words")
    }

    predicate IsMaxLineLength() {
      shortForm == "L" || EqualsIgnoreCase(longForm, "max-line-length")
    }

    predicate IsHelp() {
      shortForm == "h" || EqualsIgnoreCase(longForm, "help")
    }
  }

  const ShortOptions: seq<seq<char>> := ["l", "w", "c", "m", "L", "h"]
  const LongOptions: seq<seq<char>> := ["lines", "words", "bytes", "chars", "max-line-length", "help"]

  /** The five counting options, by either form (help is not among them). */
  predicate NamesCountOption(option: seq<char>) {
    option == "lines" || option == "l" || option == "words" || option == "w"
    || option == "bytes" || option == "c" || option == "chars" || option == "m"
    || option == "max-line-length" || option == "L"
  }

  /** handleOption: the option named by a long or a short form; null for
      anything else, "help" and "h" included. */
  function HandleOption(option: seq<char>): (r: Option<CommandOption>)
    ensures r.Some? <==> NamesCountOption(option)
    ensures r.Some? ==> option == r.value.shortForm || option == r.value.longForm
    ensures r.Some? ==> r.value.longForm in LongOptions && r.value.shortForm in ShortOptions
  {
    if option == "lines" || option == "l" then Some(CommandOption("l", "lines", "Count lines"))
    else if option == "words" || option == "w" then Some(CommandOption("w", "words", "Count words"))
    else if option == "bytes" || option == "c" then Some(CommandOption("c", "bytes", "Count bytes"))
    else if option == "chars" || option == "m" then Some(CommandOption("m", "chars", "Count chars"))
    else if option == "max-line-length" || option == "L" then
      Some(CommandOption("L", "max-line-length", "Max line length"))
    else None
  }

  /** A value of the map: a CommandOption, or the list of file names. */
  datatype Entry = OptionEntry(option: CommandOption) | FilesEntry(files: seq<seq<char>>)

  /** The shape every map built by ParseArgs has: "files" holds the list of
      file names, and every other key holds the option of that long form. */
  predicate WellTyped(m: map<seq<char>, Entry>) {
    forall k :: k in m ==>
      if k == "files" then m[k].FilesEntry? else m[k].OptionEntry? && m[k].option.longForm == k
  }

  /** The file names recorded so far. */
  function FilesOf(m: map<seq<char>, Entry>): seq<seq<char>> {
    if "files" in m && m["files"].FilesEntry? then m["files"].files else []
  }

  // ---------------------------------------------------------------------
  // One argument at a time

  /** setIfNotNull(option, put under its long form). */
  function Record(m: map<seq<char>, Entry>, o: Option<CommandOption>): (r: map<seq<char>, Entry>)
    ensures o.None? ==> r == m
    ensures o.Some? ==> r.Keys == m.Keys + {o.value.longForm} && r[o.value.longForm] == OptionEntry(o.value)
    ensures o.Some? ==> forall k :: k in m && k != o.value.longForm ==> r[k] == m[k]
  {
    match o
    case None => m
    case Some(t) => m[t.longForm := OptionEntry(t)]
  }

  /** handleFiles: a blank name is dropped; otherwise it is appended to the
      list under "files", which is created on first use. */
  function FilesStep(m: map<seq<char>, Entry>, fileName: seq<char>): (r: map<seq<char>, Entry>)
    requires WellTyped(m)
    ensures WellTyped(r)
    ensures FilesOf(r) == if Blank(Some(fileName)) then FilesOf(m) else FilesOf(m) + [fileName]
    ensures forall k :: k != "files" ==> (k in r <==> k in m) && (k in m ==> r[k] == m[k])
  {
    if Blank(Some(fileName)) then m
    else if "files" !in m then m["files" := FilesEntry([fileName])]
    else m["files" := FilesEntry(m["files"].files + [fileName])]
  }

  /** handleLong: a name in LONG_OPTIONS records its option; any other name
      only prints the help text. */
  function LongStep(m: map<seq<char>, Entry>, s: seq<char>): (r: map<seq<char>, Entry>)
    ensures s in r <==> s in m || (s in LongOptions && NamesCountOption(s))
    ensures forall k :: k != s ==> (k in r <==> k in m) && (k in m ==> r[k] == m[k])
  {
    if s in LongOptions then Record(m, HandleOption(s)) else m
  }

  /** One letter of a short cluster. */
  function LetterStep(m: map<seq<char>, Entry>, c: char): (r: map<seq<char>, Entry>)
    ensures !NamesCountOption([c]) ==> r == m
    ensures NamesCountOption([c]) ==> r.Keys == m.Keys + {HandleOption([c]).value.longForm}
  {
    if [c] in ShortOptions then Record(m, HandleOption([c])) else m
  }

  /** handleShort: the letters of the cluster, left to right. */
  function ShortStep(m: map<seq<char>, Entry>, s: seq<char>): (r: map<seq<char>, Entry>)
    ensures m.Keys <= r.Keys
    decreases |s|
  {
    if s == [] then m else LetterStep(ShortStep(m, s[..|s| - 1]), s[|s| - 1])
  }

  /** One pass of the loop of parse: "--" opens a long option, "-" a short
      cluster, and anything else is a file name. */
  function ArgStep(m: map<seq<char>, Entry>, s: seq<char>): (r: map<seq<char>, Entry>)
    requires WellTyped(m)
    ensures m.Keys <= r.Keys
  {
    if StartsWith(s, "--") then LongStep(m, s[2..])
    else if StartsWith(s, "-") then ShortStep(m, s[1..])
    else FilesStep(m, s)
  }

  /** An option step keeps the map well typed and leaves the files alone. */
  lemma RecordKeepsShape(m: map<seq<char>, Entry>, option: seq<char>)
    requires WellTyped(m)
    ensures WellTyped(Record(m, HandleOption(option)))
    ensures "files" in Record(m, HandleOption(option)) <==> "files" in m
    ensures FilesOf(Record(m, HandleOption(option))) == FilesOf(m)
  {
  }

  /** A short cluster keeps the map well typed and leaves the files alone. */
  lemma {:induction false} ShortStepKeepsShape(m: map<seq<char>, Entry>, s: seq<char>)
    requires WellTyped(m)
    ensures WellTyped(ShortStep(m, s))
    ensures "files" in ShortStep(m, s) <==> "files" in m
    ensures FilesOf(ShortStep(m, s)) == FilesOf(m)
    decreases |s|
  {
    if s != [] {
      ShortStepKeepsShape(m, s[..|s| - 1]);
      RecordKeepsShape(ShortStep(m, s[..|s| - 1]), [s[|s| - 1]]);
    }
  }

  /** Every argument keeps the map well typed. */
  lemma ArgStepKeepsShape(m: map<seq<char>, Entry>, s: seq<char>)
    requires WellTyped(m)
    ensures WellTyped(ArgStep(m, s))
  {
    if StartsWith(s, "--") {
      RecordKeepsShape(m, s[2..]);
    } else if StartsWith(s, "-") {
      ShortStepKeepsShape(m, s[1..]);
    }
  }

  /** parse: the arguments, left to right, starting from the map as it is. */
  function ParseAll(m: map<seq<char>, Entry>, args: seq<seq<char>>): (r: map<seq<char>, Entry>)
    requires WellTyped(m)
    ensures WellTyped(r)
    decreases |args|
  {
    if args == [] then m
    else
      var p := ParseAll(m, args[..|args| - 1]);
      ArgStepKeepsShape(p, args[|args| - 1]);
      ArgStep(p, args[|args| - 1])
  }

  // ---------------------------------------------------------------------
  // The parser object

  /** ParseArgs: the argument list (null when there are none) and the map it
      fills in. */
  class ParseArgs {
    var args: Option<seq<seq<char>>>
    var commandsAndFile: map<seq<char>, Entry>

    predicate Valid()
      reads this
    {
      WellTyped(commandsAndFile)
    }

    /** Keeps the arguments only when there is at least one. */
    constructor (a: Option<seq<seq<char>>>)
      ensures Valid()
      ensures args == (if a.Some? && |a.value| > 0 then a else None)
      ensures commandsAndFile == map[]
    {
      if a.Some? && |a.value| > 0 {
        args := a;
      } else {
        args := None;
      }
      commandsAndFile := map[];
    }

    /** parse: without arguments, a new empty map; otherwise every argument
        is applied to the map this object holds, which is returned. */
    method Parse() returns (m: map<seq<char>, Entry>)
      requires Valid()
      modifies this
      ensures Valid() && args == old(args)
      ensures args == None ==> m == map[] && commandsAndFile == old(commandsAndFile)
      ensures args.Some? ==> commandsAndFile == ParseAll(old(commandsAndFile), args.value)
      ensures args.Some? ==> m == commandsAndFile
    {
      if args == None {
        return map[];
      }
      var a := args.value;
      ghost var m0 := commandsAndFile;
      for i := 0 to |a|
        invariant Valid() && args == old(args)
        invariant commandsAndFile == ParseAll(m0, a[..i])
      {
        var s := a[i];
        assert a[..i + 1][..i] == a[..i];
        if StartsWith(s, "--") {
          HandleLong(s[2..]);
          continue;
        }
        if StartsWith(s, "-") {
          HandleShort(s[1..]);
          continue;
        }
        HandleFiles(s);
      }
      assert a[..|a|] == a;
      return commandsAndFile;
    }

    /** handleFiles. */
    method HandleFiles(fileName: seq<char>)
      requires Valid()
      modifies this
      ensures args == old(args)
      ensures commandsAndFile == FilesStep(old(commandsAndFile), fileName)
      ensures Valid()
    {
      var blank := IsBlank(Some(fileName));
      if blank {
        return;
      }
      if "files" !in commandsAndFile {
        commandsAndFile := commandsAndFile["files" := FilesEntry([fileName])];
        return;
      }
      commandsAndFile := commandsAndFile["files" := FilesEntry(commandsAndFile["files"].files + [fileName])];
    }

    /** handleLong. */
    method HandleLong(s: seq<char>)
      requires Valid()
      modifies this
      ensures args == old(args)
      ensures commandsAndFile == LongStep(old(commandsAndFile), s)
      ensures Valid()
    {
      RecordKeepsShape(commandsAndFile, s);
      if s in LongOptions {
        var t := HandleOption(s);
        if t.Some? {
          commandsAndFile := commandsAndFile[t.value.longForm := OptionEntry(t.value)];
        }
      }
    }

    /** handleShort: one letter at a time. */
    method HandleShort(s: seq<char>)
      requires Valid()
      modifies this
      ensures args == old(args)
      ensures commandsAndFile == ShortStep(old(commandsAndFile), s)
      ensures Valid()
    {
      ghost var m0 := commandsAndFile;
      for i := 0 to |s|
        invariant args == old(args)
        invariant commandsAndFile == ShortStep(m0, s[..i])
        invariant Valid()
      {
        assert s[..i + 1][..i] == s[..i];
        RecordKeepsShape(commandsAndFile, [s[i]]);
        if [s[i]] in ShortOptions {
          var t := HandleOption([s[i]]);
          if t.Some? {
            commandsAndFile := commandsAndFile[t.value.longForm := OptionEntry(t.value)];
          }
        }
      }
      assert s[..|s|] == s;
    }
  }
}
