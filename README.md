# challenge: JSON validator and ccwc, modelled in Dafny

This project models two small Java programs from the `challenge` repository and proves properties about them.

**The JSON validator** (`json-parser`): `Lexer` reads a document through a `LinkedList<Character>` queue, taking characters only from the front. It has one method per production: `parseValue`, `parseObject`, `parseArray`, `parseKey`, `readString`, `readNumber`, `parseStringEquals`. Each method either returns normally or throws. `Util` holds three character-sequence predicates.

**ccwc**, a clone of `wc`:
- `ParseArgs` folds the command line into a map from option names, plus `"files"`, to what they stand for.
- `App` turns that map into count flags and applies the defaults.
- `App` counts each input's lines, words, bytes and characters, and takes the largest maximum line length over all inputs.

## How the model is built

**The validator:**
- `JsonGrammar` gives each production a function over the remaining queue. The function returns a `Step`: an outcome (`Ok`, `Fail(kind)` or `Diverge`) and the queue that is left.
- `JsonLexer.Lexer` is a class with a `queue: seq<char>` field. Its methods run the same loops as the Java methods. Each method is proved to leave exactly the queue and outcome that its grammar function gives.
- `JsonFacts` proves the accept and reject behaviour of each production.
- `JsonDialect` defines a family of documents (strings may hold the escapes the lexer knows; array elements are separated by spaces; keys are plain), with a printer for them. It proves that every printed object of that family is accepted in full. It does not describe every document the lexer accepts.
- Every grammar function returns a suffix of the queue it was given (`JsonGrammar.Suffix`): the lexer only ever takes characters from the front.
- Each Java `throw` becomes a `Fail` carrying one tag per throw site. The `NullPointerException` that `parseKey` raises on an empty queue becomes `KeyMissing`.
- Some loops never terminate in Java: they go round again without consuming anything. Because the code is deterministic, such a loop would repeat forever, so the model returns `Diverge` there.

**ccwc:**
- `CcwcArgs.ParseArgs` is a class holding the argument list and the map. Its methods update the map in place and are proved against the fold `ParseAll`.
- `CcwcCount.App` holds the flags, the file names and the results.
- `count` is proved against the fold `Tally` over the lines of an input.
- `CcwcText` holds `isBlank` and the word count of `java.util.StringTokenizer`. The word count is proved equal to an independent count of word starts.

**Where the code departs from RFC 8259 and from its own tests, the model follows the code:**
- Array elements are separated by whitespace. A `,` between elements is refused.
- Numbers are plain digit runs. In an object, `1.2.3` gives "Unexpected EOF.", and an element starting with `-` makes `parseArray` loop forever.
- `\u` and `\/` are refused. Any escape inside a key is refused.
- The closing `}` or `]` is polled without being checked, so `{` and `[` alone are accepted.
- The first character of `parseObject` is not checked.
- `AppTest.java:18-27` expects a `help` entry for unknown options. The code records nothing for them, and the model records nothing.

## Model

| member | source | states |
|---|---|---|
| JsonUtil.IsAlphaNumeric | json-parser/src/main/java/it/aman/jsonparser/Util.java:5-7 | true exactly for an ASCII digit or an ASCII letter |
| JsonUtil.IsEmpty | json-parser/src/main/java/it/aman/jsonparser/Util.java:22-24 | true exactly for null or the empty sequence |
| JsonUtil.IsNumeric | json-parser/src/main/java/it/aman/jsonparser/Util.java:9-20 | true exactly when the input is present, non-empty and made only of digits |
| JsonUtil.EmptyIsNotNumeric | json-parser/src/main/java/it/aman/jsonparser/Util.java:10-12 | null and empty input are never numeric |
| JsonUtil.NonDigitIsNotNumeric | json-parser/src/main/java/it/aman/jsonparser/Util.java:14-17 | one non-digit anywhere makes a sequence non-numeric |
| JsonUtil.SignAndPointAreNotNumeric | json-parser/src/main/java/it/aman/jsonparser/Util.java:14-17 | "-1" and "1.5" are not numeric |
| JsonUtil.NumericConcat | json-parser/src/main/java/it/aman/jsonparser/Util.java:13-19 | two numeric sequences joined are numeric |
| JsonLexer.NewLexer | json-parser/src/main/java/it/aman/jsonparser/Lexer.java:15-20 | null or empty input is refused; otherwise a new lexer holds the input characters in order |
| JsonLexer.Lexer.Copy | json-parser/src/main/java/it/aman/jsonparser/Lexer.java:22-26 | the queue is the input, in order |
| JsonLexer.Lexer.NextToken | json-parser/src/main/java/it/aman/jsonparser/Lexer.java:108-110 | returns the head of the queue, or null when the queue is empty, and consumes nothing |
| JsonLexer.Lexer.ConsumeNextToken | json-parser/src/main/java/it/aman/jsonparser/Lexer.java:112-114 | returns the head and removes exactly that one character |
| JsonLexer.Lexer.RemoveWhitespace | json-parser/src/main/java/it/aman/jsonparser/Lexer.java:116-118 | leaves the queue that SkipWs gives: every removed character is whitespace and the new head is not |
| JsonLexer.Lexer.IsNextToken | json-parser/src/main/java/it/aman/jsonparser/Lexer.java:102-106 | removes the leading whitespace; true exactly when the next character is the one asked for |
| JsonLexer.Lexer.IsControlChar | json-parser/src/main/java/it/aman/jsonparser/Lexer.java:178-198 | is read-only; its answer or throw is that of ControlChar on the queue |
| JsonLexer.Lexer.GetErrorSection | json-parser/src/main/java/it/aman/jsonparser/Lexer.java:68-74 | consumes and returns the first min(20, remaining) characters |
| JsonLexer.Lexer.ReadNumber | json-parser/src/main/java/it/aman/jsonparser/Lexer.java:159-163 | removes exactly the leading run of digits |
| JsonLexer.Lexer.ParseStringEquals | json-parser/src/main/java/it/aman/jsonparser/Lexer.java:150-157 | consumes the leading run of letters; the outcome is ParseLiteral's |
| JsonLexer.Lexer.ParseTrue | json-parser/src/main/java/it/aman/jsonparser/Lexer.java:138-140 | parseStringEquals with "true" |
| JsonLexer.Lexer.ParseFalse | json-parser/src/main/java/it/aman/jsonparser/Lexer.java:142-144 | parseStringEquals with "false" |
| JsonLexer.Lexer.ParseNull | json-parser/src/main/java/it/aman/jsonparser/Lexer.java:146-148 | parseStringEquals with "null" |
| JsonLexer.Lexer.ReadString | json-parser/src/main/java/it/aman/jsonparser/Lexer.java:165-176 | the outcome and remaining queue are those of the grammar's ReadString |
| JsonLexer.Lexer.ParseKey | json-parser/src/main/java/it/aman/jsonparser/Lexer.java:120-136 | the outcome and remaining queue are those of the grammar's ParseKey, Diverge included |
| JsonLexer.Lexer.SkipComma | json-parser/src/main/java/it/aman/jsonparser/Lexer.java:121-124 | removes the whitespace, then at most one comma |
| JsonLexer.Lexer.OpenKey | json-parser/src/main/java/it/aman/jsonparser/Lexer.java:125-128 | the opening quote is required ("Key parsing error" otherwise) and consumed |
| JsonLexer.Lexer.KeyLoop | json-parser/src/main/java/it/aman/jsonparser/Lexer.java:129-135 | the key loop behaves as KeyBody, Diverge included |
| JsonLexer.Lexer.ParseValue | json-parser/src/main/java/it/aman/jsonparser/Lexer.java:28-66 | the outcome and remaining queue are those of the grammar's ParseValue |
| JsonLexer.Lexer.ParseObject | json-parser/src/main/java/it/aman/jsonparser/Lexer.java:76-91 | the outcome and remaining queue are those of the grammar's ParseObject |
| JsonLexer.Lexer.Member | json-parser/src/main/java/it/aman/jsonparser/Lexer.java:79-88 | one pass of the member loop is the grammar's Member |
| JsonLexer.Lexer.MemberValue | json-parser/src/main/java/it/aman/jsonparser/Lexer.java:80-88 | a colon, a value and the separator check, as the grammar's MemberValue |
| JsonLexer.Lexer.Separator | json-parser/src/main/java/it/aman/jsonparser/Lexer.java:86-88 | a member must be followed by ',' or '}' ("Unexpected EOF." otherwise) |
| JsonLexer.Lexer.ParseArray | json-parser/src/main/java/it/aman/jsonparser/Lexer.java:93-100 | the outcome and remaining queue are those of the grammar's ParseArray, Diverge included |
| JsonGrammar.SkipWs | json-parser/src/main/java/it/aman/jsonparser/Lexer.java:116-118 | the result is a suffix of the input that is empty or starts with non-whitespace, and everything removed was whitespace |
| JsonGrammar.ReadNumber | json-parser/src/main/java/it/aman/jsonparser/Lexer.java:159-163 | the result is a suffix of the input; everything removed is a digit and the new head is not |
| JsonGrammar.ErrorSection | json-parser/src/main/java/it/aman/jsonparser/Lexer.java:68-74 | the section has min(20, length) characters, and section + rest is the input |
| JsonGrammar.SuffixTransitive | json-parser/src/main/java/it/aman/jsonparser/Lexer.java:112-114 | a suffix of a suffix of the queue is a suffix of the queue, so polling several times still leaves a suffix |
| JsonGrammar.Peek | json-parser/src/main/java/it/aman/jsonparser/Lexer.java:108-110 | null exactly for an empty queue; otherwise the head |
| JsonGrammar.Consume | json-parser/src/main/java/it/aman/jsonparser/Lexer.java:112-114 | a non-empty queue loses exactly its head; the result is a suffix |
| JsonGrammar.NextTokenIs | json-parser/src/main/java/it/aman/jsonparser/Lexer.java:102-106 | can only hold for a character that is not whitespace |
| JsonGrammar.ControlChar | json-parser/src/main/java/it/aman/jsonparser/Lexer.java:178-198 | the only exception is the unknown-escape one, and a true answer or a throw needs '\\' with a character after it |
| JsonGrammar.ParseLiteral | json-parser/src/main/java/it/aman/jsonparser/Lexer.java:150-157 | leaves a suffix of the queue and always terminates |
| JsonGrammar.StringBody | json-parser/src/main/java/it/aman/jsonparser/Lexer.java:167-175 | leaves a suffix of the queue and terminates; it can only fail on an unknown escape, left at the head of the queue |
| JsonGrammar.ReadString | json-parser/src/main/java/it/aman/jsonparser/Lexer.java:165-176 | leaves a suffix of the queue and terminates; its only failure is an unknown escape |
| JsonGrammar.KeyBody | json-parser/src/main/java/it/aman/jsonparser/Lexer.java:129-135 | leaves a suffix of the queue; on success at least the closing quote is consumed |
| JsonGrammar.AbsorbComma | json-parser/src/main/java/it/aman/jsonparser/Lexer.java:121-124 | leaves a suffix of the queue, and changes nothing unless the head is a comma |
| JsonGrammar.KeyOpening | json-parser/src/main/java/it/aman/jsonparser/Lexer.java:125-135 | leaves a suffix of the queue; on success at least the opening quote is consumed |
| JsonGrammar.ParseKey | json-parser/src/main/java/it/aman/jsonparser/Lexer.java:120-136 | leaves a suffix of the queue; on success something is consumed |
| JsonGrammar.ParseValue | json-parser/src/main/java/it/aman/jsonparser/Lexer.java:28-66 | leaves a suffix of the queue |
| JsonGrammar.ParseObject | json-parser/src/main/java/it/aman/jsonparser/Lexer.java:76-91 | leaves a suffix of the queue |
| JsonGrammar.ObjectMembers | json-parser/src/main/java/it/aman/jsonparser/Lexer.java:78-90 | leaves a suffix of the queue |
| JsonGrammar.Member | json-parser/src/main/java/it/aman/jsonparser/Lexer.java:79-88 | leaves a suffix of the queue; on success something is consumed and the queue is left at ',' or '}' |
| JsonGrammar.MemberValue | json-parser/src/main/java/it/aman/jsonparser/Lexer.java:80-88 | leaves a suffix of the queue; on success the queue is left at ',' or '}' |
| JsonGrammar.Separator | json-parser/src/main/java/it/aman/jsonparser/Lexer.java:86-88 | succeeds exactly when the queue is left at ',' or '}', never loops, and leaves a suffix |
| JsonGrammar.ParseArray | json-parser/src/main/java/it/aman/jsonparser/Lexer.java:93-100 | leaves a suffix of the queue |
| JsonGrammar.Element | json-parser/src/main/java/it/aman/jsonparser/Lexer.java:96-97 | leaves a suffix of the queue |
| JsonGrammar.ArrayElements | json-parser/src/main/java/it/aman/jsonparser/Lexer.java:95-99 | leaves a suffix of the queue; a pass that leaves a queue of the same length reports Diverge |
| JsonFacts.SkipWsIdempotent | json-parser/src/main/java/it/aman/jsonparser/Lexer.java:116-118 | removing whitespace twice is removing it once |
| JsonFacts.SkipWsIsSuffix | json-parser/src/main/java/it/aman/jsonparser/Lexer.java:116-118 | removeWhitespace leaves a suffix of the queue |
| JsonFacts.SuffixIsDrop | json-parser/src/main/java/it/aman/jsonparser/Lexer.java:108-118 | a suffix of the queue is exactly what is left after polling some number of characters |
| JsonFacts.StalledElementLeavesQueue | json-parser/src/main/java/it/aman/jsonparser/Lexer.java:95-97 | an element that succeeds without shortening the queue leaves it unchanged, so the element loop would repeat the same pass forever |
| JsonFacts.SkipWsAfterWhitespace | json-parser/src/main/java/it/aman/jsonparser/Lexer.java:116-118 | leading whitespace makes no difference |
| JsonFacts.SkipWsBeforeToken | json-parser/src/main/java/it/aman/jsonparser/Lexer.java:116-118 | removal stops at the first character that is not whitespace |
| JsonFacts.NextTokenIsFirstNonWhitespace | json-parser/src/main/java/it/aman/jsonparser/Lexer.java:102-106 | isNextToken(c) holds exactly when the first non-whitespace character is c, and the queue then starts there |
| JsonFacts.OpeningSkipped | json-parser/src/main/java/it/aman/jsonparser/Lexer.java:76-100 | parseObject and parseArray drop their first character unchecked |
| JsonFacts.MembersAtClose | json-parser/src/main/java/it/aman/jsonparser/Lexer.java:78-90 | at '}' or at the end of the queue, the member loop stops and polls once |
| JsonFacts.ElementsAtClose | json-parser/src/main/java/it/aman/jsonparser/Lexer.java:95-99 | at ']' or at the end of the queue, the element loop stops and polls once |
| JsonFacts.MemberValueWithoutColon | json-parser/src/main/java/it/aman/jsonparser/Lexer.java:80-82 | a missing ':' fails with "Missing double colon" |
| JsonFacts.ValueAtOther | json-parser/src/main/java/it/aman/jsonparser/Lexer.java:63-64 | a value starting with any other character fails, and the message carries the error section |
| JsonFacts.ReadNumberTakesDigits | json-parser/src/main/java/it/aman/jsonparser/Lexer.java:159-163 | readNumber consumes exactly a maximal run of digits |
| JsonFacts.ReadNumberStopsAtMinus | json-parser/src/main/java/it/aman/jsonparser/Lexer.java:159-163 | a leading '-' is not consumed |
| JsonFacts.LiteralMatchesWholeRun | json-parser/src/main/java/it/aman/jsonparser/Lexer.java:150-157 | parseStringEquals(k) succeeds exactly when the whole letter run at the head is k; otherwise it fails naming that run and k |
| JsonFacts.LiteralAccepted | json-parser/src/main/java/it/aman/jsonparser/Lexer.java:150-157 | a keyword followed by a non-letter is consumed, and nothing more |
| JsonFacts.LiteralPrefixOrExtensionFails | json-parser/src/main/java/it/aman/jsonparser/Lexer.java:138-157 | "tru" and "truex" fail; "true" and "true]" succeed |
| JsonFacts.ControlCharCases | json-parser/src/main/java/it/aman/jsonparser/Lexer.java:178-198 | true exactly for '\\' followed by one of " ' \\ t n r f b; throws for any other escaped character; false for a lone '\\' |
| JsonFacts.UnicodeAndSolidusEscapesRefused | json-parser/src/main/java/it/aman/jsonparser/Lexer.java:183-194 | the escapes \u and \/ throw |
| JsonFacts.EscapePairConsumedTogether | json-parser/src/main/java/it/aman/jsonparser/Lexer.java:165-176 | a known escape pair is consumed in one step, so an escaped quote does not end a string |
| JsonFacts.StringBodyAccepts | json-parser/src/main/java/it/aman/jsonparser/Lexer.java:165-176 | a string body of plain characters and known escape pairs is consumed up to and including its closing quote |
| JsonFacts.StringBodyRefusesUnknownEscape | json-parser/src/main/java/it/aman/jsonparser/Lexer.java:165-176 | an unknown escape fails after any readable text, known escapes included, and the queue is left at the backslash |
| JsonFacts.EscapesInStrings | json-parser/src/main/java/it/aman/jsonparser/Lexer.java:165-198 | the body `\n\"` is read up to its closing quote; the body `\n\x` fails at `\x` |
| JsonFacts.KeyBodyAccepts | json-parser/src/main/java/it/aman/jsonparser/Lexer.java:129-135 | a plain key is consumed up to and including its closing quote |
| JsonFacts.KeyBodyRefusesEscapes | json-parser/src/main/java/it/aman/jsonparser/Lexer.java:129-132 | any backslash inside a key fails, whether the escape is known or not |
| JsonFacts.UnterminatedKeyDiverges | json-parser/src/main/java/it/aman/jsonparser/Lexer.java:129-134 | a key without a closing quote makes the loop spin forever |
| JsonFacts.CommaBeforeKeyAbsorbed | json-parser/src/main/java/it/aman/jsonparser/Lexer.java:121-124 | one comma in front of a key is absorbed |
| JsonFacts.ParseKeyAfterWhitespace | json-parser/src/main/java/it/aman/jsonparser/Lexer.java:120-124 | whitespace in front of a key makes no difference |
| JsonFacts.ParseKeyOfText | json-parser/src/main/java/it/aman/jsonparser/Lexer.java:120-136 | a quoted plain key is consumed, leaving what follows it |
| JsonFacts.SeparatorAccepts | json-parser/src/main/java/it/aman/jsonparser/Lexer.java:86-88 | ',' and '}' pass the separator check without being consumed |
| JsonFacts.CommaBeforeMemberAbsorbed | json-parser/src/main/java/it/aman/jsonparser/Lexer.java:78-84 | a comma in front of a member is absorbed, even before the first key |
| JsonFacts.UnquotedKeyRefused | json-parser/src/main/java/it/aman/jsonparser/Lexer.java:125-128 | an object whose key does not start with '"' fails with "Key parsing error" |
| JsonFacts.MissingColonRefused | json-parser/src/main/java/it/aman/jsonparser/Lexer.java:80-82 | an object whose key is not followed by ':' fails with "Missing double colon" |
| JsonFacts.MissingValueRefused | json-parser/src/main/java/it/aman/jsonparser/Lexer.java:63-64 | a ':' followed by '}', ',' or ':' fails with the error section of what follows |
| JsonFacts.NumberMemberNeedsSeparator | json-parser/src/main/java/it/aman/jsonparser/Lexer.java:86-88 | a number member followed by anything but ',' or '}' fails with "Unexpected EOF." |
| JsonFacts.EscapedKeyRefused | json-parser/src/main/java/it/aman/jsonparser/Lexer.java:129-132 | an object whose key holds any escape fails |
| JsonFacts.UnterminatedKeyObjectDiverges | json-parser/src/main/java/it/aman/jsonparser/Lexer.java:129-134 | an object whose key is never closed does not terminate |
| JsonFacts.ObjectOpeningUnchecked | json-parser/src/main/java/it/aman/jsonparser/Lexer.java:77-90 | any first character is taken for '{', and "{" and "{}" are accepted |
| JsonFacts.ArrayCommaRefused | json-parser/src/main/java/it/aman/jsonparser/Lexer.java:93-100 | a ',' after an array element fails in the value dispatch |
| JsonFacts.ArrayMinusDiverges | json-parser/src/main/java/it/aman/jsonparser/Lexer.java:95-97 | an element starting with '-' makes the element loop spin forever |
| JsonFacts.ArrayOpeningOnly | json-parser/src/main/java/it/aman/jsonparser/Lexer.java:93-100 | "[" and "[ " alone are accepted |
| JsonDialect.PrintedValueAccepted | json-parser/src/main/java/it/aman/jsonparser/Lexer.java:28-66 | every printed value of the dialect, strings with known escapes included, is consumed exactly, up to a following delimiter |
| JsonDialect.PrintedObjectAccepted | json-parser/src/main/java/it/aman/jsonparser/Lexer.java:76-91 | every printed object of the dialect, strings with known escapes included, is accepted and consumed entirely |
| JsonDialect.SingleElementArrayAccepted | json-parser/src/main/java/it/aman/jsonparser/Lexer.java:93-100 | an array of one printed element, with no space before ']', is accepted entirely |
| JsonDialect.OneElementArraysAccepted | json-parser/src/main/java/it/aman/jsonparser/Lexer.java:93-100 | "[1]" and "[{\"a\":1}]" are accepted |
| JsonDialect.FlatObjectAccepted | json-parser/src/main/java/it/aman/jsonparser/Lexer.java:76-91 | {"a":1,"b":2} is accepted and consumed entirely |
| JsonDialect.SpaceSeparatedArrayAccepted | json-parser/src/main/java/it/aman/jsonparser/Lexer.java:93-100 | {"k":[1 2 ]} is accepted |
| JsonDialect.CommaSeparatedArrayMemberRefused | json-parser/src/main/java/it/aman/jsonparser/Lexer.java:93-100 | an object member whose array is comma-separated fails at the comma |
| JsonDialect.DecimalPointRefused | json-parser/src/main/java/it/aman/jsonparser/Lexer.java:159-163 | {"a":1.2.3} fails with "Unexpected EOF." |
| CcwcText.Length | ccwc/src/main/java/it/aman/App.java:147-149 | a null sequence has length 0; otherwise its own length |
| CcwcText.IsBlank | ccwc/src/main/java/it/aman/App.java:136-145 | true exactly for null or for a sequence that is whitespace throughout |
| CcwcText.IsDelimiter | ccwc/src/main/java/it/aman/App.java:133 | every default delimiter of the tokenizer is whitespace to isBlank |
| CcwcText.CountWords | ccwc/src/main/java/it/aman/App.java:132-134 | never more words than characters |
| CcwcText.CountWordsCountsStarts | ccwc/src/main/java/it/aman/App.java:132-134 | the tokenizer's count is the number of maximal runs of non-delimiters |
| CcwcText.CountWordsSplit | ccwc/src/main/java/it/aman/App.java:132-134 | a delimiter between two texts makes the word counts add up |
| CcwcText.NoWordsIsBlank | ccwc/src/main/java/it/aman/App.java:132-145 | a text without words is blank |
| CcwcText.BlankTextWithAWord | ccwc/src/main/java/it/aman/App.java:132-145 | a vertical tab is blank to isBlank but is one word to the tokenizer |
| CcwcArgs.HandleOption | ccwc/src/main/java/it/aman/App.java:263-284 | an option is returned exactly for the short or long form of the five count options, and it is the option of that form; help and anything else give null |
| CcwcArgs.FilesStep | ccwc/src/main/java/it/aman/App.java:227-237 | a name that is not blank is appended to the files; a blank one is dropped; nothing else changes |
| CcwcArgs.Record | ccwc/src/main/java/it/aman/App.java:258-261 | null changes nothing; an option adds or replaces exactly the entry under its long form |
| CcwcArgs.LongStep | ccwc/src/main/java/it/aman/App.java:239-245 | the name becomes a key exactly when it is a count option's long form; no other key changes |
| CcwcArgs.LetterStep | ccwc/src/main/java/it/aman/App.java:250-254 | a letter that names no count option changes nothing; one that does adds the key of its long form |
| CcwcArgs.ShortStep | ccwc/src/main/java/it/aman/App.java:247-256 | a cluster never removes a key |
| CcwcArgs.ArgStep | ccwc/src/main/java/it/aman/App.java:211-223 | no argument removes a key |
| CcwcArgs.RecordKeepsShape | ccwc/src/main/java/it/aman/App.java:258-261 | recording an option keeps every key bound to its own option, and leaves the files alone |
| CcwcArgs.ShortStepKeepsShape | ccwc/src/main/java/it/aman/App.java:247-256 | a short cluster leaves the files alone |
| CcwcArgs.ParseAll | ccwc/src/main/java/it/aman/App.java:208-225 | the map built from any command line is well typed |
| CcwcArgs.ParseArgs.constructor | ccwc/src/main/java/it/aman/App.java:202-206 | the arguments are kept only when there is at least one |
| CcwcArgs.ParseArgs.Parse | ccwc/src/main/java/it/aman/App.java:208-225 | without arguments, an empty map is returned and the held map is unchanged; otherwise the held map becomes ParseAll of the arguments over it, and is returned |
| CcwcArgs.ParseArgs.HandleFiles | ccwc/src/main/java/it/aman/App.java:227-237 | the map becomes FilesStep of the name |
| CcwcArgs.ParseArgs.HandleLong | ccwc/src/main/java/it/aman/App.java:239-245 | the map becomes LongStep of the name |
| CcwcArgs.ParseArgs.HandleShort | ccwc/src/main/java/it/aman/App.java:247-256 | the map becomes ShortStep of the cluster, one letter at a time |
| CcwcFacts.LongFormsDistinct | ccwc/src/main/java/it/aman/App.java:200 | the long forms differ from one another even ignoring case |
| CcwcFacts.OptionKinds | ccwc/src/main/java/it/aman/App.java:288-322 | the option built for a name answers exactly its own is-query, and never isHelp |
| CcwcFacts.LongOptionRecorded | ccwc/src/main/java/it/aman/App.java:239-245 | --lines, --words, --bytes, --chars and --max-line-length record one entry under their own name; repeating one changes nothing |
| CcwcFacts.OtherLongOptionIgnored | ccwc/src/main/java/it/aman/App.java:239-245 | --help and unknown long names record nothing |
| CcwcFacts.LetterIsLongForm | ccwc/src/main/java/it/aman/App.java:247-256 | a letter of a cluster records what its long form records; -h and unknown letters record nothing |
| CcwcFacts.LetterKeys | ccwc/src/main/java/it/aman/App.java:250-254 | a letter adds at most the key of its long form |
| CcwcFacts.ShortClusterKeys | ccwc/src/main/java/it/aman/App.java:247-256 | after a cluster, the keys are the old keys plus the long forms of its known letters |
| CcwcFacts.ArgStepFiles | ccwc/src/main/java/it/aman/App.java:211-223 | an argument is added to the files exactly when it starts with no '-' and is not blank |
| CcwcFacts.ParseAllFiles | ccwc/src/main/java/it/aman/App.java:208-237 | parse appends the file arguments to the files, in order |
| CcwcFacts.ArgStepKeys | ccwc/src/main/java/it/aman/App.java:211-223 | the keys an argument adds do not depend on the map |
| CcwcFacts.ParseAllKeys | ccwc/src/main/java/it/aman/App.java:208-225 | the keys after a parse are the keys before it plus the keys of the same parse from an empty map |
| CcwcFacts.ParseTwice | ccwc/src/main/java/it/aman/App.java:229-236 | parsing twice into the same map keeps the keys but lists every file twice |
| CcwcFacts.LongArgument | ccwc/src/main/java/it/aman/App.java:212-215 | an argument that starts with "--" is a long option |
| CcwcFacts.LetterArgument | ccwc/src/main/java/it/aman/App.java:216-219 | "-x" is the letter x |
| CcwcFacts.FileArgument | ccwc/src/main/java/it/aman/App.java:221-228 | a name that starts with a letter is a file name that is kept |
| CcwcFacts.CharsAndFile | ccwc/src/test/java/it/aman/AppTest.java:32-38 | "--chars ignore.file" gives exactly the chars entry and the file list ["ignore.file"] |
| CcwcFacts.LinesLetter | ccwc/src/test/java/it/aman/AppTest.java:40-41 | "-l" gives exactly the lines entry |
| CcwcFacts.UnknownOptionsRecordNothing | ccwc/src/main/java/it/aman/App.java:239-256 | "--head" and "-s" give an empty map |
| CcwcFacts.HelpRecordsNothing | ccwc/src/main/java/it/aman/App.java:280-283 | "--help" and "-h" give an empty map |
| CcwcFacts.ParseWithoutArguments | ccwc/src/test/java/it/aman/AppTest.java:12-15 | null or zero arguments give an empty map |
| CcwcCount.WithDefaults | ccwc/src/main/java/it/aman/App.java:61-70 | the result always has a count flag set; with none set, it sets lines, words and bytes; otherwise nothing changes |
| CcwcCount.DefaultsIdempotent | ccwc/src/main/java/it/aman/App.java:61-70 | applying the defaults twice is applying them once |
| CcwcCount.DefaultsOnlyAdd | ccwc/src/main/java/it/aman/App.java:61-70 | the defaults only switch flags on, and never chars or max-line-length |
| CcwcCount.Tally | ccwc/src/main/java/it/aman/App.java:94-110 | lineCount is the number of lines, and the result carries the file name |
| CcwcCount.TallyAppend | ccwc/src/main/java/it/aman/App.java:96-106 | the counts of consecutive stretches of lines add up, and the maximum is the larger one |
| CcwcCount.TallyMaximum | ccwc/src/main/java/it/aman/App.java:100-104 | maxLineLength is the largest per-line word count (not character count), or 0 without lines |
| CcwcCount.TallyWords | ccwc/src/main/java/it/aman/App.java:100 | wordCount is the word count of the whole text, with the lines joined by line breaks |
| CcwcCount.TallyChars | ccwc/src/main/java/it/aman/App.java:102 | chars is the length of the text without its line breaks |
| CcwcCount.TallyBytesOfAscii | ccwc/src/main/java/it/aman/App.java:101-102 | with one byte per character, bytes equal chars |
| CcwcCount.App.constructor | ccwc/src/main/java/it/aman/App.java:33-46 | each flag is set exactly when its long form is a key; the files are those under "files", or none |
| CcwcCount.App.ApplyDefaultOptions | ccwc/src/main/java/it/aman/App.java:61-70 | the flags become WithDefaults of the old flags, and nothing else changes |
| CcwcCount.App.Count | ccwc/src/main/java/it/aman/App.java:94-110 | exactly one result is appended: the Tally of the lines |
| CcwcCount.App.GetMaxLineLength | ccwc/src/main/java/it/aman/App.java:155-162 | returns the largest maxLineLength among the results, or 0 when there are none |

## Left out

- The `Token`/`Type` enum, `tokenList` and `getTokenList` (`Lexer.java:12, 200-247`) are dead code: nothing ever adds to the list.
- `JsonParser.main` (`JsonParser.java:11-20`) reads a hard-coded file and prints exceptions. That is I/O. Its entry point is `parseObject`, and nothing checks that the input is used up afterwards. The model says the same: a `Step` carries the rest.
- Java exception classes are not distinct types. Every throw site becomes one `ErrorKind` tag in a `Fail` outcome, and the message text is kept only where it carries data (the error section, the literal that was read).
- `Character.isWhitespace`, `isDigit`, `isLetter` and `isAlphabetic` are modelled on ASCII only. Other characters count as none of these.
- JsonDialect.PrintedValueAccepted: covers the printed family only. Its keys hold no escapes (the key loop refuses all of them), its arrays put a space after each element, and it prints no other whitespace. Other accepted documents are covered by `JsonFacts` lemmas one shape at a time.
- Termination is not proved. A loop that makes no progress is reported as `Diverge` instead of running forever.
- ccwc I/O and process control are left out: `main`, `run`, `readStdIn`, `readFile`, `printResult`, `printHelp`, `isNotBlank` (used only by `printResult`), and the `System.exit` in the `App` constructor (`App.java:42-45`).
- `BufferedReader.readLine` is not modelled. `count` receives its input already split into lines.
- `String.getBytes` depends on the platform charset, so it is the parameter `bytesOf`.
- `StringTokenizer.countTokens` is the function `CountWords`, with the tokenizer's default delimiters.
- CcwcCount.App.Count: the counts are unbounded naturals, so Java `long` overflow is not modelled.
- CcwcArgs.ParseArgs.Parse: the model returns a map value. Java aliases the returned `HashMap` and the `files` `ArrayList` with the object's own state, and that sharing is not modelled.
- Null elements inside the argument array are not modelled.
- `AppTest.java:18-27` expects a `help` entry for unknown options. That test disagrees with `App.java:239-256` and `280-283`. `CcwcFacts.UnknownOptionsRecordNothing` proves what the code does.
