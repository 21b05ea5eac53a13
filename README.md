# kirikiri-engine KAG interpreter core, modelled in Dafny

This project models the script front-end and the execution engine of kirikiri-engine, an
interpreter for KAG visual-novel scripts written in TypeScript, and proves properties of the
model. Every claim below is established by the Dafny verifier; nothing was executed.

What is modelled, one module per component:

- `JsString`, `Wrappers`: the JavaScript string operations the source relies on (`trim`, `split`,
  `indexOf`, `slice`, the whitespace class of regular expressions) and `Option`/`Result`.
- `Constants`: the `COMMAND_BLOCKS` opener/closer table, the engine event names and the
  post-incrementing registry counter behind `readRegValue`.
- `ScriptLines`: the line pipeline: comment removal, `sanitizeLine`, `splitMultiCommandLine`,
  `checkIsCommand`, `checkIsBlockCommand` and `splitAndSanitize`.
- `CommandParser`: `extractCommand`, the tokenizer that turns `[name k=v k2="a b"]` into a name
  and a property map.
- `Placeholders`: `getPlacholders`, the `key=%arg` macro parameters of a line.
- `Resolvers`: `findClosingBlockCommandIndex`, `findSubroutineEndIndex` and
  `findClosingCommandIndex`, each as a loop proved against a specification function.
- `TagScanning`: `removeCommandsFromText`, `extractCommands` and `extractStorage`.
- `JsNumber`, `Schemas`, `ZodSchemas`, `Storage`: `Number()` coercion of decimal text, the two
  copies of the zod schema helpers (`src/schemas.ts` and `src/schemas/zod.ts`, which behave
  differently), and the storage-writing command handlers `delay`, `rclick`, `clickskip`,
  `video`, `move`, `history` and the history closure of the command factory.
- `Files`, `Motion`, `IScript`: `removeFileExtension`, `findFileInTree`,
  `transformMoveInstruction`, `scaleRange`, `clamp` and `IScriptParser.parse`.
- `Dispatch`: the `getCommand` table and the `CommandFactory` switch.
- `Macro`: `macroCommand.ts`, which compiles a macro body once and replays it.
- `Kirikiri`: the engine class of `src/classes/KirikiriEngine.ts` as a Dafny `class` whose
  fields (state, current data, subroutine table, macro table, call stack, call counter, command
  storage, dispatched events) its methods update in place: subroutine registration, file
  loading, the `runLines` cursor loop, blocks, `runSubroutine`, `ifCommand`, `callCommand` and
  macro replay.
- `LegacyKirikiri`: the older compile-style engine of `src/KirikiriEngine.ts` with
  `createMacro.ts`, which turns lines into jump points, bound commands and placeholder records
  and throws on an unterminated block.

Loops of the source are `while` loops with invariants, each proved to compute a function that
states what the loop means; the properties are lemmas about those functions. The engine's run
loop can genuinely run forever (an unclosed block sends the cursor back to line 0), so the
engine's mutually recursive methods take a `fuel` argument and report `Exhausted` when it runs
out; the legacy engine always terminates and needs none.

Where the code and its tests disagree, the model follows the code. In particular
`splitMultiCommandLine`, `extractCommands` and `findFileInTree` have tests that expect other
results than the code gives; the model states what the code does.

## Model

| member | source | states |
|---|---|---|
| Constants.CloserOf | src/constants.ts:1-7 | a name has a closer exactly when it is one of the five openers, and that closer is one of the five closer names |
| Constants.CommandBlocksPairs | src/constants.ts:1-7 | the table's keys are exactly iscript, macro, if, link, indent and its values exactly endscript, endmacro, endif, endlink, endindent |
| Constants.CommandBlocksInjective | src/constants.ts:1-7 | no opener is also a closer, and no two openers share a closer |
| Constants.EventNamesDistinct | src/constants.ts:58-71 | two engine events with the same event name are the same event |
| Constants.Registry.constructor | src/constants.ts:10 | the registry counter starts at 54 |
| Constants.Registry.ReadRegValue | src/constants.ts:18 | returns the counter as it was before the call and leaves it one higher (post-increment) |
| Constants.FirstTwoReads | src/constants.ts:9-18 | on a fresh counter the first read gives 54 and the second 55 |
| ScriptLines.ReplaceTabs | src/utils/sanitizeLine.ts:12 | the result has the input's length and differs from it only where the input has a tab, which becomes a space |
| ScriptLines.ReplaceTabsNoTab | src/utils/sanitizeLine.ts:12 | text without tabs is unchanged |
| ScriptLines.FirstTrailingMarker | src/utils/sanitizeLine.ts:15-18 | finds the leftmost position from which the marker is followed only by whitespace up to the end (the regex's first match), or reports that none exists |
| ScriptLines.StripTrailing | src/utils/sanitizeLine.ts:15-18 | the result is a prefix of the input; it is the input itself exactly when no marker is followed only by whitespace, otherwise it ends right before the leftmost such marker |
| ScriptLines.StripTrailingNoop | src/utils/sanitizeLine.ts:15-18 | a line not ending in whitespace or the marker is unchanged |
| ScriptLines.SanitizeLine | src/utils/sanitizeLine.ts:7-21 | the result holds no tab, is never longer than the input, keeps the empty line empty, and is a prefix of the trimmed, tab-replaced input |
| ScriptLines.SanitizeClean | src/utils/sanitizeLine.ts:7-21 | for a trimmed line without tabs, sanitizing only strips a trailing backslash and then a trailing pipe |
| ScriptLines.SanitizeUnchanged | src/utils/sanitizeLine.ts:7-21 | a trimmed line without tabs that does not end in a backslash or pipe is returned unchanged |
| ScriptLines.SanitizeDropsTrailingBackslash | src/utils/sanitizeLine.ts:15 | a trailing backslash is removed and the text before it kept |
| ScriptLines.StripBackslash | src/utils/sanitizeLine.ts:15 | removing the trailing backslash gives back the text it was appended to |
| ScriptLines.CheckIsCommandRejects | src/utils/checkIsCommand.ts:6-10 | a line is a command exactly when it is longer than two characters, starts with `[` and ends with `]`; so `@` lines, lines of two characters or fewer and unbalanced lines are not |
| ScriptLines.CheckIsBlockCommandIff | src/utils/checkIsBlockCommand.ts:6-10 | a name is a block command exactly when it is an opener or a closer of the block table |
| ScriptLines.RunLength | src/utils/splitMultiCommandLine.ts:14 | measures the longest bracket-free run at the start of the text |
| ScriptLines.MatchLength | src/utils/splitMultiCommandLine.ts:14 | the regex match at the start of the text, when there is one, is non-empty and within the text |
| ScriptLines.SplitParts | src/utils/splitMultiCommandLine.ts:7-25 | a line not starting with `[` is returned alone; for a `[` line every part is already trimmed |
| ScriptLines.SplitMultiCommandLine | src/utils/splitMultiCommandLine.ts:7-25 | the loop over the regex matches produces exactly the trimmed matches in order (the function above) |
| ScriptLines.MatchTake | src/utils/splitMultiCommandLine.ts:14-22 | a match of length n contributes its trimmed text as the next part and the scan resumes right after it |
| ScriptLines.TagMatch | src/utils/splitMultiCommandLine.ts:14 | a complete non-empty tag at the start is one match by itself |
| ScriptLines.TagsMatch | src/utils/splitMultiCommandLine.ts:14 | the matches of adjacent non-empty tags are exactly those tags |
| ScriptLines.TagTrimmed | src/utils/splitMultiCommandLine.ts:19 | trimming leaves a tag unchanged |
| ScriptLines.TrimAllTags | src/utils/splitMultiCommandLine.ts:19 | trimming leaves a list of tags unchanged |
| ScriptLines.SplitTagsRoundTrip | src/utils/splitMultiCommandLine.ts:7-25 | a line made only of adjacent non-empty tags splits into exactly those tags, whose concatenation is the line again |
| ScriptLines.SplitWhitespaceGap | src/utils/splitMultiCommandLine.ts:14-22 | whitespace between two tags becomes an empty part between them |
| ScriptLines.GapMatch | src/utils/splitMultiCommandLine.ts:14 | a whitespace gap before a tag is one match |
| ScriptLines.RunOfGap | src/utils/splitMultiCommandLine.ts:14 | the bracket-free run before a tag is exactly the gap |
| ScriptLines.DropsEmptyTagAndStrayCloser | src/utils/splitMultiCommandLine.ts:14 | `[]` and a stray `]` produce no part |
| ScriptLines.DropComments | src/classes/KirikiriEngine.ts:205 | no comment line survives the filter |
| ScriptLines.SanitizeAll | src/classes/KirikiriEngine.ts:206 | line i of the result is line i of the input, sanitized |
| ScriptLines.SplitAndSanitize | src/classes/KirikiriEngine.ts:201-209 | no resulting line contains a tab |
| ScriptLines.SplitAllNoTabs | src/classes/KirikiriEngine.ts:207-208 | splitting tab-free lines gives tab-free lines |
| ScriptLines.SplitPartsNoTabs | src/utils/splitMultiCommandLine.ts:7-25 | splitting a tab-free line gives tab-free parts |
| ScriptLines.DropCommentsAppend | src/classes/KirikiriEngine.ts:205 | filtering comments distributes over concatenation, so line order is kept |
| ScriptLines.SanitizeAllAppend | src/classes/KirikiriEngine.ts:206 | sanitizing distributes over concatenation |
| ScriptLines.SplitAllAppend | src/classes/KirikiriEngine.ts:207-208 | splitting and flattening distributes over concatenation |
| ScriptLines.SplitAndSanitizeAppend | src/classes/KirikiriEngine.ts:201-209 | the lines of `a + "\n" + b` are the lines of `a` followed by the lines of `b` |
| ScriptLines.CommentLineDropped | src/classes/KirikiriEngine.ts:201-209 | a single comment line yields no lines |
| ScriptLines.ContentLineKept | src/classes/KirikiriEngine.ts:201-209 | a single non-comment line yields the parts of its sanitized form |
| CommandParser.CloseAt | src/utils/extractCommand.ts:5 | the lazy `.*?` stops at the first `]` after the opening `[`, with no line terminator before it |
| CommandParser.UnitLength | src/utils/extractCommand.ts:12 | a token unit (one non-space, non-quote character or a complete quoted substring) is non-empty and within the text |
| CommandParser.TokenLength | src/utils/extractCommand.ts:12 | a token, a maximal run of units, is non-empty and within the text |
| CommandParser.StripQuotes | src/utils/extractCommand.ts:22 | removing one leading and one trailing quote never lengthens the value |
| CommandParser.ExtractCommand | src/utils/extractCommand.ts:4-29 | every failure is the error `Invalid command line: <line>` |
| CommandParser.BracketContentOfTag | src/utils/extractCommand.ts:5 | the content is what lies between the first `[` and the next `]` |
| CommandParser.OnlyFirstTagCounts | src/utils/extractCommand.ts:5-9 | text before the first `[` and after its `]` is ignored; the line is rejected exactly when that first tag is empty |
| CommandParser.NoBracketRejected | src/utils/extractCommand.ts:5-9 | a line without `[` is rejected |
| CommandParser.EmptyTagRejected | src/utils/extractCommand.ts:5-9 | `[]` is rejected whatever follows it |
| CommandParser.TokensSkipWhitespace | src/utils/extractCommand.ts:12 | leading whitespace produces no token |
| CommandParser.PlainToken | src/utils/extractCommand.ts:12 | a plain word followed by whitespace or the end is one token |
| CommandParser.QuotedToken | src/utils/extractCommand.ts:12 | `key="a b"` stays one token, spaces inside the quotes included |
| CommandParser.BareCommand | src/utils/extractCommand.ts:11-28 | `[name]` gives that name and no properties |
| CommandParser.WhitespaceContentUndefined | src/utils/extractCommand.ts:11-13 | whitespace-only content such as `[ ]` gives an undefined command and no properties |
| CommandParser.CommandWithProp | src/utils/extractCommand.ts:11-28 | `[name key=value]` gives the name and exactly the property key → value |
| CommandParser.TwoTokens | src/utils/extractCommand.ts:11-13 | two plain words separated by a space become two trimmed tokens |
| CommandParser.PlainProp | src/utils/extractCommand.ts:16-22 | a token `key=value` of plain text gives the property key → value |
| CommandParser.QuotedProp | src/utils/extractCommand.ts:16-22 | a token `key="text"` gives key → text, without its quotes |
| CommandParser.LaterPropWins | src/utils/extractCommand.ts:15-26 | a later token with the same key overwrites the earlier property; a token without `=value` adds nothing |
| CommandParser.FoldPropsKeys | src/utils/extractCommand.ts:15-26 | every property key comes from some `key=value` token |
| Placeholders.WordRunProps | src/utils/getPlaceholders.ts:7 | the measured run at the start is made of `\w` characters and stops at the first other character, so it is the longest such run |
| Placeholders.AssignmentAt | src/utils/getPlaceholders.ts:7 | a match `key=%value` found at the start has a non-empty key and value and lies within the text |
| Placeholders.GetPlaceholders | src/utils/getPlaceholders.ts:6-19 | the loop over the regex matches builds exactly the record of the left-to-right scan |
| Placeholders.CollectEntries | src/utils/getPlaceholders.ts:7-15 | every recorded key is a word and every recorded value is `%` followed by a word |
| Placeholders.CollectNoPercent | src/utils/getPlaceholders.ts:7-15 | text without `%` records nothing |
| Placeholders.AssignmentMatch | src/utils/getPlaceholders.ts:7 | `key=%value` followed by a non-word character matches with exactly that key and value |
| Placeholders.CollectAssignment | src/utils/getPlaceholders.ts:11-16 | the record of `key=%value` followed by other text is the rest's record over key → `%value` |
| Placeholders.LaterAssignmentWins | src/utils/getPlaceholders.ts:15 | a later assignment to the same key overwrites the earlier one |
| Resolvers.Classify | src/utils/findClosingBlockCommandIndex.ts:23-30 | a line is skipped exactly when it is not a command line |
| Resolvers.Classified | src/utils/findClosingBlockCommandIndex.ts:20-30 | classifies each line in place |
| Resolvers.ScanClosing | src/utils/findClosingBlockCommandIndex.ts:20-50 | the scan's result is -1 or an index at or after the start whose line is the closer |
| Resolvers.ClosingIndex | src/utils/findClosingBlockCommandIndex.ts:9-51 | a name that is no block command throws; otherwise the result is -1 or an index in `[currentIndex, lines)` whose line is the block's closer |
| Resolvers.FindClosingBlockCommandIndex | src/utils/findClosingBlockCommandIndex.ts:9-51 | the loop with its nesting counter computes exactly the resolver's result |
| Resolvers.ScanClosingBalanced | src/utils/findClosingBlockCommandIndex.ts:20-50 | a found index is the first closer at which the depth returns to zero; -1 means no closer does; an error comes from an unparsable line |
| Resolvers.ClosingIndexBalanced | src/utils/findClosingBlockCommandIndex.ts:20-50 | from the opener, the result is the first closer that balances the depth, -1 when none does, and an error only when a command line cannot be parsed |
| Resolvers.ClassifyBare | src/utils/findClosingBlockCommandIndex.ts:23-30 | a bare tag `[name]` is read as that name |
| Resolvers.ClassifyBlank | src/utils/findClosingBlockCommandIndex.ts:23-30 | a whitespace-only tag is read as an undefined name |
| Resolvers.NestedIfsCloseAtOuter | src/utils/findClosingBlockCommandIndex.ts:33-46 | for two nested `if`s the outer `endif` closes the first, and with that `endif` missing the result is -1 |
| Resolvers.CloserNameMatchesUndefinedTag | src/utils/findClosingBlockCommandIndex.ts:16-46 | resolving a closer name looks for the table's entry for it, which is undefined, so an undefined tag such as `[ ]` closes it |
| Resolvers.ScanSubroutine | src/utils/findSubroutineEndIndex.ts:19-36 | the scan ends at an index at or after its start, or at the last line |
| Resolvers.SubroutineEnd | src/utils/findSubroutineEndIndex.ts:6-37 | -1 exactly for an empty list or a start line that is not a label; otherwise an index between the label and the last line |
| Resolvers.FindSubroutineEndIndex | src/utils/findSubroutineEndIndex.ts:6-37 | the loop with its nesting counter computes exactly that end |
| Resolvers.ScanSubroutineFirstZero | src/utils/findSubroutineEndIndex.ts:19-36 | the end is the first line at which the label depth returns to zero, or the last line when it never does |
| Resolvers.SubroutineEndFirstZero | src/utils/findSubroutineEndIndex.ts:19-36 | from a label, the end is never -1 and is the first line that balances the depth, or the last line |
| Resolvers.NestedLabels | src/utils/findSubroutineEndIndex.ts:19-36 | a nested label needs its own terminator; with no terminator the end is the last line; a non-label start gives -1 |
| Resolvers.ClosingText | src/utils/findClosingCommandIndex.ts:14 | the searched closer text is never empty |
| Resolvers.ClosingCommandIndex | src/utils/findClosingCommandIndex.ts:7-17 | throws exactly for names that are not block commands; otherwise the first occurrence of the closer text at or after the position, or -1 |
| Resolvers.NaiveFindsInnerCloser | src/utils/findClosingCommandIndex.ts:16 | without nesting, any `endif` after the position, an inner one included, ends an `if` |
| Resolvers.NaiveCloserSearchesUndefined | src/utils/findClosingCommandIndex.ts:14-16 | for a closer name the search text is the literal `undefined` |
| Dispatch.TableNamesFound | src/commands/getCommand.ts:40-83 | every name in the command table other than the two placeholder entries resolves to its own handler |
| Dispatch.GetCommandFailsExactly | src/commands/getCommand.ts:81-87 | the lookup fails exactly for names that are neither table keys nor inherited object keys, and the failure is the unknown-command error naming the command |
| Dispatch.TableExamples | src/commands/getCommand.ts:57-71 | fgzoom and wfgzoom resolve to no-op handlers, delay to its handler, and an unlisted name fails |
| Dispatch.InheritedKeys | src/commands/getCommand.ts:82-83 | an inherited object key such as toString passes the table lookup, while the factory still rejects it as unknown |
| Dispatch.FactorySubsetOfTable | src/factories/CommandFactory.ts:35-137 | whatever the factory builds the table also knows; the music, right-click and wl commands are in the table but the factory rejects them |
| Dispatch.FactoryBindsProps | src/factories/CommandFactory.ts:35-134 | each factory command other than the two no-ops is bound to the very props it was created with |
| Macro.ProcessLines | src/commands/macroCommand.ts:50-168 | the do-while loop over the body produces exactly the compiled macro: its steps, its placeholder records keyed by line, or the error that escapes |
| Macro.ProcessLine | src/commands/macroCommand.ts:63-165 | one pass of the loop: tags are compiled, `@` and text lines are skipped, and an error inside a tag advances one line |
| Macro.ProcessTag | src/commands/macroCommand.ts:70-141 | a known macro is pushed as a step, a block opener is compiled as a block, a known command becomes a step with the line's placeholders, and an unknown one is skipped |
| Macro.ProcessBlock | src/commands/macroCommand.ts:81-118 | iscript and if blocks become one step over the lines up to the closer, link and macro blocks push nothing, and the loop resumes after the closer |
| Macro.ReplayProps | src/commands/macroCommand.ts:24-33 | a step with no placeholder record gets no arguments; otherwise exactly the record's keys, each holding the caller's value or nothing when the caller did not pass it |
| Macro.Overlay | src/commands/macroCommand.ts:122 | replayed arguments override the compiled props, a compiled prop survives where no argument replaces it, and no other key appears |
| Macro.CompileFromNoLeaves | src/commands/macroCommand.ts:119-136 | when the engine has no command lookup, no step that takes arguments is ever compiled |
| Macro.CompiledWithoutLeaves | src/commands/macroCommand.ts:119-136 | for the legacy engine object, which has no getCommand, a compiled macro holds no argument-taking step and every replay receives no arguments |
| Macro.EmptyBodyThrows | src/commands/macroCommand.ts:61-66 | a macro with an empty body fails with the read-past-end error of `charAt` on undefined |
| Macro.PlaceholderIndexMismatch | src/commands/macroCommand.ts:24-33 | placeholders are stored under the line index but read under the step index, so a command on the second line never receives its caller's arguments |
| Macro.UnterminatedIfNeverCompiles | src/commands/macroCommand.ts:83-116 | an `if` with no closer sets the index back to 0 and compilation never ends |
| Macro.IfLoops | src/commands/macroCommand.ts:83-116 | from any accumulated state, an unclosed `if` on the only line loops until the fuel runs out |
| Files.LastSeparator | src/utils/removeFileExtension.ts:9 | the answer is -1 or the position of a `/` or `\`, and no separator follows it |
| Files.RemoveFileExtension | src/utils/removeFileExtension.ts:7-25 | the result is a prefix of the name; when it differs, it stops at a dot followed by a valid extension containing no further dot or separator |
| Files.RemoveAddedExtension | src/utils/removeFileExtension.ts:17-21 | appending a dot and a letter-led alphanumeric extension and then removing it gives back the stem |
| Files.NoDotAfterSeparator | src/utils/removeFileExtension.ts:17 | a name with no dot after its last separator is returned unchanged |
| Files.KeptNames | src/utils/removeFileExtension.ts:12-24 | all-dot names, the empty name and a digit-led extension are kept; only the last extension of `a.tar.gz` goes |
| Files.Search | src/utils/findFileInTree.ts:20-39 | the recursive walk appends to the result exactly the matching paths of the tree, in entry order |
| Files.SearchEntry | src/utils/findFileInTree.ts:25-37 | one entry contributes its own path when its name matches, then the matches below it when the search is recursive |
| Files.FindFileInTree | src/utils/findFileInTree.ts:8-44 | a call without an options object throws; otherwise the answer is every path whose last name matches, with the flags defaulting to false |
| Files.FoundInEndsWithName | src/utils/findFileInTree.ts:26-33 | every path found ends with the searched name, compared case-insensitively when asked |
| Files.TopLevelOnly | src/utils/findFileInTree.ts:35-37 | a non-recursive search finds only top-level entries with the name |
| Files.EmptyTree | src/utils/findFileInTree.ts:20-33 | an empty tree yields nothing and a leaf yields its own name exactly when it matches |
| Files.SlashedNameNotFound | src/utils/findFileInTree.ts:26-31 | entry names are compared whole: a case-sensitive search for a name holding a `/` finds nothing in a tree whose names hold none |
| Motion.PointOf | src/utils/transformMoveInstruction.ts:14-19 | a piece that is not a parenthesised triple of signed digit runs fails with the invalid-path message naming it |
| Motion.FirstMalformed | src/utils/transformMoveInstruction.ts:13-16 | the position of the first piece that fails to parse, or the number of pieces when all parse |
| Motion.PointsOf | src/utils/transformMoveInstruction.ts:13-20 | the pieces parse exactly when none is malformed, point by point; otherwise the error of the first malformed piece |
| Motion.PointOfTripleText | src/utils/transformMoveInstruction.ts:14-19 | a well-formed piece yields the numbers of its three fields, with the opacity divided by 255 |
| Motion.IntTextWellWritten | src/utils/transformMoveInstruction.ts:14-19 | the decimal text of every integer, negative ones included, is a coordinate the parser accepts and converts back to that integer |
| Motion.PointRoundTrip | src/utils/transformMoveInstruction.ts:14-19 | printing three well-written coordinates as a piece and parsing it gives back their numbers, the opacity divided by 255 |
| Motion.PathRoundTrip | src/utils/transformMoveInstruction.ts:13-20 | a space-separated path printed from well-written coordinate triples parses back to the same points, in order |
| Motion.PointsOfAll | src/utils/transformMoveInstruction.ts:13-20 | pieces that each parse yield exactly their points, in order |
| Motion.MalformedPaths | src/utils/transformMoveInstruction.ts:13-16 | the empty path, and a piece with a stray character after its closing parenthesis, are rejected with the piece in the message |
| Motion.ScaleRange | src/utils/scaleRange.ts:16-18 | the call throws exactly when the value lies outside the input range |
| Motion.ScaleRangeRejects | src/utils/scaleRange.ts:16-18 | with an integer value and integer bounds, the error reads `Value v is out of range [lo, hi]` with all three written as JavaScript writes integers: decimal notation below 10^21 in magnitude, exponent form from there on |
| Motion.PowerOfTenText | src/utils/scaleRange.ts:17 | a power of ten in exponent form is `1e+k`, with no point because one digit is significant |
| Motion.ScaleRangeExponentMessage | src/utils/scaleRange.ts:16-18 | 10^21 against `[0, 10]` gives `Value 1e+21 is out of range [0, 10]` |
| Motion.ScaleRangeMessages | src/utils/scaleRange.test.ts:17-27 | -1 and 11 against `[0, 10]` give exactly the messages the tests expect |
| Motion.ScaleEndpoints | src/utils/scaleRange.ts:20 | the input range's ends map to the output range's ends |
| Motion.ScaleMonotone | src/utils/scaleRange.ts:20 | scaling keeps order and stays inside the output range |
| Motion.ScaleInverse | src/utils/scaleRange.ts:9-21 | scaling back from the output range to the input range returns the original value |
| Motion.ClampProperties | src/utils/clamp.ts:4-6 | the result lies between the bounds, leaves in-range values alone, is idempotent, and is the lower bound when the bounds cross |
| IScript.CleanUnchanged | src/classes/IScriptParser.ts:30-33 | text with no stand-alone `void` is left as it is |
| IScript.NoVoidUnchanged | src/classes/IScriptParser.ts:30-33 | text that never contains the letters `void` is left as it is |
| IScript.ConvertedIsClean | src/classes/IScriptParser.ts:30-33 | after the replacement no stand-alone `void` remains |
| IScript.ParseIdempotent | src/classes/IScriptParser.ts:12-18 | parsing a parsed script changes nothing |
| IScript.VoidExamples | src/classes/IScriptParser.ts:31 | `void` becomes `undefined` but the `void` inside `avoid` is not a word and stays |
| Schemas.BooleanSchemaExact | src/schemas.ts:5-13 | accepts exactly the words true and false and the booleans, and reads true only from true |
| Schemas.BooleanRoundTrip | src/schemas.ts:5-13 | the word for a boolean and the boolean itself both read back as that boolean |
| Schemas.IntegerSchemaExact | src/schemas.ts:15-21 | the coerced number passes exactly when it is an integer within the bounds given, and the result is that number |
| Schemas.IntegerOfText | src/schemas.ts:15-17 | the decimal text of any integer passes as that integer |
| Schemas.IntegerRejects | src/schemas.ts:16-18 | a fraction fails as not an integer, and a word fails coercion |
| Schemas.IssuesAccumulate | src/schemas.ts:16-20 | a fraction below the minimum reports both the integer and the minimum issue |
| Schemas.FloatSchemaExact | src/schemas.ts:23-28 | the coerced number passes exactly when it is a number within the bounds given |
| Schemas.GammaSchemaExact | src/schemas.ts:30-32 | a gamma between 0.1 and 9.9 passes and is rescaled linearly onto 0 to 255; anything else fails without throwing |
| Schemas.GammaEndpoints | src/schemas.ts:31 | 0.1 maps to 0 and 9.9 to 255, while 0 and 10 are rejected |
| Schemas.PageSchemaExact | src/schemas.ts:34-36 | only fore and back pass, unchanged |
| ZodSchemas.IntegerBoundsIgnored | src/schemas/zod.ts:14-28 | the piped refinements are discarded, so the integer schema passes every integer whatever the bounds |
| ZodSchemas.MinimumNotEnforced | src/schemas/zod.ts:19-21 | 5 fails the bounded schema of the other module but passes this one with minimum 10 |
| ZodSchemas.FloatBoundsIgnored | src/schemas/zod.ts:30-43 | the float schema passes every number whatever the bounds |
| ZodSchemas.GammaAgrees | src/schemas/zod.ts:45-47 | gamma passes the same values as the bounded version, with the same result; an out-of-range number reaches the rescaling and throws there |
| Storage.UnknownKeys | src/commands/delayCommand.ts:12 | a strict object schema reports no unknown key exactly when every given key belongs to its shape |
| Storage.Over | src/commands/historyCommand.ts:12-13 | a newly parsed value wins and an absent one keeps the old value |
| Storage.DelayStoresNumber | src/commands/delayCommand.ts:6-24 | a numeric speed is merged into the storage as that many characters' delay |
| Storage.DelayStoresWords | src/commands/delayCommand.ts:7-9 | nowait and user are stored as the two named speeds |
| Storage.DelayExact | src/commands/delayCommand.ts:6-24 | the delay succeeds exactly when speed is the only key and is nowait, user or an integer, and then only the delay record changes |
| Storage.DelayIssues | src/commands/delayCommand.ts:6-12 | a missing or non-numeric speed fails the whole union (`invalid_union`), while `5.5` reports the integer option's own refinement issue |
| Storage.RightClickMerges | src/commands/rightClickCommand.ts:19-24 | only the rclick record changes; given fields replace the stored ones and absent fields keep them |
| Storage.RightClickRejects | src/commands/rightClickCommand.ts:6-12 | a call flag that is not a boolean word, or an unknown key, makes the parse fail |
| Storage.ClickSkipExact | src/commands/clickSkipCommand.ts:6-20 | clickskip succeeds exactly for a single enabled flag that is a boolean word, and stores that flag |
| Storage.ClickSkipIssues | src/commands/clickSkipCommand.ts:6-8 | a missing or non-boolean `enabled` fails the boolean union (`invalid_union`) |
| Storage.VideoMerges | src/commands/videoCommand.ts:19-24 | only the video record changes; a given coordinate is stored as its number and absent fields keep their values |
| Storage.VideoRejectsFraction | src/commands/videoCommand.ts:8 | a fractional coordinate is rejected |
| Storage.MoveSetsMoving | src/commands/moveCommand.ts:7-25 | a valid move only marks the storage as moving; the page defaults to fore and the initial delay stays |
| Storage.MoveRejectsPath | src/commands/moveCommand.ts:11 | a malformed path throws the path error out of the parse |
| Storage.MoveRequiresLayer | src/commands/moveCommand.ts:8 | without a layer the parse fails |
| Storage.HistoryExact | src/commands/historyCommand.ts:4-13 | the history command succeeds exactly for keys among output and enabled; each given flag is true only for the word true, and an absent flag keeps its value |
| Storage.CallPropsOverrideDefaults | src/commands/createHistoryCommand.ts:9-18 | arguments at the call override the defaults bound at creation, which override the current history |
| TagScanning.CollapseSpaces | src/utils/removeCommandsFromText.ts:36 | the result is no longer than the text, empty only when it is, starts with a space only when the text does, and never holds two spaces in a row |
| TagScanning.FirstTagSpan | src/utils/removeCommandsFromText.ts:18-21 | a span found runs from a `[` to a later `]` inside the text |
| TagScanning.RemoveCommandsFromText | src/utils/removeCommandsFromText.ts:8-54 | the loop, whose cursor stays at 0 while tags are found, leaves exactly the trimmed text and the grouped tags of the removal the model defines |
| TagScanning.FirstTagSpanNone | src/utils/removeCommandsFromText.ts:18-24 | when no span is found, the text holds no `[` followed by a `]` |
| TagScanning.NoTagsOnlyTrimmed | src/utils/removeCommandsFromText.ts:21-24 | a text without a bracket pair is only trimmed and no tag is recorded |
| TagScanning.RemoveLoopClears | src/utils/removeCommandsFromText.ts:17-48 | the loop ends with no `[` followed by `]` left in the text |
| TagScanning.RemovedTextHasNoTags | src/utils/removeCommandsFromText.ts:50-53 | the returned text holds no bracket pair |
| TagScanning.RemoveLoopGroups | src/utils/removeCommandsFromText.ts:39-47 | recording a tag keeps every group keyed by its tags' start, each tag ending after it starts |
| TagScanning.RemovedTagsGrouped | src/utils/removeCommandsFromText.ts:39-47 | every recorded tag sits under its own start position and ends after it starts |
| TagScanning.InlinePropShapes | src/utils/removeCommandsFromText.ts:30-33 | a key alone maps to undefined, and `k=v=w` keeps only the part before the second `=` |
| TagScanning.TagStep | src/utils/extractCommands.ts:28-41 | a parsed tag moves the cursor forward to just after a `]` |
| TagScanning.ExtractCommands | src/utils/extractCommands.ts:11-53 | the scan loop returns exactly the length and commands of the leading-tags scan, or its error |
| TagScanning.ScanLength | src/utils/extractCommands.ts:17-50 | the length reported lies inside the text, is 0 when no tag was read, and otherwise ends just after a `]` |
| TagScanning.ExtractCommandsLength | src/utils/extractCommands.ts:49-52 | trailing whitespace after the last tag is not counted in the length |
| TagScanning.UnmatchedBracket | src/utils/extractCommands.ts:31-35 | a leading `[` with no later `]` throws the unmatched-bracket error at its position |
| TagScanning.SkipWhitespace | src/utils/extractCommands.ts:22-26 | leading spaces, newlines and tabs are skipped without changing what the scan finds |
| TagScanning.ExtractStorage | src/utils/extractStorage.ts:4-24 | a line that is not a tag has no storage; a storage found is non-empty and never starts with `%` |
| TagScanning.StorageOfTag | src/utils/extractStorage.ts:11-19 | a tag's storage is returned unless it starts with `%` |
| JsNumber.NumberOfNat | src/schemas.ts:16 | coercing the decimal text of a natural number yields that number |
| JsNumber.NumberOfNegative | src/utils/transformMoveInstruction.ts:19 | a minus sign before decimal digits yields the negated number |
| JsNumber.DecimalIsInteger | src/schemas.ts:16-17 | the decimal text of any integer coerces to an integer |
| JsNumber.NumberEdgeCases | src/schemas.ts:16 | whitespace alone coerces to 0, while a lone sign or dot is not a number |
| JsNumber.FractionExample | src/schemas.ts:16-17 | 5.5 coerces to a number that is not an integer |
| JsNumber.LetterIsNaN | src/schemas.ts:16-18 | any Latin letter in the text makes the coercion not a number |
| Kirikiri.LookupAsWritten | src/classes/KirikiriEngine.ts:151 | the lookup as the engine class writes it, without an options object, throws for every name and every tree |
| Kirikiri.FullFilePathAsWritten | src/classes/KirikiriEngine.ts:184-196 | `getFullFilePath` as written calls the lookup without an options object and throws for every name and every tree |
| Kirikiri.FullFilePath | src/classes/KirikiriEngine.ts:184-196 | with the options object, it succeeds exactly when one path is found, returns the game root, a slash and that path, and reports a missing file by name |
| Kirikiri.FullPathNeverLoads | src/commands/callCommand.ts:16-22 | the full path handed to `loadFile` holds a slash, so in a tree whose names hold none, `loadFile` finds no script for it |
| Kirikiri.ScriptName | src/classes/KirikiriEngine.ts:212-214 | a script counts as set exactly when it is present and non-empty |
| Kirikiri.LineRun | src/classes/KirikiriEngine.ts:232 | the run of leading characters that the regular expression's `.` matches: none is a line terminator, and the next one is |
| Kirikiri.LabelText | src/classes/KirikiriEngine.ts:232-238 | the label is the non-empty text after the `*` up to the first line terminator; the match fails exactly when the line is a bare `*` or a terminator follows it |
| Kirikiri.RegisterStops | src/classes/KirikiriEngine.ts:220-249 | registration from a line on runs to the end exactly when every later `*` line carries a label |
| Kirikiri.RegisterKeys | src/classes/KirikiriEngine.ts:238-243 | after registration the table's keys are the previous keys plus exactly the trimmed labels of the lines visited |
| Kirikiri.RegisterKeeps | src/classes/KirikiriEngine.ts:243 | an entry whose label does not occur again keeps its body |
| Kirikiri.RegisterLastWins | src/classes/KirikiriEngine.ts:238-243 | a label defined more than once keeps the body of its last definition |
| Kirikiri.RegistrationTable | src/classes/KirikiriEngine.ts:211-250 | registration succeeds exactly for a non-empty script with no bare `*` line, and then maps exactly the script's labels, each to the body after its last definition |
| Kirikiri.OpenEndedSubroutineDropsLastLine | src/classes/KirikiriEngine.ts:226-241 | a subroutine running to the end of the script loses its last line, and one closed by return ends before the return |
| Kirikiri.LastLineNeverInBody | src/classes/KirikiriEngine.ts:241 | a subroutine body never reaches the script's last line |
| Kirikiri.FramedCompose | src/classes/KirikiriEngine.ts:506-508 | the call-stack discipline composes: a normal call followed by another keeps the caller's frames below and counts every frame left behind |
| Kirikiri.Defined | src/commands/macroCommand.ts:27-31 | a replayed argument read as undefined is left out of a nested macro's arguments, and every defined one is kept |
| Kirikiri.Engine.constructor | src/classes/KirikiriEngine.ts:88-133 | a new engine is initialized with no script, subroutines, macros or call counts, an empty call stack, and a delay speed of 20 |
| Kirikiri.Engine.SetState | src/classes/KirikiriEngine.ts:516-524 | the state is replaced, the continue event is dispatched only on a switch to running, and nothing else changes |
| Kirikiri.Engine.UpdateCommandCallCount | src/classes/KirikiriEngine.ts:453-459 | the count of the command, undefined included, goes up by one from zero when absent, and nothing else changes |
| Kirikiri.Engine.RegisterAllSubroutines | src/classes/KirikiriEngine.ts:211-250 | with no script set it throws and changes nothing; otherwise the script's table is replaced by the registration's table, even when registration throws part-way |
| Kirikiri.Engine.LoadFile | src/classes/KirikiriEngine.ts:150-182 | unless exactly one file matches and its fetch succeeds it throws and changes nothing; otherwise it returns the sanitized lines, makes the name without extension the current script, stores that script's registration table, and throws exactly when registration does (or when the name without extension is empty) |
| Kirikiri.Engine.RunLines | src/classes/KirikiriEngine.ts:255-395 | a paused engine waits; a cancelling engine returns, resuming and announcing the cancellation once the stack is empty; only an empty line list throws; every call returns with its frames accounted for |
| Kirikiri.Engine.StepLine | src/classes/KirikiriEngine.ts:277-393 | one line never throws out of the loop; text and unparsable tags just advance, and a normal step moves to the next line or past a block's closer; a `*label` line calls the subroutine named by its trimmed label and moves to the next line: an unknown name changes nothing but the current line, and an empty body leaves its frame pushed |
| Kirikiri.Engine.StepCommand | src/classes/KirikiriEngine.ts:297-371 | an extracted tag runs its macro, its block or its handler without throwing; a normal step moves one line on, or for a block past the closer its lookup found; a registered macro takes precedence over blocks and handlers, so the step moves one line on, and an empty macro changes nothing |
| Kirikiri.Engine.RunBlock | src/classes/KirikiriEngine.ts:309-346 | a block whose closer lookup throws is skipped line by line; link blocks are skipped whole; an iscript block runs no state change and is skipped whole only without arguments; a macro block defines the macro or, if its definition throws, moves one line on; an if block whose props do not validate moves one line on without effect, and one whose condition is false goes on after its closer without effect |
| Kirikiri.Engine.IfCommand | src/commands/ifCommand.ts:10-18 | props that are not exactly an expression and lines throw without effect; a false condition does nothing; a true one runs the lines, which throws only when they are empty |
| Kirikiri.Engine.RunSubroutine | src/classes/KirikiriEngine.ts:464-510 | with no script it throws; a name not registered under the current script changes nothing (a warning, or a throw when the script has no table); a forced call while a subroutine runs stops sound and music and waits for the cancellation; an empty body pushes a frame and throws before popping it; a body that runs and returns normally pops its frame and leaves the new top of the stack, or nothing, as the current subroutine |
| Kirikiri.Engine.RunLeaf | src/classes/KirikiriEngine.ts:347-370 | a command handler's error never escapes, and any command but call only merges its validated props into the command storage |
| Kirikiri.Engine.CallCommand | src/commands/callCommand.ts:12-31 | props other than a storage and an optional target throw without effect; once they validate, every error is swallowed; a failed lookup or a failed load of the full path changes nothing, so no subroutine runs; without a target no subroutine runs (state, call stack and events unchanged) |
| Kirikiri.Engine.CallCommandAsWritten | src/commands/callCommand.ts:12-31 | as written, props that do not validate throw without effect, and a call that validates returns normally and changes nothing: `getFullFilePath` always throws, so the loading and the subroutine call after it are never reached |
| Kirikiri.Engine.LoadAndCall | src/commands/callCommand.ts:15-30 | after the lookup, a failed lookup or a failed load ends the call without effect and no error escapes; without a target no subroutine runs (state, call stack and events unchanged) |
| Kirikiri.Engine.ReplayMacro | src/commands/macroCommand.ts:23-43 | a macro's replay never throws, keeps the call-stack discipline, and an empty macro does nothing |
| Kirikiri.Engine.ReplayStep | src/commands/macroCommand.ts:24-41 | a failing step is swallowed and replay goes on; a script step changes nothing the model tracks |
| Kirikiri.Engine.Run | src/classes/KirikiriEngine.ts:135-145 | a run throws exactly when loading the entry script throws, and then the state is as it was (a failed lookup or fetch changes nothing); once loaded, the engine is RUNNING before the first line runs, as a run without fuel shows |
| LegacyKirikiri.LineStep | src/KirikiriEngine.ts:199-290 | one line moves processing strictly forward, never past the end |
| LegacyKirikiri.TagStep | src/KirikiriEngine.ts:219-279 | a tag line that does not stop processing moves it strictly forward |
| LegacyKirikiri.BlockStep | src/KirikiriEngine.ts:231-255 | a block that does not stop processing resumes strictly after its opener |
| LegacyKirikiri.CloserAfterOpener | src/utils/findClosingBlockCommandIndex.ts:1-52 | a closer found for a block opened on a line lies after that line and inside the script |
| LegacyKirikiri.ProcessFromJumpPoints | src/KirikiriEngine.ts:204-216 | jump points are recorded in line order, each naming the label text of a `*` line |
| LegacyKirikiri.ProcessFromRecordsVisited | src/KirikiriEngine.ts:198-294 | a successful pass records exactly one jump point per label line it visits, with the label text and line index, in visiting order; a block's inner lines are jumped over (the pass goes on after the closer), so they are not visited and a label among them is not recorded |
| LegacyKirikiri.AllLabelsRecorded | src/KirikiriEngine.ts:198-294 | a script without block tags that compiles records every one of its label lines |
| LegacyKirikiri.TagStepKeepsJumpPoints | src/KirikiriEngine.ts:219-279 | a tag line records no jump point |
| LegacyKirikiri.JumpPointsInOrder | src/KirikiriEngine.ts:183-294 | a successful pass records only label lines, each with its label text, in increasing line order |
| LegacyKirikiri.UnrecordedStepsNeverRun | src/commands/createMacro.ts:16-27 | a macro without placeholder records runs none of its commands |
| LegacyKirikiri.ArgsAfterOneRecord | src/commands/createMacro.ts:18-23 | a placeholder record overwrites the caller's argument object with its literal `%` values, once its step is reached |
| LegacyKirikiri.HistoryMacroIgnoresArguments | src/commands/createMacro.ts:16-27 | a `history output=%on` macro turns history output off whatever the caller passes, and rewrites the caller's `output` argument to `%on` |
| LegacyKirikiri.UnclosedBlockThrows | src/KirikiriEngine.ts:233-237 | a block opener without a closer throws the missing-closer error and changes nothing |
| LegacyKirikiri.LegacyEngine.constructor | src/KirikiriEngine.ts:52-63 | history output and recording start off, and there are no macros |
| LegacyKirikiri.LegacyEngine.ProcessLines | src/KirikiriEngine.ts:183-294 | the do-while loop yields exactly the jump points, commands and placeholder records of the pass the model defines, or its first uncaught error, and leaves the engine in that pass's state |
| LegacyKirikiri.LegacyEngine.ProcessLine | src/KirikiriEngine.ts:199-290 | one pass of the loop: labels, tags and other lines advance as the line step defines, with the engine left in its state |
| LegacyKirikiri.LegacyEngine.ProcessTag | src/KirikiriEngine.ts:219-279 | a known macro is replayed, a block opener is handled as a block, a command the factory builds is recorded with its placeholders, and an unknown one is skipped |
| LegacyKirikiri.LegacyEngine.ProcessBlock | src/KirikiriEngine.ts:231-255 | an unclosed block throws; a macro block defines its macro from the lines before the closer; processing resumes after the closer |
| LegacyKirikiri.LegacyEngine.CreateMacro | src/commands/createMacro.ts:9-30 | a body without a name throws; otherwise the body is processed with the engine's current macros and the macro keeps its commands and records |
| LegacyKirikiri.LegacyEngine.InvokeMacro | src/commands/createMacro.ts:16-28 | only the history effect of recorded steps changes the engine, the macros stay, and the caller's arguments end as the records rewrite them |
| LegacyKirikiri.LegacyEngine.Run | src/KirikiriEngine.ts:110-151 | a missing, ambiguous or unfetchable entry script throws and changes nothing; otherwise its sanitized lines are processed and a processing error is caught |

## Left out

- Rendering (the renderer, layers, the Konva stage and its resize listener) and every handler that only draws: graphics-library calls with nothing to state about the interpreter.
- Fetching and decoding a file: the response text is a parameter of the engine (`Env.fetch`), and the Shift-JIS `TextDecoder` is folded into it; the `statusText` of a failed response is not in the error message.
- Events and timers: a PAUSED engine returns `Waiting` instead of suspending until the continue event, and a forced `runSubroutine` returns `Waiting` after dispatching its events; the resumption, which only an outside listener can trigger, is not modelled.
- Audio, video, wait and transition handlers, and the handlers whose body is only a strict schema parse: their only modelled effect is none; in particular `[s]` does not stop execution.
- Expression evaluation: the truth value of an `if` expression is a parameter (`Env.condition`), applied to the parsed expression; the sandboxed `IScriptParser.run` and `scriptCommand` are not modelled beyond their schema.
- `processText` and `renderText`: time-driven text output; a text line only records itself as the current line.
- The `LOADING_FILE` and `CANCEL_ALL_SUBROUTINES` states exist but no code handles them; they are in the state type with no behaviour.
- `runSubroutine`'s `file` option: no caller in the core passes it.
- Prototype keys of plain objects: the macro table, the subroutine tables and the call counter are modelled as maps, so a tag named `constructor` or `toString` is not found there as an inherited function; only the `getCommand` table models inherited keys.
- Kirikiri.Engine.ReplayMacro: a replayed argument read as `undefined` is dropped instead of overriding a compiled property with `undefined`.
- Kirikiri.Engine.RunLines: bounded by `fuel`; a run that exhausts it reports `Exhausted`, which stands for a run that does not end.
- Macro.ProcessLines: bounded by `fuel` in the same way, because an unclosed block sends the compile cursor back to line 0.
- Kirikiri.Engine.RunLeaf: of the leaf handlers only `delay`, `rclick`, `move` and `call` have modelled effects; `history` throws in the engine class (it has no `history` field) and the rest have no state the model tracks.
- The full path `callCommand` passes to `loadFile` is the game root, a slash and the found path, and `loadFile` looks that whole string up as an entry name; the model keeps this, so in a tree whose names hold no slash a call loads nothing (`Kirikiri.FullPathNeverLoads`). Loading by the storage name, which the code evidently means, is not modelled.
- Motion.ScaleRange: a value or bound that is not an integer is written in the message with its exact decimal digits, cut after 20 places, rather than JavaScript's shortest round-trip form of the nearest double (which also uses exponent form below 10^-6).
- Motion.ScaleRangeRejects: an integer of 10^21 or more in magnitude is written in exponent form with all its significant digits; JavaScript writes instead the fewest digits that identify the nearest double, so the two agree only when the integer's own significant digits are that shortest form (as for `1e+21`).
- Motion.ScaleInverse: `scaleRange`'s subtraction, division and multiplication, the gamma rescaling and `clamp` are computed on exact reals, not IEEE doubles; so `ScaleInverse`, and `ScaleEndpoints` at the upper end, hold of the model and not always of the rounded results.
- LegacyKirikiri.LegacyEngine.InvokeMacro: the steps are started without being awaited; the model runs them to completion in order, and tracks only the history effect of a replayed history closure.
- The order of keys in objects (the placeholder records, the property maps, `Object.entries` of the file tree beyond the entry sequence given).
- Logging (consola levels and messages) and `UnknownCommandError` beyond its message. An error that is only logged keeps a stand-in message: a macro without a name fails with `Macro.MissingName` instead of the JSON of the validation issues.
- `Number()` beyond decimal text with an optional sign and fraction: hexadecimal, exponents and `Infinity` are read as not a number, and IEEE rounding is replaced by exact reals.
- Unicode: strings are sequences of UTF-16 code units as `char`; `toLowerCase` folds only ASCII letters.

## Findings

| source | as written | input that shows it | evidently intended | confidence | as-written member | corrected member |
|---|---|---|---|---|---|---|
| src/classes/KirikiriEngine.ts:151 | `loadFile` calls `findFileInTree(filename, this.game.files)` with no options object, and `findFileInTree` destructures its options | any entry script, e.g. `first.ks`: the destructuring of `undefined` throws before the tree is searched, so `run` never loads a script | pass an options object, as the legacy engine does with `{ recursive: true }` | high, not executed | Kirikiri.LookupAsWritten | Kirikiri.Engine.LoadFile |
| src/classes/KirikiriEngine.ts:185 | `getFullFilePath` makes the same call without options, so it throws for every name; `callCommand` catches the error, so every `[call]` that validates does nothing | `[call storage="first.ks" target="start"]`: no script is loaded and no subroutine runs | pass the same options object | high, not executed | Kirikiri.Engine.CallCommandAsWritten | Kirikiri.FullFilePath |
