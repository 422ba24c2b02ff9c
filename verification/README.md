# Verified model of the document format, answer tallying and smaller cores

The repository is a learning environment. Its documents are lists of paragraphs that are edited as one
text; its exercises collect answers that are tallied into points. This project models, in Dafny, the code
behind both, and a few smaller pieces of state. To verify all of it, use `dafny verify dfyconfig.toml`.

## What is modelled

**The paragraph format.** `Text` holds the string operations of Python that the format rests on.
`AttributeList` says what the attribute list parser computes, and `AttributeParsing.AttributeParser` is the
cursor parser itself, proved to compute that. `AttributePrinting` is the printer and shows that reading
undoes printing; `AttributeErrors` says which lines raise. `DocumentFormat` says how lines form chunks
(fences, headings, plain text), how a chunk becomes a block and how blocks are merged; `DocumentParsing` has
the reader and the parser, which move through the lines and extend their block list in place.
`DocumentWriting` is the writer, and `ParseErrors` says when parsing and writing raise. On top of these:
`Composition` (parsing composes, no line is lost, break flags only merge), `CodeBlocks` (code blocks are
closed and stable), `ParagraphAttributes` and `RoundTrip` (one paragraph survives export, for each of the
carriers `#-`, header, code fence and atom fence), `BareParagraphs` and `BareTexts` (paragraphs without a list),
`AtomFences` (when the chosen fence is long enough), `DocumentRoundTrip` (whole documents), `AttributeInk` and
`AttributeSurvival` (which parsed attributes survive printing, and that the others do not), `ParsedAttributes`
and `ParsedShapes` (what was parsed can be written and parsed again), `CarrierWitnesses` (lines that cannot carry
a list). `Validation` is the structure check, one pass over the blocks with several sets and a stack, and
`ParsedValidation` applies it to parsed documents.

The shape of the argument: the parser and the writer change state step by step, and each of their methods
is proved equal to a function (`GetAttributes`, `ParseText`, `WriteText`). The laws are lemmas about these
functions, for all texts, all paragraphs and all option settings. What the functions mean is said apart from
them, in characters and lines: `PlainTexts` and `BlockTexts` relate a text to its blocks, `AttributeItems` a
hand-written list to its attributes, `Languages` a fence line to its language, `CodeEnds` the last line of a code
block to its error, and `ValidationIssues` a document to the issues that are reported.

**Answers and points.** `AnswerTally` models the selection of answers: rows in any order, mutable records
per user and task, a count rule, review points of shared answers. `Grouping` models the entries by user, by
task and by document, and `EntryLaws` says what they add up. `PointRules` models the point rule of a document;
`CountedGroups` says which groups count, `PointLaws` that counting the best or worst groups is optimal, and `PointMonotonicity` and `TallyMonotonicity` that no total falls when the
points of a task rise. `SavedAnswers` models saving to a table that several users and groups of users share.
Points are exact reals, and `Rounding` is Python's `round` on exact numbers.

**Smaller cores.** `Bookmarks` is a list of groups used as a bounded most-recently-used cache, `Scheduler`
one entry of the task scheduler as a state machine, `Template` the scan for `${...}` and the splicing, and
`DocPaths` the path normaliser.

## Conditions that turned out to matter

Some expected properties hold only under a condition. Each is stated as an equivalence where that was
possible, with a witness that shows it can fail.

- Reading attributes raises on a quoted value that is cut off after a backslash, and on a class after a text
  under `classes`. `AttributesRaise` says exactly when, `ParseRaises` and `WriteRaises` carry it to documents.
  A caller can rule it out: the line must end in a backslash, or have an assignment to `classes` and a dot
  after it (`OnlySuspectsRaise`, `OnlySuspectTextsRaise`). `BackslashRaises`, `TextClassesRaise` and
  `CutOffTextRaises` give whole families of texts that raise.
- A header or code fence can carry an attribute list only if no brace of its first line opens a list that
  reaches the end of the line once the printed list is there (`CarrierLine`). A line without braces always can;
  the header `# {.a` never can (`CarrierHides`).
- An atom fence is transparent exactly when no inner line begins with it (`FencingTransparent`). The fence
  the writer chooses is long enough for backtick code fences whose closing lines are not longer than their
  opening lines (`FenceSuffices`). It is not always long enough: backticks inside a tilde fence are not
  counted (`TildeFenceBreaks`), nor is the fence of an atom inside the paragraph (`NestedAtomBreaks`).
- A code block's text parses back to itself exactly when its first line opens no attribute list
  (`CodeBlockStable`). A fence line with two lists keeps the first of them as text, and then it does not
  (`ListedCodeChanges`).
- A plain paragraph whose list is empty is written as bare text, which happens wherever ids are not exported
  (mail templates, `timApp/user/verification/verification.py:216`). Alone, it is read back exactly when there is text on its
  first line (`BareRoundTrip`). In a document, the written paragraphs are read back exactly when no such paragraph
  comes right after a header, a plain or a `#-` paragraph (`DocumentRoundTrip`); one that does becomes a part of it
  (`BareJoins`), and there is one block fewer. Parsed documents are no exception (`ParsedRoundTrip`).
- The attributes of a parsed block are read back from their printed list if and only if no exported key begins
  with `#`, `.` or `}`, a task id is a name without spaces and closing braces, classes are a list, the first
  exported attribute does not begin and the last does not end in whitespace, and the only attribute that the
  writer leaves out is the language that the block's first line names (`ParsedAttributesSurvive`,
  `TextAttributesSurvive`; `ListSurvives` for a list alone). The same condition decides whether the written line
  is read as its paragraph (`LineSurvives`) and whether the block survives being written and parsed
  (`BlockSurvives`), if it is no atom and its first line has no braces. That the others are lost is proved by
  weighing: to be read, an attribute needs more ink than printing spends on it (`CollectedCosts`, `BodyInk`), also
  if the parser finds a list inside the printed one (`NoLaterList`). Witnesses are
  the header `# x {h="1"}` (`IgnoredLost`), a task id given as `"a b"` (`SpacedTaskLost`), classes given as
  `"ab"` (`TextClassesLost`, `TextClassesSplit`) and a key behind a tab (`TabSurvivesInside`).
- One call to save an answer keeps the consecutive answers that any users see different if and only if it says
  nothing new, is rejected, writes nothing that they see, or differs from the neighbours of what it writes
  (`SaveKeepsApart`). Unforced calls without overwriting always do, whoever makes them, if the task is global
  (`GlobalNeverRepeats`); otherwise a call for a larger group can repeat an answer of its members
  (`RunsNeverRepeat`, `LargerGroupRepeats`), and forced or overwriting calls can (`OverwritingRepeats`). The query
  must find what they save: it does for global tasks and for a nonempty list of distinct users (`FoundMeans`). A
  user listed twice makes a call that would add an answer raise, and with no users at all every call adds one
  (`SavedOnce`, `NoUsersRepeat`); the routes of `timApp/answer/routes.py` never pass an empty list of users
  (lines 724-728 and 838-857).
- A bookmark limit below 1 is not respected by the first bookmark of a new group (`LimitRespected`).
- Normalising a path is idempotent unless a surviving segment has whitespace at the outer edge
  (`Idempotent`, `SpaceBreaksIdempotence`); `NormalComposes`, `UpUndoesDown` and `RootAbsorbs` have conditions of
  that kind.
- A one-off task runs at most once per enabling unless a reservation that was needed is lost
  (`OneOffRunsOnce`). Losing one is harmless exactly when the row already counts the run or the task is off
  or expired (`LossKeepsInvariant`); otherwise the task can run twice (`LossRepeats`, `LostReservation`).
  Writing reserved entries can itself lose one, because it may read the schedule anew.

## Model

| member | source | states |
|---|---|---|
| Text.SplitJoined | timApp/document/documentparser.py:237-237 | Splitting text into lines undoes joining lines, as the parser relies on when a block's text is parsed again |
| Text.JoinSplit | timApp/document/documentparser.py:392-392 | Joining lines with newlines gives back a text whose only line boundaries are newlines and that does not end in one |
| AttributeList.GetAttributes | timApp/document/attributeparser.py:41-52 | The reported start is a position of the line that holds an opening brace, and the only exceptions are those of reading past the end and of adding a class to text |
| AttributeParsing.AttributeParser.TryParseHelper | timApp/document/attributeparser.py:98-110 | Reads a marked name exactly as specified and restores the cursor when there is none |
| AttributeParsing.AttributeParser.TryParseKeyValuePair | timApp/document/attributeparser.py:118-160 | Reads one assignment, quoted or not, exactly as specified, with the cursor after it or restored, or raises when a quoted value reads past the end |
| AttributeParsing.AttributeParser.TryGetAttributes | timApp/document/attributeparser.py:54-87 | From any position the loop terminates and yields the list that the specification finds there, none, or the exception |
| AttributeParsing.AttributeParser.ParseCodeType | timApp/document/attributeparser.py:26-39 | Yields the language of a backtick fence, or nothing |
| AttributeParsing.AttributeParser.GetAttributes | timApp/document/attributeparser.py:41-52 | The search over all opening braces yields the first list that reaches the end of the line, joined with the language |
| AttributePrinting.QuotedEscape | timApp/document/attributeparser.py:135-155 | Reading an escaped value up to its closing quote gives back the value, whatever quotes, backslashes, spaces and braces it has |
| AttributePrinting.ScanEntry | timApp/document/documentwriter.py:86-109 | Whatever follows, scanning the text of one printed entry collects exactly that entry and goes on behind it |
| AttributePrinting.AttributesRoundTrip | timApp/document/documentwriter.py:86-109 | Parsing a printed attribute list after its opening brace gives back exactly the exported entries, for every list with distinct printable keys |
| AttributePrinting.ApplyHolds | timApp/document/attributeparser.py:54-87 | The collected tokens have exactly the keys of the entries, each with the value of its entry |
| AttributePrinting.CarrierLine | timApp/document/documentwriter.py:67-82 | A line followed by a printed list is read as that line's list, language included, if and only if no earlier brace opens a list reaching the end |
| AttributeItems.ListRead | timApp/document/attributeparser.py:54-87 | A hand-written list of tasks, classes and quoted or unquoted assignments, apart by any spaces and with at most one task, is found at its brace and gives the task, the classes in order, for every other key the value of its last assignment, and nothing else |
| AttributeItems.SecondTask | timApp/document/attributeparser.py:66-71 | A second task makes such a list no list: the line has no attributes |
| AttributeItems.TextBehind | timApp/document/attributeparser.py:83-87 | So does text behind its closing brace |
| AttributeItems.EscapeMeans | timApp/document/documentwriter.py:103-106 | A quote and a backslash are escaped by a backslash, every other character stands for itself |
| Languages.LanguageRead | timApp/document/attributeparser.py:26-51 | Behind one or more backticks and any spaces, the text up to the next space or opening brace is the attribute `code_lang` of the line, also when a list on the line sets it; the other attributes are those of the list |
| Languages.NoTicksNoLanguage | timApp/document/attributeparser.py:26-51 | A line without backticks in front has exactly the attributes of its list |
| Languages.NoNameNoLanguage | timApp/document/attributeparser.py:26-51 | So has one without a name behind its backticks |
| Languages.BlockLanguage | timApp/document/documentparser.py:333-394 | A fenced block, closed or not, has the language that its fence names |
| AttributeErrors.QuotedOverruns | timApp/document/attributeparser.py:140-155 | A quoted value reads past the end exactly when what is left of the line is an escaped text and one more backslash |
| AttributeErrors.PairOverruns | timApp/document/attributeparser.py:118-160 | Reading an assignment raises exactly when it is a key, an equals sign, a quote, an escaped text and one more backslash |
| AttributeErrors.BadItemRaises | timApp/document/attributeparser.py:54-87 | An item raises exactly when it is such an assignment, or a class although there is a text under `classes` |
| AttributeErrors.AttributesRaise | timApp/document/attributeparser.py:41-52 | Reading a line raises exactly when the first brace that does not fail to open a list leads to such an item |
| AttributeErrors.OnlySuspectsRaise | timApp/document/attributeparser.py:41-52 | A line that raises ends in a backslash, or has an assignment to `classes` with a dot behind it |
| AttributeErrors.BackslashRaises | timApp/document/attributeparser.py:148-149 | Every line without braces followed by a cut-off assignment raises |
| AttributeErrors.TextClassesRaise | timApp/document/attributeparser.py:54-87 | So does every list of a text under `classes` and a class |
| DocumentFormat.Marker | timApp/document/documentparser.py:286-298 | The marker of a fence is its whole leading run of one character, at least three long |
| DocumentFormat.FirstChunk | timApp/document/documentparser.py:244-251 | A chunk is a nonempty prefix of the remaining lines |
| DocumentParsing.CountFromBeginning | timApp/util/utils.py:94-101 | Counts the leading run of a character |
| DocumentParsing.ValidateEndOfCodeBlock | timApp/document/documentparser.py:147-155 | Decides whether the last line of a code block is free of attributes, raising when there is no last line or its attributes raise |
| DocumentParsing.DocumentParser.EatWhitespace | timApp/document/documentparser.py:442-450 | Skips blank lines only, so the chunks of the rest do not change |
| DocumentParsing.DocumentParser.ParseNormalLines | timApp/document/documentparser.py:418-432 | Takes exactly the lines before the first heading, fence or, if so set, blank line |
| DocumentParsing.DocumentParser.TryParseHeaderBlock | timApp/document/documentparser.py:396-416 | Parses a heading or `#-` chunk to its block, or leaves the reader where it was |
| DocumentParsing.DocumentParser.CompleteFence | timApp/document/documentparser.py:359-390 | Adds a missing end marker and completes a partial one |
| DocumentParsing.DocumentParser.TryParseCodeBlock | timApp/document/documentparser.py:333-394 | Parses a fence, closed or not, to its code or atom block, or leaves the reader where it was |
| DocumentParsing.DocumentParser.AddBlock | timApp/document/documentparser.py:252-283 | Appends the stripped block or extends the last one in place, as the merge rule says, and marks attributes at the end of code |
| DocumentParsing.DocumentParser.ParseDocument | timApp/document/documentparser.py:230-283 | The loop consumes every line and leaves the blocks of the text under the options; a second call under the same options changes nothing |
| DocumentParsing.DocumentParser.GetBlocks | timApp/document/documentparser.py:129-131 | Returns the blocks of the text, or of the previous parse under the same options |
| ParseErrors.BlockRaises | timApp/document/documentparser.py:333-416 | A chunk raises exactly what its first line, or the closing line of code, raises |
| ParseErrors.ParseRaises | timApp/document/documentparser.py:230-283 | Parsing raises exactly when the lines of some chunk do, with the exception of the first such chunk |
| ParseErrors.OnlySuspectTextsRaise | timApp/document/documentparser.py:230-283 | A text raises only if one of its lines looks like one that raises |
| ParseErrors.WriteRaises | timApp/document/documentwriter.py:36-84 | Writing raises exactly when parsing the text of some paragraph does, with the exception of the first |
| ParseErrors.OnlySuspectsUnwritten | timApp/document/documentwriter.py:36-84 | Paragraphs without such a line are always written |
| ParseErrors.CutOffTextRaises | timApp/document/documentparser.py:396-416 | Every header without braces that ends in a cut-off assignment is a text that raises |
| DocumentWriting.DocumentWriter.AttrsToStr | timApp/document/documentwriter.py:86-109 | Prints the list that the round trip theorems are about, for every dictionary that printing does not raise on |
| DocumentWriting.DocumentWriter.CountTicks | timApp/document/documentwriter.py:51-58 | One more backtick than the longest run that opens a code block, and at least three |
| DocumentWriting.LongestFence | timApp/document/documentwriter.py:51-57 | The longest run of backticks that opens a code block, and at least two: none is longer, and one is as long unless it is two |
| DocumentWriting.DocumentWriter.WritePar | timApp/document/documentwriter.py:48-81 | Chooses between bare text, `#-`, the first line and an atom fence as specified |
| DocumentWriting.DocumentWriter.GetText | timApp/document/documentwriter.py:36-84 | Writes all paragraphs, each ended by a newline and apart by empty lines, or raises what parsing one of them raises |
| Composition.ChunksAppend | timApp/document/documentparser.py:418-432 | If the second part begins with a heading or fence and the first leaves no fence open, the chunks of the whole are those of the parts |
| Composition.ParsingComposes | timApp/document/documentparser.py:244-283 | The same for blocks: an exception of a part is one of the whole |
| Composition.LinesConserved | timApp/document/documentparser.py:244-251 | The chunks hold every nonblank line exactly once, in order |
| Composition.LineInChunk | timApp/document/documentparser.py:244-251 | Every nonblank line lies in some chunk |
| Composition.NothingMerged | timApp/document/documentparser.py:253-279 | With every break flag on, the blocks are the fully split ones |
| Composition.FlagsOnlyMerge | timApp/document/documentparser.py:253-279 | Under any flags the blocks are the fully split blocks in consecutive groups: each group keeps everything of its first block but the text, which is the blank-line join; nothing is merged into a plugin or atom block, and a new group begins only where it must |
| PlainTexts.PlainTextParses | timApp/document/documentparser.py:418-432 | A text whose line breaks are newlines, without a line that opens a heading or fence, with text on its first line and none of it ending in whitespace, is under any options one plain paragraph of exactly this text, without attributes, id and hash; if empty lines break, it must have no blank line |
| PlainTexts.EmptyLineBetween | timApp/document/documentparser.py:253-283 | Two such texts with an empty line between them are two paragraphs exactly when empty lines and plain paragraphs break, and otherwise one |
| PlainTexts.LeadingBlank | timApp/document/documentparser.py:442-450 | A blank line in front of a text changes nothing |
| BlockTexts.BlocksOfText | timApp/document/documentparser.py:230-394 | The lines of a text are those of its blocks one after the other, with only blank lines between them; each block reaches to the next line that opens one, to its closing fence or to a blank line that breaks, has the kind and attributes that its first line says, and its text has all of its lines but a dropped first line, the list of that line, blank lines at the ends and trailing whitespace, plus a missing or incomplete end marker; it is in error exactly when it is code whose last line is read with a list |
| BlockTexts.ParsedBlocks | timApp/document/documentparser.py:230-283 | The same under any options, with the groups of blocks that are merged |
| BlockTexts.NoLineLost | timApp/document/documentparser.py:230-394 | Every nonblank line that is no heading, no fence and no part of an end marker is a line of the text of some block, up to trailing whitespace when it is the last one |
| CodeBlocks.ClosingShape | timApp/document/documentparser.py:359-390 | However a fence ends, its completed lines end with the marker and repeat it nowhere else |
| CodeBlocks.FirstLineKeepsMarker | timApp/document/documentparser.py:349-350 | Cutting an attribute list off a fence line and stripping it keeps its marker |
| CodeBlocks.CodeBlocksClosed | timApp/document/documentparser.py:333-394 | Every code block parsed from any text has at least two lines, its last line starts with its opening marker and no interior line does; the missing-newline exception never occurs |
| CodeBlocks.CodeBlockStable | timApp/document/documentparser.py:333-394 | Parsing a code block's text again gives one code block with the same text if and only if its first line opens no attribute list |
| CodeEnds.EndMeans | timApp/document/documentparser.py:147-155 | The check finds attributes at the end of a text exactly when its last line begins with as many backticks as the text and is read with a list, and raises exactly when reading such a line does |
| CodeEnds.NoNewline | timApp/document/documentparser.py:148-148 | Without a newline it raises the exception that validation catches |
| CodeEnds.CodeEndsMean | timApp/document/documentparser.py:280-282 | A parsed block is in error exactly when it is code, fenced by backticks or tildes, and its last line is read with a list |
| CodeEnds.ValidatorReportsEnds | timApp/document/documentparser.py:169-175 | The validator reports the end of a parsed block under the same condition |
| CodeEnds.ListedEndReported | timApp/document/documentparser.py:147-177 | A fence closed by a line with any printed list is one code block, in error and reported |
| ParagraphAttributes.AttributesReadBack | timApp/document/documentparser.py:434-440 | What is read from a written paragraph, less its built-in keys, is its attribute map, the language of a code block included |
| RoundTrip.HashRoundTrip | timApp/document/documentwriter.py:67-75 | Plain text under a `#-` line is read back with the same text, id, hash and attributes |
| RoundTrip.HeaderRoundTrip | timApp/document/documentwriter.py:76-81 | A header paragraph is read back from the list on its first line |
| RoundTrip.CodeRoundTrip | timApp/document/documentwriter.py:76-81 | A code paragraph is read back from the list on its fence |
| RoundTrip.FencingTransparent | timApp/document/documentwriter.py:48-66 | A clean text inside a fence of any length is read back unchanged, with its attributes, if and only if none of its lines begins with the fence |
| RoundTrip.FenceTooShort | timApp/document/documentparser.py:351-357 | A line that begins with the fence ends the block early, with less text |
| AtomFences.FenceSuffices | timApp/document/documentwriter.py:51-58 | The chosen fence is long enough for every text of several blocks whose fences are backtick code fences with closing lines no longer than their opening lines |
| AtomFences.TildeFenceBreaks | timApp/document/documentwriter.py:51-58 | It is not long enough for a tilde fence with three backticks in it, followed by a header |
| AtomFences.NestedAtomBreaks | timApp/document/documentwriter.py:51-58 | However long the fence of a written atom is, the fence chosen for a text of the atom and a header is too short |
| DocumentRoundTrip.ParWritten | timApp/document/documentwriter.py:36-84 | The text written for a well-formed paragraph consists of exactly the carrier line, the lines of the text and, for an atom, the fence |
| DocumentRoundTrip.ParRoundTrip | timApp/document/documentwriter.py:36-84 | These lines, with any empty lines after them, parse to one block: the paragraph |
| DocumentRoundTrip.ListPlaced | timApp/document/documentwriter.py:71-81 | For any paragraph of one block, the list goes under a `#-` line if it is plain text, and otherwise behind the first line of the block |
| DocumentRoundTrip.FencePlaced | timApp/document/documentwriter.py:48-66 | A paragraph of several blocks is put between fences of backticks, one longer than the longest that opens a code block of it |
| BareTexts.BareRoundTrip | timApp/document/documentwriter.py:68-70 | A plain paragraph whose list is empty is read back from its exported text as one block of exactly this text, without attributes, if and only if there is text on its first line |
| BareTexts.BareJoins | timApp/document/documentwriter.py:68-70 | Such a paragraph after a header, a plain or a `#-` paragraph with text is written exactly as if the two were one paragraph, whatever is before and after them |
| BareParagraphs.AfterFence | timApp/document/documentparser.py:230-251 | After a closed fence anything begins a new block |
| BareParagraphs.TextGrows | timApp/document/documentparser.py:418-432 | After text, more plain lines only make the last block longer |
| DocumentRoundTrip.DocumentRoundTrip | timApp/document/documentwriter.py:36-84 | For every list of well-formed paragraphs, those without a list included, parsing the written text gives exactly these paragraphs in order, with text, id, hash and attributes, if and only if none without a list comes right after text; there is one block fewer for each that does |
| DocumentRoundTrip.SingleRoundTrip | timApp/document/docparagraph.py:562-564 | Under the options for single paragraphs, a well-formed paragraph of at most one block is read back from its exported text |
| ParsedAttributes.TextSolid | timApp/document/documentparser.py:434-440 | Every block of every text has texts as attributes, lists of classes apart, without line breaks and under keys without spaces or equals signs, and no id or hash among them |
| AttributeInk.CollectedCosts | timApp/document/attributeparser.py:54-160 | If reading a list collects some parsed entries with distinct keys, the list has at least the ink that these entries cost |
| AttributeInk.BodyInk | timApp/document/documentwriter.py:86-109 | Printing spends no more ink than the wanted entries cost, and as much only if all of them are written, task ids are names and classes are lists |
| AttributeInk.CleanWhenKept | timApp/document/documentwriter.py:86-109 | Stripping a printed list takes no ink from its entries only if the first does not begin, and the last does not end, in whitespace |
| AttributeSurvival.FoundUnmarked | timApp/document/attributeparser.py:54-87 | No list that reaches the end of its line is read with a key that begins with `#` or `.` |
| AttributeSurvival.BraceKeyEnds | timApp/document/attributeparser.py:54-87 | A printed list with a key that begins with a closing brace is not read as a list, whatever is before that key |
| AttributeSurvival.ListSurvives | timApp/document/documentwriter.py:86-109 | A list of parsed entries with distinct keys is read back from its print if and only if every entry prints and neither outer end is whitespace |
| AttributeSurvival.ParsedAttributesSurvive | timApp/document/documentwriter.py:21-109 | The attributes, id and hash of a parsed block are read back from the list printed for it, together with the language of its line, if and only if they survive: the conditions listed above |
| AttributeSurvival.TextAttributesSurvive | timApp/document/documentwriter.py:21-109 | The same for every block of every text and every order of its attributes |
| AttributeSurvival.NoLaterList | timApp/document/attributeparser.py:41-52 | No list that begins at a brace inside the printed one gives back the paragraph, since less ink is left behind that brace than the paragraph needs |
| AttributeSurvival.LineSurvives | timApp/document/documentwriter.py:67-82 | A first line without braces, written with the list of its paragraph, is read with the paragraph's attributes, id and hash if and only if they survive |
| AttributeSurvival.OneAttribute | timApp/document/documentwriter.py:21-109 | A header with one attribute is parsed to a block of that attribute. It survives if and only if the writer does not leave its key out, the key is not `classes`, and it is a task id that is a name not ending in whitespace or another key that does not begin in whitespace |
| AttributeSurvival.IgnoredLost | timApp/document/documentwriter.py:21-30 | The header `# x {h="1"}` loses its attribute |
| AttributeSurvival.SpacedTaskLost | timApp/document/documentwriter.py:95-96 | A task id `a b` given as a value is lost |
| AttributeSurvival.TextClassesLost | timApp/document/documentwriter.py:97-98 | Classes given as the text `ab` are lost |
| AttributeSurvival.TextClassesSplit | timApp/document/documentwriter.py:97-98 | They are printed as `.a .b` and read back as a list of two classes |
| AttributeSurvival.TabSurvivesInside | timApp/document/documentwriter.py:109-109 | A key that begins with a tab survives behind another attribute and is lost at the beginning |
| CarrierWitnesses.CarrierHides | timApp/document/documentwriter.py:67-82 | Whatever attribute the header `# {.a` is given, its own brace opens the list that is read |
| CarrierWitnesses.ListedCodeChanges | timApp/document/documentparser.py:333-394 | A fence line with two lists is parsed to a code block whose text is not parsed to it again |
| ParsedShapes.ParsedShape | timApp/document/documentparser.py:230-283 | Every block of every text has a clean text, and one of the shape of its kind: closed code, one header with plain lines, or plain lines |
| ParsedShapes.ParsedIsGood | timApp/document/documentwriter.py:36-84 | A parsed block is a well-formed paragraph whenever its attributes survive, the language of its first line included, and can be put to its text: the first line of a header or of code can carry them, a text of several blocks can be fenced, and plain text has an attribute or text on its first line |
| ParsedShapes.BlockSurvives | timApp/document/documentwriter.py:36-109 | A parsed block that is no atom and has a first line without braces is read back from the lines written for its own paragraph, text and attributes, if and only if its attributes survive |
| ParsedShapes.ParsedRoundTrip | timApp/document/documentwriter.py:36-84 | Such a document, written and parsed again, has the same blocks (texts, attributes, and the ids and hashes that are exported) if and only if no paragraph that is written without a list comes right after text |
| Validation.StepsMeanStructure | timApp/document/documentparser.py:157-228 | The conditions checked block by block hold for all blocks if and only if the document is well structured: ids, task ids and area names occur once, every area ends once in a later block, and any two classed areas are disjoint or nested |
| Validation.TopMeansNests | timApp/document/documentparser.py:205-222 | The comparison with the top of the stack is exactly the nesting condition |
| Validation.PopStack | timApp/document/documentparser.py:205-222 | After an end the stack holds the classed areas still open, in the order they started |
| Validation.StackEmpties | timApp/document/documentparser.py:157-228 | When every area has ended, the stack is empty |
| Validation.CheckAreas | timApp/document/documentparser.py:192-222 | One block's area checks report exactly the issues of the area it starts and of the one it ends, and update the sets and the stack |
| Validation.CheckAll | timApp/document/documentparser.py:157-222 | The loop reports exactly the issues of all blocks, or raises if and only if the end of a code block does |
| Validation.NoIssueIsStructure | timApp/document/documentparser.py:157-228 | A document has no issue and no area without an end if and only if it is well structured, and then the stack is empty at the end |
| Validation.DoValidateStructure | timApp/document/documentparser.py:157-228 | The pass reports exactly the issues of the blocks and the areas without an end, none if and only if the document is well structured, and raises if and only if the end of a code block raises |
| ValidationIssues.ReportedWhen | timApp/document/documentparser.py:165-222 | Every issue but overlapping areas is reported exactly when the blocks say so: an id, task id, area or area end twice, an invalid name, an area that ends in its own block, an end without an earlier start, or code that ends in a list |
| ValidationIssues.EndlessWhen | timApp/document/documentparser.py:223-227 | An area without an end is reported exactly when a block starts it and none ends it |
| ValidationIssues.OverlapWhen | timApp/document/documentparser.py:205-215 | In a document that is in order so far, an overlap is reported exactly when a block ends a classed area while one that started later is open, and the last started one is named |
| ParsedValidation.ViewIsFaithful | timApp/document/documentparser.py:165-206 | What the pass looks at in a parsed block is its id and its attributes |
| ParsedValidation.ParsedNeverRaises | timApp/document/documentparser.py:143-155 | With every break flag on, no block of a text that parses makes the pass raise |
| ParsedValidation.ValidateStructure | timApp/document/documentparser.py:143-145 | Validating a text reports exactly the issues of its parsed blocks, none if and only if the parsed document is well structured |
| Rounding.Round2Monotone | timApp/answer/answers.py:1163-1173 | Rounding to 2 decimals keeps order |
| Rounding.Round4IsNear | timApp/answer/answers.py:611-627 | Rounding to 4 decimals moves a number by at most 0.00005 |
| Rounding.RoundsToNearest | timApp/answer/answers.py:1163-1173 | Rounding gives the nearest multiple of the last decimal, the even one of two |
| AnswerTally.LatestIsNewest | timApp/answer/answers.py:737-762 | The pass finds the answer with the largest id and the valid answer with the largest id |
| AnswerTally.TimesAreExtremes | timApp/answer/answers.py:763-770 | The times found are the earliest and the latest of the pair |
| AnswerTally.RowOrderIrrelevant | timApp/answer/answers.py:737-770 | Both are the same for any order of the rows |
| AnswerTally.AnnotationOrderIrrelevant | timApp/answer/answers.py:818-826 | Review points are the same for any order of the annotations |
| AnswerTally.UserAnswerInfo.NoteTime | timApp/answer/answers.py:763-770 | Updates the earliest and latest time and nothing else |
| AnswerTally.CollectRows | timApp/answer/answers.py:733-770 | One record for every pair with a row, all separate, with its times, and the latest answers of every pair |
| AnswerTally.SelectAnswers | timApp/answer/answers.py:772-798 | Exactly the pairs with an answer under the count rule are kept, with that answer noted, and every kept record is filed under its answer |
| AnswerTally.RuleSelects | timApp/answer/answers.py:772-798 | Which answer a count rule selects, in terms of the rows: with only valid answers the valid row with the largest id, with any answer the row with the largest id, with valid and then invalid ones the former if the pair has a valid row and else the latter |
| AnswerTally.VelpSumMeans | timApp/answer/answers.py:818-826 | Review points are there exactly when some annotation of the answer has points other than zero, and then their sum |
| AnswerTally.AddAnnotations | timApp/answer/answers.py:818-826 | Every kept record gets the sum of the nonzero annotations of its answer, shared answers included |
| AnswerTally.TallyAnswers | timApp/answer/answers.py:733-826 | The whole selection: kept are exactly the pairs with a selected answer, no user is left without tasks, and each record holds that answer and its points, which by the rows alone are what the count rule asks for, its times and its review points |
| Grouping.UserTaskEntry.Update | timApp/answer/answers.py:652-676 | Merges one record into an entry: counts and points added, times widened |
| Grouping.UserTaskEntry.UpdateTotals | timApp/answer/answers.py:611-627 | Fills in the duration and the rounded points and total |
| Grouping.MergeInto | timApp/answer/answers.py:652-676 | Merging a record into one of several entries merges it into their sum |
| Grouping.MergedExtremes | timApp/answer/answers.py:652-676 | Merged sums hold the earliest and latest time, and points exactly when a member has points |
| Grouping.GroupByDoc | timApp/answer/answers.py:861-867 | The documents in the order of their first tasks, each with its records in order |
| Grouping.Collect | timApp/answer/answers.py:841-910 | Each grouping returns, user after user, the entries of that user, and none for users without tasks |
| Grouping.GroupingsAgree | timApp/answer/answers.py:841-910 | Before rounding, the sums of the documents of a user merge to the sums of all tasks of the user |
| Grouping.EntriesAgree | timApp/answer/answers.py:841-910 | The returned entries by task and by document merge to the entry by user: equal counts and times, points in both or in neither, and points and totals of n entries at most (n + 1) times 0.00005 away |
| EntryLaws.DocOfMeans | timApp/answer/answers.py:867-867 | The document of a task is the part of its name before the first dot |
| EntryLaws.DocItems | timApp/answer/answers.py:861-868 | A document has the records of exactly its tasks, in order |
| EntryLaws.DocsInOrder | timApp/answer/answers.py:861-868 | The documents are those of the tasks, in the order of their first tasks |
| EntryLaws.EntryAddsUp | timApp/answer/answers.py:652-676 | The sums of records count the answered and the reviewed ones and add up the points that are there |
| EntryLaws.EntriesMean | timApp/answer/answers.py:841-910 | The entries of a user: one for all records, one for each record under its task, or one for each document; with rounded points, their rounded total and the duration |
| PointRules.GroupTasks | timApp/answer/answers.py:1298-1315 | Every task goes into each of its groups, or into its own when groupless tasks are included |
| PointRules.SumGroups | timApp/answer/answers.py:1316-1372 | The rounded and clamped sums of all groups |
| PointRules.GetPointsByRule | timApp/answer/answers.py:1220-1395 | One result for every user with groups: the rounded sums of the counted groups, or of the first group when a total is asked for |
| PointLaws.SortedIsPermutation | timApp/answer/answers.py:1373-1377 | Sorting orders the groups, scoreless ones last for best and first for worst, and neither loses nor changes a score |
| PointLaws.SortIsStable | timApp/answer/answers.py:1373-1377 | Groups of equal totals keep their order and their other sums |
| PointLaws.GroupTotalIsNearest | timApp/answer/answers.py:1337-1351 | A group's total is the number within the group's limits nearest to its counted points, and missing exactly when they are |
| PointLaws.FrontIsSmallest | timApp/answer/answers.py:1378-1394 | No choice of as many scores sums to less than the front of an ascending order |
| PointLaws.FrontIsLargest | timApp/answer/answers.py:1378-1394 | No choice of as many scores sums to more than the front of a descending order |
| PointLaws.CountedScores | timApp/answer/answers.py:1373-1394 | The counted slots hold exactly the first scores of the order, as many as the slots left by scoreless groups |
| PointLaws.CountingIsOptimal | timApp/answer/answers.py:1373-1394 | For any task and group order, no choice of as many scored groups sums to more than what `best` counts, or to less than what `worst` counts |
| PointLaws.CountingIsAChoice | timApp/answer/answers.py:1373-1394 | What is counted is itself such a choice, so the bound is reached |
| PointLaws.TotalIsRounded | timApp/answer/answers.py:1388-1394 | The user's total is that sum rounded to 2 decimals, and none if no counted group has a score |
| CountedGroups.UserSumsMean | timApp/answer/answers.py:1373-1394 | A user's task, review and total points are the rounded sums over the groups that come first in counting order, ties in their order and as many as a Python slice takes; for a total rule they are those of the first group alone |
| CountedGroups.GroupSumsMean | timApp/answer/answers.py:1319-1354 | A group sums the task and review points that it counts, and its total is their sum moved into its limits |
| CountedGroups.GroupSettings | timApp/answer/answers.py:1298-1312 | A task that is counted under its own name counts fully and without limits, and a configured group counts as configured |
| PointMonotonicity.GroupRaised | timApp/answer/answers.py:1319-1351 | Raising tasks never lowers a group's total, rounding and limits included |
| PointMonotonicity.SortedRaised | timApp/answer/answers.py:1373-1377 | Raising groups raises every position of the sorted order |
| PointMonotonicity.PointsAreMonotone | timApp/answer/answers.py:1298-1395 | Raising existing points of any tasks lowers neither the total of any group nor the user's total, for best, worst and total rules |
| TallyMonotonicity.TotalsAreMonotone | timApp/answer/answers.py:1220-1395 | Raising the points of selected answers or of their reviews never lowers the user's total, through both roundings, the groups, their limits, sorting and counting |
| PointMonotonicity.GroupsHoldTasks | timApp/answer/answers.py:1298-1315 | A group of a user holds exactly the user's tasks that belong to it, in order |
| SavedAnswers.FoundMeans | timApp/answer/answers.py:67-84 | The query finds exactly the answers of groups that include all the users asked for, if these are distinct and not none, and every answer to a global task |
| SavedAnswers.AnswerTable.GetExistingAnswersInfo | timApp/answer/answers.py:543-549 | The place of the last answer found, and the number of places where one is found |
| SavedAnswers.AnswerTable.SaveAnswer | timApp/answer/answers.py:136-224 | One call yields the specified table, raises exactly for too large contents and for added answers that would list a user twice, and reports whether an answer was added |
| SavedAnswers.SaveIsSeen | timApp/answer/answers.py:170-224 | Users whose answers are found see a call of their own as if the table held only what they see |
| SavedAnswers.SaveKeepsApart | timApp/answer/answers.py:103-120 | Any call keeps the consecutive answers that any users see different if and only if it is rejected, says nothing new, writes nothing that they see, or differs from the neighbours of the answer it writes |
| SavedAnswers.RunsNeverRepeat | timApp/answer/answers.py:170-224 | No run of unforced calls without overwriting leaves two consecutive answers of some users with equal content and validity, whoever else saves in between, unless the task is not global and a call is for a larger group that includes them all |
| SavedAnswers.GlobalNeverRepeats | timApp/answer/answers.py:67-84 | On a global task no such run, by whatever users, leaves two consecutive answers alike |
| SavedAnswers.SavedOnce | timApp/answer/answers.py:67-84 | Saving the same content twice stores it once for distinct users who see what they save, not at all for a user listed twice, and twice for no users on a task that is not global |
| SavedAnswers.NoUsersRepeat | timApp/answer/answers.py:67-84 | With no users, saving twice repeats the content |
| SavedAnswers.LargerGroupRepeats | timApp/answer/answers.py:67-84 | For any two users and contents, a call for both of them can repeat an answer of one of them |
| SavedAnswers.OverwritingRepeats | timApp/answer/answers.py:170-224 | Overwriting can bring two equal answers together |
| SavedAnswers.RunsKeepContents | timApp/answer/answers.py:170-224 | No run without overwriting, whoever saves, loses an answer or changes its content, validity, time or users |
| SavedAnswers.OverwritingKeepsOne | timApp/answer/answers.py:170-224 | Runs that always overwrite, of one list of users or of anyone on a global task, keep at most one answer |
| SavedAnswers.SaveTakesEffect | timApp/answer/answers.py:170-224 | After an accepted call the latest answer its users see has the saved content, validity, modifier and the points without round-off, and the earlier ones have not changed; it is a new one of the users and the time of the call, the overwritten one with that time, or, if nothing new was said, the old one with its time; except for an unchosen radio button before any answer |
| SavedAnswers.RejectedWhen | timApp/answer/answers.py:170-216 | A call raises exactly when its content is longer than the limit, or when it would add an answer and lists a user twice |
| Bookmarks.BookmarkList.DeleteItemFromGroup | timApp/bookmark/bookmarks.py:142-146 | Removes the first bookmark of the name |
| Bookmarks.BookmarkList.AddItemToGroup | timApp/bookmark/bookmarks.py:160-180 | Relinks, inserts, moves to the top and cuts to the limit as specified |
| Bookmarks.BookmarkList.AddBookmark | timApp/bookmark/bookmarks.py:58-91 | Adds to the first group of the name or to a new last group; the other groups do not change |
| Bookmarks.BookmarkList.DeleteBookmark | timApp/bookmark/bookmarks.py:124-140 | Deletes from the first group of the name only |
| Bookmarks.BookmarkList.AddGroup | timApp/bookmark/bookmarks.py:182-195 | Adds an empty group unless there is one of the name |
| Bookmarks.BookmarkList.DeleteGroup | timApp/bookmark/bookmarks.py:148-158 | Keeps exactly the groups of other names, in order |
| Bookmarks.RecentIsUsed | timApp/bookmark/bookmarks.py:160-180 | Every bookmark of the recency list is the last use of its name in the history |
| Bookmarks.UsedIsRecent | timApp/bookmark/bookmarks.py:160-180 | The last use of every name is in the recency list |
| Bookmarks.RecentOrdered | timApp/bookmark/bookmarks.py:160-180 | The recency list is ordered by last use, newest first |
| Bookmarks.RecentDistinct | timApp/bookmark/bookmarks.py:160-180 | It holds every name once |
| Bookmarks.BoundedRecency | timApp/bookmark/bookmarks.py:58-91 | After any history of additions to a new group with a fixed limit of at least 1, the group is the first part of the recency list, of that length at most, and no other group changed |
| Bookmarks.LimitRespected | timApp/bookmark/bookmarks.py:76-91 | A new group respects the limit if and only if it is at least 1 |
| Bookmarks.PlainAddKeepsOrder | timApp/bookmark/bookmarks.py:160-180 | Without moving and limit, a new name is put in front and a known one only gets the link |
| Bookmarks.NewInFront | timApp/bookmark/bookmarks.py:160-180 | A new name is put in front, and the list is cut as a Python slice cuts it |
| Bookmarks.KnownInFront | timApp/bookmark/bookmarks.py:160-180 | A known name that is moved is taken out of its place and put in front with the new link |
| Bookmarks.FirstDeleted | timApp/bookmark/bookmarks.py:142-146 | Deleting takes out the first bookmark of the name and nothing else |
| Bookmarks.OtherGroupsStay | timApp/bookmark/bookmarks.py:148-158 | Deleting a group keeps exactly the groups of other names, whole and in order |
| Scheduler.ModelEntry.IsDue | timApp/celery_sqlalchemy_scheduler/schedulers.py:127-164 | The check, what it changes in the entry, and when the row is written |
| Scheduler.ModelEntry.Next | timApp/celery_sqlalchemy_scheduler/schedulers.py:174-182 | Counts the run unless the task has expired |
| Scheduler.ModelEntry.Save | timApp/celery_sqlalchemy_scheduler/schedulers.py:186-205 | Writes the run data always, and the enabled flag on request, to an existing row |
| Scheduler.DispatchedWhen | timApp/celery_sqlalchemy_scheduler/schedulers.py:127-164 | A task is sent if and only if it is enabled, started, not expired, not a spent one-off, and due by its schedule |
| Scheduler.RecheckedWhen | timApp/celery_sqlalchemy_scheduler/schedulers.py:127-164 | When the entry is checked again, and what the check changes in the task: only its flags, and the run count of a spent one-off, which is taken back |
| Scheduler.RunCounted | timApp/celery_sqlalchemy_scheduler/schedulers.py:174-182 | A sent task has its run counted with its time, unless it expired before that, and nothing else of it changes but a flag |
| Scheduler.StepKeepsInvariant | timApp/celery_sqlalchemy_scheduler/schedulers.py:127-182 | Every step that loses no reservation keeps that a sent one-off has its run counted, is off or is past its expiry, in the entry and, once written, in the row |
| Scheduler.LossKeepsInvariant | timApp/celery_sqlalchemy_scheduler/schedulers.py:403-424 | Losing a reservation, by a failed write or by reading the schedule anew while writing, keeps this if and only if the reservation was not needed: the task is not a one-off, or off, or the row counts a run, or it has expired |
| Scheduler.OneOffRunsOnce | timApp/celery_sqlalchemy_scheduler/schedulers.py:127-182 | In every run with nondecreasing times that loses no needed reservation, a one-off task is sent at most once per enabling, also when it expires between check and count |
| Scheduler.OneOffRunsAgain | timApp/celery_sqlalchemy_scheduler/schedulers.py:146-154 | A one-off that has run is switched off by the next check, and is sent again when it is switched on again and due |
| Scheduler.DisabledStays | timApp/celery_sqlalchemy_scheduler/schedulers.py:127-130 | A disabled entry is not sent and does not change until the schedule is read again |
| Scheduler.LossRepeats | timApp/celery_sqlalchemy_scheduler/schedulers.py:403-424 | After the loss of a needed reservation the task is sent a second time once the schedule is read anew |
| Scheduler.LostReservation | timApp/celery_sqlalchemy_scheduler/schedulers.py:403-424 | A run of check, sync and check that sends a one-off task twice, because the sync reads the schedule anew after taking the entry off its list |
| Template.PyTemplate.FindCaptures | cli/util/template.py:39-58 | The one-pass scan finds the specified captures |
| Template.PyTemplate.Render | cli/util/template.py:60-74 | The splicing loop yields the text with every capture replaced |
| Template.CapturesWellPlaced | cli/util/template.py:39-58 | Captures are in order and disjoint, each after `${` and before a closing brace |
| Template.CapturesBalanced | cli/util/template.py:39-58 | Every capture is brace-balanced |
| Template.CapturesComplete | cli/util/template.py:39-58 | Every `${` lies in a capture or opens one, unless it or an earlier opening is never closed |
| Template.RenderUnresolved | cli/util/template.py:60-74 | If no capture can be resolved, the template is returned unchanged, whatever its braces |
| DocPaths.NormalizeDocPath | timApp/document/docentry.py:141-162 | The loop over the segments yields the resolved path |
| DocPaths.NormalIsProper | timApp/document/docentry.py:141-162 | A normalised path has no empty, `.` or `..` segment |
| DocPaths.SurvivorsAre | timApp/document/docentry.py:152-162 | The segments that survive are found by a scan from the end that counts double dots |
| DocPaths.Idempotent | timApp/document/docentry.py:141-162 | Normalising again changes nothing if and only if the first surviving segment of the stripped path does not begin, and the last does not end, in whitespace |
| DocPaths.IdempotentWithoutSpaces | timApp/document/docentry.py:141-162 | Paths without whitespace are normalised idempotently |
| DocPaths.SpaceBreaksIdempotence | timApp/document/docentry.py:141-162 | A path that is not |
| DocPaths.NormalComposes | timApp/document/docentry.py:141-162 | Normalising the front of joined paths first makes no difference, whatever follows, if and only if the front is blank, or does not end in whitespace and its first surviving segment does not begin in it |
| DocPaths.UpUndoesDown | timApp/document/docentry.py:141-162 | A proper segment followed by `..` changes nothing if and only if the path before it is blank or does not end in whitespace |
| DocPaths.RootAbsorbs | timApp/document/docentry.py:141-162 | A leading `..` is as good as a leading slash, and makes a difference if and only if the path without trailing whitespace begins in whitespace and no later double dots drop its first segment |

## Left out

- AttributePrinting.AttributesRoundTrip: covers text values and the class list, which is what parsed paragraphs have.
- DocumentWriting.DocumentWriter.AttrsToStr: a task id that is not a text and a value under `classes` that cannot be iterated over, on which the code raises, are excluded. Numbers, and lists under other keys, are known only by what `str` makes of them.
- DocumentRoundTrip.DocumentRoundTrip: is about the default writer options. The paragraph dictionary has its fixed four keys; with the HTML cache it has one more, which the writer ignores. In a list of several, a paragraph without attributes must have text on its first line: one without any text is written as an empty line, and leading blank lines are lost (`BareRoundTrip`).
- RoundTrip.FencingTransparent: the language of a paragraph of several blocks is not exported by the writer, so such a paragraph must not have one.
- ParsedShapes.ParsedRoundTrip: an atom of a single block is written without its fence, as the code does, and must then have one of the shapes of a paragraph; a header line with whitespace at its end and code that is not closed are not covered.
- ParsedShapes.BlockSurvives: with braces in the first line, or for atoms, only the direction of `ParsedRoundTrip` is stated.
- DocumentRoundTrip.SingleRoundTrip: paragraphs of several blocks, which these options merge and write without a fence, are not covered.
- Validation.DoValidateStructure: issues are told apart by kind and name; their message texts, the merging of ids in `ErrorSet` and the checks of id and name syntax (predicates here) are not modelled. Blocks carry their kind; guessing it from the text (`check_if_code`) is not modelled.
- Grouping.Collect: the iteration order of the dictionaries is an input, and the records are grouped by document user by user instead of for all users first.
- PointRules.GroupTasks: matching of task ids by regular expressions is a function from task ids to group names; the per-user task counts of `count_all` are not modelled.
- PointRules.SumGroups: dates and task counts of groups are not modelled.
- PointRules.GetPointsByRule: the path without a rule, the entries added by `force` and `force_user`, and the flattening to the result list with its links are not modelled.
- AnswerTally.TallyAnswers: starts from the rows of the queries; building the queries, and the variant that does everything in SQL and is switched off, are left out.
- SavedAnswers.AnswerTable.SaveAnswer: origin, saver and tags of an answer, and points given as text, are not modelled.
- Scheduler.OneOffRunsOnce: one entry; the only outside edit of the row is switching the task on. Crontab arithmetic is an arbitrary answer, and the heap of the scheduler base class is not part of this model.
- Template.PyTemplate.Render: evaluation of a captured text is an arbitrary function that gives a text or fails with an unknown name or a syntax error; other exceptions, other values, the template context and file access are left out.
- Bookmarks.BookmarkList.AddBookmark: every group and every bookmark has one key, as all of the code creates them.
- Points are exact; the error of binary floating point is not modelled.
- `str.splitlines`, `str.isspace` and `str.strip` follow Python for the line boundaries and whitespace characters listed in `Text`.
- Routes, sessions, permissions, mail, caches, plugins and file access.
