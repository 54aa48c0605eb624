# Finnish vocabulary cards: a Dafny model

The repository is a pipeline of Python scripts that makes illustrated Finnish
vocabulary cards for a topic. `main.py` starts each stage as a child
process, in this order:

1. `generate_word_list.py` asks a language model for words. It recovers
   entries from the reply by one of three JSON strategies or by a line
   heuristic, and falls back to a built-in list.
2. `verify_grammar.py` asks the model to approve or correct each entry,
   then drops entries whose lower-cased word repeats.
3. `generate_illustrations.py` builds an image prompt per word. It centres
   the returned square image on a white canvas of the requested aspect,
   saves it under a sanitised file name, and writes `mapping.json`.
4. The text-overlay script runs next, then the caption script. Neither is
   part of this model; `main.py` only starts them.

This project models those four scripts in Dafny and proves what they promise.

| module | file | models |
|---|---|---|
| `Wrappers` | wrappers.dfy | `Option`, `Result` |
| `Text` | text.dfy | the Python string builtins the scripts use: `strip`, `lower`, `find`, `rfind`, `split`, `splitlines`, `int()`, `str(int)`, slicing with a count |
| `JsonValue` | json.dfy | decoded JSON values, `dict.get`, `str()`; decoding is a parameter |
| `Dedup` | dedup.dfy | the "first occurrence wins" loop with a `seen` set that two scripts share |
| `DotEnv` | dotenv.dfy | the `.env` loader, as a class over the process environment |
| `Fence` | fence.dfy | the regular expression that finds a fenced JSON array, as leftmost-match and lazy-group semantics |
| `WordList` | word_list.dfy | `parse_words_from_text`, the fallback decision in `main`, `prompt_for_topic` |
| `Grammar` | grammar.dfy | `verify_and_fix_grammar` and that script's `main` |
| `Illustrations` | illustrations.dfy | `_sanitize_filename`, the canvas and placement arithmetic, both prompts, the mapping loop, `main`'s words mode |
| `Orchestrator` | orchestrator.dfy | `main.py`: the commands, their arguments and labels, the pre-checks, stopping at the first failure |

External inputs are parameters of the model:

- the language model's replies;
- the JSON decoder;
- the images the image model returns and their thumbnail sizes;
- the files on disk;
- each child process's exit status.

In these places the code does something its names or messages do not suggest; the model follows the code:

- The canvas height is `int(720 * h / w)`, truncated toward zero, not rounded (`Illustrations.CanvasTruncates`).
- A failing stage makes `main.py` exit with 1, not with the child's own status (`Orchestrator.StopsAtFirstFailure`).
- The line heuristic removes only a `digits.` numbering prefix. It cuts at a line's first `.` when the line starts with a digit. A `-` bullet stays part of the token (`WordList.NumberedLine`, `WordList.UnnumberedLine`).
- With a count of 0 the heuristic still returns one entry (`WordList.ZeroCountStillOne`). `main` then cuts the list to 0, so the file stays within the count (`WordList.WrittenWithinCount`).
- The scene title and the script length are read but not used in the scene prompt (`Illustrations.TitleIgnored`, `Illustrations.LengthIgnored`).
- Some exceptions are not caught, and the script exits non-zero. This happens for an entry that is not an object during grammar review, and for a final entry without a text word. The grammar script exits 0 on a missing or malformed input file (`Grammar.FailsOnlyWhenRaising`). The illustration script's words mode raises on a word that is not text, or, once an image came back, on a zero ratio width or a ratio that makes the canvas height negative (`Illustrations.MappingFails`, `Illustrations.NegativeRatios`). A zero height is not counted as raising; see "## Left out".
- A grammar reply that contains `CORRECT` anywhere approves the entry, so `INCORRECT` approves too (`Grammar.IncorrectApproves`).

## Model

| member | source | states |
|---|---|---|
| Text.StripCutsOnlySpace | generate_word_list.py:42 | `strip()` is trimming the front and then the back: the result is a slice of the input with only whitespace before and after it, and it neither starts nor ends with whitespace |
| Text.StripIdempotent | generate_word_list.py:290 | stripping a stripped string changes nothing |
| Text.Lower | verify_grammar.py:144 | same length, no ASCII capital is left, text without one is unchanged, and each character is kept or is the lower-case form of the capital in its place |
| Text.LowerIdempotent | verify_grammar.py:144 | lower-casing twice lower-cases nothing more |
| Text.LowerIgnoresCase | verify_grammar.py:144-147 | texts that differ only in the case of their letters lower-case alike, so they count as the same word |
| Text.Find | generate_word_list.py:258 | -1 exactly when the character is absent, else the index of its first occurrence |
| Text.RFind | generate_word_list.py:259 | -1 exactly when the character is absent, else the index of its last occurrence |
| Text.SplitOn | generate_illustrations.py:230 | at least one piece, no piece holds the separator, and joining the pieces with it gives back the input |
| Text.SplitOnce | generate_word_list.py:45 | None exactly when the separator is absent; otherwise the first piece has none and the pieces rebuild the input |
| Text.SplitLines | generate_word_list.py:280 | no line holds a line break and there are no more lines than characters |
| Text.SplitLinesOfNewlines | generate_word_list.py:280 | when `\n` is the only break, the lines are the `split('\n')` pieces less the empty piece after a final `\n` |
| Text.JoinSplitLines | generate_word_list.py:280 | joining the lines with `\n` rebuilds text whose only break is `\n` and that does not end with one |
| Text.SplitWs | generate_illustrations.py:72 | every word is non-empty and holds no whitespace |
| Text.FieldsBlank | generate_illustrations.py:72 | `split()` gives no words exactly when the text is all whitespace |
| Text.FieldsSkipGap | generate_illustrations.py:72 | leading whitespace does not change the words |
| Text.FieldsRun | generate_illustrations.py:72 | after any leading whitespace, a maximal run of other characters is the first word, and the words of the rest follow |
| Text.SplitWsOfJoin | generate_illustrations.py:71-73 | splitting words joined by single spaces gives back the words |
| Text.FieldsOfJoin | generate_illustrations.py:71-73 | splitting on a separator class undoes a join with one separator of that class |
| Text.ParseInt | generate_illustrations.py:232-233 | after stripping, text parses exactly when it is digit groups (digits joined by single `_`) with an optional `+` or `-` before them, and the value is the digits' number with that sign |
| Text.IntRoundTrip | main.py:106 | `int(str(n)) == n` for every integer, so the count passed as text is read back unchanged |
| Text.ParseNatString | main.py:106 | the decimal digits of a natural number parse back to it |
| Text.ParseNegativeString | main.py:106 | `str(n)` of a negative integer parses back to `n` |
| Text.TruncDiv | generate_illustrations.py:240 | the quotient's magnitude is the floor of the magnitudes' quotient; it is non-negative when the signs agree and non-positive when they differ |
| Text.PyTake | generate_word_list.py:227 | `s[:n]`: length `min(n, len)` for `n >= 0`, `max(0, len + n)` for negative `n`, and a prefix |
| Dedup.DedupKeySet | verify_grammar.py:139-150 | every key of the input survives in the kept elements |
| Dedup.DedupDistinct | verify_grammar.py:139-150 | no two kept elements share a key |
| Dedup.DedupLength | verify_grammar.py:141-149 | kept plus removed is the input's length |
| Dedup.DedupSubsequence | verify_grammar.py:143-147 | the kept elements appear in the input in the input's order |
| Dedup.DedupKeepsFirst | generate_word_list.py:296-298 | the first element with each key is kept |
| Dedup.DedupOfDistinct | verify_grammar.py:139-150 | input with distinct keys is returned unchanged |
| Dedup.DedupIdempotent | verify_grammar.py:139-150 | a second pass removes nothing |
| Dedup.DedupPrefix | generate_word_list.py:294-306 | the result for a prefix of the input is a prefix of the result, which is what stopping early relies on |
| Dedup.DedupMembers | verify_grammar.py:143-147 | every kept element is an element of the input |
| DotEnv.ParseEnvLine | generate_word_list.py:42-47 | a parsed line gives a non-empty, stripped key without `=` |
| DotEnv.SkippedLines | generate_word_list.py:42-44 | blank lines, `#` comments and lines without `=` set nothing |
| DotEnv.ParseWrittenLine | generate_word_list.py:42-47 | `KEY=VALUE` reads back as that key and value, for a stripped non-comment key without `=` and a stripped value with no quote at either end |
| DotEnv.ParseQuotedLine | generate_word_list.py:42-47 | `KEY="VALUE"` and `KEY='VALUE'` read back as the key and the unquoted value |
| DotEnv.Environ.LoadDotEnv | generate_word_list.py:36-51 | the environment becomes the lines read in order into the old environment when the file exists, and is unchanged otherwise |
| DotEnv.NeverOverrides | generate_word_list.py:48-49 | a variable set before loading keeps its value |
| DotEnv.DefinedKeysSet | generate_word_list.py:43-49 | the key of every well-formed line ends up set |
| DotEnv.FirstDefinitionWins | generate_word_list.py:41-49 | a key set by the file has the value of its first well-formed definition, and no earlier line defines it |
| Fence.SkipWs | generate_word_list.py:212 | `\s*`: the end of the longest whitespace run from the start position |
| Fence.GroupStart | generate_word_list.py:212 | the group starts past the three backticks |
| Fence.CloseFrom | generate_word_list.py:212 | a found closing position holds `]` and lies in the text |
| Fence.CloseFromCloses | generate_word_list.py:212 | a `]` found is followed, after whitespace, by three backticks |
| Fence.CloseFromFirst | generate_word_list.py:212 | the lazy `.*?` takes the first `]` that is followed by a closing fence |
| Fence.MatchAt | generate_word_list.py:212 | a match's group starts with `[` and ends with `]` |
| Fence.SearchFrom | generate_word_list.py:212 | the leftmost match's group starts with `[` and ends with `]` |
| Fence.FencedArray | generate_word_list.py:212-213 | a found group is bracketed |
| Fence.NoTickNoMatch | generate_word_list.py:212-213 | text with no backtick has no match |
| Fence.SearchSkips | generate_word_list.py:212 | positions without a backtick cannot start a match |
| Fence.CloseSkips | generate_word_list.py:212 | inside a backtick-free group ending in `]`, no earlier `]` closes the match |
| Fence.FencedArrayOf | generate_word_list.py:212-215 | after backtick-free prose, a `json`-tagged fence around a backtick-free array matches with exactly that array as its group |
| WordList.AcceptObject | generate_word_list.py:219-224 | an object is accepted exactly when it has `word`, `translation` and `example`; `word`, `translation`, `example` and a present `example_translation` are each the stripped `str()` of that field, and a missing `example_translation` is the example |
| WordList.BareEntry | generate_word_list.py:244-250 | a bare string gives the stripped string as word and translation, and the examples `Tämä on <s>.` and `This is <s>.` built from the unstripped string |
| WordList.AcceptItem | generate_word_list.py:236-250 | objects go through the object rule; strings are kept exactly when bare strings are allowed; other values are dropped |
| WordList.Accepted | generate_word_list.py:218-225 | no more entries than elements |
| WordList.CollectEntries | generate_word_list.py:217-225 | the element loop returns the accepted entries in order |
| WordList.AcceptedTrimmed | generate_word_list.py:219-250 | every accepted word is trimmed; without bare strings every field is |
| WordList.FromDecoded | generate_word_list.py:215-227 | an answer exactly when the decoded value is a list with an accepted element, and then the accepted entries cut to the count |
| WordList.BracketSpan | generate_word_list.py:258-261 | a span exactly when the last `]` comes after the first `[`, and then the text between them inclusive |
| WordList.RunStage | generate_word_list.py:215-227 | one strategy's loop agrees with its specification |
| WordList.RunFenced | generate_word_list.py:212-229 | the fenced strategy: the fenced group decoded, objects only |
| WordList.RunBracket | generate_word_list.py:257-276 | the bracket strategy: the bracket span decoded, objects only |
| WordList.PartTokensShape | generate_word_list.py:289-292 | every token kept from the comma pieces is longer than one character, holds no `,`, has no `'` at either end, and starts with neither `{` nor `[` |
| WordList.LineTokensShape | generate_word_list.py:280-292 | every token a line gives has that shape |
| WordList.LinesTokensShape | generate_word_list.py:279-292 | every token of the whole text has that shape |
| WordList.CleanTokenShape | generate_word_list.py:290-291 | a kept piece has the token shape |
| WordList.CollectLineTokens | generate_word_list.py:281-292 | one pass of the line loop returns that line's tokens |
| WordList.CollectPartTokens | generate_word_list.py:289-292 | the comma loop returns the kept tokens in order |
| WordList.CollectTokens | generate_word_list.py:279-292 | the line loop returns the tokens of every line, line by line |
| WordList.SelectDistinct | generate_word_list.py:294-307 | the `seen` loop returns templates of the first occurrences, stopping after `max(count, 1)` of them |
| WordList.HeuristicParse | generate_word_list.py:279-307 | the heuristic as run agrees with its specification function |
| WordList.ParseWordsFromText | generate_word_list.py:208-307 | the parser returns the first strategy's answer, else the heuristic's |
| WordList.ParseWordsBound | generate_word_list.py:208-307 | for a positive count the parser returns at most that many entries |
| WordList.DedupNonEmpty | generate_word_list.py:294-306 | a non-empty token list keeps at least one token |
| WordList.ZeroCountStillOne | generate_word_list.py:305-306 | with count 0, and tokens but no structured answer, the heuristic returns exactly one entry |
| WordList.FencedArrayWins | generate_word_list.py:212-227 | a fenced array with an accepted object after backtick-free prose is the answer, whatever follows |
| WordList.WholeTextWithoutFence | generate_word_list.py:232-252 | without a backtick, a whole-text array with an accepted element is the answer, bare strings included |
| WordList.BareStringsWholeTextOnly | generate_word_list.py:212-276 | only the whole-text strategy accepts bare strings, one entry each |
| WordList.StructuredTrimmed | generate_word_list.py:219-227 | a fenced answer is trimmed field by field |
| WordList.HeuristicShape | generate_word_list.py:294-307 | heuristic words are distinct, appear in the tokens in token order, and each entry is the template of its word |
| WordList.HeuristicKeepsFirst | generate_word_list.py:296-306 | the first appearance of a token is kept unless the cap was already reached |
| WordList.SkippedLines | generate_word_list.py:281-283 | blank lines and lines starting with a backtick, `[` or `{` give no tokens |
| WordList.NumberedLine | generate_word_list.py:284-287 | a line starting with a digit loses everything up to its first `.` |
| WordList.UnnumberedLine | generate_word_list.py:281-287 | any other kept line is only stripped |
| WordList.FallbackVocab | generate_word_list.py:54-58 | the built-in list is non-empty exactly for `furniture` |
| WordList.ExitOnlyWithoutTextOrFallback | generate_word_list.py:320-332 | the script exits, with status 1, exactly when neither client gave text and the lower-cased topic has no built-in list |
| WordList.WrittenWithinCount | generate_word_list.py:333-340 | for a non-negative count the written list never exceeds it |
| WordList.UnparsedTextWritesFallback | generate_word_list.py:334-340 | text that parses to nothing writes the built-in list cut to the count, even when it is empty |
| WordList.OfflineFurniture | generate_word_list.py:326-340 | offline, `Furniture` with count 3 writes the first three built-in words |
| WordList.PromptForTopic | generate_word_list.py:71-82 | the prompt names the topic and asks for exactly `count` distinct words |
| Grammar.BraceSpan | verify_grammar.py:101-104 | a span exactly when the last `}` comes after the first `{`; it starts at the first `{` and is braced |
| Grammar.CorrectAnywhereApproves | verify_grammar.py:92-96 | a stripped reply containing `CORRECT` anywhere approves the entry |
| Grammar.IncorrectApproves | verify_grammar.py:94-96 | the reply `INCORRECT` approves the entry |
| Grammar.CorrectionExactly | verify_grammar.py:94-113 | an entry is corrected exactly when the reply lacks `CORRECT` and its brace span decodes to an object, and then it is corrected by that object |
| Grammar.UnreadableKeepsEntry | verify_grammar.py:126-136 | a failed call or an unreadable correction keeps the entry and logs nothing |
| Grammar.MergeFields | verify_grammar.py:50-124 | the rebuilt entry has exactly the four fields, each from the correction, else the entry, else "" |
| Grammar.ReviewFaultPersists | verify_grammar.py:49-50 | a non-object in a prefix is the fault of the whole review |
| Grammar.ReviewOnePerEntry | verify_grammar.py:49-136 | the review completes exactly when every element is an object; it then gives one fixed entry per element, and otherwise raises at the first non-object |
| Grammar.IssuesStep | verify_grammar.py:107-113 | the last entry adds its own issue, if any, after the earlier entries' issues |
| Grammar.IssuesSound | verify_grammar.py:107-113 | each issue records the correction of the entry at its 1-based index |
| Grammar.IssuesOrdered | verify_grammar.py:49-113 | issue indices lie within the list and strictly increase |
| Grammar.IssuesComplete | verify_grammar.py:105-113 | every corrected entry has an issue |
| Grammar.FirstWithoutWord | verify_grammar.py:143-144 | the first entry whose word is missing or not text, or None when every entry has a text word |
| Grammar.DedupWordsFacts | verify_grammar.py:138-155 | the kept entries have distinct lower-cased words, keep the input order, plus the count removed account for all, and a second check drops nothing |
| Grammar.DedupWordsAgain | verify_grammar.py:138-155 | a second duplicate check keeps everything and counts nothing removed |
| Grammar.FirstSpellingKept | verify_grammar.py:143-147 | the first entry with each lower-cased word survives |
| Grammar.ReviewEntries | verify_grammar.py:49-136 | the loop gives the corrected entries and issues of the review, or the fault it raises |
| Grammar.DropDuplicateWords | verify_grammar.py:138-155 | the `seen` loop gives the duplicate check's result |
| Grammar.VerifyAndFixGrammar | verify_grammar.py:29-155 | the method computes the whole pass |
| Grammar.NoKeyNoChange | verify_grammar.py:34-39 | without a usable key the entries come back unchanged, with no issues |
| Grammar.PassAccounting | verify_grammar.py:29-155 | with a key, returned entries plus removed duplicates equal the input count, and every returned entry is an object with a text word |
| Grammar.FailsOnlyWhenRaising | verify_grammar.py:158-190 | the script exits non-zero exactly when the pass raises, which needs a list input and a key |
| Grammar.ReportOnlyWithIssues | verify_grammar.py:166-213 | the saved data is the pass's entries, saved to the input file or to a non-empty `--output`, and the report is written exactly when one was asked for and an issue was logged |
| Grammar.OutputPath | verify_grammar.py:166 | the input file when `--output` is absent or empty, and `--output` otherwise |
| Illustrations.KeepShape | generate_illustrations.py:175 | only `[a-z0-9_-]` survives the filter |
| Illustrations.Sanitize | generate_illustrations.py:172-176 | the name is non-empty and uses only `[a-z0-9_-]` |
| Illustrations.SanitizeTwoWords | generate_illustrations.py:172-176 | a padded, punctuated two-word greeting becomes the lower-cased words joined by `_` |
| Illustrations.SanitizeIdempotent | generate_illustrations.py:172-176 | a sanitised name sanitises to itself |
| Illustrations.SanitizeKeepsSafeName | generate_illustrations.py:172-176 | a non-empty name of `[a-z0-9_-]` only is kept unchanged, so every allowed character, digits and `-` included, survives |
| Illustrations.EmptyNameIsWord | generate_illustrations.py:176 | an empty name becomes `word` |
| Illustrations.NothingKeptIsWord | generate_illustrations.py:172-176 | a name with no allowed character, no ASCII capital and no whitespace becomes `word` |
| Illustrations.BlankNameIsWord | generate_illustrations.py:172-176 | an all-whitespace name becomes `word` |
| Illustrations.TopicFragment | generate_illustrations.py:257 | the fragment uses allowed characters, and is empty exactly when the topic is missing or empty |
| Illustrations.FileNameShape | generate_illustrations.py:256-258 | every file name is `word_`, a non-empty allowed middle, then `.png` |
| Illustrations.NoTopicNoSuffix | generate_illustrations.py:257-258 | without a topic the name is `word_<sanitised word>.png` |
| Illustrations.ParseAspect | generate_illustrations.py:230-235 | fewer than two parts, or a first or second part that is not an integer, fall back to 9:16; otherwise the ratio is those two integers and later parts are ignored |
| Illustrations.CanvasHeight | generate_illustrations.py:239-241 | the canvas cannot be made exactly when the width is 0 or the truncated height is negative |
| Illustrations.NegativeRatios | generate_illustrations.py:239-241 | 9:-16 gives a negative height and no canvas, while -1000:1 truncates the height to 0 |
| Illustrations.CanvasTruncates | generate_illustrations.py:240 | for positive parts the height is the floor of 720 h / w |
| Illustrations.ParseWrittenRatio | generate_illustrations.py:230-233 | `str(w) + ":" + str(h)` reads back as (w, h), also when further `:`-separated parts follow |
| Illustrations.NoColonIsPortrait | generate_illustrations.py:230-235 | text without `:` gives 9:16 and a 1280-pixel canvas |
| Illustrations.PortraitCanvas | generate_illustrations.py:230-240 | `9:16` gives a 1280-pixel canvas |
| Illustrations.LandscapeOverflows | generate_illustrations.py:240-250 | `16:9` gives a 405-pixel canvas, on which a 640-pixel image sits at y = -118 |
| Illustrations.RatioHeights | generate_illustrations.py:239-240 | the portrait and landscape heights are 1280 and 405 |
| Illustrations.CenteredHorizontally | generate_illustrations.py:244-249 | a fitted thumbnail keeps at least the margin, and its left and right gaps differ by at most one pixel |
| Illustrations.WordPromptMentions | generate_illustrations.py:185-194 | the prompt names the quoted word followed by its category, and carries the style text |
| Illustrations.TopicContextWhenTopic | generate_illustrations.py:185 | the category fragment is empty exactly when the topic is missing or empty |
| Illustrations.Descriptions | generate_illustrations.py:60-65 | one description per character |
| Illustrations.DescribeAll | generate_illustrations.py:60-65 | the character loop gives the descriptions, or None when a character is not an object |
| Illustrations.DescriptionsFaultPersists | generate_illustrations.py:61-62 | a non-object character in a prefix means no descriptions |
| Illustrations.DescribedCharacters | generate_illustrations.py:61-65 | each description is of the character at its position, which is an object |
| Illustrations.DescribeShape | generate_illustrations.py:62-65 | a description is non-empty, has `(` and ends with `)` |
| Illustrations.NoCharactersUnspecified | generate_illustrations.py:67-82 | the clause is `unspecified characters` exactly when there are no characters |
| Illustrations.PreviewIsFirstWords | generate_illustrations.py:71-73 | the preview's words are the dialogue's first 40, so at most 40 |
| Illustrations.ScenePromptNamesCharacters | generate_illustrations.py:76-85 | the prompt carries the character clause |
| Illustrations.ReadScene | generate_illustrations.py:47-73 | the reading of the scene's values agrees with its specification |
| Illustrations.CreateGenericPrompt | generate_illustrations.py:44-87 | the method's prompt is the specified scene prompt, or None where the source raises |
| Illustrations.TitleIgnored | generate_illustrations.py:51-85 | changing the title does not change the scene prompt |
| Illustrations.LengthIgnored | generate_illustrations.py:55-85 | changing the length does not change the scene prompt |
| Illustrations.SavedWithinCanvas | generate_illustrations.py:239-261 | a saved image uses the word's file name and centres within the margins horizontally, and vertically too on a canvas at least 640 pixels tall |
| Illustrations.GenerateRaises | generate_illustrations.py:204-241 | generation raises exactly when an image came back and the canvas cannot be made, and saves nothing exactly when no image came back |
| Illustrations.BuildMapping | generate_illustrations.py:293-310 | the loop gives the mapping, or the index at which it raised |
| Illustrations.AddRecord | generate_illustrations.py:296-310 | one pass appends the element's record, or raises |
| Illustrations.MapStepOk | generate_illustrations.py:296-310 | a pass that does not raise appends the record for its element |
| Illustrations.MappingFaultPersists | generate_illustrations.py:295-303 | a fault in a prefix is the fault of the whole loop |
| Illustrations.MappingFails | generate_illustrations.py:295-310 | the mapping completes exactly when no element fails, and otherwise stops at the first that does |
| Illustrations.MappingStops | generate_illustrations.py:295-303 | a failed mapping names an element that fails, after elements that do not |
| Illustrations.MappingPasses | generate_illustrations.py:295-310 | a completed mapping had no failing element |
| Illustrations.MappingShape | generate_illustrations.py:305-310 | one record per element, in order: its index, its word and its file name |
| Illustrations.MappingIgnoresPictures | generate_illustrations.py:303-310 | once the canvas can be made, the mapping does not depend on the images returned |
| Illustrations.MappingNamesSavedFile | generate_illustrations.py:256-310 | each record names the file its image is saved under, and that file is saved exactly when an image came back |
| Illustrations.NonObjectWord | generate_illustrations.py:296-297 | a string is its own word; any other non-object is recorded under its `str` |
| Illustrations.WordsExit | generate_illustrations.py:276-317 | status 1 exactly for an uncaught exception: a read error other than a missing file or invalid JSON, or a failing word |
| Illustrations.WordsFailures | generate_illustrations.py:17-317 | once the client is set up, the run fails exactly on an uncaught read error or a list whose images cannot all be made, and a written mapping is the mapping of the list read |
| Illustrations.PortraitNeverCrashes | generate_illustrations.py:272-317 | with the 9:16 default and the client set up, a list of text words read from the file writes its mapping, one record per element, with status 0 |
| Orchestrator.DefaultOptions | main.py:42-62 | count 10, font size 48, full mode |
| Orchestrator.ArgvLayout | main.py:102-138 | the interpreter, the script, then each flag followed by its value |
| Orchestrator.RunCommand | main.py:20-34 | the command joins the trace, and the run stops exactly when its status is not 0 |
| Orchestrator.CheckInputs | main.py:90-99 | ready exactly when the words file exists and the illustrations folder has a `.png` |
| Orchestrator.HasPng | main.py:96 | true exactly when some name ends in `.png` |
| Orchestrator.RunStages | main.py:100-150 | the commands run in turn until the first failure |
| Orchestrator.RunPipeline | main.py:37-150 | the run is the pre-checks, then the stages until the first failure |
| Orchestrator.FullModeOrder | main.py:100-150 | full mode runs words, grammar, illustrations, overlay, caption, labelled 1/4 to 4/4 and 5/5 |
| Orchestrator.TextOnlyPlan | main.py:129-139 | text-only mode runs the overlay alone, labelled 1/1 |
| Orchestrator.FirstFailureSpec | main.py:29-31 | every command before the first failure succeeded, and the one at it failed |
| Orchestrator.PrechecksComeFirst | main.py:90-139 | text-only mode starts nothing and exits 1 when not ready; otherwise it runs only the overlay |
| Orchestrator.LabelTexts | main.py:109-130 | the labels print as `Step 1/1` and `Step 4/4` |
| Orchestrator.StopsAtFirstFailure | main.py:29-150 | the trace is the plan up to the first failure; the exit is 1 exactly when that command failed, and 0 exactly when all succeeded |
| Orchestrator.SharedPaths | main.py:74-149 | the stages write and read the same words file, get the topic and 9:16, and the caption goes to its file |
| Orchestrator.WordsPaths | main.py:102-108 | the word stage writes the words file |
| Orchestrator.GrammarPaths | main.py:112-116 | the grammar stage reads the words file |
| Orchestrator.IllustrationsPaths | main.py:120-126 | the illustration stage reads the words file with the topic and 9:16 |
| Orchestrator.OverlayPaths | main.py:131-138 | the overlay stage reads the words file |
| Orchestrator.CaptionPaths | main.py:143-149 | the caption stage writes the caption file |

## Left out

- Network calls to the language and image models (the `genai` client, `try_genai_client_generate`, `try_generativeai_package`): their replies are parameters. Whether the client is set up at import time is a parameter of the words mode.
- `json.loads`, `json.load` and `json.dump`: decoding is a parameter, and writing is represented by the value written.
- File reads and writes, `os.makedirs`, `os.path.exists` and `glob`: the existing paths and folder listing are a parameter in the orchestrator. The grammar script catches every load error, so there a missing or unreadable file is an absent decoded value. The illustration script's words mode tells the two caught failures (missing file, invalid JSON) from other read errors, which crash (`Illustrations.WordsFile`). The word-list script's `.env` file is given as its lines.
- `subprocess.run` and the child processes: each command's exit status is a parameter.
- Printing: progress messages, the headings before each command, the banner and the success summary.
- argparse parsing: options are given already parsed; `DefaultOptions` records the orchestrator's defaults.
- `load_dotenv()` from the `python-dotenv` package, in all three scripts: the word-list script's own `.env` loop is modelled, and it runs only when importing `load_dotenv` fails (generate_word_list.py:23-34).
- Opening, thumbnailing, pasting and saving images with PIL. A thumbnail is described only by `ThumbnailFits`: it only shrinks, and never past 640 in either direction.
- Illustrations.GenerateRaises: a zero-height canvas (`16:0`, `1000:1`, `-1000:1`) is recorded as made and saved. `Image.new` accepts it, but `canvas.save` cannot encode an empty image, so the source raises there. Saving is outside the model, as are exceptions PIL raises after an image has opened, such as a lazy decode failure in `thumbnail`. A `Picture` is an image that opened and shrank, and `Illustrations.PortraitNeverCrashes` relies on that.
- Illustrations.CanvasHeight: the height uses exact rational division truncated toward zero, not the floating-point division of the source, which could differ for very large ratio parts.
- Text.Lower: only ASCII letters are lower-cased; `str.lower()` on non-ASCII text is not modelled.
- Text.IsDigit: only ASCII digits count. `str.isdigit()` in the line heuristic and `int()` also accept other Unicode digits, which the model treats as non-digits.
- DotEnv.Environ.LoadDotEnv: an exception in the middle of the file ends the loop with the earlier lines already applied. Such an exception is a decoding error or a NUL byte that `os.environ` refuses. The model reads every line and does not model this early stop.
- JsonValue.Str: `str()` of lists and objects is a placeholder, and numbers are integers; floats are not modelled.
- `generate_illustration_from_json`, and the illustration script's default mode over `scripts/`, are not part of this model.
- `generate_caption.py`, `cleanup.py` and the text-overlay script are not part of this model; the orchestrator only starts them.
- The prompt sent to the grammar model is not modelled; the model's reply per entry is a parameter.
- Which part of an image reply supplies the image: the generator's input is one optional picture per word, None when no part gave an image that opens. A reply whose first candidate has content but no parts list raises at generate_illustrations.py:219, since only `content is None` is checked at line 215; `Picture` excludes it, and `Illustrations.PortraitNeverCrashes` and `Illustrations.WordsFailures` rely on that.
- Illustrations.WordsFailures: the "exactly" covers only the replies a `Picture` can describe; a reply with content but no parts list would also fail the run (generate_illustrations.py:219), and it is not modelled.
- Illustrations.PortraitNeverCrashes: status 0 holds for the replies a `Picture` can describe; a reply with content but no parts list raises at generate_illustrations.py:219 and would end the run with status 1.
