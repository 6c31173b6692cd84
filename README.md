# Crafty status bot: a Dafny model of its core

The bot keeps Discord messages ("status embeds") in step with Minecraft
servers run by the Crafty Controller management API. This project models,
in Dafny, the parts of the bot that decide what it shows and what it
stores:

- `parseJson`: the two regular-expression passes that turn the API's
  Python-style text (`['a', 'b']`, `True`) into JSON, then the parse
  (module `JsonParser`);
- the `messageCreate` handler: sender filter, prefix, trim, split, and
  dispatch to the text-command table (module `TextCommand`);
- `createPlayerCountChart`: the in-place sort by time and the chart's
  labels, values, colour and y axis (module `Chart`);
- `createEmbed`: the current and historic views, the address fields, and
  the player list (union, cleaning, collation sort) (module `Embed`);
- the "View History" button and the day-picker modal: the date pattern,
  the range checks, the 24-hour window and the day's chart and embed
  (module `DayModal`);
- the `/crafty` slash command: the guards, the permission gates, and
  `create`, `modify`, `delete` and `purge`, with what each sends to
  Discord and writes to the database (module `StatusCommand`);
- from the entry point: the owner upsert, the base-URL normalisation, and
  the scheduled status updater (module `Index`, with a `StatusTable`
  class whose `Tick` method runs the loop over the due rows).

Shared pieces:

- `Base`: Option/Result, JavaScript truthiness, ASCII lower-casing, digits,
  number rendering and `join`;
- `Records`: the stored rows;
- `Sorting`: the stable sort behind `Array.prototype.sort`, proved
  ordered, a permutation, stable and idempotent;
- `Consts`: the colours and the ids of the button and the modal.

Discord, the management API and the database enter as values: a `World`
of answers and a snapshot of the tables. A handler's result is the list
of effects it performs plus the answer the user sees. The updater is
imperative in the source, and here it is a class whose methods change
its rows and samples in place, proved against a functional
specification (`RunTo`).

Where the source files disagree with each other, each module follows
the file it models:

- `status.ts` stores the message of a status in a `messageEmbed` table
  with its own `showMaxPlayers` flag. The updater and the day picker read
  `messageId`, `channelId` and `showMaxPlayers` from the status row
  itself. Each module models the columns its own file reads.
- `create`, `modify` and the day picker pass their `[flag, max]` pair as
  the chart's second argument, which is the `online` flag. So their
  charts always use the online colour, and their axis follows the
  samples (`Chart.OnlineArg`).
- In `modify`, the text "Original status embed could not be found" is
  unreachable. Every path that reaches the answer has a message (see
  `StatusCommand.ModifyNeverReportsRecreation`).

## Model

| member | source | states |
|---|---|---|
| Base.OrElse | src/commands/slash/status.ts:468-475 | JavaScript's `or` on optional strings gives `a` exactly when `a` is truthy, else `b` |
| Base.Lower | src/utils/jsonParser.ts:8 | `toLowerCase` on one character shifts exactly the ASCII capitals by 32 and leaves no ASCII capital |
| Base.LowerString | src/events/textcommand.ts:21 | lower-casing keeps the length and lower-cases every character in place |
| Base.DigitValue | src/events/anotherdaymodal.ts:73-75 | a decimal digit is worth less than 10 |
| Base.NatToString | src/utils/createEmbed.ts:161 | a count rendered in a template is a non-empty string of digits |
| Base.IntToString | src/utils/createEmbed.ts:161 | any integer renders as non-empty text |
| Base.NatToStringValue | src/utils/createEmbed.ts:161 | reading the rendered digits back gives the number (rendering is injective) |
| Records.Since | src/index.ts:348-358 | the `createdAt >= from` filter keeps exactly the samples at or after `from`, each at most as often as stored |
| Sorting.ByKeyIsTotalPreorder | src/utils/createChart.ts:27 | a subtraction comparator on an integer key is total and transitive |
| Sorting.Insert | src/utils/createChart.ts:27 | inserting one element adds exactly that element (multiset) |
| Sorting.Sort | src/utils/createChart.ts:27 | `Array.prototype.sort` returns a permutation of its input |
| Sorting.InsertSorted | src/utils/createChart.ts:27 | inserting into a sorted sequence keeps it sorted |
| Sorting.SortSorted | src/utils/createChart.ts:27 | the sort's result is ordered by the comparator |
| Sorting.EquivClassCons | src/utils/createChart.ts:27 | the elements equal to `x` of `h` followed by `t` are `h` (if equal) followed by those of `t` |
| Sorting.EquivClassAppend | src/utils/createChart.ts:27 | taking the elements equal to `x` distributes over concatenation |
| Sorting.NoEquivAbove | src/utils/createChart.ts:27 | a sorted sequence whose head is above `y` holds nothing equal to `y` |
| Sorting.InsertStable | src/utils/createChart.ts:27 | an insertion places the new element after its equals (one step of stability) |
| Sorting.InsertStableFront | src/utils/createChart.ts:27 | an element inserted at the front is the first of its equals |
| Sorting.InsertFront | src/utils/createChart.ts:27 | an insertion at the front adds the element to its class and no other |
| Sorting.InsertStableStep | src/utils/createChart.ts:27 | stability of an insertion carries past a head the element follows |
| Sorting.SortStable | src/utils/createChart.ts:27 | the sort is stable: elements comparing equal keep their input order |
| Sorting.InsertAtEnd | src/utils/createChart.ts:27 | an element no smaller than every element goes at the end |
| Sorting.SortOfSorted | src/utils/createChart.ts:27 | an already sorted sequence is left unchanged |
| Sorting.SortIdempotent | src/utils/createChart.ts:27 | sorting twice equals sorting once |
| Sorting.SortedHeadIsLeast | src/utils/createChart.ts:27 | the head of a sorted sequence is no greater than any element |
| Sorting.SortInPlace | src/utils/createChart.ts:27 | the array is reordered in place into the stable sort of its old contents |
| JsonParser.NoLiteralConcat | src/utils/jsonParser.ts:8 | two literal-free texts with a safe seam join into a literal-free text |
| JsonParser.QuotePass | src/utils/jsonParser.ts:5 | `replace(/'/g, '"')` keeps the length and swaps exactly the single quotes |
| JsonParser.QuotePassAppend | src/utils/jsonParser.ts:5 | the quote pass distributes over concatenation |
| JsonParser.MatchLenAsWritten | src/utils/jsonParser.ts:8 | the pattern as written matches at a position iff a literal starts there or a non-`"` character precedes `True` |
| JsonParser.ScanStep | src/utils/jsonParser.ts:8 | each step of the global search advances at least one character and stays in the text |
| JsonParser.BoolPassAsWritten | src/utils/jsonParser.ts:8 | the as-written replacement keeps the text's length |
| JsonParser.LiteralCovered | src/utils/jsonParser.ts:8 | the left-to-right search covers every literal with a match |
| JsonParser.AsWrittenLowersLiterals | src/utils/jsonParser.ts:8 | the as-written pass lower-cases every `True` and `False` in place |
| JsonParser.BeforeTrueCovered | src/utils/jsonParser.ts:8 | the search also covers the non-`"` character before a `True` |
| JsonParser.AsWrittenLowersBeforeTrue | src/utils/jsonParser.ts:8 | the as-written pass lower-cases the non-`"` character in front of a `True` |
| JsonParser.AsWrittenLowersAfterFalse | src/utils/jsonParser.ts:8 | it lower-cases the character after `False`: `FalseY` becomes `falsey` |
| JsonParser.NothingCovered | src/utils/jsonParser.ts:8 | without literals the search finds no match |
| JsonParser.AsWrittenFixesLiteralFree | src/utils/jsonParser.ts:8 | literal-free text passes through the as-written pass unchanged |
| JsonParser.AsWrittenLeavesLiteral | src/utils/jsonParser.ts:8 | `TruETrue` has no literal at 0 yet gets one after the pass, so the pass is not idempotent |
| JsonParser.BoolPass | src/utils/jsonParser.ts:6-8 | the corrected replacement keeps the text's length |
| JsonParser.BoolPassAt | src/utils/jsonParser.ts:6-8 | the corrected pass lower-cases exactly each literal's first letter and keeps every other character |
| JsonParser.LiteralHead | src/utils/jsonParser.ts:8 | within one replaced literal only its first letter changes |
| JsonParser.LiteralShift | src/utils/jsonParser.ts:8 | dropping a prefix moves literals and characters along with it |
| JsonParser.BoolPassNoLiterals | src/utils/jsonParser.ts:6-8 | after the corrected pass no `True` or `False` remains |
| JsonParser.NoTrueAfterPass | src/utils/jsonParser.ts:6-8 | no `True` starts at any position of the corrected result |
| JsonParser.NoFalseAfterPass | src/utils/jsonParser.ts:6-8 | no `False` starts at any position of the corrected result |
| JsonParser.BoolPassFixesLiteralFree | src/utils/jsonParser.ts:6-8 | the corrected pass leaves literal-free text unchanged |
| JsonParser.BoolPassIdempotent | src/utils/jsonParser.ts:6-8 | the corrected pass is idempotent |
| JsonParser.PassesAgreeWithoutLiterals | src/utils/jsonParser.ts:8 | on literal-free text the as-written and corrected passes agree with the identity |
| JsonParser.Rewrite | src/utils/jsonParser.ts:3-8 | the quote pass followed by the boolean pass as written keeps the text's length |
| JsonParser.RewriteProperties | src/utils/jsonParser.ts:3-8 | the rewrite as written keeps the length, turns every `'` into `"` and leaves none, lower-cases the first letter of every literal, and otherwise changes a character only by lower-casing it |
| JsonParser.QuotedTrue | src/utils/jsonParser.ts:3-8 | quotes are rewritten first, so `'True'` becomes `"true"` with both `"` untouched |
| JsonParser.RewriteLeavesLiteral | src/utils/jsonParser.ts:3-8 | the full rewrite of `TruETrue` still holds `True`, so rewriting twice differs from rewriting once |
| JsonParser.RewriteOfQuoteFree | src/utils/jsonParser.ts:3-8 | on text without `'` the rewrite is the boolean pass alone, and it introduces no `'` |
| JsonParser.QuoteFree | src/utils/jsonParser.ts:5 | text without `'` passes the quote pass unchanged |
| JsonParser.IntendedRewrite | src/utils/jsonParser.ts:4-8 | the rewrite the comments ask for, with the corrected boolean pass; the two lemmas below state it |
| JsonParser.IntendedRewriteProperties | src/utils/jsonParser.ts:4-8 | the intended rewrite keeps the length and leaves no single quote and no literal |
| JsonParser.IntendedRewriteIdempotent | src/utils/jsonParser.ts:4-8 | the intended rewrite is idempotent |
| JsonParser.SkipWs | src/utils/jsonParser.ts:2 | skipping JSON white space stops at a non-space or the end |
| JsonParser.ParseStringBody | src/utils/jsonParser.ts:2 | reading a JSON string consumes at least its closing quote |
| JsonParser.QuotePassPlain | src/utils/jsonParser.ts:5 | names without quotes or backslashes pass the quote pass unchanged |
| JsonParser.QuotePassPyTail | src/utils/jsonParser.ts:5 | the quote pass turns the tail of a Python list into the JSON tail, free of literals |
| JsonParser.QuoteElement | src/utils/jsonParser.ts:5 | a single-quoted element after a converted prefix becomes double-quoted |
| JsonParser.LiteralFreeElement | src/utils/jsonParser.ts:8 | a literal-free quoted element adds no literal to the text |
| JsonParser.RewritePythonList | src/utils/jsonParser.ts:3-8 | the rewrite, as written and as intended, turns Python's list of plain names into exactly the JSON list |
| JsonParser.ParsePlainString | src/utils/jsonParser.ts:2 | a plain string literal parses to its body and the rest |
| JsonParser.SkipNoWs | src/utils/jsonParser.ts:2 | text starting with a non-space is not trimmed |
| JsonParser.SkipSpaceQuote | src/utils/jsonParser.ts:2 | the space after a comma is skipped up to the quote |
| JsonParser.ParseArrayElement | src/utils/jsonParser.ts:2 | `, "n"` inside an array appends `n` and continues |
| JsonParser.ParseArrayEnd | src/utils/jsonParser.ts:2 | `]` closes an array with the elements read so far |
| JsonParser.ParseJsonTail | src/utils/jsonParser.ts:2 | the JSON tail of plain names parses to those names |
| JsonParser.ParseJsonList | src/utils/jsonParser.ts:2 | the JSON text of a list of plain names parses back to that list |
| JsonParser.ParseOpenBracket | src/utils/jsonParser.ts:2 | a value starting with `[` is parsed as an array |
| JsonParser.ParseEmptyArray | src/utils/jsonParser.ts:2 | `[]` parses to the empty array |
| JsonParser.ParseFirstElement | src/utils/jsonParser.ts:2 | an array whose first element is a plain string yields what the rest yields |
| JsonParser.ParseFirstElementFails | src/utils/jsonParser.ts:2 | an array whose rest is malformed fails to parse |
| JsonParser.ParseJson | src/utils/jsonParser.ts:1-10 | `parseJson`: the rewrite as written, then the parse; the round-trip and failure lemmas below state its results |
| JsonParser.IntendedParseJson | src/utils/jsonParser.ts:1-10 | the same parse on the intended rewrite, for the Finding's corrected half |
| JsonParser.PythonListRoundTrip | src/utils/jsonParser.ts:1-10 | `parseJson` of Python's repr of plain names returns exactly those names, as written and as intended |
| JsonParser.BooleansRoundTrip | src/utils/jsonParser.ts:1-10 | `parseJson("True")` is `true` and `parseJson("False")` is `false` |
| JsonParser.WholeMatchLowered | src/utils/jsonParser.ts:8 | a text that is one match from end to end is lower-cased whole |
| JsonParser.RewriteTrue | src/utils/jsonParser.ts:3-8 | `True` on its own becomes `true` |
| JsonParser.RewriteFalse | src/utils/jsonParser.ts:3-8 | `False` on its own becomes `false` |
| JsonParser.TruncatedListThrows | src/utils/jsonParser.ts:1-10 | a list cut short makes `JSON.parse` throw |
| TextCommand.Prefix | src/events/textcommand.ts:16 | the prefix is the environment value when truthy, else `cs!`, and never empty |
| TextCommand.TrimStart | src/events/textcommand.ts:20 | trimming the start leaves a suffix that does not start with white space |
| TextCommand.TrimStartCutsSpace | src/events/textcommand.ts:20 | everything `trim` cuts from the start is white space |
| TextCommand.TrimEnd | src/events/textcommand.ts:20 | trimming the end leaves a prefix that does not end with white space |
| TextCommand.TrimEndCutsSpace | src/events/textcommand.ts:20 | everything `trim` cuts from the end is white space |
| TextCommand.Trim | src/events/textcommand.ts:20 | the trimmed text neither starts nor ends with white space |
| TextCommand.TrimIsSlice | src/events/textcommand.ts:20 | the trimmed text is a slice of the input with only white space cut on either side |
| TextCommand.SkipSpaces | src/events/textcommand.ts:20 | skipping a run of spaces stops at a non-space and shortens text that starts with one |
| TextCommand.Split | src/events/textcommand.ts:20 | `split(/ +/)` gives at least one token, none holding a space, with an empty head iff the text is empty or starts with a space |
| TextCommand.RemoveLeadingSpaces | src/events/textcommand.ts:20 | leading spaces add no text to the tokens |
| TextCommand.SplitKeepsText | src/events/textcommand.ts:20 | splitting loses nothing but the spaces |
| TextCommand.SplitWord | src/events/textcommand.ts:20 | a space-free word in front of a text joins its first token |
| TextCommand.SplitJoin | src/events/textcommand.ts:20 | non-empty space-free tokens joined by single spaces split back into the same tokens |
| TextCommand.SplitWordSpace | src/events/textcommand.ts:20 | a word, a space and a text starting with a non-space split into the word and the text's tokens |
| TextCommand.ParseCommandLine | src/events/textcommand.ts:18-23 | a parsed command line starts with the prefix, and names a non-empty lower-case command without spaces and arguments without spaces |
| TextCommand.NoCommandIff | src/events/textcommand.ts:18-23 | no command is parsed exactly when the prefix is missing or only white space follows it |
| TextCommand.TrimmedHeadToken | src/events/textcommand.ts:20-23 | the first token of trimmed text is empty exactly when the text is |
| TextCommand.CommandLineRoundTrip | src/events/textcommand.ts:20-21 | a lower-case command and arguments typed after the prefix come back out unchanged |
| TextCommand.JoinEnds | src/events/textcommand.ts:20 | joined non-empty tokens begin and end with the first and last tokens' ends |
| TextCommand.TrimUnchanged | src/events/textcommand.ts:20 | text without white space at its ends is not trimmed |
| TextCommand.LowerStringLower | src/events/textcommand.ts:21 | lower-casing leaves a lower-case name unchanged |
| TextCommand.TabsStayInTokens | src/events/textcommand.ts:20 | tabs do not separate tokens: `a\tb c` splits into `a\tb` and `c` |
| TextCommand.HandleMessage | src/events/textcommand.ts:5-34 | a command runs iff the sender is no bot, has a user record, and the line names a known command; it runs with the parsed name, arguments and user, and a throw gets the error reply |
| TextCommand.BarePrefixRunsNothing | src/events/textcommand.ts:20-23 | a message that is only the prefix runs nothing |
| Chart.ByTimeIsTotalPreorder | src/utils/createChart.ts:27 | the time comparator is total and transitive |
| Chart.MaxPlayerCount | src/utils/createChart.ts:29-31 | `Math.max` of the player counts bounds every count and is one of them |
| Chart.ChartOf | src/utils/createChart.ts:17-78 | one label and value per sample in order, the online colour iff `online` is truthy, y from 0 to the given maximum or the peak count, plus 5 |
| Chart.CreatePlayerCountChart | src/utils/createChart.ts:17-78 | the caller's array is sorted by time in place, and the chart is drawn from the sorted array |
| Chart.ChartLabelsAscending | src/utils/createChart.ts:27-41 | the labels of the sorted chart run oldest to newest |
| Chart.ByTimeMeans | src/utils/createChart.ts:27 | the comparator orders by `createdAt` ascending |
| Chart.MaxIgnoresOrder | src/utils/createChart.ts:29-31 | the peak count depends only on the samples, not their order |
| Chart.SortedChartAxis | src/utils/createChart.ts:29-31 | without a caller maximum the axis ends 5 above the peak count of the input |
| Chart.TimeOrderedInputUnchanged | src/utils/createChart.ts:27 | input already in time order is not reordered |
| Chart.SameTimeKeepsOrder | src/utils/createChart.ts:27 | samples with the same time keep their input order |
| Embed.AddNamesIsUnion | src/utils/createEmbed.ts:109 | adding names to a set keeps it duplicate-free, keeps the earlier names first, and holds exactly the union |
| Embed.SampleNames | src/utils/createEmbed.ts:89-134 | one sample's names: the list when `players` parses to strings, none for a boolean or other value, and a failure when the parse throws (see CurrentViewListsNewestSample and CurrentViewBooleanIsEmpty) |
| Embed.ParsedSamples | src/utils/createEmbed.ts:89-92 | one parsed list per sample |
| Embed.UnionIsUnion | src/utils/createEmbed.ts:85-112 | the historic union fails iff some list did not parse, and otherwise holds each name of each list once |
| Embed.CombinePlayerLists | src/utils/createEmbed.ts:87-112 | the loop over the samples computes the historic union |
| Embed.AddEach | src/utils/createEmbed.ts:109 | the `forEach` over a list adds its names to the set |
| Embed.RemoveQuotes | src/utils/createEmbed.ts:143 | the cleaned name holds no `"` |
| Embed.RemoveQuotesConcat | src/utils/createEmbed.ts:143 | the global replace works piecewise: on `a + b` it gives the result on `a` followed by the result on `b` |
| Embed.RemoveQuotesChar | src/utils/createEmbed.ts:143 | on one character it drops a `"` and keeps anything else (with RemoveQuotesConcat: exactly the `"` characters are removed, the rest in order) |
| Embed.CleanNames | src/utils/createEmbed.ts:142-147 | each name is cleaned at its own position |
| Embed.CleanNameMeaning | src/utils/createEmbed.ts:143-146 | a cleaned name has no `"`; it is the quote-free name without its first character when that is a dot, and the quote-free name itself otherwise |
| Embed.RemoveQuotesOfQuoteFree | src/utils/createEmbed.ts:143 | a quote-free name is kept |
| Embed.CleanNameKeepsPlainName | src/utils/createEmbed.ts:143-146 | a name with no quote and no leading dot is shown as it is |
| Embed.ShownPlayersSorted | src/utils/createEmbed.ts:142-151 | the shown list is a permutation of the cleaned names, ordered by the collation |
| Embed.DottedTwinShownTwice | src/utils/createEmbed.ts:109-146 | de-duplication before cleaning shows `.Steve` and `Steve` as `Steve` twice |
| Embed.ShownPlayers | src/utils/createEmbed.ts:142-151 | the list as shown: cleaned, then sorted by the collation (see ShownPlayersSorted) |
| Embed.EmbedOf | src/utils/createEmbed.ts:25-170 | what `createEmbed` returns or throws; FieldLayout, CurrentViewFollowsNewestSample, PlayersFieldIsLast, CurrentViewListsNewestSample and HistoricViewListsUnion state its fields |
| Embed.CreateEmbed | src/utils/createEmbed.ts:25-170 | the imperative rendering of `EmbedOf`: the method builds the embed the specification function describes, or reports the same error |
| Embed.FieldNames | src/utils/createEmbed.ts:51-167 | the field names are listed in field order |
| Embed.FieldLayout | src/utils/createEmbed.ts:51-167 | the fields are Java IP when set, Bedrock IP when set, then Server Version and Online Players |
| Embed.AddressFields | src/utils/createEmbed.ts:51-79 | the Java IP field when an address is set, the Bedrock IP field when one is set, then the version field (see JavaAddressText, BedrockAddressText and FieldLayout) |
| Embed.JavaAddressText | src/utils/createEmbed.ts:51-61 | the Java address shows `:port` only when a port is set |
| Embed.BedrockAddressText | src/utils/createEmbed.ts:62-72 | the Bedrock address always shows a port, the stored one or 19132 |
| Embed.CurrentViewFollowsNewestSample | src/utils/createEmbed.ts:32-49 | the current view needs a sample; its description and colour follow the newest sample's online flag, with a timestamp |
| Embed.PlayersFieldIsLast | src/utils/createEmbed.ts:153-167 | the players field closes the embed, under its view's header |
| Embed.CurrentViewListsNewestSample | src/utils/createEmbed.ts:113-165 | the Python list the API sent is shown as its names, cleaned and sorted, under the player count |
| Embed.CurrentViewBooleanIsEmpty | src/utils/createEmbed.ts:129-131 | a boolean player list shows "No players online" |
| Embed.HistoricViewListsUnion | src/utils/createEmbed.ts:85-112 | the historic view lists the union of all samples' names, or says nobody logged in |
| DayModal.RunBeforeSlash | src/events/anotherdaymodal.ts:61 | `[0-9]?[0-9]\/` takes at most two digits followed by a slash |
| DayModal.MatchAt | src/events/anotherdaymodal.ts:61 | a match at a position is an occurrence of the date pattern there |
| DayModal.OccursSplit | src/events/anotherdaymodal.ts:61 | an occurrence of `a + b` is one of `a` followed by one of `b` |
| DayModal.OccursChars | src/events/anotherdaymodal.ts:61 | an occurrence fixes each character |
| DayModal.RunBeforeSlashTakesRun | src/events/anotherdaymodal.ts:61 | a run of one or two digits before a slash is taken whole |
| DayModal.MatchAtFindsEveryDate | src/events/anotherdaymodal.ts:61 | every occurrence of the pattern is found where it starts, with its three runs |
| DayModal.DateRuns | src/events/anotherdaymodal.ts:61 | an occurrence of the pattern has the run lengths the matcher reads |
| DayModal.YearDigits | src/events/anotherdaymodal.ts:61 | four digits occurring at a position are a year there |
| DayModal.DateSplit | src/events/anotherdaymodal.ts:73 | the matched text is the day run, `/`, the month run, `/` and the year |
| DayModal.MatchAtRuns | src/events/anotherdaymodal.ts:61 | the matcher returns the three runs it reads |
| DayModal.FindFrom | src/events/anotherdaymodal.ts:62 | the search returns the leftmost match at or after its start, or none when there is none |
| DayModal.FindDate | src/events/anotherdaymodal.ts:61-64 | `match(dateRegex)[0]`: the first match, or none (see FindDateIsLeftmost) |
| DayModal.FindDateIsLeftmost | src/events/anotherdaymodal.ts:61-64 | a date is found iff the text contains the pattern, and the found one starts leftmost |
| DayModal.DigitsValueBound | src/events/anotherdaymodal.ts:73-75 | one or two digits are below 100, four below 10000 |
| DayModal.DateValues | src/events/anotherdaymodal.ts:73-77 | `parseInt` of the runs gives day and month within 0..99 and the year within 0..9999 |
| DayModal.ValidateDate | src/events/anotherdaymodal.ts:47-113 | an accepted date is in range; an empty field gets the "no date" reply and every other failure the "not valid" reply |
| DayModal.AcceptedIffFirstMatchInRange | src/events/anotherdaymodal.ts:61-100 | a non-empty field is accepted iff its first match is in range, and the result is that match's values |
| DayModal.NonexistentDayAccepted | src/events/anotherdaymodal.ts:86-104 | `31/02/2024` passes every check |
| DayModal.NonexistentDayDigits | src/events/anotherdaymodal.ts:73-75 | `parseInt` reads `31`, `02` and `2024` as 31, 2 and 2024 |
| DayModal.LeftmostMatchUsed | src/events/anotherdaymodal.ts:61-73 | in `111/11/2024` the match starts at the first digit that can begin a date: the day is `11` |
| DayModal.SurroundingTextIgnored | src/events/anotherdaymodal.ts:61-73 | text around the date is ignored |
| DayModal.ZeroDayRejected | src/events/anotherdaymodal.ts:86-100 | a day of 0 matches the pattern but fails the range check |
| DayModal.DayStart | src/events/anotherdaymodal.ts:102 | `new Date(year, month - 1, day)` through the local calendar, a parameter; DaySamples states the window that starts there |
| DayModal.DaySamples | src/events/anotherdaymodal.ts:125-131 | the day's samples are exactly those in `[start, start + 24 h)`, each at most as often as stored |
| DayModal.EmptyDayIffNoSampleInside | src/events/anotherdaymodal.ts:153-158 | a day has no samples iff no stored sample falls in it |
| DayModal.ConsecutiveDaysDisjoint | src/events/anotherdaymodal.ts:125-131 | consecutive days share no sample |
| DayModal.ByMaxPlayersDescIsTotalPreorder | src/events/anotherdaymodal.ts:163 | the descending-maximum comparator is total and transitive |
| DayModal.PeakIsLargestMaxPlayers | src/events/anotherdaymodal.ts:163-164 | the head of the descending sort carries the largest `maxPlayers` |
| DayModal.PeakMaxPlayers | src/events/anotherdaymodal.ts:163-164 | the array is sorted in place by descending maximum and its head's maximum bounds every old element's |
| DayModal.HandleInteraction | src/events/anotherdaymodal.ts:16-187 | the imperative rendering of `Respond`: the handler answers as `Respond` specifies |
| DayModal.Respond | src/events/anotherdaymodal.ts:16-187 | the handler's answer for one interaction; the four lemmas below state it |
| DayModal.OnlyHistoryButtonOpensPicker | src/events/anotherdaymodal.ts:18-39 | the picker opens only for the history button |
| DayModal.BadDateAnsweredFirst | src/events/anotherdaymodal.ts:47-113 | a submit gets an immediate reply iff its date is invalid, with the "no date" text for an empty field |
| DayModal.EmptyDayHasNoChart | src/events/anotherdaymodal.ts:153-158 | a day without samples is answered with a text naming the day |
| DayModal.DayChart | src/events/anotherdaymodal.ts:160-178 | the day's chart has one point per sample of the day in time order, the online colour, and an axis 5 above the day's peak count |
| StatusCommand.SanitizeVersion | src/commands/slash/status.ts:218 | the sanitised version is no longer than the input and holds only digits and dots |
| StatusCommand.SanitizeConcat | src/commands/slash/status.ts:218 | the filter distributes over concatenation |
| StatusCommand.SanitizeKeepsVersionText | src/commands/slash/status.ts:218 | digits and dots are all kept, in order |
| StatusCommand.SanitizeDropsOthers | src/commands/slash/status.ts:218 | every other character is dropped |
| StatusCommand.SanitizeIdempotent | src/commands/slash/status.ts:218 | sanitising twice equals sanitising once |
| StatusCommand.SanitizeExample | src/commands/slash/status.ts:218 | `1.20.4 (Paper)` becomes `1.20.4` |
| StatusCommand.ExampleParts | src/commands/slash/status.ts:218 | the version part is kept and the label part dropped |
| StatusCommand.SplitOn | src/commands/slash/status.ts:221-222 | `split(":")` gives at least one piece, none holding the separator |
| StatusCommand.SplitOnJoin | src/commands/slash/status.ts:221-222 | joining the pieces with the separator gives the text back |
| StatusCommand.SplitOnFree | src/commands/slash/status.ts:221-222 | separator-free text is one piece |
| StatusCommand.SplitOnHead | src/commands/slash/status.ts:221-222 | a separator-free head before the separator is the first piece |
| StatusCommand.HostPart | src/commands/slash/status.ts:220-221 | the host part exists iff the option was given, and holds no colon |
| StatusCommand.PortPart | src/commands/slash/status.ts:222 | the port part holds no colon |
| StatusCommand.BedrockRoundTrip | src/commands/slash/status.ts:220-222 | `host:port` splits back into host and port; a bare host has no port |
| StatusCommand.BedrockExtraColonDropped | src/commands/slash/status.ts:222 | in `h:p:q` only `p` becomes the port |
| StatusCommand.ShowMaxOnCreate | src/commands/slash/status.ts:176-181 | create shows the maximum iff the option is exactly `true` |
| StatusCommand.ShowMaxOnModify | src/commands/slash/status.ts:440-442 | modify shows the maximum when the option is `true`, and otherwise keeps the stored flag |
| StatusCommand.FindEmbedRow | src/commands/slash/status.ts:412-415 | the lookup returns a stored row with that message id, or none when no row has it |
| StatusCommand.MessagesOf | src/commands/slash/status.ts:744-746 | a status's messages are exactly the rows that belong to it |
| StatusCommand.MessagesOfSubMultiset | src/commands/slash/status.ts:744-746 | each of those rows appears at most as often as it is stored |
| StatusCommand.WarningQuotesPhrase | src/commands/slash/status.ts:772-774 | the warning's last line quotes the exact phrase the purge waits for |
| StatusCommand.ModifyData | src/commands/slash/status.ts:466-475 | modify writes each given truthy option, keeps the stored value otherwise, and clears maintenance |
| StatusCommand.Deliver | src/commands/slash/status.ts:516-625 | delivery never gives the "re-created" answer; an "updated" answer comes exactly with the row update as the last effect |
| StatusCommand.DeliverPlacement | src/commands/slash/status.ts:526-588 | a successful move sends to the new channel, deletes the old message and points the row at the new one; without a move the present message is edited in place, or a missing one is re-sent to its channel and the row points at the new message |
| StatusCommand.DeliverUpdatedWhen | src/commands/slash/status.ts:526-625 | modify answers "updated" exactly in the three cases of DeliverPlacement: a move that sends and deletes, an edit, or a re-send |
| StatusCommand.PurgeMessages | src/commands/slash/status.ts:787-809 | the loop computes the purge specification: the deletions made, and whether an unusable channel threw |
| StatusCommand.PurgeStopsAfterThrow | src/commands/slash/status.ts:791-793 | once the loop throws, later messages change nothing |
| StatusCommand.GuardsComeFirst | src/commands/slash/status.ts:133-147 | outside a guild, or in a channel the bot cannot send to, the command answers with the guard's text and does nothing |
| StatusCommand.Crafty | src/commands/slash/status.ts:132-830 | the handler: the guards, then the subcommand; GuardsComeFirst, PermissionGates and EffectsNeedFlag state it |
| StatusCommand.Gate | src/commands/slash/status.ts:156-170 | a subcommand passes the gate iff the user has a record with the subcommand's flag; otherwise it gets an ephemeral reply |
| StatusCommand.PermissionGates | src/commands/slash/status.ts:156-170 | without a user record, or without the subcommand's flag, the command only answers |
| StatusCommand.EffectsNeedFlag | src/commands/slash/status.ts:156-727 | any effect needs the guards passed and the subcommand's permission flag |
| StatusCommand.CreateRun | src/commands/slash/status.ts:153-354 | `create`: the gate, the uuid check and the stats call (see CreateWrites and ShowMaxOnCreate) |
| StatusCommand.CreateWithStats | src/commands/slash/status.ts:196-345 | `create` after an "ok" stats reply (see CreateWrites, CreateSendsEmbed and CreateChartIgnoresFlags): it writes exactly when the embed builds and the send goes through |
| StatusCommand.CreateWrites | src/commands/slash/status.ts:196-345 | create sends to the command's channel and upserts the status under the reported id with the sanitised version, the server name, the Java address and the Bedrock host when non-empty (`|| undefined`, otherwise none), the port, maintenance off and one sample, and links it to the sent message's id in the command's channel |
| StatusCommand.CreateSendsEmbed | src/commands/slash/status.ts:219-268 | the message create sends carries the embed built from the server name, the sanitised version, the Java address and Bedrock host and port when non-empty (`|| null`), no Java port and the one new sample; create writes anything exactly when that embed builds and the send goes through, and otherwise answers "Failed to get server" with no effects |
| StatusCommand.CreateChartIgnoresFlags | src/commands/slash/status.ts:229-239 | create's chart has one point, the online colour, and an axis 5 above the current count, whatever show-max says |
| StatusCommand.SortOfSingle | src/utils/createChart.ts:27 | sorting one sample leaves it |
| StatusCommand.ExplicitFalseKeepsStored | src/commands/slash/status.ts:440-442 | an explicit `false` for show-max-players keeps a stored `true` |
| StatusCommand.ModifyRun | src/commands/slash/status.ts:356-634 | `modify`: the gate, the option checks, the row lookup and the stats call (see BedrockAloneIsNoOptions and ModifyNeverReportsRecreation) |
| StatusCommand.ModifyWithStats | src/commands/slash/status.ts:440-625 | `modify` after an "ok" stats reply (see ModifyUpdatesRow, DeliverPlacement, DeliverUpdatedWhen and MoveOfMissingMessageOrphansCopy) |
| StatusCommand.BedrockAloneIsNoOptions | src/commands/slash/status.ts:395-405 | a modify with only a Bedrock address is refused as having no options |
| StatusCommand.ModifyNeverReportsRecreation | src/commands/slash/status.ts:620-625 | no modify answers "could not be found ... re-created"; an "updated" answer comes with the row update last |
| StatusCommand.MoveOfMissingMessageOrphansCopy | src/commands/slash/status.ts:526-561 | moving a message that no longer fetches sends the copy, then fails with the database unchanged |
| StatusCommand.ModifyUpdatesRow | src/commands/slash/status.ts:591-618 | the message row gets the resolved show-max flag, the merged status columns and the new sample |
| StatusCommand.DeleteRun | src/commands/slash/status.ts:636-709 | `delete`: the gate, the lookup, the fetches and the delete; a found row in a usable channel with a present, deletable message is deleted with its row (see DeleteRemovesOne) |
| StatusCommand.DeleteRemovesOne | src/commands/slash/status.ts:665-707 | delete removes exactly the message and its row, and does so exactly when the row is found, its channel is usable and the message is present and deletable; a rejected delete throws with nothing removed; an unknown id is reported "not found" |
| StatusCommand.PurgeNeedsPhrase | src/commands/slash/status.ts:757-781 | nothing is deleted unless `confirm` is exactly the phrase |
| StatusCommand.PurgeRun | src/commands/slash/status.ts:787-809 | the purge loop makes at most one deletion per stored message, and every deletion is of a message |
| StatusCommand.PurgeRunAll | src/commands/slash/status.ts:711-824 | `purge`: the gate, the lookup, the warning and the loop (see PurgeNeedsPhrase and PurgeWithPhrase) |
| StatusCommand.PurgeDeletesOnlyChecked | src/commands/slash/status.ts:787-809 | every message the loop deletes is one of the status's and passed every check |
| StatusCommand.PurgeAllUsable | src/commands/slash/status.ts:787-809 | with every channel usable the loop does not throw and deletes exactly the checked messages, in order |
| StatusCommand.PurgeWithPhrase | src/commands/slash/status.ts:783-822 | with the phrase and usable channels, purge deletes the checked messages and then the status; the status goes only on success |
| Index.StripTrailingSlash | src/index.ts:78 | one trailing slash is removed; other URLs are unchanged |
| Index.StripsOneSlash | src/index.ts:78 | exactly one slash goes: a doubled slash leaves one behind |
| Index.UpsertOwner | src/index.ts:50-65 | the owner gets a record with create, update and delete allowed, its purge flag is kept or defaulted, and no other record changes |
| Index.UpsertOwnerIdempotent | src/index.ts:50-65 | running the upsert again changes nothing |
| Index.OwnerPassesGates | src/index.ts:50-65 | after startup the owner passes the create, modify and delete gates, and the purge gate exactly when its old record or the column default allows purging |
| Index.IntervalMs | src/index.ts:222-232 | rows are due after 30 s in debug or development, otherwise after 5 minutes |
| Index.Due | src/index.ts:222-232 | a row is due when `updatedAt` is at least one interval old (see NotDueUntouched and RetryOrRest) |
| Index.Take30 | src/index.ts:254 | the scan looks at no more than the newest 30 messages |
| Index.BotMessages | src/index.ts:255 | the filter keeps exactly the bot's messages |
| Index.BotMessagesSubMultiset | src/index.ts:255 | each kept message appears at most as often as it was fetched |
| Index.ByNewestIsTotalPreorder | src/index.ts:256 | the newest-first comparator is total and transitive |
| Index.NewestBotMessage | src/index.ts:254-269 | `.first()` of the bot's messages among the newest 30, newest first (see NewestBotMessageIsNewest) |
| Index.NewestBotMessageIsNewest | src/index.ts:252-279 | the scan finds a message iff the bot wrote one of the newest 30, and it is the newest of those |
| Index.Refreshed | src/index.ts:318-336 | a refresh writes the reported id, name and sanitised version, clears maintenance, sets the running flag and stamps `now`, and keeps the other columns |
| Index.DayChartUnfold | src/index.ts:348-370 | the new sample is in the day's window, and the chart is drawn from that window sorted by time |
| Index.DayChartPoints | src/index.ts:348-370 | the updater's chart has one point per sample of the last day, new sample included, oldest first |
| Index.DayChartAxis | src/index.ts:361-370 | the chart colour follows the running flag; the axis is the new sample's maximum plus 5 when shown, else the day's peak plus 5 |
| Index.EditFor | src/index.ts:361-384 | the edit goes to the row's channel and message and carries the day chart and the embed of the stamped row with its new sample; there is an edit exactly when that embed builds |
| Index.Success | src/index.ts:315-384 | a successful refresh: the row stamped, a sample stored, and the edit (see ProcessRowStampsIffSampled, RefreshChart and RefreshEmbed) |
| Index.Target | src/index.ts:238-279 | a stored message id is used iff it fetches in a usable channel; without one, the newest bot message is used |
| Index.ProcessRow | src/index.ts:236-391 | processing a row never changes its id |
| Index.ProcessRowStampsIffSampled | src/index.ts:315-345 | a row is stamped iff it gets a sample; an edit implies a sample; a row not refreshed keeps every column but the scanned message id |
| Index.ProcessRowMessageId | src/index.ts:252-292 | a stored message id is never replaced; a missing one is replaced only by the scan's newest bot message, and the edit goes to the row's message |
| Index.ProcessRowNeedsEverything | src/index.ts:238-313 | a row is refreshed iff its channel is usable, its message is resolved and the stats reply is "ok" |
| Index.RefreshChart | src/index.ts:360-384 | the chart sent with a refresh is the day chart of the stored sample with the row's new running flag and show-max setting |
| Index.RefreshEmbed | src/index.ts:361-384 | a sampled row's message is edited exactly when the embed of the stamped row with its new sample builds, and the edit carries that embed |
| Index.AddSample | src/index.ts:328-334 | a stored sample becomes its status's newest, and no other status's samples change |
| Index.Outcome | src/index.ts:222-236 | the tick's outcome for a row keeps the row's id |
| Index.UpdaterKeepsIds | src/index.ts:236-392 | the updater's refresh never changes a row's id |
| Index.Step | src/index.ts:236-392 | one loop step keeps the number of rows |
| Index.StepShape | src/index.ts:236-392 | one loop step writes row `i`'s result, stores its sample and queues its edit |
| Index.RunTo | src/index.ts:236-392 | the loop keeps the number of rows |
| Index.RunToStep | src/index.ts:236-392 | running `i + 1` rows is running `i` rows and then step `i` |
| Index.RunToKeepsIds | src/index.ts:236-392 | the loop never changes a row's id |
| Index.RunToRowwise | src/index.ts:236-392 | rows do not interfere: after `k` steps each row is its own result, and its status has only its own new sample |
| Index.RowwiseStep | src/index.ts:236-392 | one step preserves that every row is its own result |
| Index.AppendOwnSample | src/index.ts:328-334 | storing one status's sample changes no other status's samples |
| Index.StatusTable.constructor | src/index.ts:222-232 | the table starts with the given rows and samples |
| Index.StatusTable.Tick | src/index.ts:219-395 | a tick leaves the rows, samples and edits the loop specification gives, and keeps ids distinct |
| Index.StatusTable.RefreshRow | src/index.ts:237-391 | row `i` becomes its outcome, its sample is stored, and nothing else changes |
| Index.StatusTable.Record | src/index.ts:315-384 | a successful refresh stamps row `i`, stores its sample and returns the edit |
| Index.ComposeEdit | src/index.ts:348-384 | the edit is built from the stored samples with the new sample last |
| Index.DrawDayChart | src/index.ts:348-370 | the chart drawn after storing is the day chart of the new sample |
| Index.DrawChart | src/index.ts:348-370 | the chart of the window read in time order and sorted again is the chart of its time sort |
| Index.TickRowwise | src/index.ts:236-392 | after a tick each row is its own outcome and each status gains at most its own sample |
| Index.NotDueUntouched | src/index.ts:222-232 | a row that was not due is unchanged and gains no sample |
| Index.RetryOrRest | src/index.ts:236-345 | a due row that was not refreshed stays due at every later tick; a refreshed one is stamped and rests for one interval |

## Left out

- Discord, HTTP and database calls are inputs. Failures beyond those
  modelled are not modelled: a thrown fetch, timeouts, and the database
  refusing a write.
- Logging, the cron schedule, the login, and command registration are
  not modelled. So is the error logger of the text handler.
- Rendering is not modelled: the PNG of the chart, the ISO text of its
  labels, and the embed's image attachment. Labels are timestamps, and
  the date text is a parameter.
- `Index.StatusTable.Tick`: the edit is not awaited in the source. The
  model records it as requested and leaves out any failure it may have
  later.
- `Index.StatusTable.Tick`: the updater reads the clock several times.
  The model uses one `now` for a tick.
- `Index.StatusTable.Record`: the row's `take: 1` newest sample is taken to be the
  sample just stored. Two samples with the same `createdAt` are not told
  apart.
- `Index.AddSample`: the sample table is modelled as a map grouped by
  status id. The model keeps the order of samples within a status, but
  not the table's global insertion order.
- `Index.UpsertOwner`: the owner's purge flag is not written, so it takes
  its column default, which is a parameter. Other column defaults, such
  as a sample's `online` flag, are parameters too.
- `JsonParser.ParseJson`: `JSON.parse` is modelled for the shapes the API
  sends: strings, arrays of strings, `true`, `false` and `null`. Numbers,
  objects, mixed arrays and `\u` escapes are reported as a syntax error.
- `TextCommand.HandleMessage`: the command's own `execute` is not
  modelled; only whether it throws is. Reply-after-defer ordering in the
  slash command is not modelled either; the catch block's reply is
  recorded as `FailedAfterDefer`.
- `StatusCommand.Deliver`: `channel.messages.fetch` of a missing message
  is modelled as the `!msg` branch the code tests. The library's own
  rejection is not modelled.
- `DayModal.DayStart`: `new Date(year, month - 1, day)` in the local
  time zone is a parameter. So is its roll-over of days that do not
  exist; the checks accept them (see `DayModal.NonexistentDayAccepted`).
- `DayModal.ValidateDate`: the `isNaN` check (src/events/anotherdaymodal.ts:77)
  and the "Invalid Date" check (line 104) have no branch in the model.
  Digit runs always parse, and a day, month and year that pass the range
  checks always make a valid date, so neither check can fail.
- `Embed.ShownPlayers`: `localeCompare` is a parameter, assumed to be a
  total preorder where that is needed.
- `Base.Lower`: JavaScript's `toLowerCase` maps all of Unicode. The model
  lower-cases only `A`-`Z` and leaves every other character alone, so `Ä`
  stays `Ä`. It also keeps the length, while `İ` lower-cases to two code
  units. This reaches the character that the boolean pass of
  src/utils/jsonParser.ts:8 lower-cases next to a literal, and the command
  name at src/events/textcommand.ts:21.

## Findings

| source | as written | input that shows it | evidently intended | confidence | as-written member | corrected member |
|---|---|---|---|---|---|---|
| src/utils/jsonParser.ts:8 | the pattern's two alternatives, `[^"]?(True)` and `(False)[^"]?`, lower-case a whole match, including the character before `True` or after `False` | `TruETrue`: the `E` is lower-cased with the second `True`, giving `Truetrue`, which still contains `True`; the pass is not idempotent | lower-case exactly the literals `True` and `False`, so none remains and a second pass changes nothing | not executed | JsonParser.AsWrittenLeavesLiteral | JsonParser.BoolPassNoLiterals |

`JsonParser.ParseJson` and everything built on it use the pass as
written, so the model's embeds show what the bot shows. The character
after `False` is lower-cased with it (`FalseY` becomes `falsey`,
`JsonParser.AsWrittenLowersAfterFalse`), and so is a non-`"` character
before `True` (`JsonParser.AsWrittenLowersBeforeTrue`). So a player named
`FalseKnight` is listed as `falseknight`. The corrected pass,
`JsonParser.BoolPass`, is used by `JsonParser.IntendedRewrite` and
`JsonParser.IntendedParseJson`. Both parses give the same result for the
lists of plain names the API sends (`JsonParser.PythonListRoundTrip`).
