# Compiler front end: result interpretation and session state

This project models the logic of a small React front end that sends Java-like
source text to an external analyzer. The front end shows the analyzer's
tokens, diagnostics, semantic notes and performance metrics. All of its real
logic is made of pure helpers inside the display components plus the page
state transitions of the top-level component. The model states that logic as
total Dafny functions over strings, sequences and reals:

- `LexicalTable`: the tag → category table and the per-category tally.
- `TokenDisplay`: the colour and icon lookups with their defaults, and the
  identifier/operator/symbol statistics box.
- `ErrorDisplay`: the priority-ordered diagnostic classifier on the
  lower-cased text, the `línea N` / `columna N` extraction and the
  remediation hints.
- `SemanticInfo`: the priority-ordered note classifier, the header counts and
  the first note that mentions `iteraciones`.
- `Units` and `Numerals`: the regular-expression readers that turn
  `"<digits>[.<digits>]<unit>"` metric strings into typed readings, and
  round-trip lemmas that read a written numeral back.
- `PerformanceResults`: `formatTime` (→ ms), `formatMemory` (→ KB) and the
  clamped comparison of two runs.
- `PerformanceComparison`: `parseTimeToMs`, `calculateImprovement`, the
  colour and background bands and the progress-bar widths.
- `PerformanceMetricsPanel`: `formatBytes` unit selection, the duration
  re-scaling, the bytes-per-allocation figure and the indicator badges.
- `Session`: the three request handlers of the page as events over a state
  of three nullable result variants and three loading flags.

Support modules: `Prelude` (`Option`, `Outcome`), `Text` (substrings, ASCII
and Latin-1 lower-casing, digit runs, leftmost regex search), `Sequences`
(`CountIf` and its algebra), `Rules` (first-firing rule tables) and
`AnalysisTypes` (the payload records).

Analyzer calls are not modelled as I/O. Each resolution is an `Outcome`
(`Success(payload)` or `Failure`) carried by a `Session.Event`, and a run of the
page is any sequence of such events.

## Model

| member | source | states |
|---|---|---|
| LexicalTable.CategoryOf | src/components/LexicalTable.tsx:17-44 | Exactly FOR, DO, WHILE, KEYWORD and TYPE are reserved words. Only IDENTIFIER is an identifier, only NUMBER is a number and only UNKNOWN is an error. Every other tag, listed or not, is a symbol. |
| LexicalTable.UnlistedTagsAreSymbols | src/components/LexicalTable.tsx:29-42 | A tag outside the table, such as STRING or COLON, is tallied as a symbol. |
| LexicalTable.Tally | src/components/LexicalTable.tsx:46-61 | Each counter equals the number of tokens of its category, and the five counters sum to the number of tokens. |
| LexicalTable.TallyPermutationInvariant | src/components/LexicalTable.tsx:55-58 | Any reordering of the tokens (equal multisets) gives the same tally. |
| TokenDisplay.ColourOf | src/components/TokenDisplay.tsx:8-32 | A listed tag gets its table colour. Grey goes exactly to the six punctuation tags (LPAREN, RPAREN, LBRACE, RBRACE, SEMICOLON, COLON) and to every unlisted tag. Purple goes exactly to FOR, DO and WHILE. |
| TokenDisplay.IconOf | src/components/TokenDisplay.tsx:34-58 | A listed tag gets its table icon. The question mark goes exactly to UNKNOWN and to every unlisted tag. The loop icon goes exactly to FOR, DO and WHILE. |
| TokenDisplay.TablesListTheSameTags | src/components/TokenDisplay.tsx:8-57 | The colour table and the icon table list the same 19 tags. |
| TokenDisplay.UnlistedTagDefaults | src/components/TokenDisplay.tsx:8-57 | An unlisted tag gets the punctuation colour of SEMICOLON and COLON, which differs from UNKNOWN's colour, and the question-mark icon of UNKNOWN. |
| TokenDisplay.StatsOf | src/components/TokenDisplay.tsx:147-168 | The total is the token count. Identifiers, operators and symbols are the numbers of positions whose tag is IDENTIFIER, one of the four operator tags, or one of the five symbol tags. Together they never exceed the total. The identifier figure equals the lexical table's identifier counter, and operators plus symbols stay within its symbol counter. |
| TokenDisplay.StatsOfEmpty | src/components/TokenDisplay.tsx:147-168 | No tokens give four zero figures. |
| TokenDisplay.StatsOfAppend | src/components/TokenDisplay.tsx:149-166 | One more token raises the total by one. It raises identifiers by one exactly when its tag is IDENTIFIER, operators exactly when its tag is OPERATOR, COMPARISON, ASSIGNMENT or INCREMENT, and symbols exactly when it is LPAREN, RPAREN, LBRACE, RBRACE or SEMICOLON. |
| TokenDisplay.GroupsAreDisjoint | src/components/TokenDisplay.tsx:154-166 | The identifier, operator and symbol counts together never exceed the number of tokens, because no tag is in two groups. |
| TokenDisplay.IdentifiersMatchTable | src/components/TokenDisplay.tsx:154 | The identifier figure counts exactly the tokens that the lexical table files as identifiers. |
| TokenDisplay.ColonIsNotASymbol | src/components/TokenDisplay.tsx:166 | Appending a COLON token raises the total by one but leaves the Symbols figure unchanged, even though COLON is drawn in the punctuation colour. |
| ErrorDisplay.ClassifyError | src/components/ErrorDisplay.tsx:12-46 | On the lower-cased message: "se esperaba" gives Syntactic whatever else is present. Otherwise "se llegó al final" gives EOF, then "conexión" or "servidor" gives Connection, then "mal formado" or "número" gives Lexical, and anything else is General. Each kind is characterised in both directions. |
| ErrorDisplay.ClassifyErrorIgnoresCase | src/components/ErrorDisplay.tsx:13 | Lower-casing a message first does not change its kind. |
| ErrorDisplay.NumberAfter | src/components/ErrorDisplay.tsx:50-54 | The number is read after the leftmost occurrence of the key that is followed by a digit. It is absent exactly when no such occurrence exists. |
| ErrorDisplay.ParseErrorDetails | src/components/ErrorDisplay.tsx:48-58 | The message is returned unchanged. Line and column are null exactly when "línea " or "columna " followed by a digit never occurs in the original text. Otherwise each is the number read after the leftmost such occurrence. |
| ErrorDisplay.ExpectedSemicolonExample | src/components/ErrorDisplay.tsx:48-58 | "Se esperaba ';' en línea 3, columna 10" is Syntactic, with line 3 and column 10, and it gets a suggestion. |
| ErrorDisplay.HintFor | src/components/ErrorDisplay.tsx:60-80 | The family is the one the eight-step chain `HintChain` picks on the lower-cased message. The semicolon, identifier, rbrace and assignment hints all require "se esperaba", and the semicolon hint applies exactly when both words appear. Without "se esperaba", "mal formado" gives the number hint and "tipo" without it gives the type hint. The generic hint applies exactly when no rule fires. |
| ErrorDisplay.HintRulesDecide | src/components/ErrorDisplay.tsx:63-79 | The hint rule table, evaluated first-match-wins, is the source's chain of eight checks in source order. |
| ErrorDisplay.SuggestionsFor | src/components/ErrorDisplay.tsx:60-80 | The suggestion list is never empty, and no line of it is empty. |
| ErrorDisplay.MalformedBeatsLaterHints | src/components/ErrorDisplay.tsx:71-76 | A message without "se esperaba" that mentions "mal formado", "tipo" and "args" gets the number hint. |
| SemanticInfo.ClassifyNote | src/components/SemanticInfo.tsx:12-64 | On the lower-cased note: a warning marker wins over everything. Success applies only without one. Info needs "variable" and "declarada" and no earlier marker. Analysis is "bucle" or "for", then Structure is "incremento" or "condición", and anything else is General. Each kind is characterised in both directions, and there is no error kind. |
| SemanticInfo.InformationIsLoopAnalysis | src/components/SemanticInfo.tsx:39 | The note "Información" is classified as loop analysis, because it contains "for". |
| SemanticInfo.StatsOf | src/components/SemanticInfo.tsx:66-73 | `warnings` is the number of notes containing '⚠️' and `successes` the number containing '✓', both in the text as given. `variables` is the number whose lower-cased text contains "variable". None exceeds the number of notes. `iterations` is the first note that mentions "iteraciones", and it is absent exactly when no note does. |
| SemanticInfo.StatsOfEmpty | src/components/SemanticInfo.tsx:66-73 | An empty list gives three zero counts and no iterations note. |
| SemanticInfo.StatsOfAppend | src/components/SemanticInfo.tsx:67-70 | One more note raises `warnings` by one exactly when it contains '⚠️', `successes` exactly when it contains '✓', and `variables` exactly when its lower-cased text contains "variable". It becomes the iterations note exactly when it mentions "iteraciones" and no earlier note did. |
| SemanticInfo.WarningSignMeansWarning | src/components/SemanticInfo.tsx:15 | A note that shows the warning sign is classified as a warning. |
| SemanticInfo.WarningsAreWarnings | src/components/SemanticInfo.tsx:67 | The header's warning count never exceeds the number of notes classified as warnings. |
| SemanticInfo.SuccessesAreWarningsOrSuccesses | src/components/SemanticInfo.tsx:68 | The header's success count never exceeds the number of notes classified as warnings or successes. |
| Units.TimeReadBack | src/components/PerformanceResults.tsx:15 | A well-formed numeral followed by an accepted time unit is read back as exactly that value in that unit. |
| Units.MemoryReadBack | src/components/PerformanceResults.tsx:37 | A well-formed numeral, any white space and B, KB or MB are read back as exactly that value in that unit. |
| Units.NanosecondsUnread | src/components/PerformanceComparison.tsx:24-25 | Without the `ns` alternative, a nanosecond figure matches nowhere in the string. |
| Units.GigabytesUnread | src/components/PerformanceResults.tsx:37-38 | A gigabyte figure matches nowhere in the string, because GB is not among the memory units. |
| Units.TimeReadersAgree | src/components/PerformanceComparison.tsx:24 | On a string without "ns", the readers with and without the `ns` alternative find the same reading. |
| PerformanceResults.FormatTime | src/components/PerformanceResults.tsx:13-33 | The result is non-negative milliseconds, and 0 when nothing matches. |
| PerformanceResults.FormatTimeReadsBack | src/components/PerformanceResults.tsx:15-31 | A written duration is converted to milliseconds: ns ÷ 1e6, µs ÷ 1000, ms × 1, s × 1000. |
| PerformanceResults.FormatMemory | src/components/PerformanceResults.tsx:35-53 | The result is non-negative kilobytes, and 0 when nothing matches. |
| PerformanceResults.FormatMemoryReadsBack | src/components/PerformanceResults.tsx:37-51 | A written amount is converted to kilobytes: B ÷ 1024, KB × 1, MB × 1024. A GB amount gives 0. |
| PerformanceResults.BytesExample | src/components/PerformanceResults.tsx:37-51 | "512 B" is 0.5 KB. |
| PerformanceResults.KilobytesExample | src/components/PerformanceResults.tsx:37-51 | "1 KB" is 1 KB. |
| PerformanceResults.MegabytesExample | src/components/PerformanceResults.tsx:37-51 | "1 MB" is 1024 KB. |
| PerformanceResults.ClampedImprovement | src/components/PerformanceResults.tsx:63-70 | The improvement is never negative. It is positive exactly when the baseline is positive and the optimized figure is lower, and then it is the percentage saved. It is at most 100 for a non-negative optimized figure. |
| PerformanceResults.Compare | src/components/PerformanceResults.tsx:55-74 | The comparison is null exactly when either result is missing. Each improvement is the clamped saving of the optimized figure against the unoptimized one, as read by `formatTime` or `formatMemory`. Both lie in [0, 100] and are positive exactly when their unclamped difference (unoptimized − optimized) is positive. |
| PerformanceComparison.ParseTimeToMs | src/components/PerformanceComparison.tsx:23-36 | The result is non-negative milliseconds, and 0 when nothing matches. |
| PerformanceComparison.ParseTimeReadsBack | src/components/PerformanceComparison.tsx:23-35 | µs, ms and s figures are converted to milliseconds. Any nanosecond figure reads as 0. |
| PerformanceComparison.ParseTimeExamples | src/components/PerformanceComparison.tsx:23-35 | "1500µs" is 1.5 ms and "2.5s" is 2500 ms. |
| PerformanceComparison.ReadersAgreeWithoutNanoseconds | src/components/PerformanceComparison.tsx:23-36 | Without "ns" in the text, this card and the results panel read the same duration. |
| PerformanceComparison.CalculateImprovement | src/components/PerformanceComparison.tsx:17-21 | N/A exactly when the baseline is 0. With a positive baseline, "better by p" exactly when the optimized figure is lower, with optimized = unoptimized × (1 − p/100). Otherwise "worse by p" with optimized = unoptimized × (1 + p/100), so no change is 0% worse. Better is at most 100 for non-negative figures. |
| PerformanceComparison.ImprovementExamples | src/components/PerformanceComparison.tsx:17-21 | 100 vs 200 is 50% better, 200 vs 100 is 100% worse, and 5 vs 5 is 0% worse. |
| PerformanceComparison.ColourOf | src/components/PerformanceComparison.tsx:45-53 | N/A is grey and worse is red. Better figures that print (one decimal) above 50, 25 and 0 get the three green tiers. A better figure that prints as 0.0 is red. |
| PerformanceComparison.BackgroundOf | src/components/PerformanceComparison.tsx:55-63 | The same five bands with the background shades. |
| PerformanceComparison.TinyGainIsRed | src/components/PerformanceComparison.tsx:19-53 | 99.9996 against 100 is better by 0.0004%, yet it is shown in red. |
| PerformanceComparison.BarWidth | src/components/PerformanceComparison.tsx:183 | The width is undefined (NaN) exactly when both figures are 0. Otherwise it lies in [10, 100], including JavaScript's division by zero. |
| PerformanceComparison.BarTracksImprovement | src/components/PerformanceComparison.tsx:183 | With a positive baseline, a better bar shows the improvement held to [10, 100] and a worse bar sits at 10. |
| PerformanceComparison.CardOf | src/components/PerformanceComparison.tsx:13-43 | The card is absent exactly when either metric set is. Time compares parsed durations, memory compares `allocatedBytes` and allocations compare `totalAllocs`. Each of the three bars is `BarWidth` of the same two figures as its improvement. The count bars exist when their baselines are positive. |
| PerformanceComparison.MemoryStringsIgnored | src/components/PerformanceComparison.tsx:38-43 | Changing either `memoryUsage` string does not change the card. |
| PerformanceComparison.CountBarsBounded | src/components/PerformanceComparison.tsx:199-215 | With positive baselines, the bytes and allocation bars lie in [10, 100]. |
| PerformanceMetricsPanel.UnitIndex | src/components/PerformanceMetrics.tsx:29 | The unit index i is the exponent with 1024^i ≤ bytes < 1024^(i+1). |
| PerformanceMetricsPanel.FormatBytesAsWritten | src/components/PerformanceMetrics.tsx:25-31 | As written: 0 is "0 B" and any other figure has an amount of at least 1. |
| PerformanceMetricsPanel.AsWrittenUndefinedFrom | src/components/PerformanceMetrics.tsx:28-30 | As written, the unit is undefined exactly from 1024^4 bytes upwards. |
| PerformanceMetricsPanel.TebibyteIsUndefined | src/components/PerformanceMetrics.tsx:28-30 | As written, 1099511627776 bytes print as amount 1 with an undefined unit. |
| PerformanceMetricsPanel.FormatBytes | src/components/PerformanceMetrics.tsx:25-31 | Corrected: 0 is "0 B" and the unit is always defined. Any other figure is amount × 1024^k for the chosen unit k, with amount ≥ 1 and amount < 1024 unless the unit is GB. |
| PerformanceMetricsPanel.FormatBytesAgreesBelowTebibyte | src/components/PerformanceMetrics.tsx:25-31 | Below 1024^4 bytes the corrected and as-written formatting coincide. |
| PerformanceMetricsPanel.DisplayTime | src/components/PerformanceMetrics.tsx:33-50 | The figure is shown in µs exactly when the reading is below 1000 µs. It is shown in ms exactly when it is at least 1000 µs, and in s exactly when it is at least 1000 ms. A re-scaled figure denotes the same duration the card parses. Microseconds stay below 1000, and rescaled milliseconds or seconds are at least 1. The text is kept verbatim exactly when nothing matches, the unit is s, or milliseconds are below 1000. |
| PerformanceMetricsPanel.DisplayReading | src/components/PerformanceMetrics.tsx:41-49 | Given a reading, µs is kept exactly when the value is below 1000 µs. From 1000 µs the reading becomes ms, and from 1000 ms it becomes s; either way the shown figure is the same number of milliseconds and at least 1. Nanoseconds, seconds and milliseconds below 1000 are returned verbatim. |
| PerformanceMetricsPanel.EfficiencyOf | src/components/PerformanceMetrics.tsx:127-130 | It is "0 B/alloc" exactly when there are no allocations. Otherwise the figure times the allocation count is the allocated bytes. |
| PerformanceMetricsPanel.KeepNumeric | src/components/PerformanceMetrics.tsx:150 | Stripping keeps only digits and dots, never lengthens the text, and leaves an all-numeric text unchanged. A single character is kept exactly when it is a digit or a dot, and is removed otherwise. |
| PerformanceMetricsPanel.KeepNumericAppend | src/components/PerformanceMetrics.tsx:150 | The pieces of a concatenation are stripped independently. |
| PerformanceMetricsPanel.LeadingNumber | src/components/PerformanceMetrics.tsx:150 | `parseFloat` of the stripped text is a number exactly when the text starts with a digit, or with a dot and a digit. The number is non-negative. |
| PerformanceMetricsPanel.LeadingNumberReadsNumeral | src/components/PerformanceMetrics.tsx:150 | `parseFloat` of a written numeral, followed by anything that does not continue it, is the numeral's value. |
| PerformanceMetricsPanel.LeadingNumberReadsFraction | src/components/PerformanceMetrics.tsx:150 | `parseFloat` of a point and digits, followed by a non-digit or nothing, is that fraction. |
| PerformanceMetricsPanel.SpeedFigureReadsNumeral | src/components/PerformanceMetrics.tsx:150-155 | The number the speed badges compare with 1 is the written numeral of the duration, whatever its unit. |
| PerformanceMetricsPanel.Badges | src/components/PerformanceMetrics.tsx:139-170 | There is exactly one memory badge (low iff allocatedBytes < 10000) and exactly one GC badge (none iff gcCycles = 0). There is at most one speed badge: fast iff the stripped number is below 1, slow iff it is at least 1, and none when it is NaN. |
| PerformanceMetricsPanel.SpeedBadgeIgnoresUnit | src/components/PerformanceMetrics.tsx:150-159 | "500µs" is flagged slow while "0.9s" is flagged fast. |
| Session.SetLoading | src/App.tsx:31-34 | Setting one handler's flag leaves the other two flags alone. |
| Session.Step | src/App.tsx:36-112 | Only the handler's own flag moves: up at its start and down at its resolution. A start leaves the results alone. Each success stores its payload and clears the other two variants. A plain or unoptimized failure stores the synthetic connection-error payload (zeroed metrics for the unoptimized one) and leaves the others as they were. A comparison failure empties the comparison. |
| Session.SuccessIsExclusive | src/App.tsx:36-112 | After any successful resolution exactly one variant is populated, and it is the handler's own. |
| Session.FailureOnlyAdds | src/App.tsx:36-112 | A failure never touches the other handlers' variants. A plain or unoptimized failure never decreases the populated count, and a comparison failure never increases it. |
| Session.FailureCanLeaveTwoVariants | src/App.tsx:39-80 | A plain success followed by an unoptimized failure leaves two variants on the page. |
| Session.NeverHalfPopulated | src/App.tsx:95-108 | No sequence of events leaves exactly one side of the comparison filled. |
| Session.ComparisonShownIffFilled | src/App.tsx:218 | From the initial page, the comparison view is shown exactly when its slot is not empty. |
| Session.FlagsAreIndependent | src/App.tsx:36-112 | Events of other handlers never move a handler's loading flag. |
| Session.FlagFollowsLatestEvent | src/App.tsx:36-112 | After any sequence of events, a handler's flag is up exactly when its latest event was its start. |

## Left out

- The analyzer service and its HTTP client (base URL, timeout) are not part of this model. Each request resolves as an `Outcome` carried by an event, so transport errors are just `Failure`.
- The code editor, all JSX rendering, CSS class strings, emoji and the static help text are presentation. Colours, backgrounds, icons and badges are enumerations.
- `toFixed`, `toLocaleString` and the text built from numbers are left out. Figures are exact reals, and `Round1` models `toFixed(1)` only where it decides a colour band.
- PerformanceMetricsPanel.FormatBytes: the amount is exact, not rounded to two decimals by `toFixed(2)` and `parseFloat`.
- PerformanceMetricsPanel.UnitIndex: an exact integer exponent stands for `Math.floor(Math.log(b) / Math.log(1024))`. Floating-point error at exact powers of 1024 is not modelled.
- `toLowerCase` is modelled for ASCII and Latin-1 capitals only. This covers every marker the classifiers look for.
- The colour and icon lookups of the token list ignore JavaScript's inherited object keys: a tag named like an `Object.prototype` member is treated as unlisted.
- `Promise.all` timing is not modelled. The comparison resolves as one event whose outcome is a failure when either leg fails. Interleavings are arbitrary event sequences, not concurrency.
- ErrorDisplay.SuggestionsFor: the contract guarantees a non-empty list of non-empty lines. The exact Spanish lines are given by `HintLines`, and which family is chosen is stated by `HintFor`.
- The performance results panel's rendering when only one run is present is left out. Only the comparison figures are modelled.
- `cpuUsage` is displayed only and carries no logic. `gcCycles` only chooses the collection badge (`PerformanceMetricsPanel.Badges`).

Behaviour of the code worth noting:

- A failed plain or unoptimized request does not clear the other variants, so two variants can be populated at once (`Session.FailureCanLeaveTwoVariants`).
- Starting a request does not clear any payload, since only resolutions do.
- An improvement of exactly 0 is reported as "0% worse", not as an improvement.
- The semantic classifier has no error category: the warning rule is the first one.
- The `línea (\d+)` expression matches the first "línea " that is followed by a digit, not simply the first "línea ".
- Only some readers know `ns` and `GB`: `parseTimeToMs` and the card's `formatTime` skip `ns`, and `formatMemory` has no `GB`.

## Findings

| source | as written | input that shows it | evidently intended | confidence | as-written member | corrected member |
|---|---|---|---|---|---|---|
| src/components/PerformanceMetrics.tsx:28-30 | The unit index is used on the four-entry `sizes` list without a bound, so an index of 4 or more reads past its end. | 1099511627776 bytes (1024^4) gives amount 1 with unit `undefined` ("1 undefined"). | The index is held to GB, so the figure prints as "1024 GB". | medium, not executed | PerformanceMetricsPanel.TebibyteIsUndefined | PerformanceMetricsPanel.FormatBytes |
