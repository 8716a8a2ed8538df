# Typing game core in Dafny

A model of the core of a Japanese touch-typing trainer, a Next.js app. The model covers:

- **Practice page.** The page loads a practice text, which the AI server action generates or picks from canned texts. While the player types into the typing area, it logs every keystroke and keeps live words-per-minute and accuracy figures. When the timer runs out, it hands the current log and figures to the results page. When the last character is typed, the hand-off happens in the same event as that keystroke and sees the page's state from before it: the completing keystroke is applied to the page but is missing from the log and figures handed on (`Practice.PracticeSession.CompletingChange`).
- **Results page.** It turns the log into per-key statistics (counts, mean interval, finger and hand), picks the weak keys and asks for advice. Without an API key, or when the model gives no answer, the advice is rule-based.
- **History page and store.** The history page shows how long ago each stored session was. The store (Dexie/IndexedDB) saves, lists, filters and deletes sessions and keeps the user's settings.

Each source file is one module:

| module | file | flavour |
|---|---|---|
| `JsBuiltins` | builtins.dfy | The JavaScript built-ins the code relies on: `Math.round`, `%`, `toLowerCase` (ASCII), `String(n)`, `padStart`, `join`, `indexOf`, `slice`, and truthiness. |
| `Validator` | validator.dfy | `compareCharacters` and `validateInput`. The loop is a method proved against a function. |
| `Calculator` | calculator.dfy | WPM, accuracy and typing speed, with rounding stated exactly over the rationals. |
| `Keyboard` | keyboard.dfy | The QWERTY layout, the finger table, `getKeyPosition` (a loop over the rows), `getKeyInfo` and `getAllKeys`. |
| `Analyzer` | analyzer.dfy | `analyzeKeyStats` (two loops over a `Map`), `getFingerAndHand` and `identifyWeakKeys`. |
| `TypingInput` | typing_area.dfy | The `TypingArea` component as a class: key-code normalisation, the input handler, and per-character status. |
| `Practice` | practice.dfy | The practice page's state as a class whose methods are the page's handlers. |
| `Results` | results.dfy | The results page: weak-key selection, the redirect rule, and the analysis effect as a class. |
| `Countdown` | timer.dfy | The `Timer` component: `MM:SS` formatting and the one-second tick as a class. |
| `History` | history.dfy | `formatTimestamp`. |
| `Store` | store.dfy | `lib/db/operations.ts` over a sessions table and a settings table, as a class. |
| `Ai` | ai.dfy | `generatePrompt`, the canned texts, `generateTypingText` and `analyzeTypingPerformance` with the model's answer as a parameter, and `generateFallbackAdvice`. |

The state of each React component is a class. Its fields are the `useState` variables. Its methods are the handlers and effects.

A handler reads the state from before the change, because the setters are batched. So `HandleTypingChange` computes every update from the old state, as the source does.

A number that may be `NaN` or `null` is an `Option<int>`. This covers `parseInt` of a missing URL parameter and a `startTime` that was never set. Every JavaScript comparison with `NaN` is false, and `0` is falsy, so the model writes both out (`JsBuiltins.TruthyNumber`, `Ai.Below`).

Durations are exact rationals. `Math.round(x)` is the unique integer `n` with `n - 0.5 <= x < n + 0.5`.

The results page reports a key as weak when its miss rate is strictly above 0.3. `identifyWeakKeys` uses `>= 0.3`. Both are modelled as written. `Results.BoundaryRateDiverges` shows a key missed 3 times in 10 that one calls weak and the other does not. `Results.WeakStatsRefineIdentified` shows that the page's choice is always a subset of `identifyWeakKeys`'s.

## Model

| member | source | states |
|---|---|---|
| JsBuiltins.Round | lib/typing/calculator.ts:22 | `Math.round(x)` is an integer within half a unit of `x`, a half rounding up. |
| JsBuiltins.RoundIsUnique | lib/typing/calculator.ts:37 | Any integer within half a unit of `x` (a half counted upward) is `Math.round(x)`. |
| JsBuiltins.JsRem | components/Timer.tsx:48 | The JavaScript remainder equals Euclidean `%` for a non-negative dividend and is non-positive for a negative one. |
| JsBuiltins.Lower | lib/utils/keyboard.ts:93 | `toLowerCase` keeps the length and maps every character on its own, changing only ASCII capitals. |
| JsBuiltins.LowerIdempotent | lib/utils/keyboard.ts:118 | Lower-casing leaves no capital, so lower-casing twice is lower-casing once. |
| JsBuiltins.DigitsRoundTrip | components/Timer.tsx:49 | `String(n)` of a natural number is a non-empty run of decimal digits that reads back as `n`. It has one digit exactly when `n < 10`. |
| JsBuiltins.PadStart | components/Timer.tsx:49 | `padStart` gives length `max(|s|, width)`, ends with `s`, and is fill characters before it. |
| JsBuiltins.IndexOf | lib/utils/keyboard.ts:105 | `indexOf` returns -1 exactly when the element is absent. Otherwise it returns the first index holding it. |
| JsBuiltins.SliceTo | lib/db/operations.ts:102 | `slice(0, end)` is a prefix. Its length is `min(end, |xs|)` for `end >= 0` and counts from the back for `end < 0`. |
| Validator.CompareCharacters | lib/typing/validator.ts:20-26 | The result keeps both characters and is correct exactly when they are equal (case-sensitive). |
| Validator.ComparedLength | lib/typing/validator.ts:36-41 | The number of comparisons never exceeds either text's length. |
| Validator.ValidateInput | lib/typing/validator.ts:34-49 | The loop pushes exactly the comparisons of `Validation`. |
| Validator.ValidationShape | lib/typing/validator.ts:36-46 | An empty text gives no results. Otherwise there is one result per position of the shorter text, comparing the characters at that position. |
| Validator.ValidationIgnoresOverflow | lib/typing/validator.ts:41-46 | Characters typed beyond the target's length never change the result. |
| Validator.AllCorrectIffPrefix | lib/typing/validator.ts:34-49 | For a non-empty input no longer than the target, every result is correct exactly when the input is a prefix of the target. |
| Calculator.CalculateWpm | lib/typing/calculator.ts:11-23 | 0 for no characters or no time. Otherwise the rounded rate: `(wpm ± 0.5) * seconds` brackets `12 * characters`. |
| Calculator.WpmExamples | lib/typing/calculator.ts:11-23 | 300 characters in 60 s give 60 wpm, 450 in 120 s give 45, and 127 in 60 s give 25. A zero count or duration gives 0. |
| Calculator.CalculateAccuracy | lib/typing/calculator.ts:31-38 | 0 for no characters. Otherwise the rounded percentage: `(accuracy ± 0.5) * total` brackets `100 * correct`. |
| Calculator.AccuracyRange | lib/typing/calculator.ts:31-38 | For `0 <= correct <= total`, accuracy is in [0, 100], 100 when all are correct and 0 when none are. |
| Calculator.CalculateTypingSpeed | lib/typing/calculator.ts:46-53 | Characters per second rounded to hundredths: a whole number of hundredths bracketing the exact rate, and 0 for no characters or no time. |
| Calculator.TypingSpeedExample | lib/typing/calculator.ts:46-53 | 100 characters in 60 seconds is 1.67 characters per second. |
| Keyboard.PositionIn | lib/utils/keyboard.ts:104-111 | No position exactly when no remaining row holds the key. Otherwise the 1-based row is the first row holding it and the column is its first index there. |
| Keyboard.GetKeyPosition | lib/utils/keyboard.ts:92-112 | The loop over the five rows returns what `KeyPosition` specifies. |
| Keyboard.KeyPositionDefinedIffLayoutKey | lib/utils/keyboard.ts:92-112 | A position exists exactly when the lower-cased key is on the layout. It then points at that key. |
| Keyboard.KeyPositionIgnoresCase | lib/utils/keyboard.ts:93 | A key and its lower case have the same position. |
| Keyboard.PositionRoundTrip | lib/utils/keyboard.ts:92-112 | Every layout key is found, and the row and column found hold that key. |
| Keyboard.GetKeyInfo | lib/utils/keyboard.ts:117-133 | A result carries the lower-cased key, its position and its finger-table entry. |
| Keyboard.KeyInfoDefinedIffLayoutKey | lib/utils/keyboard.ts:117-133 | `getKeyInfo` answers exactly for keys whose lower case is on the layout. |
| Keyboard.AllKeysFlattensRows | lib/utils/keyboard.ts:138-146 | `getAllKeys` is the five rows concatenated in order. |
| Keyboard.AllKeysShape | lib/utils/keyboard.ts:20-26 | There are 46 keys. The first is '1' and the last is the space bar. |
| Keyboard.AllKeysDistinct | lib/utils/keyboard.ts:20-26 | No key appears twice on the layout. |
| Keyboard.RowsDisjoint | lib/utils/keyboard.ts:20-26 | No two rows share a key. |
| Keyboard.LayoutKeysAreLowerCase | lib/utils/keyboard.ts:20-26 | Every layout key is one character and none is upper-case. |
| Keyboard.AssignmentsCoverLayout | lib/utils/keyboard.ts:31-87 | The finger table has an entry for exactly the layout's keys. |
| Keyboard.SpaceKeyInfo | lib/utils/keyboard.ts:86 | The space bar is row 5, column 0, struck by the right thumb. |
| Analyzer.GetFingerAndHand | lib/typing/analyzer.ts:102-111 | The table entry of the lower-cased key, or the left index finger when the table has none. |
| Analyzer.FingerAndHandIgnoresCase | lib/typing/analyzer.ts:103 | A key and its lower case get the same finger and hand. |
| Analyzer.UnmappedKeysDefault | lib/typing/analyzer.ts:109-110 | The space bar and a kana get the left index finger. |
| Analyzer.FingerAndHandExamples | lib/typing/analyzer.ts:43-96 | 'a' and 'A' are the left pinky's, 'f' the left index's, 'j' the right index's, and ';' the right pinky's. |
| Analyzer.AverageTime | lib/typing/analyzer.ts:155-165 | 0 without intervals. Otherwise the rounded mean: `(avg ± 0.5) * count` brackets the sum. |
| Analyzer.StatsFor | lib/typing/analyzer.ts:153-167 | One statistic per key, in the keys' order, each built from that key's tally. |
| Analyzer.TallyPresses | lib/typing/analyzer.ts:122-148 | After the loop, the Map's keys in insertion order are the pressed keys in order of first press. Each entry holds that key's correct count, miss count and credited intervals. |
| Analyzer.AnalyzeKeyStats | lib/typing/analyzer.ts:116-170 | The method returns exactly `KeyStats` of the presses. |
| Analyzer.TallyStep | lib/typing/analyzer.ts:128-148 | One more press changes only its own key's tally: one more correct or miss, plus one interval after the first press. A new key is appended to the order. |
| Analyzer.FirstOccurrencesMembership | lib/typing/analyzer.ts:147-153 | A key has a statistic exactly when it was pressed. |
| Analyzer.FirstOccurrencesDistinct | lib/typing/analyzer.ts:122-153 | No key gets two statistics. |
| Analyzer.FirstOccurrencesOrdered | lib/typing/analyzer.ts:147-153 | Statistics come in the order of each key's first press. |
| Analyzer.CountsCoverPresses | lib/typing/analyzer.ts:135-139 | A key's correct and miss counts add up to the number of its presses. |
| Analyzer.PressTotalIsPressCount | lib/typing/analyzer.ts:116-170 | Over all statistics, the counts add up to the number of presses: each press is counted once. |
| Analyzer.GapsCount | lib/typing/analyzer.ts:142-145 | A key is credited one interval per press, except the session's very first press. |
| Analyzer.GapsAreIntervals | lib/typing/analyzer.ts:142-145 | Each credited interval is the time from the previous press to a press of that key. |
| Analyzer.AggregateExample | lib/typing/analyzer.ts:116-170 | Pressing 'l' three times 100 ms apart, the last press missed, gives one statistic: 2 correct, 1 miss, 100 ms, right ring finger. |
| Analyzer.WeakKeysMembership | lib/typing/analyzer.ts:175-183 | A statistic is kept exactly when it is an input that was pressed and whose miss rate reaches the threshold. |
| Analyzer.WeakKeysAppend | lib/typing/analyzer.ts:176 | The filter works element by element, so input order is kept. |
| Analyzer.UnpressedNeverWeak | lib/typing/analyzer.ts:178 | A key with no presses is never weak, whatever the threshold. |
| Analyzer.TablesAgreeOnRow1 | lib/typing/analyzer.ts:43-96 | The analyzer's table and the layout's finger table agree on every number-row key. |
| Analyzer.TablesAgreeOnRow4ExceptM | lib/typing/analyzer.ts:43-96 | The two tables agree on every bottom-row key except 'm'. |
| Analyzer.TablesDifferOnM | lib/typing/analyzer.ts:76 | The analyzer gives 'm' to the right index finger, and the layout gives it to the right middle finger. |
| Analyzer.TablesDifferOnSpace | lib/typing/analyzer.ts:109-110 | The analyzer has no space bar, so it gets the default. The layout gives it to the right thumb. |
| Analyzer.BackquoteOnlyHere | lib/typing/analyzer.ts:43 | The backquote is in the analyzer's table and not in the layout's. |
| TypingInput.NormalizeKeyCode | components/TypingArea.tsx:45-76 | "Key…" gives the lower-cased rest and "Digit…" gives the rest. Any other code gives a result exactly when the symbol table knows it or it is "Backspace", and that result is one character or "Backspace". |
| TypingInput.SymbolFor | components/TypingArea.tsx:55-70 | Every symbol in the table is a single character. |
| TypingInput.PunctuationCodes | components/TypingArea.tsx:55-70 | "Space", "Comma", "Period" and "Slash" normalise to their characters. |
| TypingInput.BracketCodes | components/TypingArea.tsx:55-70 | "Semicolon", "Quote", "BracketLeft" and "BracketRight" normalise to their characters. |
| TypingInput.SignCodes | components/TypingArea.tsx:55-70 | "Backslash", "Minus" and "Equal" normalise to their characters. |
| TypingInput.SymbolCodes | components/TypingArea.tsx:55-70 | Each of the eleven symbol codes normalises to its character. |
| TypingInput.BackspaceAndUnknownCodes | components/TypingArea.tsx:71-75 | "Backspace" normalises to itself, and a code in no table, such as "Enter", to nothing. |
| TypingInput.IgnoredCodeNormalisesToNothing | components/TypingArea.tsx:82-96 | None of the eleven control codes handleKeyDown drops would normalise to a key. |
| TypingInput.ReportIsNonEmptyNormalisation | components/TypingArea.tsx:79-109 | For every code, handleKeyDown reports exactly the code's normalisation when it is non-empty, and nothing otherwise. The ignore list never changes the outcome. |
| TypingInput.ReportedKeys | components/TypingArea.tsx:79-109 | "KeyA" to "KeyZ" report the lower-case letter, "Digit0" to "Digit9" the digit, "Space" and "Slash" their characters, and "Backspace" itself. "ShiftLeft" and "Enter" report nothing. |
| TypingInput.LetterAndDigitCodes | components/TypingArea.tsx:47-53 | "KeyA" to "KeyZ" give the lower-case letter, and "Digit0" to "Digit9" give the digit. |
| TypingInput.BareKeyPrefixDropped | components/TypingArea.tsx:47-49 | "Key" normalises to the empty string, which handleKeyDown drops. |
| TypingInput.BareDigitPrefixDropped | components/TypingArea.tsx:51-53 | "Digit" normalises to the empty string, which handleKeyDown drops. |
| TypingInput.StatusesSpec | components/TypingArea.tsx:149-165 | Each target character shows as untyped exactly past the typed text. Otherwise it shows as correct exactly when it was typed right. |
| TypingInput.TypingArea.constructor | components/TypingArea.tsx:37 | The input starts empty. |
| TypingInput.TypingArea.SetTargetText | components/TypingArea.tsx:40-42 | A changed target clears the input. The input stays no longer than the target. |
| TypingInput.TypingArea.HandleInputChange | components/TypingArea.tsx:112-140 | Input longer than the target is refused and changes nothing. Otherwise it is taken. "All correct" means a non-empty prefix of the target, and completion means it equals the (non-empty) target. |
| TypingInput.TypingArea.RenderedStatuses | components/TypingArea.tsx:143-165 | There is one status per target character. |
| Practice.MatchCount | app/practice/page.tsx:92-94 | The count of matching positions never exceeds the typed length. |
| Practice.MatchCountFullIffPrefix | app/practice/page.tsx:92-95 | Every typed character matches exactly when the typed text is a prefix of the target. |
| Practice.PracticeSession.constructor | app/practice/page.tsx:17-29 | The initial state: beginner, loading, nothing typed, accuracy 100. |
| Practice.PracticeSession.StartLoading | app/practice/page.tsx:33-41 | Every session figure is reset and loading starts. |
| Practice.PracticeSession.FinishLoading | app/practice/page.tsx:43-51 | The generated text becomes the target, or the failure message when generation threw. Loading ends. |
| Practice.PracticeSession.HandleTypingChange | app/practice/page.tsx:60-100 | The first character starts the timer. A longer text logs the character at the old length, correct when it matches the target there. The count is the new length. With an old start time and a non-empty text, wpm and accuracy are recomputed, with accuracy staying in [0, 100]. Nothing else changes. |
| Practice.PracticeSession.StartTimerOnFirstCharacter | app/practice/page.tsx:66-69 | The timer starts, at the current time, on the first character while it is stopped. |
| Practice.PracticeSession.RecordKeyPress | app/practice/page.tsx:72-81 | Exactly one keystroke is logged when the text grew, and none otherwise. |
| Practice.PracticeSession.RefreshFigures | app/practice/page.tsx:86-97 | wpm and accuracy are recomputed from the previous start time, or kept. |
| Practice.PracticeSession.SetDifficulty | app/practice/page.tsx:137-139 | Only the difficulty changes. |
| Practice.PracticeSession.Complete | app/practice/page.tsx:120-134 | The timer stops and the session is completed. The current log and the three figures are handed on unchanged. |
| Practice.PracticeSession.CompletingChange | app/practice/page.tsx:60-117 | The keystroke that completes the text is applied as a change, and then the session stops and completes. The hand-off carries the log and figures from before that keystroke: its count is the old length, and the new log has exactly one more keystroke, for the completing character. |
| Practice.AppendOnlyTypingLogsEachCharacter | app/practice/page.tsx:72-81 | When typing without corrections, the log's keys spell the typed text, one keystroke per character. |
| Results.MissRate | app/results/page.tsx:39-40 | The miss rate is in [0, 1]: 0 for an unpressed key, otherwise misses over presses. |
| Results.KeysOf | app/results/page.tsx:43 | `.map(stat => stat.key)` keeps the order and the length. |
| Results.WeakStatsMembership | app/results/page.tsx:37-42 | A statistic passes exactly when it is an input and its miss rate is above 0.3. |
| Results.SelectWeakKeysSpec | app/results/page.tsx:37-44 | The weak keys are the keys of the passing statistics, in order, at most five of them. |
| Results.UnpressedNeverShown | app/results/page.tsx:40 | A key never pressed is never reported. |
| Results.ShownWeakIsWeak | app/results/page.tsx:41 | Every key the page reports also passes `identifyWeakKeys` at its default threshold. |
| Results.WeakStatsRefineIdentified | app/results/page.tsx:37-42 | The page's filter equals applying it after `identifyWeakKeys`. |
| Results.BoundaryRateDiverges | app/results/page.tsx:41 | A key missed 3 times out of 10 is weak for `identifyWeakKeys` but not for the page. |
| Results.SelectedKeysDistinct | app/results/page.tsx:33-44 | No key is reported twice. |
| Results.ShouldRedirect | app/results/page.tsx:62-67 | The page redirects exactly when wpm, accuracy and the character count are all 0 or NaN. |
| Results.ResultsView.constructor | app/results/page.tsx:20-22 | The state starts with no statistics, no advice, and analysis pending. |
| Results.ResultsView.DisplayedAdvice | app/results/page.tsx:84 | Nothing is shown while analysing. Otherwise the advice is shown. |
| Results.ResultsView.Analyze | app/results/page.tsx:24-60 | The statistics are `analyzeKeyStats` of the log and analysis ends. The advice is the failure text when the action rejects. It is the rule-based advice on the selected weak keys without a key or a reply, and otherwise the reply. |
| Results.AdviceMentionsWeakKeysIff | app/results/page.tsx:37-49 | The rule-based advice names weak keys exactly when some key's miss rate is above 0.3. |
| Countdown.FormatTimeRoundTrip | components/Timer.tsx:46-50 | Below 100 minutes the display is five characters, MM:SS, and reads back as the same number of seconds. |
| Countdown.FormatTimeSplits | components/Timer.tsx:47-49 | The display is the whole minutes and the leftover seconds. |
| Countdown.FormatTimeNinety | components/Timer.tsx:46-50 | 90 seconds displays as 01:30. |
| Countdown.FormatTimeLastBeforeHour | components/Timer.tsx:46-50 | 3599 seconds displays as 59:59. |
| Countdown.TickStep | components/Timer.tsx:26-39 | A tick never raises the remaining time and never makes a non-negative one negative. It fires only when it reaches 0. |
| Countdown.RunSpec | components/Timer.tsx:26-43 | An active timer from `r > 0` seconds counts down one per tick and fires exactly once, on tick `r`. A timer at or below 0 never changes or fires. |
| Countdown.NoTickWhenIdle | components/Timer.tsx:27-29 | An inactive timer, or one at 0, does not change. |
| Countdown.Timer.constructor | components/Timer.tsx:18 | The remaining time starts at the duration. |
| Countdown.Timer.SetDuration | components/Timer.tsx:21-23 | A changed duration resets the remaining time. |
| Countdown.Timer.SetActive | components/Timer.tsx:15 | Only the active flag changes. |
| Countdown.Timer.Tick | components/Timer.tsx:31-40 | One second is one `TickStep`, and a firing is counted. |
| History.Classify | app/history/page.tsx:19-34 | Exactly one branch: under a minute (future times included), 1-59 whole minutes, 1-23 whole hours, 1-6 whole days, or a week or more. The count shown is the whole number of units elapsed. |
| History.ClassifyMonotone | app/history/page.tsx:23-30 | An older timestamp never lands in an earlier branch, and within a branch never shows a smaller count. |
| History.FormatTimestampExamples | app/history/page.tsx:19-34 | Five minutes ago shows "5分前", two hours ago "2時間前", three days ago "3日前", and a week ago the date. A future time shows "たった今". |
| Store.ToSession | lib/db/operations.ts:48-61 | The stored record has the chosen id and every other field of the input. |
| Store.Filter | lib/db/operations.ts:80-82 | Filtering never lengthens the list. |
| Store.FilterSpec | lib/db/operations.ts:80-91 | Filtering keeps exactly the passing elements and preserves newest-first order and distinct ids. |
| Store.FilterTwice | lib/db/operations.ts:78-95 | Two filters in turn are one filter by both conditions. |
| Store.ApplyFilterWithoutLimit | lib/db/operations.ts:72-106 | Without a truthy limit, the result is exactly the stored sessions that match the options, newest first and each once. |
| Store.ApplyFilterWithLimit | lib/db/operations.ts:100-103 | A positive limit keeps the first `limit` sessions of the unlimited result. |
| Store.BothFiltersAreConjunction | lib/db/operations.ts:78-95 | The difficulty and mode options together keep what satisfies both. |
| Store.ZeroLimitDiffers | lib/db/operations.ts:101 | A limit of 0 means no limit for `getSessions` and an empty list for `getRecentSessions`. |
| Store.TakeNewest | lib/db/operations.ts:116 | `limit(n)` is the first `min(n, count)` sessions of the listing. |
| Store.InsertKeepsNewestFirst | lib/db/operations.ts:75 | The newest-first listing stays newest first as each record is placed. |
| Store.InsertKeepsIdsDistinct | lib/db/operations.ts:75 | Placing a record with a new id keeps every id once. |
| Store.Merge | lib/db/operations.ts:155-158 | A field given in the update wins, every other field is kept, and the id never changes. |
| Store.MergeComposes | lib/db/operations.ts:151-161 | Two updates in turn equal one combined update, the later fields winning. |
| Store.MergeIdentityAndIdempotence | lib/db/operations.ts:151-161 | An empty update changes nothing, and repeating an update changes nothing more. |
| Store.SettingsExamples | lib/db/operations.ts:131-145 | An empty table gives the defaults, and a theme-only update changes only the theme. |
| Store.SessionStore.constructor | lib/db/operations.ts:45 | The database starts empty. |
| Store.SessionStore.SaveSession | lib/db/operations.ts:45-65 | The id is the given one when it is truthy, otherwise the generated one. The record is put under it, replacing any old one, and settings are untouched. |
| Store.SessionStore.ListNewestFirst | lib/db/operations.ts:75 | The listing holds every stored session once, newest first. |
| Store.SessionStore.GetSessions | lib/db/operations.ts:72-106 | The result is the newest-first listing narrowed by each given option, in the source's order of steps. |
| Store.SessionStore.GetRecentSessions | lib/db/operations.ts:113-117 | The result is the newest `limit` sessions, 10 by default. |
| Store.SessionStore.DeleteSession | lib/db/operations.ts:123-125 | Only that id is removed. An absent id is no error. |
| Store.SaveThenDeleteRestores | lib/db/operations.ts:45-125 | Saving a new id and deleting it leaves the table as it was. |
| Store.SessionStore.GetSettings | lib/db/operations.ts:131-145 | The stored record, or the defaults under "user-1". Nothing is written. |
| Store.SessionStore.UpdateSettings | lib/db/operations.ts:151-161 | The current-or-default settings with the update laid over them are written back, and sessions are untouched. |
| Ai.PromptFallbacks | app/actions/ai.ts:21-22 | An unknown difficulty is asked for as a beginner text, and an unknown type as a sentence. The tables know exactly the three difficulties and the three types. |
| Ai.PromptRoundTrip | app/actions/ai.ts:8-25 | Different known choices give different prompts: the difficulty and the type can be read back from the prompt. |
| Ai.PromptInjective | app/actions/ai.ts:8-25 | Two known choices of difficulty and text type give the same prompt only when they are the same choice. |
| Ai.FallbackList | app/actions/ai.ts:67 | The canned list is never empty. |
| Ai.FallbackTextsShape | app/actions/ai.ts:30-47 | Exactly the three difficulties have canned texts, and none of them is empty. |
| Ai.CannedTextFallsBackToBeginner | app/actions/ai.ts:67 | An unknown difficulty is served the beginner texts. |
| Ai.RandomIndex | app/actions/ai.ts:68 | `Math.floor(random * n)` is an index below `n`. |
| Ai.PickFallbackText | app/actions/ai.ts:67-68 | The random pick is one of the canned texts. |
| Ai.GenerateTypingText | app/actions/ai.ts:56-93 | Without a key, the text is a canned one. With a key and an answer, it is the answer. An empty answer at a known difficulty gives the first canned text. A failed request gives a canned text. The text is never empty. |
| Ai.SpeedBand | app/actions/ai.ts:158-166 | Band 0 exactly below 20 wpm, 1 from 20 to below 40, 2 from 40 to below 60, and 3 from 60 up or for NaN. |
| Ai.AccuracyBand | app/actions/ai.ts:169-175 | Band 0 exactly below 80%, 1 from 80 to below 95, and 2 from 95 up or for NaN. |
| Ai.GenerateFallbackAdvice | app/actions/ai.ts:154-183 | The advice built step by step is `FallbackAdvice`. |
| Ai.ExactlyOneSpeedParagraph | app/actions/ai.ts:158-166 | The advice opens with the speed paragraph of the wpm's band and with no other. |
| Ai.ExactlyOneAccuracyParagraph | app/actions/ai.ts:169-175 | After the speed paragraph comes the accuracy paragraph of the accuracy's band and no other. |
| Ai.WeakParagraphIffWeakKeys | app/actions/ai.ts:178-180 | The weak-key paragraph is added exactly when there are weak keys. |
| Ai.OnlyFirstThreeKeysNamed | app/actions/ai.ts:179 | Keys after the third do not change the advice. |
| Ai.NaNGetsTopBand | app/actions/ai.ts:158-175 | A NaN wpm or accuracy fails every `<` and gets the top band's paragraph. |
| Ai.FallbackAdviceNonEmpty | app/actions/ai.ts:154-183 | The rule-based advice is never empty. |
| Ai.AnalyzeTypingPerformance | app/actions/ai.ts:103-149 | Without a key, or without a non-empty answer (including a failed request), the advice is the rule-based one. Otherwise it is the answer. |

## Left out

- The Gemini requests are not modelled. The model's answer is a parameter: `None` when the request throws, otherwise the answer. The advice request's prompt text is not modelled.
- Ai.GenerateTypingText: the answer is taken already trimmed and with its line breaks removed. `trim()` and `replace(/\n/g, '')` are not modelled.
- Ai.AnalyzeTypingPerformance: the answer is taken already trimmed.
- `process.env.GEMINI_API_KEY`, `Date.now()` and `Math.random()` are parameters (`envKey`, `now`, `random`).
- In the history page, the month/day shown after a week comes from the local clock and time zone. It is a parameter of `History.FormatTimestamp`.
- Asynchrony, React's scheduling of effects and renders, `sessionStorage`, the router and `URLSearchParams` are left out. The practice page's hand-off is the `Handoff` value, and the results page receives the parsed numbers as `Option<int>`.
- Practice.PracticeSession.HandleTypingChange: the `isCorrect` argument is accepted and unused, as in the source.
- Numbers are exact integers and rationals, not IEEE doubles. A duration is a `real` and times are integers in milliseconds.
- `toLowerCase` maps only ASCII letters. Unicode case mapping is not modelled.
- Key codes that name `Object.prototype` members (such as "constructor") would hit the prototype in the source's record lookups. The model treats them as absent.
- `getKeyColor` and the other presentational components (heatmap, statistics panel, report, selectors, modal) are not part of this model.
- Store.SessionStore.ListNewestFirst: Dexie's order among sessions with equal timestamps is not specified. Any newest-first order is allowed, so `GetSessions` and `GetRecentSessions` promise their result for some such listing.
- Store.SessionStore.GetRecentSessions: the limit is a natural number. Dexie's behaviour for a negative limit is not modelled.
- `SettingsUpdate` fields are absent or present. A field given explicitly as `undefined`, which the spread would copy, is not modelled.
- Dexie's schema, indexes, transactions and storage errors are left out.
