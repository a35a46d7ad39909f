# Kovai MSME Optima: a Dafny model of the dashboard's logic

This project models the logic of the Kovai MSME Optima dashboard, a
browser application for small industrial units. It covers:

- **The Gemini client** (`src/lib/gemini.ts`):
  - the fallback cascade over three models, in order;
  - the data-URL prefix strip that makes a blob's inline part;
  - the API-key guard and the two prompts;
  - the cut of a JSON text out of the model's free-text reply;
  - the error wrapping of `analyzeBill` and `analyzeAudio`.
- **The bill scanner** (`src/components/BillScanner.tsx`): the comparison
  of a scanned bill with the previous bill or a fixed average, the badge
  colour, and the component state.
- **The microphone recorder hook** (`src/lib/useAudioRecorder.ts`), as a
  state machine.
- **The acoustic diagnostics screen** (`src/components/AcousticDiagnostics.tsx`):
  the `mm:ss` timer text and the analysis handler.
- **The avatar initials** (`src/components/ProfileDropdown.tsx`).
- **The energy analytics card** (`src/components/EnergyAnalytics.tsx`): the
  sample-data fallback, the fetch outcome and the report data.
- **The application shell** (`src/App.tsx`): the theme cycle, the language
  toggle and its label, and the route table.

## Layout

One module per source file:

| module | file |
|---|---|
| `Gemini` | `gemini.dfy` |
| `JsonExtraction` | `json_extraction.dfy` (the two regular expressions and the fence deletion of `gemini.ts`) |
| `BillScanner` | `bill_scanner.dfy` |
| `AudioRecorder` | `audio_recorder.dfy` |
| `AcousticDiagnostics` | `acoustic_diagnostics.dfy` |
| `ProfileDropdown` | `profile_dropdown.dfy` |
| `EnergyAnalytics` | `energy_analytics.dfy` |
| `App` | `app.dfy` |

Shared modules:

- `Wrappers`: `Option` and `Result`.
- `Strings`: `split`, `includes`, `substring`, `toUpperCase`, `padStart`, and decimal digits.
- `Js`: blobs, parsed JSON values, values a `catch` clause receives, and `x || fallback`.
- `JsNumber`: `parseFloat`.

Component state whose fields the source updates becomes a class, with one
method per handler or browser callback:

- `BillScanner.Scanner`
- `AcousticDiagnostics.Panel`
- `EnergyAnalytics.Analytics`
- `AudioRecorder.Recorder`

Everything else is functions and lemmas.

Inputs from the outside world are parameters:

- The SDK call is a sequence of per-model outcomes. Model `k`'s outcome is
  used only if model `k` is called.
- The `FileReader` result is a string.
- `JSON.parse` is a function parameter from string to `Result<Json, string>`.
- The Firestore queries and `getUserMedia` are the `Result` values they
  settle to.
- Whether a user is signed in is a boolean.
- A text part records which prompt it carries (`Gemini.Prompt`). `Gemini.PromptText` gives that prompt's exact text.

An `async` handler is one method that runs to completion. The awaited
outcomes are its arguments.

The model follows the code as written:

- A model that returns an empty text ends the cascade with that text. It
  does not count as a failure.
- No call has a timeout, and the model list is a constant.
- The parsed reply gets no schema check.
- The extraction hands `JSON.parse` the whole fenced match with its fence
  tokens deleted, so the text keeps the newline on each side of the
  block's content (`JsonExtraction.FencedBlockExtracted`). It does not take
  the inner group alone.
- Throwing `null` or `undefined` from a model call is not recovered. The
  `console.warn(error.message)` in the `catch` clause throws a `TypeError`,
  which ends the cascade (`Gemini.NullishThrowEscapes`).

## Model

| member | source | states |
|---|---|---|
| Gemini.Run | src/lib/gemini.ts:12-31 | The cascade makes at most one call per model. A returned text is the response of the last model called, and every model called before it failed with a readable error. Whatever escapes it is a truthy error, never `null`, `undefined` or another falsy value. |
| Gemini.Cascade | src/lib/gemini.ts:12-31 | Starting with no recorded error: at least one call when there is a model, at most one per model. A returned text is the last called model's response, after only recoverable failures. Whatever escapes is truthy. With no model at all it is the generic "All Gemini models failed" error. |
| Gemini.FirstResponseWins | src/lib/gemini.ts:15-23 | After only recoverable failures, the first model that responds wins. Its text is returned, even when empty, after exactly k+1 calls. No later model is called. |
| Gemini.NullishThrowEscapes | src/lib/gemini.ts:24-25 | A `null` or `undefined` throw, after only recoverable failures, ends the cascade after k+1 calls with the `TypeError` for reading `message`. |
| Gemini.AllFailedRethrowsLast | src/lib/gemini.ts:24-30 | When every model fails recoverably, every model is called. The last error is rethrown, or the generic "All Gemini models failed" error when that last error is falsy. |
| Gemini.GenerateWithFallback | src/lib/gemini.ts:12-31 | Call k goes to `MODELS_TO_TRY[k]` with the same parts. The number of calls and the result are those of the cascade. |
| Gemini.DataUrlPayloadRecovered | src/lib/gemini.ts:40 | For a data URL whose type has no comma and whose payload is non-empty base64, the strip returns exactly the payload. |
| Gemini.EmptyPayloadKeepsWholeUrl | src/lib/gemini.ts:40 | An empty payload makes `split(',')[1]` falsy, so the whole data URL is sent on. |
| Gemini.StripDataUrlPrefix | src/lib/gemini.ts:40 | The result is the whole reader result or a non-empty, comma-free piece of it. |
| Gemini.RawBase64Unchanged | src/lib/gemini.ts:40 | A comma-free string passes through the strip unchanged. |
| Gemini.StripIdempotent | src/lib/gemini.ts:40 | Stripping twice equals stripping once. |
| Gemini.BlobToGenerativePart | src/lib/gemini.ts:34-47 | The part is inline data whose `mimeType` is exactly the blob's `type`. |
| Gemini.GenerativePartOfDataUrl | src/lib/gemini.ts:34-47 | For the data URL of the blob's own type, the part carries the base64 payload and the blob's type. |
| Gemini.KeyUsableIff | src/lib/gemini.ts:59-61 | The guard lets a key through iff the key is set, is non-empty, and has `PLACEHOLDER` at no position. |
| Gemini.KeyUsable | src/lib/gemini.ts:59 | A key the guard lets through is set and non-empty, and it is never `PLACEHOLDER_KEY`, the key the client is built with when none is configured. |
| Gemini.AudioPromptText | src/lib/gemini.ts:111-113 | The audio prompt's text is the Tamil prompt iff the language is `ta`, and the English prompt iff it is `en`. |
| Gemini.Settle | src/lib/gemini.ts:83-93 | A cascade error becomes "Failed to analyze …: " followed by its message. A reply succeeds iff `JSON.parse` accepts its extracted JSON text. Every failure message carries the prefix. |
| Gemini.AnalyzeBill | src/lib/gemini.ts:58-94 | A refused key fails with the unwrapped missing-key message, before any call. Otherwise the calls are the cascade's, each with the bill prompt (`Instructions(BillInstructions)`) followed by the image part, and the result is the settled cascade. |
| Gemini.AnalyzeAudio | src/lib/gemini.ts:103-127 | As for the bill, with the audio part and the audio prompt of the chosen language (`Instructions(AudioInstructions(language))`). |
| Gemini.FallbackToSecondModel | src/lib/gemini.ts:83-89 | When the first model fails and the second replies with a fenced block, two calls are made and the block's content is what gets parsed. |
| Gemini.AllModelsDown | src/lib/gemini.ts:83-93 | When all three models fail, three calls are made and the bill scan reports the last error's message behind the bill prefix. |
| JsonExtraction.FindFrom | src/lib/gemini.ts:86 | The result is the first occurrence of the pattern at or after the start index. When there is none, the pattern occurs nowhere from that index on. |
| JsonExtraction.LastIndex | src/lib/gemini.ts:86 | The result is the last occurrence of the character. When there is none, the character is absent. |
| JsonExtraction.FencedMatch | src/lib/gemini.ts:86 | The lazy fenced match, as the engine runs it, is a span inside the text. |
| JsonExtraction.FencedSearchSkips | src/lib/gemini.ts:86 | Start positions with no opening fence are passed over. |
| JsonExtraction.FencedSearchFails | src/lib/gemini.ts:86 | With no closing fence after an opening, no later start position matches either. |
| JsonExtraction.FencedSearchNoOpening | src/lib/gemini.ts:86 | With no opening fence there is no fenced match. |
| JsonExtraction.FencedMatchIsFirstOpening | src/lib/gemini.ts:86 | The fenced match runs from the first ```` ```json\n ```` to the nearest closing ```` \n``` ```` after it. When the first opening has no closing after it, there is no match. |
| JsonExtraction.GreedyEnd | src/lib/gemini.ts:86 | The greedy `[\s\S]*` backs off from the end of the text to the last `}` after the `{`. |
| JsonExtraction.BraceSearch | src/lib/gemini.ts:86 | The brace search from a start position yields a non-empty span inside the text. |
| JsonExtraction.BraceMatch | src/lib/gemini.ts:86 | The brace match is a non-empty span inside the text. |
| JsonExtraction.BraceSearchSkips | src/lib/gemini.ts:86 | Start positions without `{` are passed over. |
| JsonExtraction.BraceSearchFails | src/lib/gemini.ts:86 | With no `}` after the first `{`, no later start position matches either. |
| JsonExtraction.GreedyEndIsLast | src/lib/gemini.ts:86 | The greedy end is the last `}` of the text, when that `}` comes after the `{`. |
| JsonExtraction.BraceMatchIsFirstToLast | src/lib/gemini.ts:86 | The brace match runs from the first `{` to the last `}`. It exists iff that `{` comes before that `}`. |
| JsonExtraction.RemoveFences | src/lib/gemini.ts:87 | Deleting the fence tokens never lengthens the text. |
| JsonExtraction.RemoveFencesLeavesNoFence | src/lib/gemini.ts:87 | After the global deletion of ```` ```json ```` and ```` ``` ````, no three consecutive backticks remain. |
| JsonExtraction.RemoveFencesKeepsFenceFree | src/lib/gemini.ts:87 | The deletion leaves text without three consecutive backticks unchanged. |
| JsonExtraction.RemoveFencesIdempotent | src/lib/gemini.ts:87 | Deleting twice deletes nothing more. |
| JsonExtraction.KeptPrefix | src/lib/gemini.ts:87 | The deletion keeps a backtick-free prefix of its input as it is, and continues in the text after it. |
| JsonExtraction.RemoveFencesKeepsBacktickFreeFront | src/lib/gemini.ts:87 | Backtick-free text in front passes through the deletion unchanged, whatever follows it. |
| JsonExtraction.NoBacktickFenceFree | src/lib/gemini.ts:87 | Text without backticks is fence-free. |
| JsonExtraction.FirstFence | src/lib/gemini.ts:86 | The span from the first opening fence to the nearest closing fence after it, found by plain searches, lies inside the text. |
| JsonExtraction.OuterBraces | src/lib/gemini.ts:86 | The span from the first `{` to the last `}`, when that `}` comes after, is non-empty and inside the text. |
| JsonExtraction.JsonString | src/lib/gemini.ts:86-87 | The text handed to `JSON.parse` is never longer than the reply. Whenever a fenced or a braced match was cut out of the reply, it holds no three consecutive backticks. |
| JsonExtraction.JsonStringIsReference | src/lib/gemini.ts:86-87 | The text handed to `JSON.parse` has four cases. With a fenced block, it is that block, fences deleted. Failing that, it is the first `{` to the last `}`, fences deleted. Failing that, it is the whole reply, untouched. The fenced block takes precedence. |
| JsonExtraction.NoBacktickNoFencedMatch | src/lib/gemini.ts:86 | A reply without backticks has no fenced match. |
| JsonExtraction.FencedBlockExtracted | src/lib/gemini.ts:86-87 | For a reply of prose, a fenced block with backtick-free content, and anything after, `JSON.parse` receives the content between two newlines. |
| JsonExtraction.FencedBlockLocated | src/lib/gemini.ts:86 | In such a reply, the first opening fence and the nearest closing fence after it are the block's own. |
| JsonExtraction.FencedBlockStripped | src/lib/gemini.ts:87 | Deleting the fences of a fenced block keeps its content and the two newlines. |
| JsonExtraction.BraceRegionExtracted | src/lib/gemini.ts:86-87 | For a backtick-free reply whose outer braces are the first `{` and the last `}`, `JSON.parse` receives exactly the braced region. |
| JsNumber.TrimStart | src/components/BillScanner.tsx:49 | `parseFloat` skips exactly the leading white space. The rest starts with a non-space. |
| JsNumber.DigitRun | src/components/BillScanner.tsx:49 | The result is the maximal run of digits from a position. |
| JsNumber.UnsignedValueNaNIff | src/components/BillScanner.tsx:49 | The literal reader gives `NaN` iff the text starts with neither `Infinity`, nor a digit, nor a point followed by a digit. |
| JsNumber.ParseFloat | src/components/BillScanner.tsx:49 | `parseFloat` gives `NaN` iff, after white space and sign, the text does not start like a number. |
| JsNumber.TrimStartSkips | src/components/BillScanner.tsx:49 | Any prefix of white space is skipped. |
| JsNumber.ParseFloatSkipsWhitespace | src/components/BillScanner.tsx:49 | Leading white space never changes `parseFloat`'s result. |
| JsNumber.ParseFloatOfDigits | src/components/BillScanner.tsx:49 | Digits followed by text that cannot continue a literal (such as " units") parse as their decimal value. |
| JsNumber.UnsignedValueOfDigits | src/components/BillScanner.tsx:49 | The same holds for the unsigned literal reader. |
| JsNumber.NotInfinity | src/components/BillScanner.tsx:49 | Text starting with a digit is not read as `Infinity`. |
| BillScanner.StripCommas | src/components/BillScanner.tsx:49 | `replace(/,/g, '')` leaves no comma and never lengthens the text. |
| BillScanner.StripCommasAppend | src/components/BillScanner.tsx:49 | Comma deletion works piece by piece. |
| BillScanner.StripCommasIdentity | src/components/BillScanner.tsx:49 | Comma-free text is unchanged, so deleting twice equals deleting once. |
| BillScanner.StripCommasJoinsPieces | src/components/BillScanner.tsx:49 | Only commas are deleted. The result is the pieces between the commas, in order. |
| BillScanner.CurrentUnits | src/components/BillScanner.tsx:49 | Comma-free consumption text is read by `parseFloat` as it stands. |
| BillScanner.Baseline | src/components/BillScanner.tsx:53 | The baseline is never zero. It is 10000 or the previous bill's own `totalUnits`. |
| BillScanner.BaselineChoice | src/components/BillScanner.tsx:51-62 | The baseline is the previous bill's `totalUnits` when present and non-zero, else 10000. It is never zero. |
| BillScanner.CompareUnits | src/components/BillScanner.tsx:52-68 | The percentage is `NaN` iff the consumption is unreadable, infinite iff it is infinite, and never negative. |
| BillScanner.Compare | src/components/BillScanner.tsx:49-68 | The comparison's badge is red iff the consumption the reply states exceeds the baseline. |
| BillScanner.TrendRule | src/components/BillScanner.tsx:54-66 | The label is "Increased", or "Above Avg" without history, iff the current consumption is strictly above the baseline. Otherwise it is "Decreased" or "Below Avg". |
| BillScanner.EqualIsDecrease | src/components/BillScanner.tsx:54-66 | A consumption equal to the baseline reads as a decrease of 0%. |
| BillScanner.NaNIsDecrease | src/components/BillScanner.tsx:49-66 | An unreadable consumption reads as a decrease with a `NaN` percentage. |
| BillScanner.PercentIsMagnitude | src/components/BillScanner.tsx:54-67 | For a finite consumption, the percentage is the magnitude of the change relative to the baseline, times 100. |
| BillScanner.RedBadge | src/components/BillScanner.tsx:180 | The badge is red iff "Increase" or "Above" occurs in the trend at some position. |
| BillScanner.RedBadgeIffExceeds | src/components/BillScanner.tsx:180 | The badge is red iff the consumption exceeds the baseline. |
| BillScanner.RedLabels | src/components/BillScanner.tsx:180 | "Increased" and "Above Avg" get the red badge. |
| BillScanner.GreenLabels | src/components/BillScanner.tsx:180 | "Decreased" and "Below Avg" do not get the red badge. |
| BillScanner.DecreasedIsGreen | src/components/BillScanner.tsx:180 | "Decreased" contains neither "Increase" nor "Above". |
| BillScanner.BelowAvgIsGreen | src/components/BillScanner.tsx:180 | "Below Avg" contains neither "Increase" nor "Above". |
| BillScanner.BelowAvgNotAbove | src/components/BillScanner.tsx:180 | "Below Avg" does not contain "Above". |
| BillScanner.ExampleUnits | src/components/BillScanner.tsx:49 | "1,200 units" reads as 1200. |
| BillScanner.ExampleAgainstAverage | src/components/BillScanner.tsx:60-68 | Against the fixed average, that bill is "Below Avg" by 88%. |
| BillScanner.ExampleAgainstPreviousBill | src/components/BillScanner.tsx:51-59 | After a 1000-unit bill, the same bill is "Increased" by 20%. |
| BillScanner.ConsumptionText | src/components/BillScanner.tsx:49 | Reading `totalConsumption.replace` succeeds iff the field is present and is a string. Otherwise it fails with the `TypeError`'s message. |
| BillScanner.ScanError | src/components/BillScanner.tsx:36-76 | A scan ends without error iff the analysis succeeded and, for a signed-in user, the query and the consumption field are fine. An error message is never empty. |
| BillScanner.ScanComparison | src/components/BillScanner.tsx:41-70 | A comparison is set only for a signed-in user, after a successful analysis and query, when the reply's `totalConsumption` is a string. |
| BillScanner.ComparisonOfReportedConsumption | src/components/BillScanner.tsx:49-68 | The comparison is that of the consumption the analysis reported. |
| BillScanner.ComparisonIffNoError | src/components/BillScanner.tsx:41-74 | A comparison is set iff the user is signed in and no error was recorded. |
| BillScanner.Scanner.constructor | src/components/BillScanner.tsx:13-18 | Nothing is selected, loaded or reported. |
| BillScanner.Scanner.HandleFileChange | src/components/BillScanner.tsx:21-30 | A picked file is selected and previewed, and the old result, comparison and error are cleared. Picking nothing changes nothing. |
| BillScanner.Scanner.ClearSelection | src/components/BillScanner.tsx:105 | The file, the preview and the result are cleared. The comparison and the error stay. |
| BillScanner.Scanner.HandleScan | src/components/BillScanner.tsx:32-77 | Without a file nothing changes. Otherwise loading ends false, the result is the analysis when it succeeded, the comparison is set as above, and the error is the scan's error. |
| BillScanner.Scanner.CompareWithLastBill | src/components/BillScanner.tsx:42-70 | For a signed-in user after a stored reply: only the comparison and the error can change. The comparison is set as above, and a failed query or consumption field sets the scan's error. |
| AudioRecorder.ConcatBytesAppend | src/lib/useAudioRecorder.ts:53 | The recording of the chunks plus one more is the old recording followed by that chunk's bytes. |
| AudioRecorder.NonEmpty | src/lib/useAudioRecorder.ts:46-50 | The kept chunks all have positive size and are no more than those delivered. The recorder's buffer is always this filter of the chunks delivered since the start. |
| AudioRecorder.NonEmptySnoc | src/lib/useAudioRecorder.ts:46-50 | One more delivered chunk is kept, at the end, iff it has positive size; otherwise the kept chunks are unchanged. |
| AudioRecorder.NonEmptyKeepsBytes | src/lib/useAudioRecorder.ts:46-53 | Dropping empty chunks loses no audio: the kept chunks give the same bytes as all chunks delivered. `OnDataAvailable` and `OnStop` apply it to the recorder's buffer. |
| AudioRecorder.Recorder.constructor | src/lib/useAudioRecorder.ts:11-21 | No recording, zero time, no blob, no error, no recorder, no timer. |
| AudioRecorder.Recorder.StartRecording | src/lib/useAudioRecorder.ts:26-64 | With microphone access, a recorder starts with an empty buffer, the state resets to recording from 0, and a new timer is scheduled. Any earlier timer keeps running. A refusal sets only `error`, to its message or "Could not access microphone". For a `null` or `undefined` refusal the model records no state update. |
| AudioRecorder.Recorder.StartTimer | src/lib/useAudioRecorder.ts:74-78 | A fresh interval is scheduled and its handle stored. Nothing else changes. |
| AudioRecorder.Recorder.OnDataAvailable | src/lib/useAudioRecorder.ts:46-50 | A chunk of positive size is appended and an empty one dropped. Either way the recorded bytes grow by the chunk's bytes, and they stay the bytes of every chunk delivered. |
| AudioRecorder.Recorder.OnStop | src/lib/useAudioRecorder.ts:52-56 | The blob is the buffered chunks' bytes with type `audio/webm`, which are the bytes of every chunk delivered since the start, empty ones included. Recording ends, the elapsed time is kept, and the timer is cancelled. |
| AudioRecorder.Recorder.StopRecording | src/lib/useAudioRecorder.ts:66-72 | A recorder that is recording or paused becomes inactive. With none, or an inactive one, nothing changes. |
| AudioRecorder.Recorder.Tick | src/lib/useAudioRecorder.ts:75-77 | Each tick of a scheduled interval adds one second and changes nothing else. |
| AudioRecorder.Recorder.StopTimer | src/lib/useAudioRecorder.ts:80-85 | The stored interval is cancelled and forgotten. Without one nothing changes, so a second call does nothing. |
| AcousticDiagnostics.Pad2 | src/components/AcousticDiagnostics.tsx:85 | A padded field is at least two digits, exactly two below 100, and reads back as the number. |
| AcousticDiagnostics.FormatTime | src/components/AcousticDiagnostics.tsx:82-86 | The timer text is at least five characters long, and exactly five below 100 minutes. |
| AcousticDiagnostics.FormatTimeFields | src/components/AcousticDiagnostics.tsx:82-86 | The text is minutes, a colon, and two seconds digits showing 00-59. The minutes field has two digits below 100 minutes. The fields read back give the seconds formatted. |
| AcousticDiagnostics.ParseFormatTime | src/components/AcousticDiagnostics.tsx:82-86 | Reading `mm:ss` text back gives the seconds formatted. |
| AcousticDiagnostics.Panel.constructor | src/components/AcousticDiagnostics.tsx:13-15 | Not analyzing, with no result and no error. |
| AcousticDiagnostics.Panel.HandleAnalyze | src/components/AcousticDiagnostics.tsx:68-80 | Without a recording nothing changes. Otherwise analyzing ends false, a successful analysis becomes the result, and a failure sets the error to its message or "Analysis failed". |
| ProfileDropdown.Initials | src/components/ProfileDropdown.tsx:15-20 | The initials are at most two characters. |
| ProfileDropdown.FirstChars | src/components/ProfileDropdown.tsx:17 | At most one character per word, and exactly one per word when no word is empty. |
| ProfileDropdown.FirstCharsOfSplit | src/components/ProfileDropdown.tsx:17 | Mapping the space-split words to their first characters picks exactly the characters that start a word. Runs of spaces add nothing. |
| ProfileDropdown.SpaceFreeRun | src/components/ProfileDropdown.tsx:17 | A space-free run contributes at most its first character. |
| ProfileDropdown.InitialsFromName | src/components/ProfileDropdown.tsx:16-18 | With a non-empty full name, the initials are the first two word-starting characters, upper-cased. |
| ProfileDropdown.SpacesOnlyName | src/components/ProfileDropdown.tsx:16-18 | A name of spaces only gives empty initials, not `U`. |
| ProfileDropdown.InitialsFromEmail | src/components/ProfileDropdown.tsx:19 | Without a name, the initials are the e-mail's first two characters upper-cased (one for a one-character address), or `U` when it is missing or empty. |
| EnergyAnalytics.SumUnitsAppend | src/components/EnergyAnalytics.tsx:59 | The units total over two runs of entries is the sum of their totals. |
| EnergyAnalytics.SumUnits | src/components/EnergyAnalytics.tsx:59 | With non-negative units the total is non-negative. Entries without units make a total of 0. |
| EnergyAnalytics.SampleUnitsSumToZero | src/components/EnergyAnalytics.tsx:11-16 | The sample weeks carry no units, so the sample figure of 12500 is not derived from them. |
| EnergyAnalytics.ReportData | src/components/EnergyAnalytics.tsx:57-66 | The report always carries the fixed three-step action plan. |
| EnergyAnalytics.ReportFigures | src/components/EnergyAnalytics.tsx:57-66 | Sample mode shows the fixed figures whatever the chart holds. Real data totals the logged units additively, with zero peak penalties. The company name defaults to "Your Factory" iff the profile's is missing, empty, or already that. |
| EnergyAnalytics.Analytics.constructor | src/components/EnergyAnalytics.tsx:20-22 | The card starts on the sample data, in sample mode, loading. |
| EnergyAnalytics.Analytics.FetchData | src/components/EnergyAnalytics.tsx:25-51 | Without a user nothing changes and loading continues. Otherwise loading ends. Logs replace the chart and end sample mode. No logs keep the chart and sample mode. A failed query keeps both. |
| EnergyAnalytics.Analytics.CurrentReport | src/components/EnergyAnalytics.tsx:57-60 | In sample mode the totals are 12500 and 45000. With real data they are the logged units and 0. |
| App.NextTheme | src/App.tsx:41 | The button always selects one of the three themes. An unknown stored value goes to `industrial`. |
| App.ThemeCycle | src/App.tsx:41 | One press changes a known theme and three presses restore it. An unknown theme joins the cycle after one press. |
| App.ThemeCycleVisitsAll | src/App.tsx:41 | Three presses visit three different themes. |
| App.ThemeIcon | src/App.tsx:44 | Moon iff `industrial`, Sun iff `light`, otherwise Monitor. |
| App.ThemeIconDistinguishes | src/App.tsx:44 | The icon tells the three themes apart. |
| App.UnknownThemeIcon | src/App.tsx:44 | An unknown stored theme shows the minimalist theme's icon, Monitor. |
| App.ToggleLanguage | src/App.tsx:50 | The result is always `en` or `ta`, and it is `ta` iff the current language is `en`. |
| App.ToggleInvolution | src/App.tsx:50 | On `en` and `ta` the toggle undoes itself and always changes the language. Any other value becomes `en`. |
| App.LanguageLabel | src/App.tsx:54 | The label is `தமிழ்` iff the language is `en`, and `English` otherwise. |
| App.LabelNamesTarget | src/App.tsx:50-54 | Each language button names the language a press switches to, never the one shown. |
| App.Resolve | src/App.tsx:82-118 | A path redirects to `/` iff it is not one of the six listed. Every listed page except `/login` is guarded. |
| App.ResolvePathOf | src/App.tsx:82-117 | Each screen is rendered by its own path and by no other. |
| App.RedirectTerminates | src/App.tsx:82-118 | A redirect lands on the guarded dashboard, so resolving takes at most one redirect. |
| App.DashboardNavigation | src/App.tsx:125-128 | The dashboard's two cards reach the bill scanner and the acoustic screen. An unknown page falls back to `/`. |
| Strings.Split | src/lib/gemini.ts:40 | `split` yields at least one piece, and no piece holds the separator. |
| Strings.JoinSplit | src/lib/gemini.ts:40 | Joining the pieces of a split with the separator gives back the text. |
| Strings.ContainsIffOccurs | src/lib/gemini.ts:59 | `includes` holds iff the pattern occurs at some position. |
| Strings.Take | src/components/ProfileDropdown.tsx:17 | `substring(0, n)` is a prefix of length min(n, length). |
| Strings.ToUpperCase | src/components/ProfileDropdown.tsx:17 | Upper-casing keeps the length. |
| Strings.PadStart | src/components/AcousticDiagnostics.tsx:85 | `padStart` gives the larger of the width and the length. |
| Strings.NatToStringValue | src/components/AcousticDiagnostics.tsx:85 | `toString` of a whole number reads back as that number. |
| Strings.NatToStringLength | src/components/AcousticDiagnostics.tsx:85 | The decimal text has one digit iff the number is below 10, and at most two iff below 100. |
| Strings.PadStartDigitsValue | src/components/AcousticDiagnostics.tsx:85 | Padding with zeros keeps the digits' value. |
| Js.OrElse | src/components/ProfileDropdown.tsx:19 | `s \|\| fallback` is the fallback or the string itself, non-empty. It is never empty when the fallback is not. |
| Js.PropertyOfNullish | src/lib/gemini.ts:25 | Reading a property of `null` or `undefined` throws a truthy error whose message is longer than the property's name. |
| Js.MessageOr | src/lib/useAudioRecorder.ts:62 | `err.message \|\| fallback` is either the fallback or the error's own non-empty message. |

## Left out

- The Gemini SDK and the network: each model call is an outcome given in advance. No call has a timeout, as in the source.
- `FileReader` and base64 encoding: only the comma split of the reader's result is modelled.
- `JSON.parse`: an uninterpreted function parameter. As in the source, the parsed value gets no schema check.
- Console logging: only the one effect that changes control flow is modelled, the `TypeError` that `error.message` throws for a `null` or `undefined` error.
- Gemini.AnalyzeBill: a `catch` clause that receives a `null` or `undefined` value cannot arise, because the cascade never throws one and `JSON.parse` throws `SyntaxError`s. So the inner `console.error(error.message)` is not modelled.
- Js.PropertyOfNullish: the wording of the `TypeError` is the V8 engine's. Other engines word it differently.
- Text is a sequence of characters, not UTF-16 code units. `toUpperCase` maps ASCII letters only, so ProfileDropdown.Initials is modelled on ASCII names.
- JsNumber.ParseFloat: values are exact reals. It does not model binary floating-point rounding or the overflow of very large exponents to `Infinity`.
- BillScanner.PercentIsMagnitude: the percentage is exact. It does not model the round trip through `toFixed(1)` and `parseFloat`, which rounds it to one decimal, nor the `%` text built from it.
- BillScanner.Baseline: `totalUnits` is a number or missing. A stored `NaN` (falsy, so replaced by 10000), an infinite value (`Option<real>` holds finite values only), or a non-number value is not represented.
- EnergyAnalytics.SumUnits: `units` is a finite number or missing. A `NaN` `units` is falsy, so `curr.units || 0` adds 0 for it exactly as for a missing one, and `None` covers it. Not represented are an infinite `units`, which makes the total infinite (or `NaN` once `+Infinity` and `-Infinity` both occur), and a non-empty string `units`, which turns the sum into string concatenation.
- EnergyAnalytics.Analytics.FetchData: the query (order by date, limit 6) is an input. Its ordering and its limit of six logs are not modelled.
- The canvas oscilloscope loop, the chart's Y-axis `₹…k` formatter, and all rendering are left out.
- The report generator and the PDF file format are left out. The model stops at the data passed to `generateReport`.
- Asynchrony and interleaving: handlers run to completion, so the moment when `loading` or `analyzing` is true is not observable. What happens when two handlers overlap is not modelled.
- AudioRecorder.Recorder.StartRecording: the `MediaStream`, `AudioContext` and analyser set-up is left out, and so is a failure after `getUserMedia` succeeded. A second start without a stop leaves the earlier interval scheduled, as written. The screen shows the start button only while not recording, so it does not offer that sequence.
- AudioRecorder.Recorder.StartRecording: a `null` or `undefined` rejection makes the queued state updater throw a `TypeError` when React applies it and reads `message`, so the component fails to render. That render-time error is not modelled; the model records no state update for such a rejection.
- Gemini.PromptText: the bill prompt is a long fixed text, and any proof obligation that mentions it costs the verifier too much. So `PromptText` has no contract of its own; the audio prompts are covered by `Gemini.AudioPromptText`.
- AudioRecorder.Recorder.StopRecording: stopping the stream's tracks and closing the `AudioContext` are left out. The `onstop` event that follows is the separate method `OnStop`.
- Firebase Auth, Firestore, the login, profile and company-settings pages, the guarded-route component, and the theme and language providers are left out. The signed-in user is a boolean, and the stored theme and language are plain strings.
- Route matching is exact string equality on the path. Trailing slashes, case and query strings are not modelled.
