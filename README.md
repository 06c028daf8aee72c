# Daily Expenses — a Dafny model of the voice expense tracker's local logic

The voice expense tracker records a spoken list of expenses in the browser and
sends the audio to a remote speech model. The model returns a report of the
expenses: a transcription, a translation, itemised amounts, a total and a
currency. The page then shows the report and can export it as CSV.

Most of the application is browser plumbing around that one remote call. This
project models the local logic around it, with each piece in its source's own
form:

- **`gemini_service.dfy`** models `services/geminiService.ts`:
  - the credential check;
  - the extraction of the base64 payload from the data URL;
  - the fallback MIME type;
  - the empty-reply and malformed-reply errors;
  - the client-side recomputation of the total.

  The recomputation is a loop method proved against a left-fold specification function `Total`. That function is related to an independent right fold and to concatenation.
- **`expense_list.dfy`** models the CSV export string and the currency symbol of `components/ExpenseList.tsx`, as pure functions. The lemmas show:
  - how the export is framed;
  - how it splits back into lines and columns;
  - how an unquoted comma adds a column.
- **`audio_recorder.dfy`** models `components/AudioRecorder.tsx`:
  - the `m:ss` timer display, as a pure function with a reading-back inverse;
  - the recorder state, as a class with its invariant: the tick, the guarded stop, the chunk filter and the finished clip.
- **`app.dfy`** models the session controller of `App.tsx` as a class with three fields (`status`, `result` and `error`). It has the two handlers and the conditions under which each part of the page is shown.
- **`types.dfy`** holds the data shapes of `types.ts`.
- **`strings.dfy`** holds JavaScript's `join` and `split` with a one-character separator, and decimal rendering of whole numbers. Each comes with its inverse.
- **`wrappers.dfy`** holds `Option` and `Result`.

Amounts are mathematical integers, so sums are exact. The remote model, the file reader and `JSON.parse` are collaborators, and their outcomes are parameters:
- `ProcessAudioWithGemini` receives the credential, the data URL the reader produced (`None` when reading failed) and what the remote model did. The model either fails in transport or replies with text, together with the result of parsing that text.
- The session's handler is split at its `await`. `BeginProcessing` is the part before it and `Settle` the part after. `HandleRecordingComplete` composes the two around the service.

Three facts about the code shape the model:
- `ProcessingStatus.RECORDING` (types.ts:3) is never assigned in `App.tsx`. The recorder keeps its own `isRecording` flag instead, so `Recording` never occurs in the model.
- `startRecording` has no guard of its own; only the page hides its button while recording or processing (components/AudioRecorder.tsx:153-165). The model's `StartRecording` requires the flag to be clear, which is what that button guarantees; see "## Left out" for the start it does not capture.
- `stopRecording` returns nothing. A repeated call is a no-op, and the clip is handed over once, by the media recorder's stop event, which is not guarded: it also runs when the recorder stops by itself.

## Model

| member | source | states |
|---|---|---|
| GeminiService.HasApiKey | services/geminiService.ts:20 | (definition) the credential is usable exactly when it is defined and non-empty, the falsiness test of `!apiKey`; `ProcessAudioWithGemini` states what follows from it |
| GeminiService.Total | services/geminiService.ts:95 | (definition) the `reduce` from 0 in list order; its properties are stated by `TotalSnoc`, `TotalAppend`, `TotalIsSum` and `TotalBounds` |
| GeminiService.MimeTypeFor | services/geminiService.ts:75 | the MIME type sent is never empty: it is the blob's own type when that is non-empty, and otherwise exactly `audio/webm` |
| GeminiService.Base64Payload | services/geminiService.ts:10 | the payload (the second comma-separated field of the data URL) is absent exactly when the URL holds no comma; when present it holds no comma |
| GeminiService.Base64PayloadOf | services/geminiService.ts:10 | for `header,payload` followed by nothing or by another comma, the payload is exactly the text between the first comma and the next one (or the end) |
| GeminiService.TotalSnoc | services/geminiService.ts:95 | the total is a left fold: appending a line adds exactly its amount |
| GeminiService.TotalAppend | services/geminiService.ts:95 | the total of a concatenation is the sum of the two totals |
| GeminiService.TotalIsSum | services/geminiService.ts:95 | the left fold equals an independently defined right-fold sum of the amounts |
| GeminiService.TotalBounds | services/geminiService.ts:95 | with non-negative amounts, every amount lies between 0 and the total |
| GeminiService.RecomputeTotal | services/geminiService.ts:92-97 | the loop leaves `totalAmount` equal to the sum of the amounts (0 for no lines), and transcription, translation, expenses and currency exactly as parsed |
| GeminiService.ProcessAudioWithGemini | services/geminiService.ts:16-102 | a missing or empty credential fails with `MissingApiKey` and nothing is sent; a read failure fails before any request; otherwise the request carries the fallback-resolved MIME type and the comma-split payload; a transport failure, an empty reply and an unparsable reply each fail; it succeeds exactly when a non-empty reply parsed, and then the total is the sum of the amounts and every other field is as parsed |
| ExpenseList.Row | components/ExpenseList.tsx:17 | (definition) item, category and amount joined with commas, unquoted; its properties are stated by `RowColumns` and `RowFields` |
| ExpenseList.TotalRow | components/ExpenseList.tsx:18 | (definition) `TOTAL,,` and the rendered total; `TotalRowSingleLine` and `ExampleTotalRow` state its properties |
| ExpenseList.CsvContent | components/ExpenseList.tsx:15-18 | (definition) the export before URI encoding; its properties are stated by `CsvFraming`, `CsvIsJoinedLines`, `CsvLines` and `ExampleExport` |
| ExpenseList.Rows | components/ExpenseList.tsx:14 | one row per expense, in list order, each `item,category,amount` |
| ExpenseList.HeaderLine | components/ExpenseList.tsx:13-16 | the joined headers are exactly `Item,Category,Amount` |
| ExpenseList.CsvFraming | components/ExpenseList.tsx:15-18 | the export starts with `data:text/csv;charset=utf-8,` immediately followed by the header line and a line break, and ends with a line break and `TOTAL,,<total>` |
| ExpenseList.CsvIsJoinedLines | components/ExpenseList.tsx:15-18 | after the prefix, the export is the header, the body lines and the total row joined with line breaks |
| ExpenseList.CsvLinesAreSingle | components/ExpenseList.tsx:14-18 | when no item or category holds a line break, neither does any of those lines |
| ExpenseList.CsvLines | components/ExpenseList.tsx:15-18 | when no item or category holds a line break, splitting the export after the prefix at line breaks gives the header, each row in order and the total row: two lines more than there are expenses, or 3 with an empty middle line when there are no expenses |
| ExpenseList.RowColumns | components/ExpenseList.tsx:17 | fields are not quoted: a row splits into 3 columns plus one per comma inside the item or the category |
| ExpenseList.RowFields | components/ExpenseList.tsx:14 | a row has exactly 3 columns if and only if item and category hold no comma; then the columns are the item, the category and the amount, and the amount reads back exactly |
| ExpenseList.CurrencySymbol | components/ExpenseList.tsx:38 | the symbol (also used per line at :92) is the rupee sign exactly when the currency is `INR`, and `$` exactly otherwise |
| ExpenseList.AalooRow | components/ExpenseList.tsx:17 | worked example: the row of 200 for aaloo in Food & Vegetables is `aaloo,Food & Vegetables,200` |
| ExpenseList.PetrolRow | components/ExpenseList.tsx:17 | worked example: the row of 500 for petrol in Transportation is `petrol,Transportation,500` |
| ExpenseList.ExampleTotalRow | components/ExpenseList.tsx:18 | worked example: a total of 700 gives the line `TOTAL,,700` |
| ExpenseList.ExampleBody | components/ExpenseList.tsx:17 | worked example: two rows are joined by a single line break |
| ExpenseList.ExampleExport | components/ExpenseList.tsx:13-18 | worked example: the export of those two expenses is the prefix, the header, the two rows in order and `TOTAL,,700`, one per line |
| AudioRecorder.FormatTime | components/AudioRecorder.tsx:128-132 | the display is one or more digits of minutes, a colon, then exactly two digits of seconds; `FormatTimeFields` and `ReadFormatTime` give its values and its inverse |
| AudioRecorder.SecondsField | components/AudioRecorder.tsx:130-131 | the seconds part is always two digits with a leading `0` exactly below ten, and it reads back as the seconds |
| AudioRecorder.FormatTimeFields | components/AudioRecorder.tsx:128-132 | the display has exactly two colon-separated fields: `seconds / 60` in decimal, and `seconds % 60` as two digits |
| AudioRecorder.ReadFormatTime | components/AudioRecorder.tsx:128-132 | reading a display back as `mins * 60 + secs` recovers the elapsed seconds |
| AudioRecorder.FormatTimeInjective | components/AudioRecorder.tsx:128-132 | different elapsed times never show the same display |
| AudioRecorder.NonEmpty | components/AudioRecorder.tsx:83-85 | the kept chunks are non-empty, no more than were delivered, and include every non-empty delivered chunk |
| AudioRecorder.NonEmptySnoc | components/AudioRecorder.tsx:84 | a delivered chunk is appended after those kept exactly when its size is positive |
| AudioRecorder.ConcatSnoc | components/AudioRecorder.tsx:88 | concatenating one more chunk appends its bytes |
| AudioRecorder.FinishedClip | components/AudioRecorder.tsx:88 | (definition) the concatenated chunks tagged `audio/webm`; `ConcatNonEmpty` and `Recorder.RecorderStopped` state which bytes it holds |
| AudioRecorder.ConcatNonEmpty | components/AudioRecorder.tsx:83-88 | dropping the empty chunks loses no byte and keeps arrival order |
| AudioRecorder.Recorder.constructor | components/AudioRecorder.tsx:11-14 | the component starts not recording, at time 0, with no recorder |
| AudioRecorder.Recorder.StartRecording | components/AudioRecorder.tsx:76-110 | from a state where the flag is clear (the only one that shows the start button), with the microphone granted: recording, the timer running, time reset to 0 and an empty chunk list; when refused, nothing changes |
| AudioRecorder.Recorder.Tick | components/AudioRecorder.tsx:100-102 | each tick of a running timer adds exactly 1 to the time; a cleared timer changes nothing |
| AudioRecorder.Recorder.DataAvailable | components/AudioRecorder.tsx:83-85 | a delivered chunk is kept, after the others, exactly when it is non-empty, and the kept list stays the non-empty subsequence of everything delivered |
| AudioRecorder.Recorder.StopRecording | components/AudioRecorder.tsx:112-118 | with a recorder and the flag set: a capturing recorder is asked to stop (one that already stopped ignores it), and the flag and the timer are cleared; otherwise nothing changes; afterwards the flag is clear, so a second call is a no-op |
| AudioRecorder.Recorder.RecorderStopped | components/AudioRecorder.tsx:87-94 | the unguarded stop event, whether requested or raised by the recorder itself while capturing, hands over one clip tagged `audio/webm` whose bytes are every delivered byte in arrival order; after a stop the recorder raised itself, the flag and the timer still run |
| Strings.SplitOn | services/geminiService.ts:10 | `split` with one separator: n separators give n + 1 parts, none holding the separator, and joining them gives the text back |
| Strings.SplitJoin | components/ExpenseList.tsx:16-17 | splitting undoes `join` when no part holds the separator |
| Strings.NatToString | components/AudioRecorder.tsx:131 | a template literal's decimal rendering of a whole number: digits only, no leading zero, and it reads back as the number |
| Strings.IntToString | components/ExpenseList.tsx:18 | rendered amounts contain only digits and a leading minus, so never a comma, line break or colon |
| Strings.IntRoundTrip | components/ExpenseList.tsx:17-18 | a rendered amount reads back as the same integer |
| App.Session.constructor | App.tsx:9-11 | the session starts idle with no result and no error |
| App.Session.BeginProcessing | App.tsx:13-15 | whatever the current status: processing, error cleared, result kept |
| App.Session.Settle | App.tsx:17-25 | a report becomes the result with status `Success`; a failure sets exactly "Failed to process audio. Please try again." with status `Error`, and the result is left as it was |
| App.Session.HandleRecordingComplete | App.tsx:13-26 | the handler ends in `Success` or `Error`; `Success` exactly when the credential is usable, the clip was read and a non-empty reply parsed, and then the result is the parsed report with its total replaced by the sum of its amounts; every `Error` carries the fixed message and keeps the previous result |
| App.Session.HandleReset | App.tsx:28-32 | from any state: idle, no result, no error |
| App.Session.ShowsIntro | App.tsx:55 | the introduction (idle or error) always appears beside the recorder and never with the results, and a report is still held behind it only when the error banner shows |
| App.Session.ShowsRecorder | App.tsx:87 | (definition) the recorder shows in every status except `Success`; `ShowsResults` and `ShowsIntro` relate it to the other parts |
| App.Session.ShowsErrorBanner | App.tsx:79 | the banner appears only in `Error`, and then the fixed message is present |
| App.Session.ShowsResults | App.tsx:97 | in every reachable state, the results show exactly in `Success`, exactly when the recorder (shown for every status except `Success`, :87) does not |

The invariant `Session.Valid()` holds in the initial state and is kept by every handler. It says four things:
- `Recording` never occurs;
- an error message is present exactly in `Error`, and it is always the fixed one;
- `Success` always has a report;
- `Idle` never has one.

`Recorder.Valid()` says four things:
- the kept chunks are the non-empty subsequence of the delivered ones;
- the timer runs exactly while the `isRecording` flag is set;
- a capturing media recorder always has the flag set;
- with no recorder, or with a stop requested, the flag is clear.

A recorder that stopped by itself may leave the flag set, as in the source.

## Left out

- The Gemini SDK client, the prompt, the response schema and the request options (services/geminiService.ts:24, 28-88). They are foreign calls. The reply is an abstract `RemoteReply`, and the parse of its text arrives with it. `JSON.parse` is not part of this model.
- `FileReader` and base64 encoding (services/geminiService.ts:4-14). The data URL the reader produces is a parameter; only its comma split is modelled.
- The error messages thrown by the service and the `console.error` logging. Errors are the constructors of `ServiceError`.
- The canvas visualiser and the audio analysis graph (components/AudioRecorder.tsx:29-74, 120-126). They are Web Audio, animation frames and floating-point geometry.
- Microphone acquisition, `MediaRecorder`, `setInterval`, `alert` and stopping the media tracks. The browser's callbacks arrive as method calls on `Recorder`, and the microphone's answer as the `granted` parameter.
- AudioRecorder.Recorder.StartRecording: requires the flag to be clear. Two clicks before the microphone answers both pass that test in the source, and the second start then creates a second recorder and a second one-second interval while the first interval is never cleared. From then on the counter grows twice a second and keeps growing after a stop, and the first recorder is never stopped. The model keeps one recorder and one timer, so it does not capture this leak.
- AudioRecorder.Recorder.RecorderStopped: requires a recorder that is capturing or asked to stop. The media recorder raises the event only then; `stop()` on an inactive recorder does nothing, as the MediaStream Recording specification defines it.
- Interleaving of callbacks. The model treats each callback as atomic and in some order. It does not capture a second recording started before the first one's stop event arrives, which in the source would leave the earlier recorder's event to deliver its own chunk list.
- App.Session.Settle: requires the status to be `Processing`. That is the only state the settling continuation can run in, because no control on the page can change the state while the request is pending.
- The DOM link, the download, `encodeURI` and the dated file name (components/ExpenseList.tsx:20-26). The model stops at the string before URI encoding.
- `toLocaleString` rendering of amounts on the page (components/ExpenseList.tsx:38, 92), and the JSX layout and styling. Only the currency symbol is modelled.
- JavaScript `number` semantics. Amounts are unbounded integers, so fractional amounts and floating-point rounding of the sum are not modelled, and CSV amounts are rendered as integers.
- `RecomputeTotal` returns the updated record rather than assigning the field of the parsed object in place. Nothing else holds a reference to that object before it is returned.
- functions/ai.js and constants.ts are not part of this model. The first is a network proxy; the second holds icons and a category list that nothing checks locally.
- The `AudioState` interface (types.ts:23-26). Nothing in the modelled code uses it.
