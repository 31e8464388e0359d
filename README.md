# Bank-statement extraction shell: verified model

The application lets a user upload a bank statement (a PDF or an image).
It passes the document to a remote extraction service, keeps one processing
state, and exports the extracted transactions as CSV. This project models the
three pieces of sequential logic the application owns:

- **CSV projection** (`Csv`, csv.dfy). This is `generateCSV`. It writes a fixed
  header and one row per transaction, joined by a bare line feed with no
  final line feed. `description` and `notes` are quoted and every inner `"`
  is doubled, as in section 2, rule 7 of RFC 4180. `date`, `category` and
  the amount text are written verbatim. A reader for the same dialect
  (`Csv.Parse`) is defined as the projection's inverse. The round trip is
  proved over whole outputs.
- **Processing state machine** (`App`, app.dfy). The two state variables
  (`state`, `filename`) belong to the class `StatementApp`. Its handlers are
  `Select`, `Settle` and `Reset`, and its CSV exports are `DownloadCsv` and
  `CopyCsv`. Each handler is specified by the pure transition function
  `App.Step`. Traces are `App.Run`, and the gating of the controls on the
  status is `App.Offered`. The remote call is an abstract `Outcome`: `Ok` with
  the returned list, or `Fail`.
- **Upload control** (`FileUpload`, file_upload.dfy). `HandleFile` holds the
  `disabled` guard and the five-type allow-list. The drop and change handlers
  forward only the first file. The class `UploadControl` keeps the
  `dragActive` flag.

`Types` (types.dfy) holds the shared records: `Transaction`,
`ProcessingStatus` and `ProcessingState`.

Two behaviours of the code are worth stating outright, because the model
keeps them as written:

- The code does not keep a single extraction in flight. The upload control
  is shown only while idle (App.tsx:99-104), but the reset button is shown
  during processing (App.tsx:106-133), and `handleFileSelect` applies the
  settlement without looking at the status (App.tsx:21-31). So select,
  reset, select is a reachable sequence that leaves two calls pending
  (`App.TwoCallsCanBePending`). A settlement that arrives after a reset
  still takes the session out of idle (`App.ResetDoesNotStick`). `Settle`
  therefore has no precondition on the status.
- The allow-list accepts five types (components/FileUpload.tsx:43-44), but
  the alert text names only PDF, JPG and PNG (components/FileUpload.tsx:45).
  The model keeps both as written.

## Model

| member | source | states |
|---|---|---|
| Types.StatusValueInjective | types.ts:9-14 | the status has exactly four values, and their enum strings are pairwise distinct |
| Csv.Doubled | App.tsx:44 | the quote-doubling replacement adds one character per quote and doubles the quote count |
| Csv.DoubledAppend | App.tsx:44 | the replacement works character by character: it distributes over concatenation |
| Csv.Escape | App.tsx:44 | a quoted cell is as long as s plus its quote count plus 2 and starts and ends with a quote |
| Csv.EscapeRoundTrip | App.tsx:44-47 | stripping the outer quotes and collapsing `""` gives back s; a cell un-escapes to s if and only if it is the escape of s |
| Csv.MissingNotesAsEmpty | App.tsx:47 | a missing note and an empty note produce the same row, with `""` in the notes cell |
| Csv.NotesText | App.tsx:47 | the note's text, or "" when there is none or it is empty; `Csv.MissingNotesAsEmpty` proves the two give the same row |
| Csv.RowCells | App.tsx:42-48 | the five cells in source order: date, escaped description, amount text, category, escaped notes; `Csv.RowEncoded` proves each reads back as its value |
| Csv.Row | App.tsx:48 | `r.join(',')` of the five cells; its text and length are stated by `Csv.RowText` and `Csv.RowLength` |
| Csv.RowText | App.tsx:42-48 | a row is date, escaped description, amount text, category and escaped notes, separated by commas, in that order |
| Csv.RowLength | App.tsx:42-48 | the exact row length: the five values, the quote count of description and notes, four commas and four quotes |
| Csv.Generate | App.tsx:40-50 | `generateCSV`: the header line then one row per transaction, joined by "\n"; its layout, length and round trip are the lemmas below |
| Csv.HeaderLineText | App.tsx:41 | the joined header is `Date,Description,Amount,Category,Notes` |
| Csv.GenerateEmpty | App.tsx:49 | with no transactions the output is the header line alone |
| Csv.GenerateSnoc | App.tsx:42-49 | appending a transaction appends exactly one line feed and its row, so rows follow input order |
| Csv.GenerateIsHeaderThenFramedRows | App.tsx:40-50 | the output is the header text followed by a line feed and a row for each transaction |
| Csv.FirstLineIsHeader | App.tsx:41-49 | the text before the first line feed is exactly the header |
| Csv.NoTrailingNewline | App.tsx:49 | the output never ends in a line feed; it ends in `s` with no rows and in a closing quote otherwise |
| Csv.GenerateLength | App.tsx:40-50 | the output is 38 characters of header plus one line feed and one row per transaction |
| Csv.GenerateRoundTrip | App.tsx:40-50 | reading the output back gives the header record, then each transaction's five values in input order, when the verbatim columns hold no comma, line feed or quote |
| Csv.QuotedWordOutput | App.tsx:40-50 | for one transaction whose description holds a quoted word and whose note is empty, the output is the header, a line feed, and the row with the description's quotes doubled inside outer quotes and `""` as the notes cell |
| Csv.CoffeeShopExample | App.tsx:40-50 | the worked example: a description with quotes and an empty note give the expected text |
| App.Step | App.tsx:15-38 | one transition: selection sets processing with no data and the new name, settlement overwrites the state whatever the status, reset clears both variables; proved consistent by `App.StepConsistent` |
| App.Offered | App.tsx:99-133 | the gating: the upload control only while idle, the reset button only while not idle, settlement never gated; exercised by `App.TwoCallsCanBePending` |
| App.StepConsistent | App.tsx:15-38 | every transition, from any prior session, gives a consistent session: only error carries a message (the fixed one), only success carries data, idle has no file and processing has one |
| App.RunConsistent | App.tsx:15-38 | every session reachable from a consistent one is consistent |
| App.SelectForgetsPrior | App.tsx:16-17 | selection gives processing, no data, no error and the new name, whatever the prior session |
| App.SettleOverwrites | App.tsx:19-32 | success stores the returned list verbatim; failure stores no data and the fixed message; neither depends on the status or touches the file name |
| App.ResetIsInitial | App.tsx:35-38 | reset from any session gives idle, no data, no error and a null file name |
| App.SelectThenSettle | App.tsx:15-33 | select then settle gives success with exactly the returned list, or error with no data and the fixed message, under the chosen name |
| App.ResetDoesNotStick | App.tsx:19-38 | a settlement that arrives after a reset during processing still leaves idle |
| App.TwoCallsCanBePending | App.tsx:99-133 | select, reset, select is allowed by the gating and leaves two calls pending |
| App.StatementApp.constructor | App.tsx:9-13 | the initial state is idle, with no data, no error and no file name |
| App.StatementApp.Select | App.tsx:15-17 | sets the name and the processing state with empty data, keeps the invariant |
| App.StatementApp.Settle | App.tsx:19-32 | applies the outcome whatever the status, keeps the file name and the invariant |
| App.StatementApp.Reset | App.tsx:35-38 | returns to the initial session and keeps the invariant |
| App.StatementApp.DownloadCsv | App.tsx:52-63 | nothing when data is empty; otherwise `transactions.csv`, `text/csv;charset=utf-8;`, holding the projection of the data; under the invariant, nothing outside success |
| App.StatementApp.CopyCsv | App.tsx:65-70 | nothing when data is empty; otherwise the projection of the data; under the invariant, nothing outside success |
| FileUpload.HandleFile | components/FileUpload.tsx:40-50 | disabled means nothing happens; otherwise the file is forwarded unchanged if and only if its type is allowed, and an allowed type is never alerted |
| FileUpload.AllowListExactly | components/FileUpload.tsx:43-44 | the allowed types are exactly pdf, jpeg, png, webp and heic |
| FileUpload.Forward | components/FileUpload.tsx:28-36 | what a drop or change event does: nothing without a first file, otherwise `HandleFile` of the first file; stated by `FileUpload.ForwardFirstOnly` and `FileUpload.ForwardedIsFirstAllowed` |
| FileUpload.FirstFile | components/FileUpload.tsx:28-36 | the chosen file is element 0, and there is none if the list is missing or empty |
| FileUpload.ForwardFirstOnly | components/FileUpload.tsx:28-36 | files after the first never affect the result; a missing or empty list forwards nothing |
| FileUpload.ForwardedIsFirstAllowed | components/FileUpload.tsx:28-49 | an event forwards a file if and only if the control is enabled and the first file has an allowed type; that file is forwarded unchanged |
| FileUpload.DragAfter | components/FileUpload.tsx:16-20 | the flag after one drag event: raised by dragenter and dragover, lowered by dragleave, kept otherwise; its sequence behaviour is proved by the two lemmas below |
| FileUpload.DragAfterAllStill | components/FileUpload.tsx:13-21 | event types other than dragenter, dragover and dragleave leave the flag unchanged |
| FileUpload.DragAfterAllLastDecides | components/FileUpload.tsx:13-21 | after any run of drag events, the flag is decided by the last event that moves it |
| FileUpload.UploadControl.constructor | components/FileUpload.tsx:10 | the drag flag starts false |
| FileUpload.UploadControl.HandleDrag | components/FileUpload.tsx:13-21 | dragenter and dragover raise the flag, dragleave lowers it, and other types keep it |
| FileUpload.UploadControl.HandleDrop | components/FileUpload.tsx:23-31 | the flag is false after a drop, and only the first dropped file goes through the validator |
| FileUpload.UploadControl.HandleChange | components/FileUpload.tsx:33-38 | only the first chosen file goes through the validator, and the flag is not touched |

## Left out

- The extraction client (services/geminiService.ts) is left out. It is a network call to an external model, plus base64 file reading and JSON parsing. All of it is the abstract `App.Outcome` that `Settle` consumes.
- The transaction table (components/TransactionTable.tsx) is left out. It is rendering, currency formatting and a floating-point net total.
- Number-to-string formatting of `amount` in a CSV row is JavaScript float formatting. It is the parameter `amountText`, and `Amount` is an exact real.
- The browser download, clipboard write, `alert`, `console.error`, `preventDefault` and `stopPropagation` calls are I/O. The export methods return what they would hand over, and `HandleFile` returns the alert text as `Rejected`.
- async/await interleaving is modelled as sequential events. `Settle` is one event, and the model does not record which pending call a settlement belongs to.
- `onButtonClick` and the hidden input's `accept` filter are left out. They are browser file-picker mechanics.
- All JSX and CSS markup is left out, except the status conditions that show the upload control and the reset button (`App.Offered`).
- Csv.GenerateRoundTrip: the round trip holds only when date, category and amount text contain no comma, line feed or quote. The source writes those columns unescaped, so other values do not read back.
- Strings are sequences of Unicode scalar values, whereas JavaScript strings are UTF-16 code units. Content is unaffected, since `"`, `,` and the line feed are single code units. But the lengths stated by `Csv.Escape`, `Csv.RowLength` and `Csv.GenerateLength` count characters, so they differ from `.length` for characters outside the Basic Multilingual Plane, and lone surrogates are not representable.
