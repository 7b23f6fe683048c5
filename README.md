# Rent-receipt issuance, modelled in Dafny

The system issues French rent receipts ("quittances de loyer") for one tenant. It is
made of three parts:

- a renderer (`api/utils/pdf.js`) that derives the printed period range and the amounts
  and then draws a PDF;
- several workflows that mail a receipt and record it in a persisted document
  `{receipts, automationStatus, settings}`. These are a scheduled serverless handler, the
  scheduled callback of the Express server, two manual-send endpoints, and the endpoints
  that read and set the "skip next automatic send" flag;
- two client forms that validate their fields before a preview or a send request.

The model has one module per source file:

- `Renderer` (pdf.js): the data-handling prefix of `generateReceiptBuffer`.
- `CronHandler` (api/cron/send-receipt.js).
- `CronService` (server/src/services/cronService.js).
- `ServerRoutes` (server/src/routes/api.js).
- `SendHandler` (api/receipts/send.js).
- `AutomationHandler` (api/automation/status.js).
- `ManualSend` and `ReceiptForm` (the two client components).

Three shared modules support them:

- `ReceiptStore` holds the document, the receipt and status types, and a `Store` class.
  The store's three fields are the persisted document. `Load` and `Save` read or replace
  it whole, as `getDb`/`saveDb` do.
- `JsText` holds the JavaScript string built-ins the code relies on: `trim`, `split`,
  `toUpperCase` of the first character, `toLowerCase`, `replace` and `String(n)`.
- `Wrappers` holds `Option`.

Each workflow has two parts:

- a function `Run(request, document)` giving the outcome and the document left in the
  store;
- a `Handle` method on a `Store` that reads, walks the same gates with early exits,
  changes its copy and writes it back. Its postcondition ties the outcome and the new
  store contents to `Run` on the old contents.

The properties are lemmas about `Run`. Inputs the code gets from outside are parameters:

- whether the session is authenticated;
- the mail credentials and tenant settings from the environment;
- today's French date label and the clock readings;
- what the lock call, the mailer and the storage backend do.

The client validators test "blank" (`!s.trim()`) as "every character is white space";
`JsText.TrimBlankIff` proves the two the same.

Amounts are integer cents in the renderer. Receipts and settings keep them as the strings
they were given as. The empty string stands for an absent or falsy JavaScript string.

The model follows the code. Where the code evidently does not do what it was written for,
the model keeps the code's behaviour and adds the intended one beside it:

- The renderer reads the period label as "month year": token 0 is the month name and
  token 1 the year (`api/utils/pdf.js:31-35`). The comment at `api/utils/pdf.js:28-30`
  expects a label such as "Janvier 2026". The scheduled handler, however, passes its
  daily label "8 février 2026" (`api/cron/send-receipt.js:64-67`, a deliberate revert to
  a daily label). `Renderer.PeriodOf` and `Renderer.RenderAsWritten` are the code's
  reading. `Renderer.TolerantPeriodOf` and `Renderer.RenderCorrected` are the intended
  reading: the last two tokens of a three-token label, with the month capitalised. See
  "## Findings".
- `api/cron/send-receipt.js:2` imports `kv` from `api/utils/db.js`, which does not export
  it. As written, `kv` is therefore never bound. After a CommonJS transpile it is
  `undefined`, so the `if (kv)` test at `api/cron/send-receipt.js:29` always fails and no
  lock is ever taken. The input `kvBound` says whether the client is bound. `kvBound ==
  false` is the code as written. `kvBound == true` is the lock of lines 29-43 as it was
  meant to work; only then can the `Locked` outcome and the held case of
  `CronHandler.LockOutcomes` happen. See "## Findings".

## Model

| member | source | states |
|---|---|---|
| Renderer.RenderDefaults | api/utils/pdf.js:13-16 | with every field absent: the fixed owner, tenant and address, 715.00 split as 670.00 + 45.00, the words for 715, and the range 01/01/2026 to 31/01/2026 |
| Renderer.BreakdownAddsUp | api/utils/pdf.js:18-24 | 715 gives rent 670 and charges 45, any other amount gives rent = amount and charges 0, rent + charges is always the amount |
| Renderer.RenderAmounts | api/utils/pdf.js:16-24 | the printed total reads back as the amount (715 when absent); the printed rent and charges read back as its split |
| Renderer.FormatCents | api/utils/pdf.js:82-84 | every printed amount ends in ',' and two digits, with a leading '-' exactly for negative amounts |
| Renderer.FormatCentsRoundTrip | api/utils/pdf.js:82-84 | parsing a printed amount gives back the amount |
| Renderer.AmountInWords | api/utils/pdf.js:87-90 | the words "Sept cent quinze euros" exactly for 715, a placeholder otherwise |
| Renderer.MonthNumber | api/utils/pdf.js:38-42 | the month number is always a key of the last-day table |
| Renderer.MonthNumberTable | api/utils/pdf.js:38-42 | the twelve capitalised French names give 01..12; any other token gives '01' |
| Renderer.LowerCaseMonthFallsBack | api/utils/pdf.js:38-42 | a lower-cased month name is never a key of the table, so it gives '01' |
| Renderer.LastDayRange | api/utils/pdf.js:43-49 | the last day lies in 28..31; February has 29 days exactly when the year token reads as a multiple of 4 and 28 otherwise; other months keep their table entry |
| Renderer.FebruaryLastDay | api/utils/pdf.js:48 | "Février YEAR" ends on the 29th exactly when the year reads as a multiple of 4 |
| Renderer.FebruaryExamples | api/utils/pdf.js:48 | February has 29 days in 2024 and in 1900, and 28 in 2025 and for a year that is not a number |
| Renderer.PeriodOfTwoTokens | api/utils/pdf.js:31-35 | "Month Year" is read as that month and that year |
| Renderer.PeriodIgnoresExtraTokens | api/utils/pdf.js:31-35 | tokens after the second are ignored |
| Renderer.PeriodYearDefault | api/utils/pdf.js:31-35 | a one-token label takes the year 2026; the empty label reads as "Janvier 2026" |
| Renderer.PeriodRange | api/utils/pdf.js:51-52 | the start is "01/MM/YEAR" and the end "LAST/MM/YEAR" with the same month number and year token; they differ only in the day, and the end splits on '/' into day, month and year |
| Renderer.JanuaryExample | api/utils/pdf.js:51-52 | "Janvier 2026" runs from 01/01/2026 to 31/01/2026 |
| Renderer.PeriodLongForm | api/utils/pdf.js:53 | the long form starts with "du 1er au " and ends with the month name lower-cased character by character, a space and the year |
| Renderer.RenderAttestationAddress | api/utils/pdf.js:74 | only the first line break of the address is replaced by ", " |
| Renderer.RenderCorrectedAgrees | api/utils/pdf.js:13-53 | on a "Month year" label with a table month, the corrected rendering is the rendering as written |
| Renderer.RenderCorrectedDefault | api/utils/pdf.js:30-35 | with no label, the corrected rendering is the rendering as written |
| Renderer.LowerCaseLabel | api/utils/pdf.js:31-42 | a lower-case label "février 2026" gets the month number '01' as written and '02' read the intended way |
| Renderer.DailyLabelRead | api/utils/pdf.js:31-42 | a "day month year" label is read as January, with the month word as the year |
| Renderer.DailyLabelMisread | api/utils/pdf.js:31-42 | "8 février 2026" prints the range 01/01/février to 31/01/février |
| Renderer.TolerantPeriodReadsDayMonthYear | api/utils/pdf.js:31-35 | the corrected reading takes the month and year of a "day month year" label |
| Renderer.TolerantPeriodReadsMonthYear | api/utils/pdf.js:31-35 | the corrected reading takes the month and year of a "month year" label |
| Renderer.TolerantAgreesOnMonthYear | api/utils/pdf.js:31-35 | on "Month year" labels the corrected reading agrees with the code's |
| Renderer.DailyLabelReadTolerantly | api/utils/pdf.js:31-52 | read the corrected way, "8 février 2026" gives 01/02/2026 to 28/02/2026 |
| JsText.TrimBlankIff | client/src/components/ManualSend.jsx:38-41 | `trim` leaves the empty string exactly when every character is white space |
| JsText.UpperCharChangesIff | api/cron/send-receipt.js:67 | `toUpperCase` of one character changes it exactly when it is a lower-case letter: a to z, the micro sign, or U+00DF to U+00FF other than the division sign |
| JsText.CapitalizeKeepsRest | api/cron/send-receipt.js:67 | capitalisation keeps everything after the first character, leaves a string not starting with a lower-case letter as it is, and changes one that does |
| JsText.CapitalizeIdempotent | client/src/components/ManualSend.jsx:59 | capitalising twice is capitalising once |
| ReceiptStore.CountsAsSentIff | api/cron/send-receipt.js:72-75 | `status.includes('Sent')` holds exactly for "Sent" and "Sent (Auto)" |
| ReceiptStore.StatusOrDefault | api/automation/status.js:8 | the flag reads as set exactly when it is stored as set; a stored status is returned as it is |
| ReceiptStore.AttachmentNameHasNoSpace | api/cron/send-receipt.js:104 | the attachment name is "quittance-" + the period + ".pdf" with every white-space character made '_' and no other character changed |
| ReceiptStore.Prepend | api/cron/send-receipt.js:121-122 | the new receipt comes first, the earlier ones follow in their order, and flag and settings are kept |
| ReceiptStore.Store.constructor | api/utils/db.js:4-7 | a fresh store holds the default document: no receipts, the flag clear, no settings |
| ReceiptStore.Store.Load | api/utils/db.js:9-14 | gives the stored document, or nothing when the backend cannot be read |
| ReceiptStore.Store.Save | api/utils/db.js:16-18 | replaces the whole document exactly when the backend can be written, and otherwise changes nothing |
| CronHandler.Handle | api/cron/send-receipt.js:14-141 | the outcome and the new store contents are those of `CronHandler.Run` on the old contents |
| CronHandler.CredentialsCheckedFirst | api/cron/send-receipt.js:18-21 | missing mail credentials give 500 with the document unchanged, whatever else holds |
| CronHandler.LockOutcomes | api/cron/send-receipt.js:29-43 | a held lock gives Locked with the document unchanged; a throwing lock call or an unbound client behaves as an acquired lock |
| CronHandler.OverlappingRunsBothSendUnbound | api/cron/send-receipt.js:2-43 | with the client unbound, as written, a run that finds today's lock held still sends and records a receipt, exactly as the run holding it does |
| CronHandler.OverlappingRunsOneSendsBound | api/cron/send-receipt.js:29-43 | with the client bound, of two overlapping runs on one document only the one holding the lock sends; the other answers Locked with the document unchanged |
| CronHandler.LockKeyHasNoSpace | api/cron/send-receipt.js:31-32 | the lock key is "lock:cron:" + the label with every white-space character made '_' and no other character changed |
| CronHandler.SkipConsumedBeforeSettings | api/cron/send-receipt.js:46-62 | a set skip flag is reset and saved and the run answers Skipped, with receipts and settings untouched, even when the settings are missing; the next run is not skipped |
| CronHandler.MissingSettingsNoSave | api/cron/send-receipt.js:54-62 | a missing tenant email or name answers MissingSettings with the document unchanged |
| CronHandler.FindSent | api/cron/send-receipt.js:72-75 | the found receipt is in the history and blocks; nothing is found exactly when no receipt blocks |
| CronHandler.DuplicateCheck | api/cron/send-receipt.js:72-80 | a receipt blocks the run exactly when its period equals today's capitalised label and its status is "Sent" or "Sent (Auto)" |
| CronHandler.OncePerDay | api/cron/send-receipt.js:64-80 | after a receipt is issued, a second run on the same day answers AlreadySent and changes nothing |
| CronHandler.IssuedReceipt | api/cron/send-receipt.js:111-123 | on success exactly one "Sent (Auto)" receipt with today's label, the settings' tenant name and amount and the message id is put first, the others follow in order, and the mail goes to the tenant with the same period |
| CronHandler.SendErrorAddsNothing | api/cron/send-receipt.js:132-140 | a throwing mailer adds no receipt, reports no send and, outside the skip path, leaves the document as it was; once every earlier gate is passed, the answer is 500 with the document unchanged |
| CronHandler.OnlySkipAndIssueWrite | api/cron/send-receipt.js:46-123 | the document changes only when the skip flag is consumed or a receipt is issued |
| CronHandler.IssuedPdfPeriod | api/cron/send-receipt.js:83-87 | the daily label given to the renderer is read as January, with the month word as the year |
| CronHandler.IssuedPdfPeriodTolerant | api/cron/send-receipt.js:83-87 | read the corrected way, the same label gives the month it names and its year |
| CronService.ReadOrFallback | server/src/services/cronService.js:8-14 | an unreadable document reads as `{receipts: [], settings: {}}`: no receipts, no automation status, empty settings; otherwise as the stored one |
| CronService.ReadFailureDoesNothing | server/src/services/cronService.js:8-14 | when the document cannot be read nothing is sent and nothing is written |
| CronService.Handle | server/src/services/cronService.js:23-78 | the outcome and the new store contents are those of `CronService.Run` on the old contents |
| CronService.SkipConsumed | server/src/services/cronService.js:29-36 | a set skip flag is reset and saved before the settings are looked at; receipts and settings are untouched |
| CronService.NoSettingsNoSave | server/src/services/cronService.js:38-41 | missing settings or a missing email leave the document as it was |
| CronService.RecordedStatus | server/src/services/cronService.js:59-71 | the recorded receipt is "Sent (Auto)" exactly when the mailer reported success and "Failed (Auto)" otherwise, with the stored tenant name and amount, and is put first |
| CronService.CrashAddsNothing | server/src/services/cronService.js:51-77 | a throw while generating or sending leaves the document as it was |
| CronService.EveryRunAppends | server/src/services/cronService.js:43-71 | with no duplicate check, n runs add n receipts for the same period ahead of the old ones, which stay in order |
| ServerRoutes.History | server/src/routes/api.js:15-22 | the history is the stored receipts, and 500 exactly when the document cannot be read |
| ServerRoutes.GetSettings | server/src/routes/api.js:79-86 | the stored settings when readable and present; `{}` otherwise |
| ServerRoutes.GetAutomationStatus | server/src/routes/api.js:89-96 | the flag reads as set exactly when the document is readable and stores it set |
| ServerRoutes.HandleSendReceipt | server/src/routes/api.js:40-76 | the reply and the new store contents are those of `ServerRoutes.SendReceipt` on the old contents |
| ServerRoutes.SendFailureTouchesNothing | server/src/routes/api.js:44-51 | a throw while generating or mailing answers 500 before the document is read, leaving it untouched |
| ServerRoutes.SendRecords | server/src/routes/api.js:52-67 | a successful send puts first one receipt built from the body, "Sent" exactly when the mailer reported success and "Failed" otherwise, replaces the settings by exactly the body's four fields and keeps the flag |
| ServerRoutes.SendThenSettings | server/src/routes/api.js:67 | after a successful send the settings route answers with the body's fields |
| ServerRoutes.HandleSetAutomationStatus | server/src/routes/api.js:99-109 | the reply and the new store contents are those of `ServerRoutes.SetAutomationStatus` on the old contents |
| ServerRoutes.SetThenGet | server/src/routes/api.js:99-105 | the flag is replaced by the posted value and echoed, receipts and settings are kept, and the status route then answers with it |
| ServerRoutes.SetFailureChangesNothing | server/src/routes/api.js:106-108 | a store that cannot be read or written answers 500 and changes nothing |
| SendHandler.Handle | api/receipts/send.js:15-89 | the outcome and the new store contents are those of `SendHandler.Run` on the old contents |
| SendHandler.GateOrder | api/receipts/send.js:16-31 | 401 comes before anything, then 405 for a method other than POST, then 500 for missing credentials, each with the document unchanged; 401 is answered exactly when unauthenticated |
| SendHandler.MailThrowNoStore | api/receipts/send.js:80-88 | a throwing mailer answers 500 and the outcome does not depend on the store at all |
| SendHandler.Records | api/receipts/send.js:63-76 | on success one "Sent" receipt with the body's tenant name, period and amount and the message id is put first; nothing else changes; the attachment name has no white space |
| SendHandler.RepeatAppends | api/receipts/send.js:25-76 | the same request twice records two receipts with the same contents ahead of the old ones |
| AutomationHandler.Handle | api/automation/status.js:3-22 | the outcome and the new store contents are those of `AutomationHandler.Run` on the old contents |
| AutomationHandler.GetReadsOnly | api/automation/status.js:7-9 | GET changes nothing and answers the stored flag, or a clear flag when none is stored |
| AutomationHandler.PostReplacesAndEchoes | api/automation/status.js:11-16 | POST stores exactly the posted flag, answers with what it stored, keeps receipts and settings, and a later GET answers the same |
| AutomationHandler.PostIdempotent | api/automation/status.js:11-16 | posting the same flag twice leaves what posting it once leaves |
| AutomationHandler.RejectionsChangeNothing | api/automation/status.js:18-21 | another method gets 405 without saving; every non-200 answer leaves the document unchanged; 500 exactly on a read failure or a failed POST write |
| ManualSend.Form.With | client/src/components/ManualSend.jsx:27-30 | the named field takes the value and every other field is kept |
| ManualSend.ClearError | client/src/components/ManualSend.jsx:32-34 | the same keys stay; the named field's entry becomes null and the others are kept |
| ManualSend.ManualSendForm.HandleInputChange | client/src/components/ManualSend.jsx:25-35 | sets only the named field and clears only that field's error |
| ManualSend.ManualSendForm.constructor | client/src/components/ManualSend.jsx:14-22 | empty presets, the given period label and no errors |
| ManualSend.ErrorsForEntries | client/src/components/ManualSend.jsx:38-44 | the error map has an entry exactly for each field with an error, holding that error |
| ManualSend.ManualSendForm.ValidateForm | client/src/components/ManualSend.jsx:37-47 | replaces the errors by the new map and answers true exactly when it is empty |
| ManualSend.ValidIff | client/src/components/ManualSend.jsx:38-46 | the form is valid exactly when tenant name, address, amount and email are not blank and the email matches the pattern; the period plays no part |
| ManualSend.EmailErrorKinds | client/src/components/ManualSend.jsx:42-43 | a blank email gets "required"; a non-blank one that does not match gets "invalid format" |
| ManualSend.EmailMatchExtends | client/src/components/ManualSend.jsx:43 | the pattern is unanchored: text around a match keeps it a match |
| ManualSend.EmailMatchNeedsAtThenDot | client/src/components/ManualSend.jsx:43 | a match needs an '@' and later a '.', with a character before, between and after |
| ManualSend.EmailExamples | client/src/components/ManualSend.jsx:43 | "a@b.c" and " x a@b.c " match; "a@b", "@b.c" and "a@.c" do not |
| ManualSend.RequestBody | client/src/components/ManualSend.jsx:59-63 | the request keeps every field of the form but the period |
| ManualSend.RequestPeriod | client/src/components/ManualSend.jsx:59-63 | the sent period has its first character upper-cased and the rest unchanged; doing it twice changes nothing |
| ManualSend.ManualSendForm.HandlePreview | client/src/components/ManualSend.jsx:50-63 | the form is left as it was; a request body exactly when the form is valid, with the capitalised period |
| ManualSend.ManualSendForm.HandleSend | client/src/components/ManualSend.jsx:79-93 | the form is left as it was; a request body exactly when the form is valid and the send is confirmed |
| ReceiptForm.CurrentPeriodSplits | client/src/components/ReceiptForm.jsx:5-10 | the label splits on its one space into the capitalised month and the year |
| ReceiptForm.CurrentPeriodRead | client/src/components/ReceiptForm.jsx:5-10 | the renderer reads the label as that month's number and that year |
| ReceiptForm.MissingFields | client/src/components/ReceiptForm.jsx:59-60 | a field is listed exactly when it is required and absent or blank after trimming |
| ReceiptForm.ValidIff | client/src/components/ReceiptForm.jsx:58-69 | nothing is missing exactly when each of the five fields is present and not all white space |
| ReceiptForm.ReceiptFormState.ValidateForm | client/src/components/ReceiptForm.jsx:58-70 | false with the error message exactly when a field is missing; true with the message untouched otherwise |
| ReceiptForm.ReceiptFormState.HandleChange | client/src/components/ReceiptForm.jsx:53-56 | only the named field changes |
| ReceiptForm.ReceiptFormState.HandleSend | client/src/components/ReceiptForm.jsx:72-104 | a request body, the fields as they are, exactly when nothing is missing |
| ReceiptForm.ReceiptFormState.ToggleAutomation | client/src/components/ReceiptForm.jsx:34-51 | posts the negated flag and adopts it unless the request throws, with the matching message |
| ReceiptForm.ReceiptFormState.LoadAutomationStatus | client/src/components/ReceiptForm.jsx:27-32 | the fetched flag is adopted when the request succeeds |
| ReceiptForm.ReceiptFormState.constructor | client/src/components/ReceiptForm.jsx:12-24 | the initial fields with the current period, no message, the flag clear |

## Left out

- PDF drawing through pdfkit, the chunk buffer and its events are not modelled. They are
  a foreign library with no decisions in them. The drawn date "Fait à Tours, le …" comes
  from the clock and is left out with it.
- The mail body, sender, bcc and HTML are not modelled. The mailer is an input that
  accepts with a message id or throws. The server's `sendReceiptEmail` is an input that
  replies `{success, id}` or throws. The shipped one (server/src/services/emailService.js:28-55)
  only ever replies `success: true` or throws. `Replied(false, _)`, and with it the "Failed"
  and "Failed (Auto)" statuses, is therefore a generalisation. It covers any mailer with
  the same reply shape.
- `ReceiptStore.Store.Load` and `ReceiptStore.Store.Save`: an empty key-value store is a
  store holding the default document. As written, `getDb` then returns the module-level
  `DEFAULT_DB` object itself (api/utils/db.js:4-13). The handlers change that object in
  place before `saveDb` (api/automation/status.js:13, api/receipts/send.js:75,
  api/cron/send-receipt.js:122). When `kv.set` then throws, the warm instance's default
  keeps the change, and its next `getDb` returns it. Take an empty store whose write
  fails: POST `{skipNext: true}` answers 500, yet a later GET in the same instance answers
  `{skipNext: true}`. In the model a failed `Save` changes nothing. The later `Load` gives
  the default document, and `AutomationHandler.GetReadsOnly` answers false. This sharing
  of the default object across requests is not modelled.
- Storage is modelled as a whole-document read and write that may fail: Vercel KV's `get`
  and `set`, and the JSON file read and write. Parsing and serialising the JSON are not
  modelled.
- Under native ES modules, importing the missing `kv` export at
  `api/cron/send-receipt.js:2` makes the module fail to link, and the handler never runs.
  This is not modelled. The model takes the transpiled reading, where `kv` is
  `undefined`.
- The lock's expiry and atomicity are not modelled. Only its result is an input: acquired,
  held, or thrown.
- Authentication is an input boolean. The Express routes check none.
- The clock and `toLocaleDateString('fr-FR')` are inputs. The scheduled handler reads the
  date label twice (lines 31 and 66); the model uses one label for both, so it does not
  cover a run that spans midnight.
- Scheduling and routing are not modelled: the `node-cron` expression and the Express and
  serverless wiring.
- The response bodies' messages and debug fields are not modelled. Outcomes carry what
  decides the status code and what is stored.
- `Renderer.RenderAsWritten`: amounts are integer cents. The model does not cover `parseFloat` of
  arbitrary text, `NaN`, or the exponent form `toFixed` gives at 1e21 and beyond. An
  absent amount is `None`. An amount string that parses to 0 is not treated as falsy.
- `Renderer.YearDivisibleBy4`: only plain digit strings are read as numbers. Year tokens
  such as "+4", "4.0" or "0x10", which JavaScript also coerces, count as not divisible.
- `JsText.UpperChar` and `JsText.LowerChar`: case mapping covers ASCII and Latin-1 only.
- `Renderer.MonthNumber`: inherited object keys such as "constructor" are not modelled;
  `months[monthName]` would find them.
- The skip flag and the posted `skipNext` are booleans. A missing or non-boolean JSON
  value is not modelled.
- `SendHandler.Run`: the body's fields are strings, and the empty string stands for an
  absent one. An absent `period`, on which `period.replace` throws, is not distinguished.
- The scheduled handler's "Skipped" answer for an already-sent day is the outcome
  `AlreadySent`, kept apart from the skip flag's `Skipped`. Both answer 200 with status
  "Skipped".
- `ServerRoutes.History`: an absent `receipts` list is the empty sequence, so the `[]`
  default is implicit.
- `ReceiptForm.ReceiptFormState.LoadAutomationStatus` and `ToggleAutomation`: a response
  with status 500 does not make `fetch` throw. On mount, its body without `skipNext` is
  adopted as false, which the caller passes as the fetched value. On toggle, it is adopted
  like a success. Only a network failure is `requestThrows`.
- Loading and toast state, the preview window, the confirmation dialog text and the
  callbacks to the parent are UI state and are not modelled. The confirmation dialog's
  answer is an input.
- ReceiptForm's `handlePreview` and `handleSend` send the same body. One method,
  `HandleSend`, models both.

## Findings

| source | as written | input that shows it | evidently intended | confidence | as-written member | corrected member |
|---|---|---|---|---|---|---|
| api/utils/pdf.js:31-42 with api/cron/send-receipt.js:66-87 | the scheduled handler passes the daily label "day month year" as the period. The renderer takes token 0 as the month and token 1 as the year, so the day becomes the month name, which falls back to '01', and the month word becomes the year | "8 février 2026" prints the range "01/01/février" to "31/01/février" and "du 1er au 31 8 février" | the month and year the label names: 01/02/2026 to 28/02/2026 | not executed | Renderer.DailyLabelMisread, Renderer.DailyLabelRead, CronHandler.IssuedPdfPeriod | Renderer.TolerantPeriodOf and Renderer.RenderCorrected, with Renderer.DailyLabelReadTolerantly, Renderer.TolerantAgreesOnMonthYear, Renderer.RenderCorrectedAgrees, CronHandler.IssuedPdfPeriodTolerant |
| api/cron/send-receipt.js:2 with api/utils/db.js:1-28 and api/cron/send-receipt.js:29-43 | `kv` is imported from a module that does not export it. It is `undefined` after a CommonJS transpile, so the `if (kv)` test always fails and no lock is ever taken | two runs on the same day that overlap: both read the document before either saves. The later one would find the lock held, yet both send the mail and record a receipt | the lock of lines 29-43 stops the later run with "Locked", so at most one mail per day | not executed | CronHandler.OverlappingRunsBothSendUnbound, CronHandler.LockOutcomes | CronHandler.OverlappingRunsOneSendsBound, CronHandler.LockOutcomes |

`Renderer.PeriodOf` is the reading as written, and `Renderer.RenderAsWritten` uses it;
the lemmas in the first half of the table are about them. `Renderer.TolerantPeriodOf` is
the corrected reading, and `Renderer.RenderCorrected` uses it. It takes the last two
tokens of a three-token label and capitalises the month. On every "Month year" label the
renderer was written for, it agrees with the as-written reading
(`Renderer.TolerantAgreesOnMonthYear`, `Renderer.RenderCorrectedAgrees`), so the
month-table, last-day and range lemmas carry over to `Renderer.RenderCorrected` on those
labels. The same misreading hits a label typed in lower case, such as "février 2026",
which the receipt form and `api/receipts/send.js` pass on unchanged
(`Renderer.LowerCaseLabel`).

The lock finding turns on the input `kvBound` of `CronHandler.Run`. `kvBound == false`
is the code as written. `CronHandler.OverlappingRunsBothSendUnbound` shows that a held
lock then changes nothing. `kvBound == true` is the intended binding.
`CronHandler.OverlappingRunsOneSendsBound` shows that the lock then lets one of two
overlapping runs send. Every other `CronHandler` lemma holds for both values.
