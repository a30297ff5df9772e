# intpatient — a verified model of its upload, record and session logic

intpatient is a small clinical web application. Staff sign in against an
external identity service (UpperMind). They upload radiology images and
medical report documents (images and PDFs) for a patient, with an optional
note. For reports, the backend extracts the text of every file by OCR and has
it translated by the identity service's translation endpoint, streaming
progress events. Both kinds of record are listed, shown in detail and offered
for download.

The model covers the decision and state-transition code on both sides:

- **Backend (FastAPI routers)**
  - upload validation by extension whitelist, for `reports.py` and `radiology.py`;
  - record and file creation in the three tables;
  - the report processing stream: per-file OCR with an error sentinel,
    translation of non-blank successful OCR text only, and the event sequence;
  - list, detail and download routes with their kind-checked 404s;
  - bearer-header parsing and the login and `me` routes (`auth.py`);
  - PDF page-text selection with its 10-character OCR fallback (`pdf.py`).
- **Frontend (React pages)**
  - the file picker's all-or-nothing validation and its selected-files list;
  - the three upload pages' state machines;
  - the records feed: stamping, merging, the stable newest-first sort and
    the dashboard's top five;
  - the expand/collapse toggle, which has no stale-answer guard;
  - the detail page's text-block rules;
  - the login form;
  - the auth provider's token/user state mirrored in `sessionStorage`;
  - the axios interceptors.

**How the model is built**

- Every network call, service call, clock reading and generated file name is
  an input. Browser requests settle as `Outcome<T>` (`Ok`, or `Err` with or
  without a response). Python collaborators that may raise return
  `Attempt<T>`. Durations and stored paths are functions of the file index.
- Pages, the auth provider, the file picker, session storage and the database
  are classes whose methods change their fields under `modifies` clauses.
- Handlers that await are split at the await. For example, `BeginUpload` runs
  up to the request and `SettleUpload` handles its answer; a composite
  `HandleUpload` runs a whole submission against a given outcome.
- Loops in the source are methods with loops, proved against specification
  functions: upload validation and storage, the OCR, translation and save
  phases, the report list and the PDF page loop.

**Behaviours worth knowing**

- The records page keeps its previous list when a list request fails. It also
  stores a detail answer without checking which card is expanded.
  `RecordsPage.LateAnswerShownUnderOtherCard` builds a run in which one
  record's detail is shown under another card.
- The frontend and the backend disagree on names without a dot. The frontend
  label of `pdf` is `.pdf`, so the picker accepts it; the backend extension is
  empty, so the route refuses it (`RouterCommon.DotlessNameDisagrees`).
- The upload pages apply an answer to whatever state the page is in. The
  picker stays usable while a request is in flight, so a second submission
  can overlap the first. `StaleErrorAfterSuccess` ends a page in its success
  state with an earlier failure's message still set. `DoneWithoutFiles` and
  `SuccessWithoutFiles` end it there with no files selected.
- A wrong password never leaves its message on screen. The backend answers a failed login with 401, and the client's response interceptor handles every 401 first: it clears storage and assigns `/login` to the window's location. The login page then sets the wrong-credentials message, but the full page load that follows builds a fresh page without it (`LoginPage.WrongPasswordMessageReplaced`).
- The upload pages never see the report route's result. The route answers with an event stream (`data: {…}` lines), the pages read `response.data.id` and `response.data.files`, and the client sets no `responseType`. axios fails to parse the stream as JSON and passes the raw text on, so both fields are undefined (`StreamAnswer.StreamAnswerIsRawText`). The report page ends done and its render throws at `results.length` (`StreamAnswer.ReportPageGetsStream`). The combined page ends in success with an empty report section and no error (`StreamAnswer.RecordPageGetsStream`). The parsed path is modelled too, as the pages' evident intent.
- Each filter change on the records page starts a new fetch. The fetch keeps
  the filter it began with, and whichever fetch settles last sets the list.
  `RecordsPage.StaleListUnderNewFilter` shows radiology records under the
  report filter. `RecordsPage.LoadingEndsWhileFetchPending` ends loading
  while a fetch is still pending.

## Model

| member | source | states |
|---|---|---|
| Text.AfterLastDotFacts | frontend/src/components/FileUploader.tsx:27 | the segment after the last dot is the longest dot-free suffix of the name, preceded by a dot when shorter than the name |
| Text.AfterLastDotOfDotted | frontend/src/components/FileUploader.tsx:27 | `base.ext` with a dot-free `ext` yields `ext`, whatever `base` holds |
| Text.AfterLastDotOfUndotted | frontend/src/components/FileUploader.tsx:27 | a name without a dot is its own last segment |
| Text.TrimStartFacts | backend/app/services/pdf.py:13 | trimming the start keeps a suffix that begins with a non-space, and drops only whitespace |
| Text.TrimEndFacts | backend/app/services/pdf.py:13 | trimming the end keeps a prefix that ends with a non-space, and drops only whitespace |
| Text.StripIsSlice | backend/app/services/pdf.py:13 | the stripped text is a slice `s[i..j]` of the text, with only whitespace before `i` and from `j` on |
| Text.StripFacts | backend/app/services/pdf.py:13 | the stripped text is empty exactly when the text is all whitespace; otherwise it starts and ends with a non-space |
| Text.StripRuntimesDiffer | backend/app/services/pdf.py:13 | every character JavaScript's `trim` removes Python's `strip` removes too, and U+001E is stripped by Python but kept by JavaScript |
| Text.NatToStringDigits | backend/app/routers/reports.py:155 | the decimal rendering of a number consists of digits only |
| Text.NatToStringRoundTrip | backend/app/routers/reports.py:155 | reading the decimal rendering back gives the number |
| Text.IntToStringSign | frontend/src/pages/RecordsPage.tsx:102 | an integer's rendering starts with `-` exactly when it is negative, followed by the rendering of its magnitude |
| Text.IntToStringInjective | frontend/src/pages/RecordsPage.tsx:102 | distinct integers render differently |
| Sorting.SortFacts | frontend/src/pages/RecordsPage.tsx:65 | the sort is newest first, is a permutation of its input, and keeps the input order among equal timestamps |
| Sorting.SortIsTheStableOrder | frontend/src/pages/RecordsPage.tsx:65 | the stable newest-first order is unique: any descending sequence with the same equal-timestamp groups is the sort's result |
| Store.FindRecord | backend/app/routers/radiology.py:123 | no record is found exactly when no row has that id and kind; a found row is in the table and has that id and kind |
| Store.FindFile | backend/app/routers/reports.py:243 | no file is found exactly when no row has that id; a found row is in the table with that id |
| Store.FilesOf | backend/app/models.py:18 | a record's files are exactly the file rows pointing at it |
| Store.TranslationsOf | backend/app/models.py:32 | a file's translations are exactly the translation rows pointing at it |
| Store.FilesOfAppend | backend/app/models.py:18 | the files of a record in two table segments are those of each segment, in table order |
| Store.TranslationsOfOnePointing | backend/app/models.py:32 | a file that exactly one translation row points at has that row as its only translation |
| Store.FindRecordSkips | backend/app/routers/reports.py:203 | rows ahead that carry another id do not change a lookup by id |
| Store.OfKind | backend/app/routers/radiology.py:103 | the filter keeps exactly the rows of the given kind |
| Store.RecordsOfKindFacts | backend/app/routers/radiology.py:103 | a list query returns every record of its kind and nothing else, each once, newest first |
| Store.KeysBelowOrdered | backend/app/models.py:12 | autoincrement keys are pairwise distinct, increase in table order and stay below the next key |
| Store.RefsBelowAll | backend/app/models.py:25 | the recursive reference check holds exactly when every row refers to a key below the bound |
| Store.TablesValidBounds | backend/app/models.py:24-25 | in consistent tables every key and every foreign key lies below the next key of its table |
| Store.Database.constructor | backend/app/models.py:9-46 | the database starts with empty tables, an empty disk and keys counting from 1 |
| Store.Database.AddRecord | backend/app/routers/reports.py:56-62 | a new record row gets the next key, is appended, and the tables stay consistent |
| Store.Database.AddFile | backend/app/routers/reports.py:78-85 | a file row for an existing record gets the next key, is appended, and the tables stay consistent |
| Store.Database.AddTranslation | backend/app/routers/reports.py:143-150 | a translation row for an existing file gets the next key, is appended, and the tables stay consistent |
| Store.Database.WriteFile | backend/app/routers/reports.py:74-76 | writing a file adds its stored path to the disk and nothing else |
| RouterCommon.GetExtension | backend/app/routers/reports.py:28-29 | the extension has no dot, and a name without a dot has the empty extension |
| RouterCommon.GetExtensionOfDotted | backend/app/routers/radiology.py:19-20 | `base.ext` with a dot-free `ext` has the extension `ext` lower-cased |
| RouterCommon.LabelIsDotExtension | frontend/src/components/FileUploader.tsx:27 | for a name with a dot, the picker's label is `.` followed by the backend's extension |
| RouterCommon.DotlessNameDisagrees | backend/app/routers/reports.py:29 | a dot-less name such as `pdf` is labelled `.pdf` by the picker but has the empty extension on the backend |
| RouterCommon.UploadRejectionFacts | backend/app/routers/reports.py:40-50 | an upload is accepted exactly when it is non-empty and every extension is allowed; a refusal is a 400 naming the first offending file |
| RouterCommon.ValidateUpload | backend/app/routers/radiology.py:31-41 | the validation loop raises exactly the rejection of the upload, or none |
| RouterCommon.NewFileRows | backend/app/routers/reports.py:69-85 | one new file row per uploaded name, in upload order |
| RouterCommon.NewFileRowsFacts | backend/app/routers/reports.py:78-83 | the k-th new row has key first+k, the record's id, the k-th name, its extension and its stored path |
| RouterCommon.StoredPathsMembers | backend/app/routers/reports.py:71-76 | the written paths are exactly the stored paths of the uploaded files |
| RouterCommon.StoreFile | backend/app/routers/reports.py:69-85 | one turn of the storage loop writes the file and appends its row, keeping the loop's state description |
| RouterCommon.StoreFiles | backend/app/routers/radiology.py:57-76 | the storage loop appends exactly the new rows for the names, writes every stored path, and keeps the tables consistent |
| RouterCommon.StoreUpload | backend/app/routers/reports.py:40-94 | a refused upload changes nothing; an accepted one adds one record of the route's kind and the new file rows with their contents on disk |
| RouterCommon.CreatedBy | backend/app/routers/reports.py:53 | the creator is the username, else the e-mail, else `unknown` |
| RouterCommon.DownloadFile | backend/app/routers/reports.py:236-258 | a file is served exactly when it exists, belongs to a record of the route's kind and is on disk; every refusal is a 404 |
| RouterCommon.DownloadStaysInItsKind | backend/app/routers/radiology.py:152-162 | a file served by the radiology route is refused by the report route |
| RadiologyRouter.ListRadiologyRecords | backend/app/routers/radiology.py:103-113 | the list has one entry per radiology record of the sorted query, in its order |
| RadiologyRouter.ListFacts | backend/app/routers/radiology.py:103-113 | the list has one entry per radiology record, only those, newest first |
| RadiologyRouter.ListOrder | backend/app/routers/radiology.py:103 | the list runs newest first |
| RadiologyRouter.ListOnlyOfKind | backend/app/routers/radiology.py:103-113 | every entry is that of a radiology record |
| RadiologyRouter.ListEveryOfKind | backend/app/routers/radiology.py:103-113 | every radiology record has its entry in the list |
| RadiologyRouter.GetRadiologyRecord | backend/app/routers/radiology.py:116-142 | a 404 `Record not found` exactly when no radiology record has the id; otherwise the record of that id and kind |
| RadiologyRouter.UploadRadiology | backend/app/routers/radiology.py:23-94 | a refused upload stores nothing and answers the 400; an accepted one adds a radiology record and its files, and answers what the detail route then returns |
| RadiologyRouter.UploadAnswerIsDetail | backend/app/routers/radiology.py:77-94 | after an upload the new record's files are exactly the added rows, and the detail route answers the upload's body |
| ReportsRouter.UploadForwardsBearerToken | backend/app/routers/reports.py:54 | the token passed to translation is the request's bearer token |
| ReportsRouter.Truncated | backend/app/routers/reports.py:183 | the preview is a prefix of at most 200 characters, the whole text when it fits |
| ReportsRouter.PreviewFacts | backend/app/routers/reports.py:180-183 | the preview is empty without a first file or a first translation; otherwise it is the first 200 characters of that translation's text |
| ReportsRouter.ListReportRecords | backend/app/routers/reports.py:170-193 | the list loop builds exactly the report list |
| ReportsRouter.ReportListFacts | backend/app/routers/reports.py:176-190 | the list has one entry per report record, only those, newest first |
| ReportsRouter.ReportListOrder | backend/app/routers/reports.py:176 | the list runs newest first |
| ReportsRouter.ReportListOnlyOfKind | backend/app/routers/reports.py:176-192 | every entry is that of a report record |
| ReportsRouter.ReportListEveryOfKind | backend/app/routers/reports.py:176-192 | every report record has its entry in the list |
| ReportsRouter.FileEntryOf | backend/app/routers/reports.py:214-229 | a detail file lists every translation of the file, in table order |
| ReportsRouter.DetailOf | backend/app/routers/reports.py:207-233 | the detail lists every file of the record, in table order |
| ReportsRouter.GetReportRecord | backend/app/routers/reports.py:196-233 | a 404 `Record not found` exactly when no report record has the id; otherwise the record of that id and kind |
| ReportsRouter.UploadReport | backend/app/routers/reports.py:32-167 | a refused upload stores nothing; an accepted one stores the record and files, streams the OCR, translation and completion events, and saves one translation row per file; each file's completion entry carries both texts and both durations |
| ReportsRouter.UploadedReportDetail | backend/app/routers/reports.py:203-233 | after an upload the detail route finds the new record with exactly the uploaded files |
| ReportsRouter.DetailShowsStreamedTexts | backend/app/routers/reports.py:143-162 | after an upload the detail route shows, for each file, the texts and durations its completion event streamed |
| ReportsRouter.FileEntryOfSingle | backend/app/routers/reports.py:219-229 | a file with one translation row shows that row alone |
| ReportsRouter.UploadedFileTranslated | backend/app/routers/reports.py:142-150 | a freshly saved row is the only translation of its file |
| ReportPipeline.TranslatableIndicesMembers | backend/app/routers/reports.py:119 | exactly the files whose OCR did not fail and whose text is not blank are translated |
| ReportPipeline.OcrPhase | backend/app/routers/reports.py:100-114 | the OCR loop yields each file's outcome by extension, a sentinel when OCR raised, and one progress event after each file |
| ReportPipeline.TranslationPhase | backend/app/routers/reports.py:116-138 | every translatable file gets the service's text or the translation sentinel, every other file keeps `("", 0)`, and one event per translated file |
| ReportPipeline.SavePhase | backend/app/routers/reports.py:140-163 | one translation row per file, in upload order, holding its OCR and translation results |
| ReportPipeline.ProcessStream | backend/app/routers/reports.py:96-165 | the OCR events, then the translation events, then one completion event carrying the record and, per file, its texts with the OCR and translation durations; plus the saved rows |
| ReportPipeline.StreamText | backend/app/routers/reports.py:137-165 | the response body frames every event as `data: <json>` and a blank line, so a non-empty stream begins with `data: ` |
| ReportPipeline.StreamedEntryMatchesSavedRow | backend/app/routers/reports.py:142-162 | a file's completion entry and its saved translation row hold the same texts and the same two durations; an untranslated file reports a translation duration of 0 |
| ReportPipeline.OcrFailureIsShown | backend/app/routers/reports.py:111-113 | a file whose OCR raised is marked failed, is not translated, and the upload page shows it as an OCR error |
| ReportPipeline.TranslationFailureIsShown | backend/app/routers/reports.py:129-130 | a translatable file whose translation raised gets the translation sentinel, which the upload page recognises |
| ReportPipeline.TranslatedExactlyWhenTranslatable | backend/app/routers/reports.py:119-131 | a file is translated exactly when it is translatable; others keep the empty result |
| ReportPipeline.FileOutcomeIsolated | backend/app/routers/reports.py:101-131 | one file's result depends only on its own OCR, the translator's answer for its own text and its durations; other files and other translator answers change nothing |
| ReportPipeline.UnopenablePdfFailsOcr | backend/app/routers/reports.py:106-113 | a `pdf` file whose bytes do not open as a PDF gets the OCR sentinel with the library's exception and is marked failed |
| PdfService.ShortPagesMembers | backend/app/services/pdf.py:15 | the OCR'd pages are exactly those whose stripped text has fewer than 10 characters |
| PdfService.ExtractFromPdf | backend/app/services/pdf.py:6-26 | a document that does not open raises before any page is read; otherwise the page loop returns the kept page texts joined by a blank line, or the first OCR failure; only short pages are sent to OCR, all of them when it succeeds |
| PdfService.KeptTextsStep | backend/app/services/pdf.py:22-23 | one more page adds its text when that text is non-empty |
| PdfService.KeptTextsFailure | backend/app/services/pdf.py:20 | an OCR failure on a page after successful pages is the result of the whole document |
| PdfService.KeptTextsNonEmpty | backend/app/services/pdf.py:22-23 | every kept text is non-empty, and there are at most as many as pages |
| PdfService.StrippedPages | backend/app/services/pdf.py:13 | one stripped text per page |
| PdfService.TextPagesIgnoreOcr | backend/app/services/pdf.py:15-23 | when every page has enough own text, no OCR is used and every stripped page text is kept |
| PdfService.EmptyDocument | backend/app/services/pdf.py:26 | a document with no pages yields the empty text |
| AuthRouter.AfterFirstSpaceSkips | backend/app/routers/auth.py:24 | splitting at the first space drops a space-free prefix and the space |
| AuthRouter.BearerTokenIsSuffix | backend/app/routers/auth.py:21-24 | for a `Bearer ` header the token is the text after the prefix |
| AuthRouter.GetCurrentUser | backend/app/routers/auth.py:18-30 | the user is found exactly when the header has the `Bearer ` prefix and the identity service knows the token; the user gains a `token` key; every failure is a 401 |
| AuthRouter.Me | backend/app/routers/auth.py:54-58 | `me` returns every key of the current user except `token`, with its value |
| AuthRouter.MeReturnsServiceUser | backend/app/routers/auth.py:57 | `me` returns the service's user without its `token` key, and unchanged when it had none |
| AuthRouter.Login | backend/app/routers/auth.py:33-51 | login succeeds exactly when authentication returns a non-empty access token whose user can be fetched, answering the token and user; every failure is a 401 |
| AuthRouter.BearerRoundTrip | backend/app/routers/auth.py:20-30 | the header the client attaches for a stored token is accepted exactly when the identity service knows that token; no token gives the missing-header 401 |
| AuthRouter.LoginTokenIsSent | backend/app/routers/auth.py:42-44 | the token a login hands out is truthy, so the client sends it and the backend accepts it |
| Session.SessionStorage.Clear | frontend/src/api/client.ts:27-28 | both the `token` and the `user` keys are removed |
| ApiClient.BearerFor | frontend/src/api/client.ts:13-16 | a header is attached exactly for a truthy token, and it is `Bearer ` followed by the token |
| ApiClient.OnRequest | frontend/src/api/client.ts:11-18 | with a truthy stored token only `Authorization` is set to `Bearer <token>`; otherwise the headers are unchanged; the same config is returned |
| ApiClient.OnResponse | frontend/src/api/client.ts:24 | a successful response passes through unchanged |
| ApiClient.OnResponseError | frontend/src/api/client.ts:25-32 | a 401 clears both keys and redirects to `/login`; other errors leave storage alone; the error is rejected as it came |
| ApiClient.ResponseData | frontend/src/api/client.ts:3-8 | with no `responseType` set, a body that cannot begin a JSON value reaches the page as its raw text; a parsed body is what `JSON.parse` gave |
| AuthProvider.AuthenticatedRequestsCarryToken | frontend/src/hooks/AuthProvider.tsx:60-66 | while authenticated, the held token is the truthy stored token that requests carry |
| AuthProvider.AuthProvider.constructor | frontend/src/hooks/AuthProvider.tsx:10-14 | the provider starts with the stored token, no user, and loading |
| AuthProvider.AuthProvider.ValidateToken | frontend/src/hooks/AuthProvider.tsx:16-35 | no stored token: no request and no change; success: the answer becomes the user and the stored token the token; failure: both keys and both fields cleared, and `/login` is loaded exactly when the failure is a 401; loading ends false |
| AuthProvider.AuthProvider.Login | frontend/src/hooks/AuthProvider.tsx:41-51 | success stores the token and user in storage and state; failure keeps the provider's state and hands the error on; a 401 failure has cleared storage and loads `/login`, any other failure leaves storage alone |
| AuthProvider.AuthProvider.Logout | frontend/src/hooks/AuthProvider.tsx:53-58 | both keys removed and both fields cleared |
| LoginPage.LoginErrorText | frontend/src/pages/LoginPage.tsx:32-42 | a 401 gives the wrong-credentials message, another status the retry message, no response the connection message, each exactly in its case |
| LoginPage.LoginErrorTextDistinct | frontend/src/pages/LoginPage.tsx:24-41 | a failed login gets one of the three messages, never the required-fields one |
| LoginPage.LoginPage.constructor | frontend/src/pages/LoginPage.tsx:6-9 | the form starts empty, without error, not loading |
| LoginPage.LoginPage.EditFields | frontend/src/pages/LoginPage.tsx:126-142 | typing sets the username and password fields |
| LoginPage.LoginPage.Render | frontend/src/pages/LoginPage.tsx:14-17 | an authenticated visitor is sent to `/` and no form is rendered |
| LoginPage.LoginPage.BeginSubmit | frontend/src/pages/LoginPage.tsx:19-28 | blank fields give the required message without loading; otherwise the error is cleared and loading starts |
| LoginPage.LoginPage.FinishSubmit | frontend/src/pages/LoginPage.tsx:29-45 | success navigates to `/`, failure sets its mapped message without navigating; loading ends false |
| LoginPage.LoginPage.HandleSubmit | frontend/src/pages/LoginPage.tsx:19-46 | a whole submit: blank fields send nothing; otherwise one login request, then home and an authenticated provider, or the mapped message without navigating; a 401 also clears storage and loads `/login`, other failures leave the session unchanged |
| LoginPage.WrongPasswordMessageReplaced | frontend/src/pages/LoginPage.tsx:30-36 | after a wrong password the page sets the wrong-credentials message and loads `/login`, and the page that load brings up has no message and no session |
| FileUploader.ExtensionLabelOfDotted | frontend/src/components/FileUploader.tsx:27 | `base.ext` is matched on `.ext` lower-cased |
| FileUploader.ExtensionLabelOfUndotted | frontend/src/components/FileUploader.tsx:27 | a name without a dot is matched on `.` followed by the whole name, lower-cased |
| FileUploader.FirstVerdictNoneIff | frontend/src/components/FileUploader.tsx:26-41 | the loop finds no rejection exactly when every file passes |
| FileUploader.FirstVerdictPosition | frontend/src/components/FileUploader.tsx:26-39 | a rejection is that of some file preceded only by passing files |
| FileUploader.FirstVerdictAt | frontend/src/components/FileUploader.tsx:26-39 | the rejection of a file preceded only by passing files is the batch's rejection |
| FileUploader.FirstRejectionNoneIff | frontend/src/components/FileUploader.tsx:26-44 | a batch passes exactly when each file has an accepted label and fits the ceiling |
| FileUploader.FirstRejectionNamesFirstFailure | frontend/src/components/FileUploader.tsx:26-39 | a refused batch is refused for its first failing file, whatever its position |
| FileUploader.SizeCeilingIsStrict | frontend/src/components/FileUploader.tsx:24-39 | a file of exactly `maxSizeMB` MiB passes; one byte more is refused |
| FileUploader.Uploader.constructor | frontend/src/components/FileUploader.tsx:16-18 | the picker starts with no files and no error |
| FileUploader.Uploader.ValidateFiles | frontend/src/components/FileUploader.tsx:21-47 | a passing batch is returned whole, in order, with the error cleared; otherwise nothing is returned and the error names the first failing file |
| FileUploader.Uploader.HandleFiles | frontend/src/components/FileUploader.tsx:49-59 | a passing non-empty batch is appended (multiple) or replaces the list (single) and is reported; otherwise the list and the parent are untouched |
| FileUploader.Uploader.RemoveFile | frontend/src/components/FileUploader.tsx:92-99 | exactly the element at the index is removed, the rest kept in order; an index out of range removes nothing; the new list is reported either way |
| Uploads.ErrorText | frontend/src/pages/RecordUploadPage.tsx:49-55 | no response gives the connection message; a response gives its detail or the page's fallback, never an empty text |
| Uploads.ErrorTextShowsDetail | frontend/src/pages/RecordUploadPage.tsx:52 | a non-empty server detail is shown verbatim; a missing or empty one gives the fallback |
| Uploads.Percent | frontend/src/pages/RecordUploadPage.tsx:81 | the percentage is the integer nearest to `loaded*100/total`, halves rounded up |
| Uploads.PercentBounds | frontend/src/pages/RadiologyUploadPage.tsx:46-48 | a transfer that has not overshot gives 0 to 100, and 100 when complete |
| Uploads.PercentOfWhole | frontend/src/pages/RadiologyUploadPage.tsx:46-48 | the whole transfer is 100 percent |
| Uploads.PercentMonotone | frontend/src/pages/RadiologyUploadPage.tsx:46-48 | more bytes sent never lower the percentage |
| Uploads.LastKnownTotalWins | frontend/src/pages/RecordUploadPage.tsx:78-84 | the bar shows the percentage of the last callback with a known total, unchanged when there was none |
| Uploads.ProgressStaysInRange | frontend/src/pages/RadiologyUploadPage.tsx:44-51 | callbacks that never overshoot keep the bar within 0..100 |
| Uploads.TrimmedNote | frontend/src/pages/RecordUploadPage.tsx:72 | the note is left out exactly when blank; a sent note is non-empty and starts and ends with a non-space |
| Uploads.TrimmedNoteIsTypedNote | frontend/src/pages/RecordUploadPage.tsx:72 | a sent note is the typed note `note[i..j]` with only whitespace cut before `i` and from `j` on |
| RecordUploadPage.AnyErrorIffLaunchedTrackFailed | frontend/src/pages/RecordUploadPage.tsx:118-120 | the error flag is up exactly when a launched track failed |
| RecordUploadPage.ReportSectionOf | frontend/src/pages/RecordUploadPage.tsx:168-228 | the report section is absent without a result, lists the files exactly for a success carrying `files`, shows the error exactly for a failure with a message, and is empty otherwise |
| RecordUploadPage.EmptySectionIffRawAnswer | frontend/src/pages/RecordUploadPage.tsx:105-120 | a launched report track shows an empty section exactly when its answer was not parsed as JSON, and such a success is not counted as an error |
| RecordUploadPage.FailedTrackMessage | frontend/src/pages/RecordUploadPage.tsx:49-55 | a failed track carries the three-way message with the processing fallback |
| RecordUploadPage.PlannedRequestsRouting | frontend/src/pages/RecordUploadPage.tsx:69-112 | each endpoint is called exactly when its picker holds files, with those files and the trimmed note |
| RecordUploadPage.ViewOf | frontend/src/pages/RecordUploadPage.tsx:191-223 | an OCR-failed file shows only the OCR notice; otherwise the translation notice shows exactly on the translation sentinel, and texts are shown only when non-empty |
| RecordUploadPage.BannerAgreesWithFiles | frontend/src/pages/RecordUploadPage.tsx:173-176 | the all-processed banner shows exactly when no file shows an error notice |
| RecordUploadPage.OcrFailureHidesTexts | frontend/src/pages/RecordUploadPage.tsx:192-201 | an OCR-failed file shows neither text and clears the all-processed banner |
| RecordUploadPage.RecordUploadPage.constructor | frontend/src/pages/RecordUploadPage.tsx:31-37 | the page starts idle, with empty pickers, no note, no results, progress 0 |
| RecordUploadPage.RecordUploadPage.HandleRadiologyFiles | frontend/src/pages/RecordUploadPage.tsx:39-42 | the radiology list is replaced and the status returns to idle |
| RecordUploadPage.RecordUploadPage.HandleReportFiles | frontend/src/pages/RecordUploadPage.tsx:44-47 | the report list is replaced and the status returns to idle |
| RecordUploadPage.RecordUploadPage.EditNote | frontend/src/pages/RecordUploadPage.tsx:248 | typing sets the note |
| RecordUploadPage.RecordUploadPage.BeginUpload | frontend/src/pages/RecordUploadPage.tsx:57-112 | with both pickers empty nothing changes; otherwise uploading, both results null, progress 0, and the planned requests sent |
| RecordUploadPage.RecordUploadPage.TrackProgress | frontend/src/pages/RecordUploadPage.tsx:78-84 | the progress follows the callbacks with a known total |
| RecordUploadPage.RecordUploadPage.SettleRadiology | frontend/src/pages/RecordUploadPage.tsx:86-91 | the radiology result is the record id or the mapped error |
| RecordUploadPage.RecordUploadPage.SettleReport | frontend/src/pages/RecordUploadPage.tsx:105-110 | the report result is a success with the answer's `files`, which are undefined for a body that was not parsed as JSON, or the mapped error |
| RecordUploadPage.RecordUploadPage.FinishUpload | frontend/src/pages/RecordUploadPage.tsx:114-115 | once every launched track settled the status is success, even when all failed |
| RecordUploadPage.RecordUploadPage.HandleUpload | frontend/src/pages/RecordUploadPage.tsx:57-116 | a whole submission: nothing without files; otherwise success, with each launched track's own result (report files undefined for an answer not parsed as JSON) and a null result for a track not launched |
| RecordUploadPage.RecordUploadPage.ResetForm | frontend/src/pages/RecordUploadPage.tsx:122-130 | every field returns to its initial value |
| ReportUploadPage.FailureMessageCases | frontend/src/pages/ReportUploadPage.tsx:57-66 | the server detail when present, else the processing message with a response, else the connection message |
| ReportUploadPage.ReportUploadPage.constructor | frontend/src/pages/ReportUploadPage.tsx:18-23 | the page starts idle with no files, note, error, results or record |
| ReportUploadPage.ReportUploadPage.HandleFilesSelected | frontend/src/pages/ReportUploadPage.tsx:25-29 | choosing files resets the step to idle and clears the error |
| ReportUploadPage.ReportUploadPage.EditNote | frontend/src/pages/ReportUploadPage.tsx:102 | typing sets the note |
| ReportUploadPage.ReportUploadPage.BeginUpload | frontend/src/pages/ReportUploadPage.tsx:31-47 | without files only the select-files error is set; otherwise the error is cleared, results emptied, step uploading, and one request sent |
| ReportUploadPage.ReportUploadPage.SettleUpload | frontend/src/pages/ReportUploadPage.tsx:49-67 | in whatever step the answer finds the page: success ends done, leaving the message as it was, with the record id and files of a parsed body or with both undefined for a raw one; failure ends in error with the mapped message |
| ReportUploadPage.ReportUploadPage.HandleUpload | frontend/src/pages/ReportUploadPage.tsx:31-68 | a whole submission: without files only the select-files message; otherwise one request, then done without an error (record and files from a parsed body, both undefined for a raw one), or error with the mapped message and empty results |
| ReportUploadPage.ReportUploadPage.ResetForm | frontend/src/pages/ReportUploadPage.tsx:70-77 | the six fields return to their initial values |
| ReportUploadPage.ButtonsExclusive | frontend/src/pages/ReportUploadPage.tsx:132-154 | submit and new-upload are never both shown, and neither is shown while uploading, when the results are an empty list and the render succeeds |
| ReportUploadPage.StaleErrorAfterSuccess | frontend/src/pages/ReportUploadPage.tsx:25-66 | two overlapping submissions, the first failing and then the second succeeding with any body, end done with the first failure's message still shown |
| ReportUploadPage.DoneWithoutFiles | frontend/src/pages/ReportUploadPage.tsx:25-56 | files removed while the request is in flight: the answer still lands and the page ends done with no files selected |
| StreamAnswer.StreamAnswerIsRawText | frontend/src/api/client.ts:3-8 | every event stream the report route sends reaches the pages as raw text, because `data: ` cannot begin a JSON value |
| StreamAnswer.ReportPageGetsStream | frontend/src/pages/ReportUploadPage.tsx:50-56 | given the route's answer the report page ends done with no record, no error and undefined results, so its render throws at `results.length` |
| StreamAnswer.RecordPageGetsStream | frontend/src/pages/RecordUploadPage.tsx:100-115 | given the route's answer the combined page ends in success with the report track counted as succeeded and its section empty |
| RadiologyUploadPage.FailureMessageCases | frontend/src/pages/RadiologyUploadPage.tsx:55-65 | the server detail when present, else the upload message with a response, else the connection message |
| RadiologyUploadPage.RadiologyUploadPage.constructor | frontend/src/pages/RadiologyUploadPage.tsx:10-15 | the page starts idle with no files, note, error or record, progress 0 |
| RadiologyUploadPage.RadiologyUploadPage.HandleFilesSelected | frontend/src/pages/RadiologyUploadPage.tsx:17-21 | selecting files resets the status to idle and clears the error |
| RadiologyUploadPage.RadiologyUploadPage.EditNote | frontend/src/pages/RadiologyUploadPage.tsx:125 | typing sets the note |
| RadiologyUploadPage.RadiologyUploadPage.BeginUpload | frontend/src/pages/RadiologyUploadPage.tsx:23-39 | without files only the error is set; otherwise uploading, error cleared, progress 0, and one request sent |
| RadiologyUploadPage.RadiologyUploadPage.OnUploadProgress | frontend/src/pages/RadiologyUploadPage.tsx:44-51 | a callback with a known total sets the rounded percentage; otherwise nothing changes |
| RadiologyUploadPage.RadiologyUploadPage.SettleUpload | frontend/src/pages/RadiologyUploadPage.tsx:53-65 | in whatever status the answer finds the page: success stores the record id, leaving the message as it was; failure ends in error with the mapped message |
| RadiologyUploadPage.RadiologyUploadPage.HandleUpload | frontend/src/pages/RadiologyUploadPage.tsx:23-66 | a whole submission against the progress callbacks and the outcome |
| RadiologyUploadPage.RadiologyUploadPage.ResetForm | frontend/src/pages/RadiologyUploadPage.tsx:68-75 | the six fields return to their initial values |
| RadiologyUploadPage.StaleErrorAfterSuccess | frontend/src/pages/RadiologyUploadPage.tsx:17-65 | two overlapping submissions, the first failing and then the second succeeding, end in success with the first failure's message still set |
| RadiologyUploadPage.SuccessWithoutFiles | frontend/src/pages/RadiologyUploadPage.tsx:17-54 | files removed while the request is in flight: the answer still lands and the page ends in success with no files selected |
| RadiologyUploadPage.SubmitOfferedOnlyWithFiles | frontend/src/pages/RadiologyUploadPage.tsx:166 | an enabled submit has files and is not uploading; while uploading submit is disabled and no error shows |
| Records.Stamp | frontend/src/pages/RecordsPage.tsx:54-56 | every item carries the kind of its list, whatever it had, and its entry, in order |
| Records.FeedFacts | frontend/src/pages/RecordsPage.tsx:52-66 | the feed is newest first, holds every fetched entry exactly once with its list's kind, and keeps radiology before report on equal timestamps |
| Records.KeyIdentifies | frontend/src/pages/RecordsPage.tsx:92 | two stamped items share a card key only when they have the same kind and id |
| Records.DetailEndpoint | frontend/src/pages/RecordsPage.tsx:101-103 | the radiology endpoint exactly for radiology records, otherwise the report endpoint, each followed by the id |
| Records.DetailEndpointInjective | frontend/src/pages/RecordsPage.tsx:101-103 | different ids of one kind request different endpoints |
| Records.FormatDurationReadsBack | frontend/src/pages/RecordsPage.tsx:86-89 | no label for a missing duration; a millisecond label exactly below 1000, whose digits read back as the duration |
| RecordsPage.FetchedFacts | frontend/src/pages/RecordsPage.tsx:46-71 | a fetch succeeds exactly when each list its filter needs arrived; its items are newest first and come only from the wanted lists |
| RecordsPage.RecordsPage.constructor | frontend/src/pages/RecordsPage.tsx:40-44 | the page starts with no records, loading, filter all and nothing expanded |
| RecordsPage.RecordsPage.SelectFilter | frontend/src/pages/RecordsPage.tsx:138 | a filter button sets the filter |
| RecordsPage.RecordsPage.BeginFetch | frontend/src/pages/RecordsPage.tsx:47-48 | loading starts and the fetch keeps the filter current at its start |
| RecordsPage.RecordsPage.SettleFetch | frontend/src/pages/RecordsPage.tsx:49-71 | the lists the fetch's own filter needs are requested in order; their sorted feed replaces the records, a failure keeps the previous ones; loading ends false, whatever the current filter |
| RecordsPage.RecordsPage.FetchRecords | frontend/src/pages/RecordsPage.tsx:46-74 | a fetch no other fetch overlaps: the current filter's lists are requested in order; the sorted feed replaces the records, a failure keeps the previous ones; loading ends false |
| RecordsPage.StaleListUnderNewFilter | frontend/src/pages/RecordsPage.tsx:46-74 | a radiology fetch settling after the report fetch started by a filter change leaves the report filter showing radiology records only |
| RecordsPage.LoadingEndsWhileFetchPending | frontend/src/pages/RecordsPage.tsx:69-71 | the first of two overlapping fetches ends loading while the second is pending |
| RecordsPage.RecordsPage.BeginToggle | frontend/src/pages/RecordsPage.tsx:91-104 | clicking the expanded card collapses it without a request; another card becomes expanded and its detail endpoint is requested |
| RecordsPage.RecordsPage.ResolveDetail | frontend/src/pages/RecordsPage.tsx:104-108 | the answer is stored whatever card is expanded; a failure clears the detail |
| RecordsPage.RecordsPage.ToggleExpand | frontend/src/pages/RecordsPage.tsx:91-109 | a click answered at once: collapse, or expand with the fetched detail or none |
| RecordsPage.LateAnswerShownUnderOtherCard | frontend/src/pages/RecordsPage.tsx:99-108 | a late answer for one card is shown under another expanded card |
| RecordsPage.OneCardShowsDetail | frontend/src/pages/RecordsPage.tsx:171-212 | at most one card shows a detail |
| DashboardPage.Recent | frontend/src/pages/DashboardPage.tsx:30-31 | the panel holds `min(5, n)` records |
| DashboardPage.RecentAreNewest | frontend/src/pages/DashboardPage.tsx:26-31 | the panel is the start of the sorted feed: newest first, each shown record at least as recent as each omitted one, each from its own list |
| DashboardPage.DashboardPage.constructor | frontend/src/pages/DashboardPage.tsx:17 | the panel starts empty |
| DashboardPage.DashboardPage.FetchRecords | frontend/src/pages/DashboardPage.tsx:19-37 | both lists are requested; with both answers the panel is the newest five, otherwise it is unchanged |
| RecordDetailPage.RouteEndpointMatchesCard | frontend/src/pages/RecordDetailPage.tsx:38-40 | the detail page and an expanded card request the same endpoint for a record |
| RecordDetailPage.TranslationBlocksFacts | frontend/src/pages/RecordDetailPage.tsx:151-194 | a row shows a warning exactly when its OCR text is empty, and a translation only after a non-empty OCR text |
| RecordDetailPage.RowsBlocksFacts | frontend/src/pages/RecordDetailPage.tsx:149-196 | a file's rows give one warning per row with empty OCR text |
| RecordDetailPage.FileBlocksFacts | frontend/src/pages/RecordDetailPage.tsx:141-148 | a file with missing or empty translations gets exactly one warning; otherwise one per empty OCR text |
| RecordDetailPage.TextBlocksWellFormed | frontend/src/pages/RecordDetailPage.tsx:139-197 | shown texts are never empty, each translation follows its row's OCR text, and non-report records show no text blocks |
| RecordDetailPage.FilesBlocksWellFormed | frontend/src/pages/RecordDetailPage.tsx:140-197 | the blocks of all files are well formed |
| RecordDetailPage.ToggleFlipsOnlyItsKey | frontend/src/pages/RecordDetailPage.tsx:77-79 | toggling flips its key (absent counts as false), leaves every other key, and toggling twice restores the view |
| RecordDetailPage.RowKeysDistinct | frontend/src/pages/RecordDetailPage.tsx:156-174 | the OCR and translation blocks of a row have different toggle keys |
| RecordDetailPage.RecordDetailPage.constructor | frontend/src/pages/RecordDetailPage.tsx:29-32 | the page starts loading, without detail, with nothing expanded |
| RecordDetailPage.RecordDetailPage.FetchDetail | frontend/src/pages/RecordDetailPage.tsx:34-50 | the route's endpoint is requested; the answer or none is stored; loading ends false |
| RecordDetailPage.RecordDetailPage.ToggleText | frontend/src/pages/RecordDetailPage.tsx:77-79 | the expanded map is toggled at the key |
| RecordDetailPage.ViewAfterFetch | frontend/src/pages/RecordDetailPage.tsx:93-101 | after a fetch the page shows "not found" exactly when the request failed, otherwise the record and its text blocks |

## Left out

- The event stream's framing is modelled (`ReportPipeline.StreamText`), but the JSON encoding of an event is an input. On the page side `JSON.parse` is an input too, reduced to whether the text can begin a JSON value and which upload result it encodes.
- ReportUploadPage.ReportUploadPage.Valid: no longer ties the done step to a record id, for the same reason.
- ReportUploadPage.ButtonsExclusive: no longer promises that the new-upload button comes with a record id, because a stream answer ends the page in done with `recordId` undefined.
- Scheduling is not modelled: the asyncio semaphore, the progress queue and the completion order of the asyncio jobs. Translation events are counted, not ordered by completion. `Promise.all` interleavings on the pages are left out too; the composite handlers settle the radiology track first.
- Exception text: `repr(exc)` and `str(exc)` are the exception string carried by `Attempt`'s `Raised`.
- The Python set behind the `Allowed:` list in the 400 detail has an unspecified iteration order. It is modelled as the list order of the whitelist.
- Durations (`time.monotonic`), creation timestamps and uuid stored names are parameters. `created_at` is an integer, and the ISO rendering of dates is left out.
- The `created_at` of translation rows and of file rows is not modelled; no route or page decides anything on it.
- `FileResponse` is modelled as the file row it would serve. File contents and the directory layout under the upload folder are not modelled.
- Database transactions (`flush`, `commit`, `refresh`) are not modelled: every `add` is visible at once, and keys are assigned in insertion order.
- Store.FilesOf, Store.TranslationsOf and Store.RecordsOfKind fix an order the database does not promise. `record.files` and `file.translations` come back in table order, and records with equal `created_at` keep table order. SQL guarantees none of these orders; the model makes a deterministic choice. ReportsRouter.FileEntryOf, ReportsRouter.DetailOf, RadiologyRouter.DetailOf and the list routes inherit it.
- FastAPI's request validation is not modelled. A request without any `files` part is answered 422 by `File(...)` before the handler runs, so RouterCommon.UploadRejection's empty-list 400 is the handler's own branch and is not reached over HTTP.
- The seconds branch of `formatDuration` (`toFixed`) is a label holding the milliseconds, because it uses floating point. `formatSize` and `formatDate` are left out for the same reason.
- Uploads.Percent: rounds the exact quotient `loaded*100/total`. JavaScript rounds a floating-point quotient, which can differ where rounding error straddles a half.
- Whitespace is ASCII only: JavaScript's `trim` removes space, tab, line feed, vertical tab, form feed and carriage return, and Python's `strip` also removes U+001C to U+001F. Non-ASCII whitespace (U+0085, U+00A0, U+2028 and the rest), on which the two languages also differ, is not modelled. Lower-casing is ASCII only, and case folding is not modelled.
- JSX markup, styles, drag-and-drop events, markdown rendering, `Navbar`, `ProtectedRoute`, routes and the `useAuth` accessor are left out. Navigation is the path that is recorded.
- The UpperMind and OCR service clients are oracles. This covers `authenticate`, `get_user`, `translate` and `extract_text_from_image`. The PDF library is one too: opening the document either raises or gives each page's text layer, and each page's rendering comes as an input.
- The JSON user stored in `sessionStorage` is the user value itself; serialisation is not modelled.
- The response interceptor is composed into the auth provider's requests and the login page only. On the other pages a 401 answer also passes ApiClient.OnResponseError, which clears both storage keys and loads `/login`; the page methods below model only what the page itself does with the rejected error.
- RecordsPage.RecordsPage.SettleFetch, RecordsPage.RecordsPage.FetchRecords, RecordsPage.RecordsPage.ResolveDetail and RecordsPage.RecordsPage.ToggleExpand: a 401 answer's storage clearing and `/login` load are not modelled.
- DashboardPage.DashboardPage.FetchRecords and RecordDetailPage.RecordDetailPage.FetchDetail: a 401 answer's storage clearing and `/login` load are not modelled.
- ReportUploadPage.ReportUploadPage.SettleUpload, ReportUploadPage.ReportUploadPage.HandleUpload, RadiologyUploadPage.RadiologyUploadPage.SettleUpload and RadiologyUploadPage.RadiologyUploadPage.HandleUpload: a 401 answer's storage clearing and `/login` load are not modelled.
- RecordUploadPage.RecordUploadPage.SettleRadiology, RecordUploadPage.RecordUploadPage.SettleReport and RecordUploadPage.RecordUploadPage.HandleUpload: a 401 answer's storage clearing and `/login` load are not modelled.
- RadiologyRouter.DetailOf, ReportsRouter.ReportList, ReportPipeline.OcrResults, ReportPipeline.TranslateResults, ReportPipeline.TranslatableIndices, ReportPipeline.OcrEvents, ReportPipeline.TranslationEvents, ReportPipeline.FileResults and ReportPipeline.SavedRows are specification functions whose own contracts state only lengths or bounds. What they hold is stated by the lemmas and methods that use them.
