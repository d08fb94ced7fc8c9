# ragui in Dafny

A model of the browser front end of ragui, a retrieval-augmented-generation
demo. The front end uploads documents to a backend, asks it to build a vector
index, and then asks questions that are answered with citations. The model
covers:

- the backend client (`lib/api.ts`): base-URL normalisation, the uniform
  `"<Op> failed (<status>): <body>"` errors, the one-file-at-a-time upload
  loop with its progress reports, and the build call's classification of
  timeouts and network failures;
- the session-id provider (`lib/session.ts`) over an abstract key/value
  storage;
- the three-stage pipeline wizard (`PipelineBoardV2`) as an event-driven
  state machine, with its stage shape invariant;
- the two upload surfaces: the allow-listed multi-file `UploadBox` and the
  one-file `FileUploadDialog`;
- the two chat panels (`ChatBox`, `FinalChatPanel`) and their append-only
  transcript;
- the status panel (`RoboticStatus`), the typewriter bubble
  (`RobotSystemBubble`), and the page-level view machine with its statistics
  cards (`RagDemoPage`).

Every source of nondeterminism is an explicit input. This covers what `fetch`
returned or threw, what `JSON.parse` made of a body, what
`crypto.randomUUID`, `Date.now` and `Math.random` produced, and the contents
of local storage. Outputs that a handler sends elsewhere are explicit results:
the request a call sent, the signal the wizard gives its parent page, and the
file list handed to an upload callback.

Each source file has its own module: `Api`, `Session`, `Pipeline`
(`PipelineBoardV2`), `UploadBox`, `FileDialog` (`FileUploadDialog`), `ChatBox`,
`FinalChat` (`FinalChatPanel`), `RoboticStatus`, `Typewriter`
(`RobotSystemBubble`) and `DemoPage` (`RagDemoPage`). Three support modules
correspond to no source file: `Wrappers` (Option/Result/Outcome), `Text` (the
JavaScript string operations used: `toLowerCase`, `trim`, `endsWith`,
`includes`, number-to-decimal, `||` on strings) and `Transcript` (the message
type both chat panels share).

Three behaviours of the code are worth knowing before reading the model:

- The wizard's RETRY BUILD button always re-runs stage 1, even when it was
  the upload that failed (see Findings). `Pipeline.Step` is the board as
  written; `Pipeline.StepCorrected` is the board with the retry fixed.
- A successful upload in the wizard does not clear an earlier error banner.
- `UploadBox` returns before its `try`/`finally` when it rejects a file, so
  the file input is not cleared on that path.

## Model

| member | source | states |
|---|---|---|
| Api.StripTrailingSlashes | lib/api.ts:4 | the result is a prefix of the input, does not end in `/`, and everything removed was `/` |
| Api.StripTrailingSlashesUnique | lib/api.ts:4 | any split of the input into a part not ending in `/` followed only by slashes is the one the normalisation returns |
| Api.StripTrailingSlashesIdempotent | lib/api.ts:4 | normalising twice equals normalising once |
| Api.ApiBaseUrl | lib/api.ts:1-5 | throws exactly when the variable is unset or empty, with the fixed message; otherwise returns the value without its trailing slashes |
| Api.Call | lib/api.ts:7-20 | the shared call shape: no request when the base URL is missing; one request to base+path with the `x-session-id` header; success iff the status is 2xx and the body parses; a non-2xx status throws the status-and-raw-body message without parsing; a thrown fetch error passes through |
| Api.FailureMessageDecodes | lib/api.ts:18 | the status and the raw body can both be read back from the error message |
| Api.HttpFailureInjective | lib/api.ts:145 | two failures of the same operation have equal messages only when status and body agree |
| Api.UploadDocuments | lib/api.ts:7-20 | one multipart POST to `/upload` carrying every file; a non-2xx status throws `Upload failed (<status>): <body>` |
| Api.AskQuestion | lib/api.ts:134-147 | a POST of `{query, k}` to `/ask`; a non-2xx status throws `Ask failed (<status>): <body>` |
| Api.GetStatus | lib/api.ts:155-163 | a GET of `/status`; a non-2xx status throws `Status failed (<status>): <body>` |
| Api.GetFiles | lib/api.ts:170-179 | a GET of `/files`; a non-2xx status throws `Files failed (<status>): <body>` |
| Api.UploadOne | lib/api.ts:38-56 | one loop iteration succeeds iff the URL resolves, the status is 2xx and the body parses; a non-2xx status throws a message naming the file |
| Api.UploadDocumentsSequential | lib/api.ts:23-68 | progress is reported as (i+1, total, name) before each upload; each file is sent alone and in order; the loop stops at the first failure and rethrows it; on success there is one parsed result per file, in order |
| Api.BuildErrorDetail | lib/api.ts:95-99 | the detail is the body's `detail`, else its `message`, else the raw text, which is also used when the body is not JSON |
| Api.ClassifyBuildError | lib/api.ts:107-124 | an abort becomes the timeout message; otherwise a "Failed to fetch" becomes the network message; anything else is rethrown unchanged |
| Api.BuildIndex | lib/api.ts:70-125 | a missing base URL is thrown before the request; otherwise one POST to `/build`; the call succeeds iff the attempt inside the `try` succeeds |
| Api.BuildHttpFailure | lib/api.ts:93-102 | a non-2xx build response throws `Build failed (<status>): <detail>`, and the `catch` leaves it unchanged |
| Api.BuildEmptyBodySucceeds | lib/api.ts:104 | a 2xx build response with an empty body yields `{status: "success"}` |
| Api.TimeoutAndNetworkDistinct | lib/api.ts:115-122 | the timeout and network messages start with different heads and are never equal |
| Api.BuildThrownClassification | lib/api.ts:107-124 | a thrown build error is classified by name first, then by message, and the network message contains the session id |
| Api.GenerateSessionId | lib/api.ts:182-184 | the id starts with `session-` and ends with the random suffix |
| Session.GetOrCreateSessionId | lib/session.ts:9-17 | "" on the server; the stored id when it is non-empty; otherwise stores the new uuid under `rag_session_id` and returns it |
| Session.ResetSessionId | lib/session.ts:19-24 | "" on the server; otherwise stores and returns the new uuid, leaving every other key as it was |
| Session.OnlySessionKeyWritten | lib/session.ts:11-15 | getting or creating an id touches no key but the session key |
| Session.BrowserIdNonEmpty | lib/session.ts:9-24 | in a browser both calls return a non-empty id |
| Session.GetOrCreateIdempotent | lib/session.ts:9-17 | a second get-or-create returns the first one's id and stores nothing new, whatever uuid it is offered |
| Session.ResetThenGet | lib/session.ts:19-24 | get-or-create after a reset returns the id the reset issued |
| Pipeline.SetStatus | components/rag/PipelineBoardV2.tsx:115-119 | a copy of the statuses with exactly one entry changed |
| Pipeline.Advance | components/rag/PipelineBoardV2.tsx:147-170 | activates the stage after the active one and changes nothing else, or does nothing after the last stage |
| Pipeline.HandleUpload | components/rag/PipelineBoardV2.tsx:113-142 | the dialog closes; on success stage 0 is done and the wizard advances; on failure stage 0 is active again and the message, or "Upload failed" when it is empty, is shown |
| Pipeline.Stage1 | components/rag/PipelineBoardV2.tsx:190-216 | a report of no documents throws without building; a failed check whose message mentions "No documents" is rethrown; any other failed check still builds |
| Pipeline.BeginStage | components/rag/PipelineBoardV2.tsx:182-187 | the error is cleared and only stage i changes, to processing |
| Pipeline.SettleStage | components/rag/PipelineBoardV2.tsx:220-243 | on success stage i is done and the wizard advances, or signals completion after the last stage; on failure stage i is active again and the message or the default is shown |
| Pipeline.StageAction | components/rag/PipelineBoardV2.tsx:175-246 | stage 0 only opens the dialog; only stage 1 can call the build; an error shown leaves stage i active; completion is signalled only with the last stage done |
| Pipeline.NoDocumentsSkipsBuild | components/rag/PipelineBoardV2.tsx:197-210 | with no documents the build is never called and the "No documents" message is shown on an active stage 1 |
| Pipeline.FailedCheckStillBuilds | components/rag/PipelineBoardV2.tsx:205-216 | a status check failing for another reason does not stop the build |
| Pipeline.BuildSuccessAdvances | components/rag/PipelineBoardV2.tsx:220-229 | a successful build marks stage 1 done and activates stage 2 |
| Pipeline.BuildFailureDemotes | components/rag/PipelineBoardV2.tsx:233-242 | a failed build shows its message and demotes stage 1 to active |
| Pipeline.StartOver | components/rag/PipelineBoardV2.tsx:321-331 | signals a new `session-…` id to the parent and resets the wizard to its initial statuses with the error cleared |
| Pipeline.RetryBuildAsWritten | components/rag/PipelineBoardV2.tsx:339-344 | the retry button re-runs stage 1 whichever stage failed, and stage 1 is left non-pending |
| Pipeline.RetryBuildAsWrittenBreaksShape | components/rag/PipelineBoardV2.tsx:339-344 | after an upload failure the as-written retry leaves stages 0 and 1 both active |
| Pipeline.RetryActiveStage | components/rag/PipelineBoardV2.tsx:339-344 | the corrected retry re-runs the active stage, and agrees with the button as written when that stage is 1 |
| Pipeline.Step | components/rag/PipelineBoardV2.tsx:113-344 | the board as written: every event keeps it well formed; RETRY BUILD runs stage 1's action whichever stage failed; uploading or closing from the dialog closes it; dismissing only clears the banner; START OVER restores the initial statuses with no error and signals a new id |
| Pipeline.StepCorrected | components/rag/PipelineBoardV2.tsx:339-344 | the board with the retry corrected to the failed stage; it behaves as the board as written on every event except a retry while stage 0 or 2 is active |
| Pipeline.InitialHasShape | components/rag/PipelineBoardV2.tsx:76-77 | the initial board has the wizard shape |
| Pipeline.StepKeepsShape | components/rag/PipelineBoardV2.tsx:485-599 | with the retry corrected, every event the rendered board can deliver (the action button only on the expanded card at the active index) keeps the shape: earlier stages done, later ones pending, one interactive stage, the dialog only over stage 0 |
| Pipeline.AsWrittenKeepsShapeOffRetry | components/rag/PipelineBoardV2.tsx:485-599 | the board as written keeps the shape for every event it can deliver except RETRY BUILD pressed while stage 0 or 2 is active |
| Pipeline.ActionKeepsShape | components/rag/PipelineBoardV2.tsx:175-246 | running the active stage's action keeps the shape |
| Pipeline.CompleteOnlyAfterLastStage | components/rag/PipelineBoardV2.tsx:226-231 | on the board as written, even one whose shape a retry has broken, the parent is told the pipeline is complete only from the active last stage, once it is done |
| UploadBox.AllowedIgnoresCase | components/UploadBox.tsx:16-19 | the allow-list check ignores the case of the name |
| UploadBox.AllowedByTail | components/UploadBox.tsx:8-19 | a name is allowed iff its lower-cased form ends in `.pdf`, `.txt` or `.md` |
| UploadBox.UpperCaseExtensionAllowed | components/UploadBox.tsx:16-19 | `A.PDF` is allowed |
| UploadBox.InnerExtensionRefused | components/UploadBox.tsx:16-19 | `a.pdf.zip` is refused |
| UploadBox.Rejected | components/UploadBox.tsx:25 | a file is rejected iff it is in the input and fails the allow-list, and a disallowed file given n times is listed n times |
| UploadBox.RejectedIsSubsequence | components/UploadBox.tsx:25-27 | the rejected files keep their input order |
| UploadBox.HandleFiles | components/UploadBox.tsx:21-42 | a null or empty list does nothing; any disallowed file stops the whole batch and lists the offenders; otherwise the whole list is uploaded once, busy ends false, the input is cleared, and the result or error message is shown |
| UploadBox.AllOrNothing | components/UploadBox.tsx:24-29 | one disallowed file means nothing is uploaded and that file is named in the message |
| FileDialog.TakeFirst | components/rag/FileUploadDialog.tsx:18 | at most one file is kept, and it is the first |
| FileDialog.Drop | components/rag/FileUploadDialog.tsx:27-34 | a drop replaces the selection with at most its first file |
| FileDialog.Select | components/rag/FileUploadDialog.tsx:36-42 | a null file list changes nothing; otherwise the selection is at most the first picked file |
| FileDialog.RemoveFileDeletesOne | components/rag/FileUploadDialog.tsx:44-45 | removal deletes exactly the file at the index and keeps the order; an out-of-range index changes nothing |
| FileDialog.UploadsAtMostOneFile | components/rag/FileUploadDialog.tsx:18-52 | whatever is dropped or picked, the upload click hands over exactly the first file offered and never more than one, and a closed dialog is empty |
| FileDialog.ClosingEmptiesDialog | components/rag/FileUploadDialog.tsx:47-57 | both ways of closing leave the dialog empty, so reopening it and pressing upload hands nothing over; cancelling never uploads |
| FileDialog.SizeUnitScales | components/rag/FileUploadDialog.tsx:59-63 | the size unit is the largest in which the size is at least 1: for a non-empty file the exact ratio bytes/unit is at least 1 and, below megabytes, under 1024 |
| FileDialog.SizeUnitMonotone | components/rag/FileUploadDialog.tsx:59-63 | a larger file never gets a smaller unit |
| FileDialog.LastSegment | components/rag/FileUploadDialog.tsx:66 | the text after the last `.`, or the whole name when there is none |
| FileDialog.LastSegmentLower | components/rag/FileUploadDialog.tsx:66 | the last segment of a lower-cased name is the lower-cased last segment |
| FileDialog.IconIgnoresCase | components/rag/FileUploadDialog.tsx:65-72 | the icon of a name is the icon of its lower-cased form |
| FileDialog.IconAgreesWithAllowList | components/rag/FileUploadDialog.tsx:65-72 | for a name with a `.`, the PDF and Markdown icons go only to names the upload box's allow-list accepts |
| FileDialog.BarePdfNotAllowed | components/rag/FileUploadDialog.tsx:66-67 | the bare name `pdf` gets the PDF icon although the allow-list refuses it |
| FileDialog.BareNameIsItsOwnExtension | components/rag/FileUploadDialog.tsx:66-67 | a name with no dot, such as `pdf`, is its own extension |
| FileDialog.TrailingDotIsGeneric | components/rag/FileUploadDialog.tsx:66-71 | a name ending in `.` gets the generic icon |
| Transcript.ExtendsTransitive | components/ChatBox.tsx:54-79 | "keeps every earlier message" composes across asks |
| ChatBox.TypedQuestionIsAsked | components/ChatBox.tsx:251-258 | typing leaves the transcript alone; what is typed while the input is enabled is what the next ask sends, trimmed, and nothing is sent when the input is disabled |
| ChatBox.AssistantReply | components/ChatBox.tsx:63-79 | a reply shows the answer (or the empty-response notice) with its score and sources; an error shows `ERROR: <message>` with neither |
| ChatBox.BeginAsk | components/ChatBox.tsx:54-59 | the trimmed question is appended, the input cleared, the panel busy and the error cleared |
| ChatBox.SettleAsk | components/ChatBox.tsx:60-82 | exactly one assistant message is appended, busy ends, and a failure sets the error to its message |
| ChatBox.OnAsk | components/ChatBox.tsx:43-83 | refused unless ready, idle and the trimmed question non-empty; otherwise asks for 3 sources with the trimmed question and appends the question and one reply |
| ChatBox.AskAppendsTwo | components/ChatBox.tsx:50-83 | an ask grows the transcript by exactly two or by nothing, keeping every earlier message |
| ChatBox.BlankQuestionIgnored | components/ChatBox.tsx:51-52 | a question of white space is never sent |
| ChatBox.SourcesStayWithTheirAnswer | components/ChatBox.tsx:63-72 | for every reply, the last message of an accepted ask is the answer (or the empty-response notice) carrying that reply's score and sources, and earlier messages stay in place |
| ChatBox.ExportAfterAsk | components/ChatBox.tsx:85-94 | after an accepted ask there is something to export, and its messages are exactly the earlier transcript, the trimmed question and the assistant reply |
| ChatBox.ExportNameNamesSession | components/ChatBox.tsx:91 | the exported file's name gives back the session id it was made for |
| ChatBox.ClearLeavesNothingToExport | components/ChatBox.tsx:119-127 | after a clear there is nothing to export and clearing again changes nothing; while busy the transcript and its export stay; clearing never changes whether an ask is accepted |
| FinalChat.KValue | components/rag/FinalChatPanel.tsx:115-117 | the options Top 3, Top 5 and Top 10 ask for 3, 5 and 10 sources respectively |
| FinalChat.KValueOffersThree | components/rag/FinalChatPanel.tsx:115-117 | the selector's values are exactly 3, 5 and 10, each offered by one option |
| FinalChat.Initial | components/rag/FinalChatPanel.tsx:33-37 | the panel starts with 5 sources selected, no messages and not loading |
| FinalChat.TopKReachesRequest | components/rag/FinalChatPanel.tsx:110-112 | the chosen value is the `k` of the next accepted send, and choosing changes neither the transcript nor whether a send is accepted |
| FinalChat.ErrorText | components/rag/FinalChatPanel.tsx:79 | the error message when it is non-empty, and "Query failed" when it is empty |
| FinalChat.AssistantReply | components/rag/FinalChatPanel.tsx:69-88 | a reply shows the answer, else the echoed query, else the fixed notice, treating empty like missing; an error shows the message with the advice suffix and no score or sources |
| FinalChat.Send | components/rag/FinalChatPanel.tsx:45-92 | refused while loading or when the trimmed question is empty; otherwise asks for the selected number of sources and appends the question and one reply |
| FinalChat.SendAppendsTwo | components/rag/FinalChatPanel.tsx:55-88 | a send grows the transcript by exactly two or by nothing, keeping every earlier message |
| FinalChat.ErrorBannerMatchesLastMessage | components/rag/FinalChatPanel.tsx:78-88 | the banner is empty iff the reply succeeded, and a failure's last message starts with `ERROR: ` and the banner text |
| FinalChat.EmptyAnswerShowsQuery | components/rag/FinalChatPanel.tsx:71 | an empty answer falls through to the echoed query |
| RoboticStatus.Label | components/RoboticStatus.tsx:18-23 | the four labels for no status, no documents, documents without index, and both |
| RoboticStatus.Refresh | components/RoboticStatus.tsx:29-39 | a reply replaces the status, clears the error and reports `has_index`; a failure keeps the status, shows the message, and reports nothing |
| RoboticStatus.IssuedSessionsPoll | components/RoboticStatus.tsx:40-45 | every generated `session-…` id and every id the browser's session store returns starts polling that session every 3000 ms; only the server-side empty id leaves the panel idle |
| RoboticStatus.ReadyLabelImpliesReady | components/RoboticStatus.tsx:18-23 | the Ready label implies the Online badge; an index without documents still reads "Awaiting documents..." |
| RoboticStatus.FailureKeepsLabel | components/RoboticStatus.tsx:35-38 | a failed refresh leaves the label and the badge as they were |
| Typewriter.ResetIsGood | components/rag/RobotSystemBubble.tsx:29-35 | the reset bubble satisfies the typewriter invariant |
| Typewriter.StepKeepsGood | components/rag/RobotSystemBubble.tsx:38-67 | a tick keeps every shown line a prefix of its source and the cursor within the current line; it completes iff all lines are done, and otherwise the remaining work drops by one |
| Typewriter.HiddenDoesNothing | components/rag/RobotSystemBubble.tsx:39 | a hidden bubble does not move |
| Typewriter.Play | components/rag/RobotSystemBubble.tsx:38-67 | playing from reset terminates with every non-empty line shown in full and no entry for an empty line, after one tick per character and line plus the completing tick |
| DemoPage.Initial | components/rag/RagDemoPage.tsx:15-22 | the page starts on the welcome view with zero statistics and a generated `session-…` id |
| DemoPage.FinalCardsShowReplies | components/rag/RagDemoPage.tsx:31-46 | on entering the final view the Documents card reads back to the number of files listed, the Index card follows `has_index`, and the System card reads Ready exactly when the status panel's label for the same reply does; a failed fetch leaves all three cards as they were |
| DemoPage.Step | components/rag/RagDemoPage.tsx:24-58 | the only view changes are welcome to pipeline on Start and pipeline to final on completion; statistics are fetched, for the current session, exactly on entering the final view; only a reset from the board changes the id, and then to the supplied value |
| DemoPage.ViewsOnlyMoveForward | components/rag/RagDemoPage.tsx:48-55 | views are only ever left forwards, one step at a time |
| DemoPage.SessionResetReplacesId | components/rag/RagDemoPage.tsx:57-60 | a session reset replaces the id with the supplied one and nothing else |
| DemoPage.StartOverReachesPage | components/rag/RagDemoPage.tsx:75-80 | the wizard's start-over reaches the page as the id it generated |
| DemoPage.DocumentsCard | components/rag/RagDemoPage.tsx:166 | the Documents card is the decimal digits of the file count |
| DemoPage.SystemReadyNeedsIndex | components/rag/RagDemoPage.tsx:175-184 | the System card never reads Ready while the Index card reads Pending |
| DemoPage.FetchStatsIdempotent | components/rag/RagDemoPage.tsx:31-46 | fetching again with the same replies changes nothing |
| DemoPage.InitialCards | components/rag/RagDemoPage.tsx:18-22 | before any fetch the cards read 0, Pending and Pending |
| Text.Lower | components/UploadBox.tsx:17 | ASCII lower-casing keeps the length and maps each character |
| Text.Trim | components/ChatBox.tsx:51 | the result is a contiguous middle of the input with only white space removed around it, and neither end is white space |
| Text.TrimEmptyIffAllSpace | components/ChatBox.tsx:43 | a trimmed string is empty iff the input is all white space |
| Text.DecimalRoundTrip | lib/api.ts:18 | the decimal rendering of a status reads back as the same number |

## Left out

- Network, storage and timers: `fetch`, `FormData`, `AbortController` and the 180-second build timeout are not modelled. Their outcomes are inputs: a response or a thrown error, with the timeout arriving as an `AbortError`.
- `JSON.parse` is an input oracle. It either yields the parsed value or throws a `SyntaxError`. Field types of the parsed value are taken as the declared TypeScript types.
- Clocks and randomness (`Date.now`, `Math.random().toString(36)`, `crypto.randomUUID`) are inputs. `Api.GenerateSessionId` takes the clock reading and the random suffix as given.
- Api.BuildErrorDetail: treats the error body's `detail` and `message` as strings. The parsed body is untyped, so a non-string `detail` (a list of validation errors, say) would be shown through JavaScript's string conversion, such as "[object Object]"; that rendering is not modelled.
- Session.GetOrCreateSessionId: does not model the exception thrown when a browser has no usable `localStorage` or no `crypto.randomUUID`; storage access and the uuid are taken to succeed.
- Session.ResetSessionId: likewise assumes `crypto.randomUUID` and `localStorage.setItem` succeed; the thrown error is not modelled.
- Api.GenerateSessionId: does not model the base-36 rendering or the `substring(7)` of the random suffix. The suffix arrives already formed, so the contract states only the `session-` prefix and the suffix ending.
- Timestamps (`at`, `exportedAt`), `console` logging, scrolling, animation (robot position and mode, narration, cursor blink, motion springs) and every delay (500 ms between uploads, 300 ms advance, 2 s stage 2, 1 s before completion, 28/420 ms typewriter ticks, 500 ms final bubble) are cosmetic or clock-driven. The handlers are modelled as if each ran to completion before the next event.
- FileDialog.SizeUnitScales: bounds the exact ratio, not the text shown; `toFixed(1)` can round 1048560 bytes up to "1024.0 KB", and an empty file shows "0 B".
- FileDialog.SizeUnitFor: keeps only the unit choice of `formatFileSize`, not the one-decimal floating-point division.
- Text.Lower: lower-cases ASCII letters only; JavaScript's full Unicode case mapping is not modelled.
- Scores are JavaScript numbers that are only copied, so they are `real`. Their percentage rendering is not modelled.
- The face emoji of `RoboticStatus` is not modelled: all four branches render an empty string in the source.
- The stale-closure timing of `advanceToNextStage` inside `handleUpload` (its dependency list omits the active stage) is not modelled. Uploads only happen on stage 0, where the captured value is the current one.
- Files outside these components are not modelled: `app/page.tsx`, `WelcomeScreenPro`, `RobotAgent`, `BuildIndexButton` and `UploadedFiles`. One note: `app/page.tsx` stores its id under `rag-session-id`, while `lib/session.ts` uses `rag_session_id`.
- Polling is modelled as the request `RoboticStatus.OnSession` schedules. The interval's firing, and overlapping replies arriving out of order, are not modelled.

## Findings

| source | as written | input that shows it | evidently intended | confidence | as-written member | corrected member |
|---|---|---|---|---|---|---|
| components/rag/PipelineBoardV2.tsx:339-344 | the error banner's RETRY BUILD button always calls `handleStageAction(1)` | an upload fails on stage 0 (the banner appears, stage 0 is active); pressing RETRY BUILD runs the status check and build for stage 1, leaving stages 0 and 1 both active | retry the stage that failed, which is the active stage | not executed; medium, since the button is labelled for the build stage | Pipeline.Step, Pipeline.RetryBuildAsWritten, Pipeline.RetryBuildAsWrittenBreaksShape | Pipeline.StepCorrected, Pipeline.RetryActiveStage, Pipeline.StepKeepsShape |
