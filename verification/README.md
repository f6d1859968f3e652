# Job-seeker pipeline pages: a Dafny model

This project models the three pieces of sequential logic in the front end of
the recruiting assistant (a React single-page app):

- **Job-description upload** (`handleFileUpload` of the job-analysis page).
  The chosen file is classified as an image or as text by its MIME type.
  The request body is built from what the file reader produced. An empty read
  is rejected. The body is stored in session storage under
  `jobDescriptionRaw` and then posted to `/shenbi/recruit/jdAnalysis`. The
  outcome is mapped to one of four results: transport error, success with
  data, service error with `errorMsg`, or exception. The `finally` clears the
  loading flag and refreshes the file picker's key. The page runs the storage
  write before its `try`, so a throwing write skips that `finally` (see
  "## Findings"). The model therefore has two versions of the handler:
  `HandleFileUploadAsWritten` in the page's order, and `HandleFileUpload`
  with the write inside the `try`, where every exit path settles.
- **Question-bank navigator** (interview-preparation page). The state is
  `(questions, currentQuestion, showAnswer)`. It is changed by generate,
  next, previous, regenerate and the answer toggle.
- **Mock-interview phase machine** (mock-interview page). The state is three
  flags `(isInterviewActive, isRecording, interviewComplete)`. They are
  changed by start, toggle-recording, end and restart. Which buttons can be
  pressed depends on which card is rendered.

The browser is represented by values, not modelled. The file reader's
outcome, the outcome of the storage write, the fetch outcome, the signed-in
user's id and the clock value (`Date.now()`) are parameters of the handler.
The session-storage write and the POST are recorded in order as a list of
effects.

Modules:

| file | module | contents |
|---|---|---|
| `wrappers.dfy` | `Wrappers` | `Option` (for `undefined`/`null`) and `Result` |
| `js_text.dfy` | `JsText` | `startsWith`, `split` on one character with `join` as its inverse, decimal rendering of a number |
| `job_analysis.dfy` | `JobAnalysis` | the upload handler and its data model |
| `interview_prep.dfy` | `InterviewPrep` | the question-bank navigator |
| `mock_interview.dfy` | `MockInterview` | the mock-interview phase machine |

## Model

| member | source | states |
|---|---|---|
| `JsText.StartsWithMeansPrefix` | src/pages/JobAnalysis.tsx:60 | `startsWith(prefix)` holds exactly when the string is the prefix followed by something |
| `JsText.Split` | src/pages/JobAnalysis.tsx:66 | `split(',')` returns at least one segment; no segment holds the separator; there are two or more segments exactly when the string has a separator |
| `JsText.JoinSplit` | src/pages/JobAnalysis.tsx:66 | joining the segments with the separator gives back the original string, so splitting loses nothing |
| `JsText.SplitJoin` | src/pages/JobAnalysis.tsx:66 | splitting separator-free segments that were joined with the separator gives back those segments |
| `JsText.SecondSegment` | src/pages/JobAnalysis.tsx:66 | `split(',')[1]` is defined exactly when the data URL has a comma, and it never holds a comma |
| `JsText.SecondSegmentIsPayload` | src/pages/JobAnalysis.tsx:66 | for `header,payload` (optionally followed by `,…`), with no comma in the header or payload, the extracted segment is exactly the payload |
| `JsText.Decimal` | src/pages/JobAnalysis.tsx:98 | the status in the error message is rendered as decimal digits, with a leading `0` only for zero |
| `JobAnalysis.ReadModeFor` | src/pages/JobAnalysis.tsx:60 | a file is read as a data URL exactly when its MIME type starts with `image/`; every other file is read as text |
| `JobAnalysis.Fields` | src/pages/JobAnalysis.tsx:73-93 | the serialised body has exactly one of `jd` and `jdImg`, holding the text or the base64 data respectively. It has `userId`, holding the user id, exactly when a user id is defined, because `JSON.stringify` drops `undefined` fields |
| `JobAnalysis.BuildRequest` | src/pages/JobAnalysis.tsx:64-83 | images produce `jdImg` and text files produce `jd`, always with the given user id. Text is sent verbatim and is rejected when null or empty. An image is rejected when its data URL has no comma or an empty second segment; otherwise the payload is non-empty and comma-free. Each rejection carries its own fixed message |
| `JobAnalysis.DataUrlPayloadIsSent` | src/pages/JobAnalysis.tsx:66-73 | for every data URL `header,payload` with a non-empty payload, the body is exactly `{jdImg: payload, userId}` |
| `JobAnalysis.EmptyDataUrlIsRejected` | src/pages/JobAnalysis.tsx:66-72 | a data URL with nothing after its comma is rejected with the image-read error |
| `JobAnalysis.HttpOk` | src/pages/JobAnalysis.tsx:96 | `response.ok` holds exactly for the 2xx status class |
| `JobAnalysis.HttpErrorMessage` | src/pages/JobAnalysis.tsx:98 | the transport-error message starts with the status label; the status can be read back from the digits after the label; the message ends with `, body: ` and the response text |
| `JobAnalysis.ClassifyResponse` | src/pages/JobAnalysis.tsx:96-109 | a result is produced exactly for a 2xx response whose JSON says `success`, and it is that JSON's `data`. A non-2xx status, a network exception or unparsable JSON gives `分析失败: ` plus the exception message. A 2xx reply without `success` gives its `errorMsg` |
| `JobAnalysis.ExceptionErrorsArePrefixed` | src/pages/JobAnalysis.tsx:107-109 | every outcome other than a parsed 2xx reply produces an error, and that error starts with `分析失败: ` |
| `JobAnalysis.Begin` | src/pages/JobAnalysis.tsx:55-60 | entering the handler records the file, clears the previous result and error, sets loading, leaves the picker key alone and chooses the read mode from the MIME type |
| `JobAnalysis.Settle` | src/pages/JobAnalysis.tsx:110-113 | the shared tail of the exit paths clears loading and sets the picker key to the clock value; the shown result and error are unchanged |
| `JobAnalysis.OnReadError` | src/pages/JobAnalysis.tsx:116-120 | a reader failure shows the read error, clears loading and refreshes the key. It keeps the cleared result and the chosen file, and neither stores nor sends anything |
| `JobAnalysis.Request` | src/pages/JobAnalysis.tsx:87-113 | once the body is stored, it is posted; a `ClassifyResponse` result replaces the shown result, and a `ClassifyResponse` error replaces the shown error; loading is cleared and the key refreshed |
| `JobAnalysis.OnLoad` | src/pages/JobAnalysis.tsx:63-114 | with the write inside the `try`: an unusable read ends with its image or text message and no effects, and a throwing write ends with `分析失败: ` plus its message and no effects. Otherwise the body is written to `jobDescriptionRaw` first and then posted, and the page shows what `ClassifyResponse` makes of the fetch outcome. Every path clears loading and refreshes the key |
| `JobAnalysis.HandleFileUpload` | src/pages/JobAnalysis.tsx:54-127 | on every exit path (corrected as under "## Findings") loading is off, the key equals the clock value and the file is remembered. A reader failure shows the read error. An unusable read shows the image or text message. A throwing write shows `分析失败: ` plus its message. In those three cases nothing is stored or sent. Otherwise the body is stored and then posted, both with the same body, and the page shows exactly the result or the error `ClassifyResponse` gives. A result appears only after a 2xx `success` reply and never next to an error |
| `JobAnalysis.OnLoadAsWritten` | src/pages/JobAnalysis.tsx:85-113 | in the page's order, a throwing storage write on a usable read leaves the page state untouched (still loading, old key) with no effects; otherwise it agrees with `OnLoad` |
| `JobAnalysis.StorageThrowLeavesLoadingStuck` | src/pages/JobAnalysis.tsx:85-113 | when the write throws on a usable read, the page as written stays loading with its old picker key, no error, no result and nothing posted; the corrected handler settles with `分析失败: ` plus the message |
| `JobAnalysis.QuotaExceededPngStaysLoading` | src/pages/JobAnalysis.tsx:85 | a concrete case: a PNG data URL whose write throws `QuotaExceededError` leaves the page loading with nothing posted |
| `JobAnalysis.CorrectionAgreesWhenStored` | src/pages/JobAnalysis.tsx:85-113 | whenever the storage write succeeds, the page as written and the corrected handler give the same state and effects |
| `JobAnalysis.TextIsSentVerbatim` | src/pages/JobAnalysis.tsx:75-93 | a non-empty text file is stored and posted as `{jd: text, userId}` with the text unchanged, and its serialised `jd` field is that text |
| `JobAnalysis.ImagePayloadIsSent` | src/pages/JobAnalysis.tsx:65-93 | an image whose data URL is `header,payload` is stored and posted as `{jdImg: payload, userId}`, and its serialised `jdImg` field is that payload |
| `JobAnalysis.MissingErrorMsgIsSilent` | src/pages/JobAnalysis.tsx:102-106 | a 2xx reply with `success` false and no `errorMsg` leaves neither a result nor an error on the page |
| `InterviewPrep.GenerateQuestions` | src/pages/InterviewPrep.tsx:13-32 | from any state, generate installs the fixed three-question list with index 0 and the answer hidden |
| `InterviewPrep.NextQuestion` | src/pages/InterviewPrep.tsx:34-39 | next advances the index by one and hides the answer only when the index is below `length-1`; otherwise the state is unchanged. The list is never changed, and a valid index stays valid |
| `InterviewPrep.PrevQuestion` | src/pages/InterviewPrep.tsx:41-46 | previous moves the index back by one and hides the answer only when the index is above 0; otherwise the state is unchanged. The list is never changed, and a valid index stays valid |
| `InterviewPrep.RegenerateQuestions` | src/pages/InterviewPrep.tsx:95-99 | regenerate empties the list, resets the index to 0 and hides the answer, which is the initial state |
| `InterviewPrep.ToggleAnswer` | src/pages/InterviewPrep.tsx:123 | the toggle flips `showAnswer` and leaves the list and index unchanged |
| `InterviewPrep.Apply` | src/pages/InterviewPrep.tsx:13-46 | every button press keeps the index in range: `0 <= currentQuestion < length` for a non-empty list, and 0 for an empty one |
| `InterviewPrep.RunPreservesValid` | src/pages/InterviewPrep.tsx:34-46 | the index stays in range over any sequence of presses |
| `InterviewPrep.Shown` | src/pages/InterviewPrep.tsx:111 | `questions[currentQuestion]?` is defined exactly when the index is in range, and it is then the question at that index |
| `InterviewPrep.ReachedCardShowsAQuestion` | src/pages/InterviewPrep.tsx:93-111 | in every state reached from the initial one, a non-empty list shows the question at the current index and a counter between 1 and the length |
| `InterviewPrep.DisabledButtonsMatchGuards` | src/pages/InterviewPrep.tsx:131-145 | on the list card, the previous and next buttons are enabled exactly when pressing them moves the index |
| `InterviewPrep.NextThenPrev` | src/pages/InterviewPrep.tsx:34-46 | from an index that is not last, next followed by previous returns to the same index and list, with the answer hidden |
| `InterviewPrep.PrevThenNext` | src/pages/InterviewPrep.tsx:34-46 | from an index above 0, previous followed by next returns to the same index and list, with the answer hidden |
| `InterviewPrep.ToggleTwice` | src/pages/InterviewPrep.tsx:123 | toggling twice restores the state |
| `MockInterview.StartInterview` | src/pages/MockInterview.tsx:13-16 | start makes the interview active and not complete, and leaves recording unchanged |
| `MockInterview.EndInterview` | src/pages/MockInterview.tsx:18-22 | end makes the interview inactive, not recording and complete |
| `MockInterview.ToggleRecordingFlag` | src/pages/MockInterview.tsx:24-26 | toggle flips recording and nothing else |
| `MockInterview.RestartInterview` | src/pages/MockInterview.tsx:160-164 | restart clears both active and complete, so the start card is rendered; recording is unchanged |
| `MockInterview.OfferedButtons` | src/pages/MockInterview.tsx:47-164 | in each consistent state the pressable buttons are those of the rendered card: start alone on the start card (47, 59); record/stop and end on the active card (71, 93-110); restart alone on the report card (121, 160) |
| `MockInterview.Apply` | src/pages/MockInterview.tsx:13-26 | pressing a button on the rendered card keeps the state consistent: never both active and complete, and recording only while active |
| `MockInterview.OfferedRunStaysConsistent` | src/pages/MockInterview.tsx:9-26 | any sequence of presses on rendered cards keeps the state consistent |
| `MockInterview.ReachableStatesAreConsistent` | src/pages/MockInterview.tsx:47-121 | in every state reached from the all-false initial state by pressing rendered buttons: never both active and complete, recording implies active, and exactly one of the start, active and report cards is rendered |
| `MockInterview.ExactlyOneViewIff` | src/pages/MockInterview.tsx:47-121 | exactly one card is rendered if and only if the interview is not both active and complete |
| `MockInterview.ConsistentStates` | src/pages/MockInterview.tsx:9-11 | the consistent states are exactly four: idle, active, recording and report |
| `MockInterview.ConsistentStatesAreReachable` | src/pages/MockInterview.tsx:59-164 | each consistent state is reachable from the initial state by pressing rendered buttons, so consistency describes the reachable states exactly |
| `MockInterview.UnrenderedToggleBreaksConsistency` | src/pages/MockInterview.tsx:71-94 | the record button is not offered on the start card. Pressing it there would record with no interview running, so the render guard is what keeps recording implying active |

## Findings

| source | as written | input that shows it | evidently intended | confidence | as-written member | corrected member |
|---|---|---|---|---|---|---|
| src/pages/JobAnalysis.tsx:85-113 | `sessionStorage.setItem` runs before the `try`, so a throw from it rejects the async `onload` with no `catch` and no `finally`: loading stays on, the picker key is not refreshed, no error is shown and nothing is posted | a usable read whose storage write throws, for example an image whose base64 data URL exceeds the session-storage quota (`QuotaExceededError`), or storage disabled | the write sits inside the `try`, so the throw is shown as `分析失败: <message>` and the `finally` clears loading and resets the key, as its comment says it always does after an attempt | medium; not executed | `JobAnalysis.StorageThrowLeavesLoadingStuck` | `JobAnalysis.HandleFileUpload` |

## Behaviour worth noting

- The image payload is `split(',')[1]`. That is the segment between the first
  comma and the next one, not everything after the first comma. The two agree
  for data URLs, because base64 has no commas.
- A 2xx reply with `success` false and no `errorMsg` shows no error and no
  result (`MissingErrorMsgIsSilent`).
- The interview-preparation page generates its questions with a button, from
  a fixed local list of three.
- The mock-interview page is three flags and a constant report. It has no
  audio capture and no remote calls.

## Left out

- File reading, `fetch`, `sessionStorage` and the deployment base URL are browser I/O. They are parameters, or recorded effects.
- `JSON.stringify`: the same serialisation is applied to the same object for both the storage write and the POST. The effects therefore record the body value itself, and `Fields` records which JSON fields it has.
- `response.text()` and `console.error`: a failure while reading the error body, and the console log, are not modelled.
- `JobAnalysis.HandleFileUpload`: treats one upload as atomic. The picker is not disabled while loading, so a second upload can start while the first request is in flight. The first handler's `finally` then clears loading, and its result or error can land on top of the second upload's state. The interleaving of two uploads is not modelled.
- `JobAnalysis.Settle`: the picker key is set to the clock value. The model does not show that this value differs from the previous key, because the clock is an input.
- The file picker's `accept` filter (`image/*,.md,.txt`) and `FileUpload.tsx`, which forwards the first selected file: the handler classifies by MIME type alone.
- The JSX rendering of the analysis result, the `isLoading` spinner, and the constant report content of the mock-interview page are presentation only.
- The resume-analysis page is a timer that returns a constant result, so it has no logic to state.
- Routing, authentication, marketing pages, SEO tags and build configuration are not logic of these pages.
