# Code-quality analyser front end: upload, report polling and issue browsing

This project models the three pieces of sequential logic in the analyser's front end:

- **The upload form** (`FileUpload` component). The user picks one source file, by the file input or by drag and drop, and picks the language. They then submit both to the backend. An upload the backend accepts answers with status 202 and a submission payload.
- **The report poller** (`ReportService.pollForReport`). It asks the backend for the report of one submission, up to `maxAttempts` times (30 by default), and waits 2000 ms after each failed attempt except the last. It throws a timeout error when every attempt has failed. It throws a different "could not retrieve" error when the loop never ran.
- **The report screen** (`Report` component). It loads the report from the simulated backend or through the poller. It then shows the issues either all at once, in 'all' mode, where clicking a card opens a detail modal, or one at a time, in 'sequential' mode, with previous/next buttons.

Each stateful component is a state record with one pure transition function per handler. A Dafny class holds the component's state fields, and each handler method is proved to update them exactly as its transition says. Over the transitions, lemmas about arbitrary sequences of handler calls prove the invariants the screens rely on. The network is a parameter:

- the report fetch is a function `fetch` from attempt number to outcome;
- the upload post is an outcome value;
- the simulated backend's load is an outcome value.

The poller records every fetch and every wait as a step of a trace, so attempt counts and waiting time are exact.

Files:

- `wrappers.dfy`: `Option`.
- `report_service.dfy`: the report shapes and the poller.
- `report_view.dfy`: the report screen.
- `file_upload.dfy`: the upload form.

## Model

| member | source | states |
|---|---|---|
| `ReportService.PollForReport` | src/services/ReportService.ts:66-80 | The loop returns exactly the result and the fetch/wait trace of `Poll`, for every `maxAttempts` (default 30) and every fetch. |
| `ReportService.ErrorMessage` | src/services/ReportService.ts:72-79 | The poller's two thrown messages are non-empty and different from each other. |
| `ReportService.ScheduleCounts` | src/services/ReportService.ts:67-77 | A run of n attempts has n fetches and n-1 waits, and waits 2000·(n-1) ms in total. |
| `ReportService.ScheduleAt` | src/services/ReportService.ts:67-77 | In a run of attempts, fetch number first+j is at position 2j and a 2000 ms wait lies between each two fetches. |
| `ReportService.PollFollowsSchedule` | src/services/ReportService.ts:67-77 | Attempts are numbered 1, 2, … consecutively. The first fetch precedes any wait, and no wait follows the last fetch. There are never more than max(maxAttempts, 0) fetches. |
| `ReportService.PollFailsThenSucceeds` | src/services/ReportService.ts:66-76 | If the fetch fails n times and then succeeds, with n < maxAttempts, the result is that report after exactly n+1 fetches and n waits of 2000 ms. |
| `ReportService.PollAllFail` | src/services/ReportService.ts:67-76 | If every fetch fails, the result is the timeout error after exactly maxAttempts fetches and maxAttempts-1 waits. The trace ends with fetch number maxAttempts. |
| `ReportService.PollWithoutAttempts` | src/services/ReportService.ts:67-79 | With maxAttempts < 1 nothing is fetched and the error is NotRetrieved. |
| `ReportService.PollReturnsFirstSuccess` | src/services/ReportService.ts:67-79 | A returned report comes from the first successful attempt, and every earlier attempt failed. The poll fails iff every attempt up to maxAttempts fails. NotRetrieved happens iff maxAttempts < 1. Timeout happens iff maxAttempts ≥ 1 and every attempt fails. |
| `ReportService.PollIgnoresLaterOutcomes` | src/services/ReportService.ts:67-70 | Two fetches that agree on the attempts actually made give the same poll. Later outcomes are never consulted. |
| `ReportService.PollIgnoresFailureReason` | src/services/ReportService.ts:68-76 | Fetches that differ only in why they failed (not ready, not found, transport) give the same poll. |
| `ReportView.SeverityIcon` | src/components/Report.tsx:47-54 | The icon is the neutral one iff the severity is not one of error, warning and info. |
| `ReportView.GradeColor` | src/components/Report.tsx:56-65 | The colour is grey iff the grade is not one of A, B, C, D and F. |
| `ReportView.LookupsSeparateKnownValues` | src/components/Report.tsx:47-65 | Distinct known severities get distinct icons. Distinct known grades get distinct colours. |
| `ReportView.DisplayIssues` | src/components/Report.tsx:97-101 | No report gives []. 'All' mode gives the whole ordered list. Sequential mode gives at most one issue of the report, and in every valid state with a non-empty list exactly `[issues[index]]`. Corrected for the empty list (see Findings). |
| `ReportView.InitialViewValid` | src/components/Report.tsx:18-21 | The initial state (mode 'all', index 0, no selection, modal closed) satisfies the invariant. The modal is not shown and prev is disabled. |
| `ReportView.ApplyKeepsViewValid` | src/components/Report.tsx:67-95 | Each handler keeps the invariant: index ≥ 0 and inside a non-empty list, selection present iff the modal flag is set, selection an index of the report. |
| `ReportView.RunKeepsViewValid` | src/components/Report.tsx:67-95 | Any sequence of handler calls from a valid state ends in a valid state. |
| `ReportView.ReachableIndexInBounds` | src/components/Report.tsx:80-101 | From the initial state, any sequence of mode changes, clicks, closes, next and prev keeps 0 ≤ index ≤ len-1 for a non-empty list. Sequential mode then shows exactly the current issue. |
| `ReportView.NavButtonsMatchHandlers` | src/components/Report.tsx:268-288 | Prev is disabled iff prev is a no-op, and next (corrected) iff next is a no-op. Otherwise they move the index by exactly one. |
| `ReportView.NextButtonAgreesOnNonEmpty` | src/components/Report.tsx:281-285 | With a non-empty list, the next button as written is disabled exactly at index len-1, the same as the corrected condition. |
| `ReportView.NextEnabledOnEmptyList` | src/components/Report.tsx:281-285 | With an empty list, the next button as written is enabled although next does nothing. |
| `ReportView.DisplayAgreesOnNonEmpty` | src/components/Report.tsx:97-101 | In every valid state other than sequential mode over an empty list, the issues as written and the corrected ones are the same. |
| `ReportView.SequentialEmptyReadsUndefined` | src/components/Report.tsx:97-101 | Sequential mode over an empty list reads one undefined element as written. The corrected projection shows nothing. |
| `ReportView.SequentialStaleIndexReadsUndefined` | src/components/Report.tsx:97-101 | Sequential mode with an index at or past the end of a non-empty list (left over after a reload) reads one undefined element as written; the corrected projection shows nothing, and next is a no-op although the next button as written is enabled. |
| `ReportView.LoadErrorText` | src/components/Report.tsx:40-41 | A thrown Error shows its own message. Any other thrown value shows the fallback text. |
| `ReportView.PolledOutcome` | src/components/Report.tsx:36-41 | A poll result becomes a loaded report, or a thrown Error object carrying the poller's message. |
| `ReportView.BackendLoadErrors` | src/components/Report.tsx:36-41 | A failed load from the real backend (30 attempts) always shows the timeout message, never the fallback text. |
| `ReportView.ScreenOf` | src/components/Report.tsx:103-132 | The screen shows loading iff loading. It shows the error iff not loading and the error is a non-empty string. It shows the dashboard iff neither of those applies and a report is loaded. |
| `ReportView.ReportScreen.constructor` | src/components/Report.tsx:14-21 | Simulated data unless told otherwise (`useMockData` defaults to true). Starts with no report, loading, no error and the initial view state. |
| `ReportView.ReportScreen.FetchReport` | src/components/Report.tsx:27-45 | Loads from the simulated backend or by polling with the defaults and always ends not loading. A loaded report is stored and the error is cleared. A failure keeps the previous report and stores the error text. The view state is never touched. |
| `ReportView.ReportScreen.HandleIssueClick` | src/components/Report.tsx:67-73 | In 'all' mode it selects the issue and opens the modal. In sequential mode it changes nothing. The invariant is kept. |
| `ReportView.ReportScreen.HandleCloseComparison` | src/components/Report.tsx:75-78 | Clears the modal flag and the selection, so the modal is not shown. The invariant is kept. |
| `ReportView.ReportScreen.HandleViewModeChange` | src/components/Report.tsx:80-83 | Sets the mode and resets the index to 0. Selection and modal flag are unchanged. The invariant is kept. |
| `ReportView.ReportScreen.HandleNextIssue` | src/components/Report.tsx:85-89 | Increments the index only when a report exists and index < len-1. Otherwise it is a no-op. |
| `ReportView.ReportScreen.HandlePrevIssue` | src/components/Report.tsx:91-95 | Decrements the index only when index > 0. Otherwise it is a no-op. |
| `ReportView.ReportScreen.GetDisplayIssues` | src/components/Report.tsx:97-101 | Reads the state without changing it. In a valid sequential state with issues it is exactly the current issue. |
| `FileUpload.PostErrorMessage` | src/components/FileUpload.tsx:85-90 | An axios error shows the server's message when it is present and non-empty, otherwise the generic upload-failure text. Any other error shows the unexpected-error text. |
| `FileUpload.ChoosingFiles` | src/components/FileUpload.tsx:24-53 | A change or drop carrying files chooses the first one and clears error and result. Without files nothing changes, except that a drop always ends the drag. |
| `FileUpload.DragEvents` | src/components/FileUpload.tsx:33-41 | dragenter and dragover set the drag flag. dragleave clears it. Any other type changes nothing. Nothing but the flag ever changes. |
| `FileUpload.SubmitRejected` | src/components/FileUpload.tsx:56-59 | With no file or an empty language, only the error changes, to the "select a file" message. The loading flag is unchanged. |
| `FileUpload.SubmitSettles` | src/components/FileUpload.tsx:61-93 | In flight: loading, with error and result cleared. Settled: never loading. Status 202 stores the payload and clears the file. Another status leaves both messages empty and keeps the file. A thrown post stores only its message. |
| `FileUpload.RunKeepsFormValid` | src/components/FileUpload.tsx:24-104 | Any sequence of handler calls keeps the form out of loading and the language one of the options. A success payload and a chosen file are never held together. |
| `FileUpload.ReachableSubmitEnabledIffValid` | src/components/FileUpload.tsx:213-218 | In every reachable state, the submit button is enabled exactly when a submit would pass validation. |
| `FileUpload.InitialFormFacts` | src/components/FileUpload.tsx:15-20 | The initial form is valid, its language is 'python' and its submit button is disabled. |
| `FileUpload.UploadForm.constructor` | src/components/FileUpload.tsx:15-20 | Starts with no file, language 'python', no drag, not loading, no result and no error. |
| `FileUpload.UploadForm.SubmitButtonEnabled` | src/components/FileUpload.tsx:217 | Enabled iff a file is chosen and no upload is in flight. In every reachable state of the form that is the same as passing the submit handler's validation, so an enabled button never leads to the no-file error. |
| `FileUpload.UploadForm.HandleFileChange` | src/components/FileUpload.tsx:24-31 | Its new state is `FileChosen` of the old state and the input's files. |
| `FileUpload.UploadForm.HandleDrag` | src/components/FileUpload.tsx:33-41 | Changes only the drag flag, as `Dragged` says. |
| `FileUpload.UploadForm.HandleDrop` | src/components/FileUpload.tsx:43-53 | Its new state is `Dropped`: the drag ends, then the first dropped file, if any, is chosen. |
| `FileUpload.UploadForm.RemoveFile` | src/components/FileUpload.tsx:96-99 | Clears the file, the error and the result. Nothing else changes. |
| `FileUpload.UploadForm.HandleLanguageChange` | src/components/FileUpload.tsx:194-199 | Stores the selected option's value and nothing else. |
| `FileUpload.UploadForm.HandleSubmit` | src/components/FileUpload.tsx:55-94 | Posts iff validation passes. While posting, the state is the loading, messages-cleared state. The final state is `Submitted`, and it is never loading after a post. |

## Findings

| source | as written | input that shows it | evidently intended | confidence | as-written member | corrected member |
|---|---|---|---|---|---|---|
| src/components/Report.tsx:100 | sequential mode displays `[report.issues[currentIssueIndex]]` without a bounds check | a loaded report with no issues, switched to sequential mode: index 0 reads undefined, and rendering it reads a field of undefined; likewise a reload to a shorter report in sequential mode, which keeps an index past the new end | show no issue when the list is empty | not executed; medium | `ReportView.SequentialEmptyReadsUndefined` | `ReportView.DisplayIssues` |
| src/components/Report.tsx:284 | next button disabled only when `currentIssueIndex === report.issues.length - 1` | a loaded report with no issues in sequential mode: index 0 differs from -1, so next is enabled while its handler does nothing | disabled whenever next is a no-op | not executed; low | `ReportView.NextEnabledOnEmptyList` | `ReportView.NavButtonsMatchHandlers` |

The corrected projection `DisplayIssues` is what `ReportScreen.GetDisplayIssues` uses. `DisplayIssuesAsWritten` and `NextDisabledAsWritten` keep the code as written. `DisplayAgreesOnNonEmpty` and `NextButtonAgreesOnNonEmpty` prove that the corrected and original versions agree on every state that satisfies the view invariant, except sequential mode over an empty list. Outside the invariant they also differ: `SequentialStaleIndexReadsUndefined` shows that an index left over from a longer report after a reload reads undefined as written.

## Left out

- Rendering is left out: JSX, CSS classes, SVG and most icons, and the Turkish label texts. The error messages that the components store in state are kept as string constants.
- The localisation helpers (`TurkishCodeAnalyzer`) and the simulated backend (`MockReportService`) are not part of this model. The simulated load is the `mockOutcome` parameter of `FetchReport`.
- `src/components/CodeComparison.tsx` and `src/App.tsx` are not modelled. They are markup and mounting only.
- The axios transport, `FormData`, the multipart headers, `console.error` logging and the DOM reset of the file input are left out. The post is a `PostOutcome`, and the fetch by id (`getReportById`) is the `fetch` parameter.
- `getAllReports` is not modelled. It is a thin HTTP GET wrapper.
- Real time is not modelled: each `setTimeout` wait is the step `Wait(2000)` of the poll trace.
- Asynchronous interleaving is not modelled. Each handler runs to completion as one step. During `handleSubmit` the only intermediate state given is the in-flight one (`inFlight`). No other handler is modelled between the post and its settling, such as a drop on the drop zone, which stays enabled while loading.
- React batches state updates. The model assigns the fields in order. This gives the same states because, between two `await`s, each handler sets each field at most once, from values it read when it started. `handleSubmit` and `fetchReport` set some fields twice (the loading flag, the messages), once before their `await` and once after it, and the model keeps both assignments in that order.
- ReportService.PollForReport: `maxAttempts` is an integer. A fractional JavaScript number would end the loop without a timeout and throw NotRetrieved; that case is not modelled.
- ReportView.ReportScreen.FetchReport: does not promise to keep the view invariant. A reload keeps the view state unchanged, as the code does, so the index of a previous, longer report can outlive it. The selection outlives it too: the model's selected index then names a different issue of the new report, or none, while the code keeps the old `Issue` object and goes on rendering it in the modal (the modal stays shown either way).
- The fractional arithmetic is not modelled: the percentages (with no guard against zero issues), the file size in KB and the date formatting.
- The summary counts are not checked against the issue list (errors + warnings + infos = totalIssues = number of issues). The code never checks this, and nothing here depends on it.
- Issue severities are kept as strings, as the backend sends them, so the default icon branch is reachable. A file list that is null and one that is empty are both the empty sequence. The server's error message is an optional string.
- Any response status may be given to `HandleSubmit`, although axios by default throws on statuses outside 2xx. Such a status then takes the "no-op" branch, as the `if` would.
- The code does not do the following, and neither does the model:
  - check the mode in the next handler;
  - close the modal when the mode switches;
  - cancel a poll;
  - reject an unsupported language (the other options are only disabled in the select);
  - raise an error for a malformed report (the fetched data is used as it comes).
