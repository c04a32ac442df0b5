# ai-upscaler: the upscaling client, modelled in Dafny

This project models the one component of the ai-upscaler web application that has logic of
its own: the client in `src/api/upscale.js`. The client validates an image file, uploads it
to the remote upscaling service to get a task id, and polls the task's status up to 60 times,
2 seconds apart. Once the task completes it fetches the result image as a local blob URL.
Every step can reject with one of a fixed set of errors.

The network, the browser and the callback are replaced by their outcomes:

- the upload POST is an `UploadResponse`: a 2xx answer with an optional task id, an HTTP error with its status, message and status text, or no answer at all;
- the status endpoint is a sequence of `PollResponse`s whose element `i` answers query `i + 1`, given as at least 60 answers (only a prefix is read);
- `fetch` + `URL.createObjectURL` is a `FetchOutcome`;
- whether `onProgress` is a function is a flag.

Each run returns a log of `Event`s (upload request, status query, progress report, result
fetch) in the order they happen. The ordering properties are stated on this log.

Modules:

- `UpscaleTypes` (upscale_types.dfy) holds the shared values: the file, the error taxonomy and the events. JavaScript truthiness of optional strings (`task_id`, `image`, `error || message`) is modelled by `Truthy` and `OrElse`.
- `Validation` (validation.dfy) models `validateImageFile`.
- `Upload` (upload.dfy) models how `uploadImage` classifies its outcome.
- `Polling` (polling.dfy) models one attempt as the transition `Interpret`, the whole run as the recursive `PollFrom`/`Poll`, the events of its attempts as `RunLog`, and the `while` loop of `fetchEnhancedImage` as `FetchEnhancedImage`, proved equal to them.
- `PollingProperties` and `PollingScenarios` (polling.dfy) hold the lemmas about runs.
- `Pipeline` (pipeline.dfy) models the sequential driver `upscaleImage`.

## Model

| member | source | states |
|---|---|---|
| Validation.ValidateImageFile | src/api/upscale.js:37-56 | a file is accepted iff its type is one of image/jpeg, image/jpg, image/png, image/webp and its size is at most 10 MiB; an unsupported type is reported as such; the too-large rejection, carrying the size, happens exactly for an accepted type above the bound |
| Validation.SizeBoundInclusive | src/api/upscale.js:39-55 | exactly 10 485 760 bytes passes; 10 485 761 bytes is refused as too large |
| Validation.FormatTakesPrecedence | src/api/upscale.js:41-53 | a file that is both of an unsupported type and too large is refused for its format, not its size |
| Upload.ClassifyUpload | src/api/upscale.js:76-99 | a task id results iff the 2xx answer carries a non-empty `task_id`, and it is that id; a 2xx answer without one gives "Task ID missing"; 401/403 give the auth error, 429 the rate-limit error and 413 the too-large error, each iff the status is that; every other status gives the generic upload error with that status and `data.message`, or `statusText` when the message is empty or absent; no answer rethrows the network error unchanged |
| Polling.Interpret | src/api/upscale.js:116-167 | one answer ends in success iff `state == 1`, `state_detail == "Complete"` and an image URL is present, with the URL, width and height verbatim; complete without an image gives "No image URL"; it stays pending iff answered and neither complete nor `state == 4`; `state == 4` fails with `error`, else `message`, else "Unknown error"; 404 gives "Task not found"; other HTTP errors and missing answers are rethrown as is; never a timeout |
| Polling.FetchEnhancedImage | src/api/upscale.js:103-172 | the loop's outcome and query count are exactly those of the run `Poll`, and its log is exactly the events of the attempts it made (`RunLog`) |
| Polling.PollFrom | src/api/upscale.js:104-108 | while attempts remain a run makes at least one more query, and it never makes more than 60 in all |
| PollingProperties.TimeoutIffAllPending | src/api/upscale.js:107-171 | the run times out iff every remaining answer up to the 60th is pending, and then has made exactly 60 queries |
| PollingProperties.FirstTerminalDecides | src/api/upscale.js:132-167 | the first terminal answer ends the run with that answer's outcome after exactly that many queries, whatever the later answers |
| PollingProperties.OutcomeFromLastAttempt | src/api/upscale.js:132-171 | conversely, any non-timeout outcome is the terminal outcome of the last query made, and every earlier answer was pending |
| PollingProperties.QueriesNumbered | src/api/upscale.js:105-115 | the first `n` attempts issue exactly `n` status queries, numbered 1 to `n` in order |
| PollingProperties.NoProgressWithoutCallback | src/api/upscale.js:122-124 | with no callback, no progress is reported |
| PollingProperties.ReportFollowsQuery | src/api/upscale.js:110-124 | every progress report comes right after the status query of the same attempt |
| PollingProperties.ProgressWhileAnswered | src/api/upscale.js:105-124 | with a callback, while every query is answered, attempt `i + 1` reports the state of answer `i`, one report per attempt |
| PollingProperties.ProgressPerAttempt | src/api/upscale.js:105-124 | with a callback, a whole run reports once per answered attempt: every attempt except a last one that got no 2xx answer; report `i` carries the state of answer `i` and attempt number `i + 1` |
| PollingScenarios.PollContract | src/api/upscale.js:103-172 | a whole run makes 1 to 60 queries, numbered 1, 2, ... in its log; it times out iff all 60 answers are pending, and then after exactly 60 queries; otherwise its outcome is that of its last query, the first terminal one |
| PollingScenarios.SuccessOnlyWhenComplete | src/api/upscale.js:133-143 | a successful run ended on a complete answer with an image, and its result is that answer's URL, width and height verbatim |
| PollingScenarios.ThreePendingThenComplete | src/api/upscale.js:122-159 | three pending answers and a completed one give four queries numbered 1 to 4, the progress reports (0,1), (0,2), (0,3), (1,4), and the completed answer's image and dimensions |
| PollingScenarios.SixtyPendingTimesOut | src/api/upscale.js:104-171 | sixty "still processing" answers of any kind (queued, processing without "Complete", or with no task data) give the timeout after exactly sixty queries, and no 61st whatever the endpoint would answer next |
| PollingScenarios.FailureEndsAtOnce | src/api/upscale.js:146-165 | after any number of "still processing" answers, a `state == 4` answer or a 404 ends the run at that query with the task-failed or task-not-found error |
| Pipeline.UpscaleImage | src/api/upscale.js:7-33 | a missing or invalid file rejects before any request; otherwise the log is the upload, then the polling run's events, then the result fetch after a successful run only; an upload error ends the run without polling and a polling error without fetching; the run resolves iff every stage succeeded, and then with the blob URL and the polled width and height verbatim; it never issues more than 60 status queries |

## Left out

- The HTTP requests, `FormData`, the `X-API-Key` header, the base URL and the environment key are not modelled: each request is represented by its outcome and an `Event`.
- `fetch`, `response.blob()` and `URL.createObjectURL` are one `FetchOutcome`. Like the source, the model does not check the HTTP status of the image fetch.
- The 2-second `setTimeout` between attempts is a no-op step: real time and the "2 minutes" wall-clock reading are not modelled.
- The error message texts are not modelled. Each error is a tag carrying its data (status, server message, size in bytes), so the `toFixed(2)` MB formatting and the list of candidate causes appended to the task-failed message are not represented.
- `console.log` calls and the `try`/`catch` in `upscaleImage` that logs and rethrows are not modelled, since rethrowing leaves the error unchanged.
- Async/Promise machinery: the workflow is strictly sequential, so it is modelled as sequential code.
- An `onProgress` that throws, a non-numeric `state`, and a non-string `task_id` are not modelled. `state` is an optional integer, and the ids and URLs are optional strings.
- The React pages and components (drag-and-drop filtering, the duplicated size check in the upload box, the display-only upscale factor) are not part of this model.
- `onProgress` is called only after a status query got a 2xx answer (src/api/upscale.js:111-124). An attempt that ends in an HTTP error or a network failure reports no progress (`ProgressPerAttempt`).
- The accepted types include "image/jpg" as well as "image/jpeg" (src/api/upscale.js:38).
