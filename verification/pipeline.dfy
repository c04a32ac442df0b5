/** The driver `upscaleImage` (src/api/upscale.js:7-33): null check, validation, upload,
    polling, then materialising the result image as a local blob URL. The upload, the status
    endpoint and the browser's `fetch`/`createObjectURL` are given as their outcomes. */
module Pipeline {
  import opened UpscaleTypes
  import opened Validation
  import opened Upload
  import opened Polling
  import opened PollingProperties
  import opened PollingScenarios

  /** What `fetch(result.url)` followed by `URL.createObjectURL(blob)` produced. */
  datatype FetchOutcome = Materialised(blobUrl: string) | FetchRejected(cause: string)

  /** What `upscaleImage` resolves with: `{ blobUrl, width, height }`. */
  datatype Upscaled = Upscaled(blobUrl: string, width: Option<int>, height: Option<int>)

  /** The request that follows a polling run: the result image's fetch, after a success only. */
  function FetchEvents(outcome: Result<TaskResult, UpscaleError>): seq<Event> {
    if outcome.Ok? then [ResultFetch(outcome.value.url)] else []
  }

  /** The file exists and passes validation, so the upload is attempted. */
  predicate Submittable(file: Option<ImageFile>) {
    file.Some? && ValidateImageFile(file.value).Valid?
  }

  /** One run of the client. `file` is None for a missing (falsy) file; `reportProgress` says
      whether `onProgress` is a function. `log` is every request and progress report, in order. */
  method UpscaleImage(file: Option<ImageFile>, upload: UploadResponse, polls: seq<PollResponse>,
                      fetch: FetchOutcome, reportProgress: bool)
    returns (r: Result<Upscaled, UpscaleError>, log: seq<Event>)
    requires MaxAttempts <= |polls|
    // A missing or invalid file is refused before any request.
    ensures file.None? ==> r == Err(NoFile) && log == []
    ensures file.Some? && ValidateImageFile(file.value).Invalid? ==>
              r == Err(InvalidFile(ValidateImageFile(file.value).reason)) && log == []
    // Otherwise the upload comes first; an upload error ends the run without polling.
    ensures Submittable(file) ==> |log| >= 1 && log[0] == UploadRequest(file.value)
    ensures Submittable(file) && ClassifyUpload(upload).Err? ==>
              r == Err(ClassifyUpload(upload).error) && log == [UploadRequest(file.value)]
    // Then the task id's polling run, whose error ends the run without fetching.
    ensures Submittable(file) && ClassifyUpload(upload).Ok? ==>
              var run := Poll(polls);
              log == [UploadRequest(file.value)] +
                     RunLog(ClassifyUpload(upload).value, polls, run.queries, reportProgress) +
                     FetchEvents(run.outcome) &&
              (run.outcome.Err? ==> r == Err(run.outcome.error))
    // A run resolves only when every stage succeeded, with the polled dimensions verbatim.
    ensures r.Ok? <==>
              Submittable(file) && ClassifyUpload(upload).Ok? && Poll(polls).outcome.Ok? &&
              fetch.Materialised?
    ensures r.Ok? ==>
              r.value == Upscaled(fetch.blobUrl, Poll(polls).outcome.value.width, Poll(polls).outcome.value.height)
    ensures (Submittable(file) && ClassifyUpload(upload).Ok? && Poll(polls).outcome.Ok? &&
             fetch.FetchRejected?) ==> r == Err(NetworkError(fetch.cause))
    // Never more than MaxAttempts status queries.
    ensures |Queries(log)| <= MaxAttempts
  {
    if file.None? {
      return Err(NoFile), [];
    }
    var validation := ValidateImageFile(file.value);
    if validation.Invalid? {
      return Err(InvalidFile(validation.reason)), [];
    }
    log := [UploadRequest(file.value)];
    var taskId := ClassifyUpload(upload);
    if taskId.Err? {
      r := Err(taskId.error);
      assert Queries(log) == [] + Queries([]);
      return;
    }
    var result, attempts, pollLog := FetchEnhancedImage(taskId.value, polls, reportProgress);
    PollContract(taskId.value, polls, reportProgress);
    var head := log;
    log := log + pollLog + FetchEvents(result);
    assert Queries(head) == [] + Queries([]);
    assert Queries(FetchEvents(result)) == [] by {
      if result.Ok? {
        assert Queries(FetchEvents(result)) == [] + Queries([]);
      }
    }
    QueriesAppend(head, pollLog);
    QueriesAppend(head + pollLog, FetchEvents(result));
    if result.Err? {
      r := Err(result.error);
      return;
    }
    match fetch {
      case FetchRejected(cause) =>
        r := Err(NetworkError(cause));
      case Materialised(blobUrl) =>
        r := Ok(Upscaled(blobUrl, result.value.width, result.value.height));
    }
  }
}
