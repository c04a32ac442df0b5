/** The outcome classification of `uploadImage` (src/api/upscale.js:58-101). The POST
    itself is abstracted into the outcome it produced. */
module Upload {
  import opened UpscaleTypes

  /** What the task-creation POST produced. */
  datatype UploadResponse =
      /** a 2xx answer; `taskId` is `data.data.task_id`, None when any link of that path is missing */
    | UploadAccepted(taskId: Option<string>)
      /** an HTTP error answer: its status, `data.message` and `statusText` */
    | UploadRefused(status: int, message: Option<string>, statusText: string)
      /** no answer at all (network failure) */
    | UploadUnreachable(cause: string)

  /** The task id the upload yields, or the error `uploadImage` rejects with. The "Task ID
      missing" error is thrown inside the try block; having no `response`, the catch block
      rethrows it unchanged, like a network failure. */
  function ClassifyUpload(r: UploadResponse): (res: Result<string, UpscaleError>)
    ensures res.Ok? <==> r.UploadAccepted? && Truthy(r.taskId)
    ensures res.Ok? ==> Some(res.value) == r.taskId && res.value != ""
    ensures res == Err(TaskIdMissing) <==> r.UploadAccepted? && !Truthy(r.taskId)
    ensures res == Err(AuthFailed) <==> r.UploadRefused? && (r.status == 401 || r.status == 403)
    ensures res == Err(RateLimited) <==> r.UploadRefused? && r.status == 429
    ensures res == Err(ImageTooLarge) <==> r.UploadRefused? && r.status == 413
    ensures (res.Err? && res.error.UploadFailed?) <==>
              r.UploadRefused? && r.status !in {401, 403, 413, 429}
    ensures res.Err? && res.error.UploadFailed? ==>
              res.error.status == r.status &&
              (Truthy(r.message) ==> res.error.message == r.message.value) &&
              (!Truthy(r.message) ==> res.error.message == r.statusText)
    ensures (res.Err? && res.error.NetworkError?) <==> r.UploadUnreachable?
    ensures r.UploadUnreachable? ==> res == Err(NetworkError(r.cause))
  {
    match r
    case UploadAccepted(taskId) =>
      if !Truthy(taskId) then Err(TaskIdMissing) else Ok(taskId.value)
    case UploadRefused(status, message, statusText) =>
      if status == 401 || status == 403 then Err(AuthFailed)
      else if status == 429 then Err(RateLimited)
      else if status == 413 then Err(ImageTooLarge)
      else Err(UploadFailed(status, OrElse(message, statusText)))
    case UploadUnreachable(cause) =>
      Err(NetworkError(cause))
  }
}
