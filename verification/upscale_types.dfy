/** Values shared by the parts of the upscaling client (src/api/upscale.js):
    the optional and result wrappers, the image file handed to the client,
    the client's error taxonomy and the log of requests it issues. */
module UpscaleTypes {

  datatype Option<+T> = None | Some(value: T)

  /** A call that either resolves with a value or rejects with an error. */
  datatype Result<+T, +E> = Ok(value: T) | Err(error: E)

  /** JavaScript truthiness of an optional string field: absent and "" are falsy. */
  predicate Truthy(s: Option<string>) {
    s.Some? && s.value != ""
  }

  /** JavaScript's `s || fallback` on an optional string field. */
  function OrElse(s: Option<string>, fallback: string): string {
    if Truthy(s) then s.value else fallback
  }

  /** The browser File the caller selected: its declared media type and its length in bytes. */
  datatype ImageFile = ImageFile(mediaType: string, size: nat)

  /** Why the validator refused a file. */
  datatype Rejection =
    | UnsupportedFormat(mediaType: string)   // "Unsupported format: <type>. ..."
    | TooLarge(size: nat)                    // "File too large: <size in MB>MB. Max 10MB."

  /** Every way a run of the client can reject, with the data its message carries. */
  datatype UpscaleError =
    | NoFile                                 // "No file provided"
    | InvalidFile(reason: Rejection)         // "Invalid file: <reason>"
    | TaskIdMissing                          // "Task ID missing. Response: ..."
    | AuthFailed                             // upload answered 401 or 403
    | RateLimited                            // upload answered 429
    | ImageTooLarge                          // upload answered 413
    | UploadFailed(status: int, message: string)  // "Upload failed (<status>): <message>"
    | RequestFailed(status: int)             // an HTTP error of a status query, rethrown as is
    | NetworkError(cause: string)            // no response at all, rethrown as is
    | NoImageUrl                             // "No image URL in completed response"
    | UpscaleFailed(detail: string)          // "Upscale failed: <detail>. This could be due to: ..."
    | TaskNotFound                           // "Task not found. It may have expired."
    | TimedOut                               // "Upscale timed out after 2 minutes"

  /** The observable steps of a run, in the order they happen. */
  datatype Event =
    | UploadRequest(file: ImageFile)                   // POST /api/tasks/visual/scale
    | StatusQuery(taskId: string, attempt: nat)        // GET /api/tasks/visual/scale/<taskId>
    | ProgressReported(state: Option<int>, attempt: nat)  // onProgress(state, attempts)
    | ResultFetch(url: string)                         // fetch(result.url)
}
