/** The bounded polling loop `fetchEnhancedImage` (src/api/upscale.js:103-172).

    The status endpoint is abstracted into the sequence of answers it gives to the
    client's successive queries: `responses[i]` answers attempt `i + 1`. The client
    asks at most `MaxAttempts` times, so a sequence of that length fixes a run; the
    run reads only a prefix of it. `Interpret` is the transition of one attempt,
    `PollFrom` the run it drives, `RunLog` the requests and reports of its attempts, and
    `FetchEnhancedImage` the loop proved against them. */
module Polling {
  import opened UpscaleTypes

  /** The number of status queries before giving up (60 queries 2 s apart). */
  const MaxAttempts: nat := 60

  /** The fields of `data.data` in a status answer that the client reads. */
  datatype TaskInfo = TaskInfo(
    state: Option<int>,
    stateDetail: Option<string>,
    image: Option<string>,
    imageWidth: Option<int>,
    imageHeight: Option<int>,
    error: Option<string>,
    message: Option<string>)

  /** What one status query produced. */
  datatype PollResponse =
      /** a 2xx answer; `info` is `data.data`, None when absent */
    | StatusOk(info: Option<TaskInfo>)
      /** an HTTP error answer with its status */
    | StatusRefused(status: int)
      /** no answer at all (network failure) */
    | StatusUnreachable(cause: string)

  /** The finished task: the result image's URL and its declared dimensions, as sent. */
  datatype TaskResult = TaskResult(url: string, width: Option<int>, height: Option<int>)

  /** How one attempt ends: wait and ask again, or stop with an outcome. */
  datatype Step = Pending | Terminal(outcome: Result<TaskResult, UpscaleError>)

  /** `info?.state`. */
  function StateOf(info: Option<TaskInfo>): Option<int> {
    if info.Some? then info.value.state else None
  }

  /** `state === 1 && info.state_detail === "Complete"`. */
  predicate IsComplete(info: Option<TaskInfo>) {
    StateOf(info) == Some(1) && info.value.stateDetail == Some("Complete")
  }

  /** `info.error || info.message || "Unknown error"`. */
  function FailureReason(info: TaskInfo): string {
    OrElse(info.error, OrElse(info.message, "Unknown error"))
  }

  /** The reading of one status answer (src/api/upscale.js:116-167). */
  function Interpret(r: PollResponse): (s: Step)
    ensures (s.Terminal? && s.outcome.Ok?) <==>
              r.StatusOk? && IsComplete(r.info) && Truthy(r.info.value.image)
    ensures s.Terminal? && s.outcome.Ok? ==>
              s.outcome.value == TaskResult(r.info.value.image.value,
                                            r.info.value.imageWidth, r.info.value.imageHeight)
    ensures s == Terminal(Err(NoImageUrl)) <==>
              r.StatusOk? && IsComplete(r.info) && !Truthy(r.info.value.image)
    ensures s.Pending? <==> r.StatusOk? && !IsComplete(r.info) && StateOf(r.info) != Some(4)
    ensures (s.Terminal? && s.outcome.Err? && s.outcome.error.UpscaleFailed?) <==>
              r.StatusOk? && StateOf(r.info) == Some(4)
    ensures r.StatusOk? && StateOf(r.info) == Some(4) ==>
              s == Terminal(Err(UpscaleFailed(FailureReason(r.info.value))))
    ensures s == Terminal(Err(TaskNotFound)) <==> r.StatusRefused? && r.status == 404
    ensures r.StatusRefused? && r.status != 404 ==> s == Terminal(Err(RequestFailed(r.status)))
    ensures r.StatusUnreachable? ==> s == Terminal(Err(NetworkError(r.cause)))
    ensures s != Terminal(Err(TimedOut))
  {
    match r
    case StatusOk(info) =>
      if IsComplete(info) then
        if Truthy(info.value.image) then
          Terminal(Ok(TaskResult(info.value.image.value, info.value.imageWidth, info.value.imageHeight)))
        else
          Terminal(Err(NoImageUrl))
      else if StateOf(info) == Some(4) then
        Terminal(Err(UpscaleFailed(FailureReason(info.value))))
      else
        Pending
    case StatusRefused(status) =>
      Terminal(Err(if status == 404 then TaskNotFound else RequestFailed(status)))
    case StatusUnreachable(cause) =>
      Terminal(Err(NetworkError(cause)))
  }

  /** The events of attempt number `attempt`: the query, then the progress report when a
      callback is installed and the query was answered. */
  function AttemptEvents(taskId: string, r: PollResponse, attempt: nat, report: bool): seq<Event> {
    [StatusQuery(taskId, attempt)] +
    (if report && r.StatusOk? then [ProgressReported(StateOf(r.info), attempt)] else [])
  }

  /** How a run ends: its outcome and the number of queries issued in all. */
  datatype PollRun = PollRun(outcome: Result<TaskResult, UpscaleError>, queries: nat)

  /** The rest of a run once `k` attempts have all been pending: while attempts remain it
      makes at least one more, and it never makes more than `MaxAttempts` in all. */
  function PollFrom(responses: seq<PollResponse>, k: nat): (run: PollRun)
    requires k <= MaxAttempts <= |responses|
    ensures run.queries <= MaxAttempts
    ensures k < MaxAttempts ==> k < run.queries
    ensures k == MaxAttempts ==> run.queries == MaxAttempts
    decreases MaxAttempts - k
  {
    if k == MaxAttempts then
      PollRun(Err(TimedOut), k)
    else
      match Interpret(responses[k])
      case Terminal(outcome) => PollRun(outcome, k + 1)
      case Pending => PollFrom(responses, k + 1)
  }

  /** The whole run against a status endpoint. */
  function Poll(responses: seq<PollResponse>): PollRun
    requires MaxAttempts <= |responses|
  {
    PollFrom(responses, 0)
  }

  /** The events of the first `n` attempts, in the order they happen. */
  function RunLog(taskId: string, responses: seq<PollResponse>, n: nat, report: bool): seq<Event>
    requires n <= |responses|
  {
    if n == 0 then []
    else RunLog(taskId, responses, n - 1, report) + AttemptEvents(taskId, responses[n - 1], n, report)
  }

  /** The loop of `fetchEnhancedImage`: `attempts` counts the queries issued; the 2-second
      wait between attempts is a no-op step. `reportProgress` says whether `onProgress` is
      a function. */
  method FetchEnhancedImage(taskId: string, responses: seq<PollResponse>, reportProgress: bool)
    returns (outcome: Result<TaskResult, UpscaleError>, attempts: nat, log: seq<Event>)
    requires MaxAttempts <= |responses|
    ensures PollRun(outcome, attempts) == Poll(responses)
    ensures log == RunLog(taskId, responses, attempts, reportProgress)
  {
    attempts := 0;
    log := [];
    while attempts < MaxAttempts
      invariant attempts <= MaxAttempts
      invariant PollFrom(responses, attempts) == Poll(responses)
      invariant log == RunLog(taskId, responses, attempts, reportProgress)
    {
      attempts := attempts + 1;
      var response := responses[attempts - 1];
      var events := [StatusQuery(taskId, attempts)];
      match response {
        case StatusOk(info) =>
          var state := StateOf(info);
          if reportProgress {
            events := events + [ProgressReported(state, attempts)];
          }
          log := log + events;
          if state == Some(1) && info.value.stateDetail == Some("Complete") {
            if !Truthy(info.value.image) {
              outcome := Err(NoImageUrl);
              return;
            }
            outcome := Ok(TaskResult(info.value.image.value, info.value.imageWidth, info.value.imageHeight));
            return;
          }
          if state == Some(4) {
            outcome := Err(UpscaleFailed(FailureReason(info.value)));
            return;
          }
        case StatusRefused(status) =>
          log := log + events;
          if status == 404 {
            outcome := Err(TaskNotFound);
            return;
          }
          outcome := Err(RequestFailed(status));
          return;
        case StatusUnreachable(cause) =>
          log := log + events;
          outcome := Err(NetworkError(cause));
          return;
      }
      // Still processing: wait and ask again.
    }
    outcome := Err(TimedOut);
  }
}

/** What a polling run is proved to do: at most 60 queries, numbered from 1; it stops at the
    first terminal answer and only there; it times out exactly when all 60 answers say
    "still processing"; the progress callback sees one call per answered attempt. */
module PollingProperties {
  import opened UpscaleTypes
  import opened Polling

  /** The attempt numbers of the status queries in a log, in order. */
  function Queries(log: seq<Event>): seq<nat> {
    if log == [] then []
    else (if log[0].StatusQuery? then [log[0].attempt] else []) + Queries(log[1..])
  }

  /** The progress reports in a log, in order. */
  function Progress(log: seq<Event>): seq<Event> {
    if log == [] then []
    else (if log[0].ProgressReported? then [log[0]] else []) + Progress(log[1..])
  }

  /** The numbers `lo`, `lo + 1`, ..., `hi - 1`. */
  function Span(lo: nat, hi: nat): (s: seq<nat>)
    requires lo <= hi
    ensures |s| == hi - lo
    ensures forall i :: 0 <= i < |s| ==> s[i] == lo + i
    decreases hi - lo
  {
    if lo == hi then [] else Span(lo, hi - 1) + [hi - 1]
  }

  lemma {:induction false} QueriesAppend(a: seq<Event>, b: seq<Event>)
    ensures Queries(a + b) == Queries(a) + Queries(b)
    decreases |a|
  {
    if a != [] {
      assert (a + b)[1..] == a[1..] + b;
      QueriesAppend(a[1..], b);
    } else {
      assert a + b == b;
    }
  }

  lemma {:induction false} ProgressAppend(a: seq<Event>, b: seq<Event>)
    ensures Progress(a + b) == Progress(a) + Progress(b)
    decreases |a|
  {
    if a != [] {
      assert (a + b)[1..] == a[1..] + b;
      ProgressAppend(a[1..], b);
    } else {
      assert a + b == b;
    }
  }

  /** Each attempt issues one query and, when a callback is installed and the query was
      answered, one progress report with the answer's state and the attempt number. */
  lemma AttemptEventsShape(taskId: string, r: PollResponse, attempt: nat, report: bool)
    ensures Queries(AttemptEvents(taskId, r, attempt, report)) == [attempt]
    ensures Progress(AttemptEvents(taskId, r, attempt, report)) ==
            if report && r.StatusOk? then [ProgressReported(StateOf(r.info), attempt)] else []
  {
    var query := [StatusQuery(taskId, attempt)];
    assert Queries(query) == [attempt] + Queries([]);
    assert Progress(query) == [] + Progress([]);
    if report && r.StatusOk? {
      var reported := [ProgressReported(StateOf(r.info), attempt)];
      assert Queries(reported) == [] + Queries([]);
      assert Progress(reported) == reported + Progress([]);
      QueriesAppend(query, reported);
      ProgressAppend(query, reported);
    } else {
      assert AttemptEvents(taskId, r, attempt, report) == query;
    }
  }

  /** The events of `n + 1` attempts: those of the first `n`, then those of attempt `n + 1`. */
  lemma LogStep(taskId: string, responses: seq<PollResponse>, n: nat, report: bool)
    requires n < |responses|
    ensures Queries(RunLog(taskId, responses, n + 1, report)) ==
            Queries(RunLog(taskId, responses, n, report)) + [n + 1]
    ensures Progress(RunLog(taskId, responses, n + 1, report)) ==
            Progress(RunLog(taskId, responses, n, report)) +
            if report && responses[n].StatusOk? then [ProgressReported(StateOf(responses[n].info), n + 1)] else []
  {
    var events := AttemptEvents(taskId, responses[n], n + 1, report);
    AttemptEventsShape(taskId, responses[n], n + 1, report);
    QueriesAppend(RunLog(taskId, responses, n, report), events);
    ProgressAppend(RunLog(taskId, responses, n, report), events);
  }

  /** The run times out exactly when every remaining answer says "still processing", and it
      has then made all `MaxAttempts` queries. */
  lemma {:induction false} TimeoutIffAllPending(responses: seq<PollResponse>, k: nat)
    requires k <= MaxAttempts <= |responses|
    ensures var run := PollFrom(responses, k);
            (run.outcome == Err(TimedOut) <==>
               forall i :: k <= i < MaxAttempts ==> Interpret(responses[i]).Pending?) &&
            (run.outcome == Err(TimedOut) ==> run.queries == MaxAttempts)
    decreases MaxAttempts - k
  {
    if k < MaxAttempts && Interpret(responses[k]).Pending? {
      TimeoutIffAllPending(responses, k + 1);
    }
  }

  /** The first terminal answer ends the run with its own outcome, whatever attempts remain. */
  lemma {:induction false} FirstTerminalDecides(responses: seq<PollResponse>, k: nat, j: nat)
    requires k <= j < MaxAttempts <= |responses|
    requires forall i :: k <= i < j ==> Interpret(responses[i]).Pending?
    requires Interpret(responses[j]).Terminal?
    ensures PollFrom(responses, k) == PollRun(Interpret(responses[j]).outcome, j + 1)
    decreases j - k
  {
    if k < j {
      FirstTerminalDecides(responses, k + 1, j);
    }
  }

  /** Conversely, an outcome other than a timeout is the outcome of the last attempt made, and
      every attempt before it was pending. */
  lemma {:induction false} OutcomeFromLastAttempt(responses: seq<PollResponse>, k: nat)
    requires k < MaxAttempts <= |responses|
    requires PollFrom(responses, k).outcome != Err(TimedOut)
    ensures var run := PollFrom(responses, k);
            k < run.queries <= MaxAttempts &&
            Interpret(responses[run.queries - 1]) == Terminal(run.outcome) &&
            forall i :: k <= i < run.queries - 1 ==> Interpret(responses[i]).Pending?
    decreases MaxAttempts - k
  {
    if Interpret(responses[k]).Pending? {
      OutcomeFromLastAttempt(responses, k + 1);
    }
  }

  /** The queries of the first `n` attempts are numbered 1, 2, ..., `n`, in order, one each. */
  lemma {:induction false} QueriesNumbered(taskId: string, responses: seq<PollResponse>, n: nat, report: bool)
    requires n <= |responses|
    ensures Queries(RunLog(taskId, responses, n, report)) == Span(1, n + 1)
  {
    if n > 0 {
      QueriesNumbered(taskId, responses, n - 1, report);
      LogStep(taskId, responses, n - 1, report);
    }
  }

  /** Without a callback, no progress is reported. */
  lemma {:induction false} NoProgressWithoutCallback(taskId: string, responses: seq<PollResponse>, n: nat)
    requires n <= |responses|
    ensures Progress(RunLog(taskId, responses, n, false)) == []
  {
    if n > 0 {
      NoProgressWithoutCallback(taskId, responses, n - 1);
      LogStep(taskId, responses, n - 1, false);
    }
  }

  /** Every progress report comes right after the status query of the same attempt. */
  lemma {:induction false} ReportFollowsQuery(taskId: string, responses: seq<PollResponse>, n: nat, report: bool)
    requires n <= |responses|
    ensures forall j :: 0 <= j < |RunLog(taskId, responses, n, report)| &&
                        RunLog(taskId, responses, n, report)[j].ProgressReported? ==>
              0 < j &&
              RunLog(taskId, responses, n, report)[j - 1] ==
                StatusQuery(taskId, RunLog(taskId, responses, n, report)[j].attempt)
  {
    if n > 0 {
      ReportFollowsQuery(taskId, responses, n - 1, report);
      var before := RunLog(taskId, responses, n - 1, report);
      var events := AttemptEvents(taskId, responses[n - 1], n, report);
      var log := RunLog(taskId, responses, n, report);
      forall j | 0 <= j < |log| && log[j].ProgressReported?
        ensures 0 < j && log[j - 1] == StatusQuery(taskId, log[j].attempt)
      {
        if j < |before| {
          assert log[j] == before[j];
          assert log[j - 1] == before[j - 1];
        } else {
          assert log[j] == events[j - |before|];
          assert log[j - 1] == events[0];
        }
      }
    }
  }

  /** With a callback, when the first `n` queries were all answered, report `i` carries the
      state of answer `i` and attempt number `i + 1`, one report per attempt. */
  lemma {:induction false} ProgressWhileAnswered(taskId: string, responses: seq<PollResponse>, n: nat)
    requires n <= |responses|
    requires forall i :: 0 <= i < n ==> responses[i].StatusOk?
    ensures var calls := Progress(RunLog(taskId, responses, n, true));
            |calls| == n &&
            forall i :: 0 <= i < n ==> calls[i] == ProgressReported(StateOf(responses[i].info), i + 1)
  {
    if n > 0 {
      ProgressWhileAnswered(taskId, responses, n - 1);
      LogStep(taskId, responses, n - 1, true);
      var earlier := Progress(RunLog(taskId, responses, n - 1, true));
      var calls := Progress(RunLog(taskId, responses, n, true));
      forall i | 0 <= i < n - 1
        ensures calls[i] == ProgressReported(StateOf(responses[i].info), i + 1)
      {
        assert calls[i] == earlier[i];
      }
    }
  }

  /** With a callback, when all of the first `q` queries but perhaps the last were answered,
      they report progress once per answered query, report `i` with the state of answer `i`
      and attempt number `i + 1`. */
  lemma ProgressUpToLast(taskId: string, responses: seq<PollResponse>, q: nat)
    requires 1 <= q <= |responses|
    requires forall i :: 0 <= i < q - 1 ==> responses[i].StatusOk?
    ensures var calls := Progress(RunLog(taskId, responses, q, true));
            |calls| == (if responses[q - 1].StatusOk? then q else q - 1) &&
            forall i :: 0 <= i < |calls| ==>
              responses[i].StatusOk? && calls[i] == ProgressReported(StateOf(responses[i].info), i + 1)
  {
    ProgressWhileAnswered(taskId, responses, q - 1);
    LogStep(taskId, responses, q - 1, true);
    var earlier := Progress(RunLog(taskId, responses, q - 1, true));
    var calls := Progress(RunLog(taskId, responses, q, true));
    forall i | 0 <= i < |calls|
      ensures responses[i].StatusOk? && calls[i] == ProgressReported(StateOf(responses[i].info), i + 1)
    {
      if i < q - 1 {
        assert calls[i] == earlier[i];
      }
    }
  }

  /** With a callback, a whole run reports progress once per answered attempt: every attempt
      but a last one that got no 2xx answer. Report `i` carries the state of answer `i` and
      attempt number `i + 1`. */
  lemma ProgressPerAttempt(taskId: string, responses: seq<PollResponse>)
    requires MaxAttempts <= |responses|
    ensures var run := Poll(responses);
            1 <= run.queries <= MaxAttempts &&
            var calls := Progress(RunLog(taskId, responses, run.queries, true));
            |calls| == (if responses[run.queries - 1].StatusOk? then run.queries else run.queries - 1) &&
            forall i :: 0 <= i < |calls| ==>
              responses[i].StatusOk? && calls[i] == ProgressReported(StateOf(responses[i].info), i + 1)
  {
    var q := Poll(responses).queries;
    if Poll(responses).outcome == Err(TimedOut) {
      TimeoutIffAllPending(responses, 0);
    } else {
      OutcomeFromLastAttempt(responses, 0);
    }
    assert forall i :: 0 <= i < q - 1 ==> responses[i].StatusOk?;
    ProgressUpToLast(taskId, responses, q);
  }
}

/** The properties of a whole run, from its first attempt, and runs of the status endpoint
    worked through. */
module PollingScenarios {
  import opened UpscaleTypes
  import opened Polling
  import opened PollingProperties

  /** A run makes between 1 and `MaxAttempts` queries, numbered 1, 2, ... in order; it times
      out exactly when all `MaxAttempts` answers say "still processing"; otherwise its outcome
      is that of its last attempt, the first terminal one. */
  lemma PollContract(taskId: string, responses: seq<PollResponse>, report: bool)
    requires MaxAttempts <= |responses|
    ensures var run := Poll(responses);
            1 <= run.queries <= MaxAttempts &&
            Queries(RunLog(taskId, responses, run.queries, report)) == Span(1, run.queries + 1) &&
            (run.outcome == Err(TimedOut) <==>
               forall i :: 0 <= i < MaxAttempts ==> Interpret(responses[i]).Pending?) &&
            (run.outcome == Err(TimedOut) ==> run.queries == MaxAttempts) &&
            (run.outcome != Err(TimedOut) ==>
               Interpret(responses[run.queries - 1]) == Terminal(run.outcome) &&
               forall i :: 0 <= i < run.queries - 1 ==> Interpret(responses[i]).Pending?)
  {
    QueriesNumbered(taskId, responses, Poll(responses).queries, report);
    TimeoutIffAllPending(responses, 0);
    if Poll(responses).outcome != Err(TimedOut) {
      OutcomeFromLastAttempt(responses, 0);
    }
  }

  /** A success is only ever reported for a `state === 1`, `state_detail === "Complete"`
      answer carrying an image URL, and its dimensions are the answer's, verbatim. */
  lemma SuccessOnlyWhenComplete(responses: seq<PollResponse>)
    requires MaxAttempts <= |responses|
    requires Poll(responses).outcome.Ok?
    ensures var run := Poll(responses);
            1 <= run.queries <= MaxAttempts &&
            var last := responses[run.queries - 1];
            last.StatusOk? && IsComplete(last.info) && Truthy(last.info.value.image) &&
            run.outcome.value ==
              TaskResult(last.info.value.image.value, last.info.value.imageWidth, last.info.value.imageHeight)
  {
    OutcomeFromLastAttempt(responses, 0);
  }

  /** An answer "still processing": queued, with no detail. */
  const Queued := StatusOk(Some(TaskInfo(Some(0), None, None, None, None, None, None)))

  /** Three answers "still processing", then a completed task: four queries numbered 1 to 4,
      four progress reports of states 0, 0, 0, 1, and the completed answer's image and
      dimensions. */
  lemma ThreePendingThenComplete(taskId: string, responses: seq<PollResponse>, url: string, width: int, height: int)
    requires MaxAttempts <= |responses| && url != ""
    requires responses[0] == responses[1] == responses[2] == Queued
    requires responses[3] == StatusOk(Some(TaskInfo(Some(1), Some("Complete"), Some(url),
                                                   Some(width), Some(height), None, None)))
    ensures Poll(responses) == PollRun(Ok(TaskResult(url, Some(width), Some(height))), 4)
    ensures Queries(RunLog(taskId, responses, 4, true)) == [1, 2, 3, 4]
    ensures Progress(RunLog(taskId, responses, 4, true)) ==
            [ProgressReported(Some(0), 1), ProgressReported(Some(0), 2),
             ProgressReported(Some(0), 3), ProgressReported(Some(1), 4)]
  {
    FirstTerminalDecides(responses, 0, 3);
    QueriesNumbered(taskId, responses, 4, true);
    ProgressWhileAnswered(taskId, responses, 4);
    assert Span(1, 5) == [1, 2, 3, 4];
  }

  /** Sixty answers "still processing", of whatever kind (queued, processing without
      "Complete", or with no task data): the run times out after exactly sixty queries and
      asks no sixty-first time, whatever the endpoint would answer next. */
  lemma SixtyPendingTimesOut(responses: seq<PollResponse>)
    requires MaxAttempts <= |responses|
    requires forall i :: 0 <= i < MaxAttempts ==> Interpret(responses[i]).Pending?
    ensures Poll(responses) == PollRun(Err(TimedOut), 60)
  {
    TimeoutIffAllPending(responses, 0);
  }

  /** After any answers "still processing", a failed task, or an unknown one, ends the run
      at once, with no further query. */
  lemma FailureEndsAtOnce(responses: seq<PollResponse>, j: nat)
    requires j < MaxAttempts <= |responses|
    requires forall i :: 0 <= i < j ==> Interpret(responses[i]).Pending?
    requires responses[j] == StatusRefused(404) ||
             (responses[j].StatusOk? && StateOf(responses[j].info) == Some(4))
    ensures Poll(responses).queries == j + 1
    ensures responses[j] == StatusRefused(404) ==> Poll(responses).outcome == Err(TaskNotFound)
    ensures responses[j].StatusOk? ==>
              Poll(responses).outcome == Err(UpscaleFailed(FailureReason(responses[j].info.value)))
  {
    FirstTerminalDecides(responses, 0, j);
  }
}
