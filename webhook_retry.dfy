/** The submission service's `WebhookRetryService`
    (`services/webhookRetryService.js`): submissions whose result callback
    failed are re-sent, with exponential backoff between attempts and at
    most five attempts. The HTTP post is the parameter `post`, the clock
    the parameter `now` (milliseconds), and the environment variable
    `SUBMISSION_SERVICE_WEBHOOK_URL` the parameter `envUrl`. */
module WebhookRetry {
  import opened Common
  import opened SubmissionJob

  const MaxRetries: nat := 5
  const InitialDelay: nat := 5000
  const MaxDelay: nat := 3600000
  const BackoffMultiplier: nat := 2

  function Power(b: nat, n: nat): (p: nat)
    ensures b >= 1 ==> p >= 1
  {
    if n == 0 then 1 else b * Power(b, n - 1)
  }

  function Min(a: int, b: int): int {
    if a <= b then a else b
  }

  /** `INITIAL_DELAY * Math.pow(BACKOFF_MULTIPLIER, attemptCount)`, capped
      at `MAX_DELAY`. */
  function RetryDelay(attemptCount: nat): (d: nat)
    ensures d <= MaxDelay
    ensures d == MaxDelay || d == InitialDelay * Power(BackoffMultiplier, attemptCount)
    ensures d <= InitialDelay * Power(BackoffMultiplier, attemptCount)
  {
    Min(InitialDelay * Power(BackoffMultiplier, attemptCount), MaxDelay)
  }

  /** `calculateNextRetry(attemptCount)`: the time of the next attempt. */
  function CalculateNextRetry(attemptCount: nat, now: int): (t: int)
    ensures now < t <= now + MaxDelay
  {
    now + RetryDelay(attemptCount)
  }

  lemma {:induction false} PowerMonotone(m: nat, n: nat)
    requires m <= n
    ensures Power(BackoffMultiplier, m) <= Power(BackoffMultiplier, n)
  {
    if m < n {
      PowerMonotone(m, n - 1);
      assert Power(BackoffMultiplier, n) == 2 * Power(BackoffMultiplier, n - 1);
    }
  }

  /** Later attempts never wait less. */
  lemma DelayMonotone(m: nat, n: nat)
    requires m <= n
    ensures RetryDelay(m) <= RetryDelay(n)
  {
    PowerMonotone(m, n);
  }

  /** The delay doubles from 5 seconds until the tenth attempt, which
      reaches the one-hour cap; from then on it stays at the cap. */
  lemma DelaySchedule(n: nat)
    ensures n < 10 ==> RetryDelay(n) == InitialDelay * Power(BackoffMultiplier, n) < MaxDelay
    ensures n >= 10 ==> RetryDelay(n) == MaxDelay
    ensures n < 9 ==> RetryDelay(n + 1) == 2 * RetryDelay(n)
  {
    assert Power(BackoffMultiplier, 9) == 512;
    if n <= 9 {
      PowerMonotone(n, 9);
    } else {
      PowerMonotone(10, n);
      assert Power(BackoffMultiplier, 10) == 1024;
    }
    if n < 9 {
      PowerMonotone(n + 1, 9);
    }
  }

  // ---------------------------------------------------------------- records

  /** The fields of a stored submission that the retry reads and writes
      (dates are milliseconds). */
  datatype StoredSubmission = StoredSubmission(
    id: string, userId: string, totalTestCases: int, passedTestCases: int,
    failedTestCases: int, overallStatus: Option<OverallStatus>, testResults: seq<TestResult>,
    executionTime: Option<int>, webhookAttempts: nat, lastWebhookAttempt: Option<int>,
    nextRetryAt: Option<int>, webhookFailed: bool)

  /** The body that is posted. */
  datatype WebhookBody = WebhookBody(
    submissionId: string, userId: string, totalTestCases: int, passedTestCases: int,
    failedTestCases: int, overallStatus: Option<OverallStatus>, testResults: seq<TestResult>,
    executionTime: Option<int>)

  /** What `axios.post` does: a response with its status, or an error. */
  datatype PostOutcome = Delivered(status: int) | Failed(error: string)

  /** `{ success: true, response }` or `{ success: false, error }`. */
  datatype CallbackResult = CallbackResult(success: bool, response: Option<int>, error: Option<string>)

  type Poster = (string, WebhookBody) -> PostOutcome

  const UrlHead: string := "http://localhost:5000/api/v1/submissions/"
  const UrlTail: string := "/evaluate-result"

  /** The configured URL when it is set and non-empty, else the
      submission's own callback route. */
  function WebhookUrl(envUrl: Option<string>, submissionId: string): (url: string)
    ensures envUrl.Some? && envUrl.value != "" ==> url == envUrl.value
    ensures envUrl.None? || envUrl.value == "" ==> url == UrlHead + submissionId + UrlTail
  {
    if envUrl.Some? && envUrl.value != "" then envUrl.value else UrlHead + submissionId + UrlTail
  }

  function BodyOf(s: StoredSubmission): (b: WebhookBody)
    ensures b.submissionId == s.id && b.userId == s.userId && b.testResults == s.testResults
    ensures b.totalTestCases == s.totalTestCases && b.passedTestCases == s.passedTestCases
    ensures b.failedTestCases == s.failedTestCases && b.overallStatus == s.overallStatus
    ensures b.executionTime == s.executionTime
  {
    WebhookBody(s.id, s.userId, s.totalTestCases, s.passedTestCases, s.failedTestCases,
                s.overallStatus, s.testResults, s.executionTime)
  }

  /** `sendWebhookCallback(submission)`: it never throws; a failed post is
      reported as `success: false` with the error. */
  function SendWebhookCallback(s: StoredSubmission, envUrl: Option<string>, post: Poster): (r: CallbackResult)
    ensures var outcome := post(WebhookUrl(envUrl, s.id), BodyOf(s));
            && (r.success <==> outcome.Delivered?)
            && (outcome.Delivered? ==> r.response == Some(outcome.status) && r.error.None?)
            && (outcome.Failed? ==> r.error == Some(outcome.error) && r.response.None?)
  {
    match post(WebhookUrl(envUrl, s.id), BodyOf(s))
    case Delivered(status) => CallbackResult(true, Some(status), None)
    case Failed(error) => CallbackResult(false, None, Some(error))
  }

  /** `updateSubmission(id, { webhookFailed: false, webhookAttempts: 0,
      lastWebhookAttempt: now })`. */
  function Resolved(s: StoredSubmission, now: int): StoredSubmission {
    s.(webhookFailed := false, webhookAttempts := 0, lastWebhookAttempt := Some(now))
  }

  /** `incrementWebhookAttempt(id, nextRetry)`: one more attempt and the
      time of the next one. */
  function Rescheduled(s: StoredSubmission, nextRetry: int): StoredSubmission {
    s.(webhookAttempts := s.webhookAttempts + 1, nextRetryAt := Some(nextRetry))
  }

  /** The effect of one pass of the loop body on the stored records. The
      repository calls are by id and change nothing when the id is gone. */
  function RetryOne(records: map<string, StoredSubmission>, s: StoredSubmission,
                    envUrl: Option<string>, post: Poster, now: int): (r: map<string, StoredSubmission>)
    ensures r.Keys == records.Keys
    ensures forall id :: id in records && id != s.id ==> r[id] == records[id]
  {
    if s.webhookAttempts >= MaxRetries || s.id !in records then records
    else if SendWebhookCallback(s, envUrl, post).success then records[s.id := Resolved(records[s.id], now)]
    else records[s.id := Rescheduled(records[s.id], CalculateNextRetry(s.webhookAttempts, now))]
  }

  /** The effect of the whole loop over `failed`, in order. */
  function RetryAll(records: map<string, StoredSubmission>, failed: seq<StoredSubmission>,
                    envUrl: Option<string>, post: Poster, now: int): (r: map<string, StoredSubmission>)
    ensures r.Keys == records.Keys
  {
    if failed == [] then records
    else RetryOne(RetryAll(records, failed[..|failed| - 1], envUrl, post, now), failed[|failed| - 1], envUrl, post, now)
  }

  /** One resend: a submission at the retry limit is skipped; a delivered
      callback resolves the record; a failed one counts the attempt and
      schedules the next from the attempt count that was read. */
  lemma RetryStep(records: map<string, StoredSubmission>, s: StoredSubmission,
                  envUrl: Option<string>, post: Poster, now: int)
    requires s.id in records
    ensures var r := RetryOne(records, s, envUrl, post, now)[s.id];
            var delivered := post(WebhookUrl(envUrl, s.id), BodyOf(s)).Delivered?;
            && (s.webhookAttempts >= MaxRetries ==> r == records[s.id])
            && (s.webhookAttempts < MaxRetries && delivered ==>
                  !r.webhookFailed && r.webhookAttempts == 0 && r.lastWebhookAttempt == Some(now))
            && (s.webhookAttempts < MaxRetries && !delivered ==>
                  && r.webhookAttempts == records[s.id].webhookAttempts + 1
                  && r.nextRetryAt == Some(CalculateNextRetry(s.webhookAttempts, now))
                  && r.webhookFailed == records[s.id].webhookFailed)
            && r.testResults == records[s.id].testResults && r.userId == records[s.id].userId
  {
  }

  /** The loop keeps the set of records, and a record none of whose
      snapshots is under the retry limit is left exactly as it was. */
  lemma {:induction false} RetryAllFrame(records: map<string, StoredSubmission>, failed: seq<StoredSubmission>,
                                         envUrl: Option<string>, post: Poster, now: int, id: string)
    requires id in records
    requires forall k :: 0 <= k < |failed| && failed[k].id == id ==> failed[k].webhookAttempts >= MaxRetries
    ensures RetryAll(records, failed, envUrl, post, now).Keys == records.Keys
    ensures RetryAll(records, failed, envUrl, post, now)[id] == records[id]
  {
    if failed != [] {
      var init := failed[..|failed| - 1];
      assert forall k :: 0 <= k < |init| ==> init[k] == failed[k];
      RetryAllFrame(records, init, envUrl, post, now, id);
    }
  }

  /** A store of submissions with the two repository calls the retry
      makes. */
  class SubmissionStore {
    var records: map<string, StoredSubmission>

    constructor (records: map<string, StoredSubmission>)
      ensures this.records == records
    {
      this.records := records;
    }

    method UpdateResolved(id: string, now: int)
      modifies this
      ensures id in old(records) ==> records == old(records)[id := Resolved(old(records)[id], now)]
      ensures id !in old(records) ==> records == old(records)
    {
      if id in records {
        records := records[id := Resolved(records[id], now)];
      }
    }

    method IncrementWebhookAttempt(id: string, nextRetry: int)
      modifies this
      ensures id in old(records) ==> records == old(records)[id := Rescheduled(old(records)[id], nextRetry)]
      ensures id !in old(records) ==> records == old(records)
    {
      if id in records {
        records := records[id := Rescheduled(records[id], nextRetry)];
      }
    }

    /** `retryFailedWebhooks()`, given what `findFailedWebhookSubmissions()`
        returned. */
    method RetryFailedWebhooks(failed: seq<StoredSubmission>, envUrl: Option<string>, post: Poster, now: int)
      modifies this
      ensures records == RetryAll(old(records), failed, envUrl, post, now)
    {
      if |failed| == 0 {
        return;
      }
      for i := 0 to |failed|
        invariant records == RetryAll(old(records), failed[..i], envUrl, post, now)
      {
        assert failed[..i + 1][..i] == failed[..i];
        var submission := failed[i];
        if submission.webhookAttempts >= MaxRetries {
          continue;
        }
        var result := SendWebhookCallback(submission, envUrl, post);
        if result.success {
          UpdateResolved(submission.id, now);
        } else {
          var nextRetry := CalculateNextRetry(submission.webhookAttempts, now);
          IncrementWebhookAttempt(submission.id, nextRetry);
        }
      }
      assert failed[..|failed|] == failed;
    }
  }
}
