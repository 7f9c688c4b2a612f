/** `SubmissionService.addSubmission` (`services/submissionService.js`):
    fetch the problem, pick the code stub for the submission's language,
    wrap the user's code in it, store the submission and queue it for the
    evaluator. The problem service's answer is the parameter `fetched`,
    the database's answer to the insert the parameter `insert`; the queue
    is a sink whose message is returned. */
module SubmissionService {
  import opened Common
  import opened CodeCreator
  import SubmissionJob

  /** A code stub of a problem, as the problem service returns it. */
  datatype CodeStub = CodeStub(language: string, startSnippet: string, userSnippet: Option<string>, endSnippet: string)

  /** The `data` of the problem service's answer. */
  datatype ProblemDetails = ProblemDetails(codeStubs: seq<CodeStub>, testCases: seq<SubmissionJob.TestCase>)

  /** `fetchProblemDetails(problemId)`: the answer's body (falsy:
      `None`), or an exception. Its `catch` reads an undeclared `response`,
      so a failed request surfaces as a thrown `ReferenceError`. */
  datatype Fetch = Fetched(body: Option<ProblemDetails>) | FetchThrew(message: string)

  const FetchFailed: string := "Failed to fetch problem details"
  const NoStub: string := "No code stub found for language: "

  predicate StubFor(stub: CodeStub, language: string) {
    Lower(stub.language) == Lower(language)
  }

  /** `codeStubs.find(...)`: the first stub whose language equals the
      submission's, ignoring case. */
  function FindStub(stubs: seq<CodeStub>, language: string): (r: Option<CodeStub>)
    ensures r.None? <==> forall i :: 0 <= i < |stubs| ==> !StubFor(stubs[i], language)
    ensures r.Some? ==> exists i :: 0 <= i < |stubs| && stubs[i] == r.value && StubFor(stubs[i], language)
                                   && forall j :: 0 <= j < i ==> !StubFor(stubs[j], language)
  {
    if stubs == [] then None
    else if StubFor(stubs[0], language) then Some(stubs[0])
    else
      var r := FindStub(stubs[1..], language);
      assert r.Some? ==> exists i :: 0 <= i < |stubs| && stubs[i] == r.value && StubFor(stubs[i], language)
                                     && forall j :: 0 <= j < i ==> !StubFor(stubs[j], language) by {
        if r.Some? {
          var i :| 0 <= i < |stubs[1..]| && stubs[1..][i] == r.value && StubFor(stubs[1..][i], language)
                   && forall j :: 0 <= j < i ==> !StubFor(stubs[1..][j], language);
          assert stubs[i + 1] == r.value && forall j :: 0 <= j < i + 1 ==> !StubFor(stubs[j], language);
        }
      }
      r
  }

  /** The choice does not depend on the case of the submission's
      language. */
  lemma {:induction false} FindStubIgnoresCase(stubs: seq<CodeStub>, language: string)
    ensures FindStub(stubs, Lower(language)) == FindStub(stubs, language)
  {
    LowerIdempotent(language);
    if stubs != [] {
      FindStubIgnoresCase(stubs[1..], language);
    }
  }

  /** A stored submission. */
  datatype SubmissionRecord = SubmissionRecord(
    id: string, userId: string, problemId: string, code: string, language: string, status: string)

  const Pending: string := "PENDING"

  /** The job data the evaluator receives under the submission's id. */
  datatype QueuedSubmission = QueuedSubmission(
    code: string, language: string, testCases: seq<SubmissionJob.TestCase>,
    userId: string, submissionId: string, problemId: string)

  datatype Added = Added(queued: seq<(string, QueuedSubmission)>, submission: SubmissionRecord)

  /** The request body, which `addSubmission` changes in place. */
  class SubmissionPayload {
    var problemId: string
    var userId: string
    var code: string
    var language: string

    constructor (problemId: string, userId: string, code: string, language: string)
      ensures this.problemId == problemId && this.userId == userId
      ensures this.code == code && this.language == language
    {
      this.problemId := problemId;
      this.userId := userId;
      this.code := code;
      this.language := language;
    }
  }

  /** The database's answer to the insert of a document that passed
      validation: the id the driver assigns, or a rejection (a lost
      connection, say) with its message. */
  datatype Insert = Inserted(id: string) | InsertRejected(message: string)

  const ValidationPrefix: string := "Submission validation failed: "
  const UserIdMissing: string := "User id for the submission is missing"
  const ProblemIdMissing: string := "Problem id for the submission is missing"
  const CodeMissing: string := "Code for the submission is missing"
  const LanguageMissing: string := "Language for the submission is missing"

  /** A `required` string path: Mongoose refuses the empty string, and
      reports the path before its message. */
  function RequiredCheck(path: string, value: string, message: string): (r: seq<string>)
    ensures r == [] <==> value != ""
    ensures r != [] ==> r == [path + ": " + message]
  {
    if value == "" then [path + ": " + message] else []
  }

  /** The messages of `submissionSchema`'s failing `required` paths, in
      schema order. */
  function SubmissionValidationMessages(userId: string, problemId: string, code: string, language: string)
    : (r: seq<string>)
    ensures r == [] <==> userId != "" && problemId != "" && code != "" && language != ""
    ensures |r| <= 4
  {
    RequiredCheck("userId", userId, UserIdMissing) + RequiredCheck("problemId", problemId, ProblemIdMissing)
    + RequiredCheck("code", code, CodeMissing) + RequiredCheck("language", language, LanguageMissing)
  }

  /** The text of the `ValidationError` that `create` rejects with. */
  function ValidationFailure(messages: seq<string>): string {
    ValidationPrefix + JoinText(messages, ", ")
  }

  /** A body with an empty `userId` and the other paths present is
      rejected with the schema's message for that path alone. */
  lemma EmptyUserIdRefused(problemId: string, code: string, language: string)
    requires problemId != "" && code != "" && language != ""
    ensures SubmissionValidationMessages("", problemId, code, language) == ["userId: " + UserIdMissing]
    ensures ValidationFailure(SubmissionValidationMessages("", problemId, code, language))
            == ValidationPrefix + "userId: " + UserIdMissing
  {
    assert "userId" + ": " + UserIdMissing == "userId: " + UserIdMissing;
  }

  class SubmissionRepository {
    var records: map<string, SubmissionRecord>

    constructor ()
      ensures records == map[]
    {
      records := map[];
    }

    /** `createSubmission(payload)`, which is `Submission.create`: a
        document with a missing required path is rejected with a
        `ValidationError`, and any other is stored pending under the id the
        database assigns, unless the database rejects it. A rejection
        stores nothing. */
    method CreateSubmission(payload: SubmissionPayload, insert: Insert)
      returns (created: Result<SubmissionRecord, string>)
      modifies this
      ensures var messages := SubmissionValidationMessages(payload.userId, payload.problemId, payload.code,
                                                           payload.language);
              && (messages != [] ==> created == Err(ValidationFailure(messages)) && records == old(records))
              && (messages == [] && insert.InsertRejected? ==>
                    created == Err(insert.message) && records == old(records))
              && (messages == [] && insert.Inserted? ==>
                    && created == Ok(SubmissionRecord(insert.id, payload.userId, payload.problemId,
                                                      payload.code, payload.language, Pending))
                    && records == old(records)[insert.id := created.value])
    {
      var messages := SubmissionValidationMessages(payload.userId, payload.problemId, payload.code,
                                                   payload.language);
      if messages != [] {
        return Err(ValidationFailure(messages));
      }
      if insert.InsertRejected? {
        return Err(insert.message);
      }
      var record := SubmissionRecord(insert.id, payload.userId, payload.problemId,
                                     payload.code, payload.language, Pending);
      records := records[insert.id := record];
      created := Ok(record);
    }
  }

  /** The message handed to the queue: one entry, keyed by the new id. */
  function QueueMessage(submission: SubmissionRecord, testCases: seq<SubmissionJob.TestCase>,
                        userId: string, problemId: string): (m: seq<(string, QueuedSubmission)>)
    ensures |m| == 1 && m[0].0 == submission.id
    ensures m[0].1.testCases == testCases && m[0].1.code == submission.code
  {
    [(submission.id, QueuedSubmission(submission.code, submission.language, testCases,
                                      userId, submission.id, problemId))]
  }

  /** How the evaluator reads a queued message. */
  function AsJobPayload(m: seq<(string, QueuedSubmission)>): seq<(string, Option<SubmissionJob.SubmissionData>)> {
    seq(|m|, i requires 0 <= i < |m| =>
          (m[i].0, Some(SubmissionJob.SubmissionData(m[i].1.code, m[i].1.language, m[i].1.testCases,
                                                      m[i].1.submissionId, m[i].1.userId))))
  }

  class SubmissionService {
    const repository: SubmissionRepository

    constructor (repository: SubmissionRepository)
      ensures this.repository == repository
    {
      this.repository := repository;
    }

    /** `addSubmission(submissionPayload)`. The error text is the
        `SubmissionCreationError`'s message, or that of the exception the
        fetch or the create rejects with. The wrapped code is never empty,
        so only the other three required paths can fail validation. */
    method AddSubmission(payload: SubmissionPayload, fetched: Fetch, insert: Insert)
      returns (r: Result<Added, string>)
      modifies payload, repository
      ensures payload.problemId == old(payload.problemId) && payload.userId == old(payload.userId)
      ensures payload.language == old(payload.language)
      ensures fetched.FetchThrew? ==> r == Err(fetched.message)
      ensures fetched == Fetched(None) ==> r == Err(FetchFailed)
      ensures fetched.Fetched? && fetched.body.Some? && FindStub(fetched.body.value.codeStubs, old(payload.language)).None? ==>
                r == Err(NoStub + old(payload.language))
      ensures r.Err? ==> repository.records == old(repository.records)
      ensures fetched.Fetched? && fetched.body.Some? && FindStub(fetched.body.value.codeStubs, old(payload.language)).Some? ==>
                && var stub := FindStub(fetched.body.value.codeStubs, old(payload.language)).value;
                && payload.code == Combine(stub.startSnippet, old(payload.code), stub.endSnippet)
                && var messages := SubmissionValidationMessages(old(payload.userId), old(payload.problemId),
                                                                payload.code, old(payload.language));
                && (messages == [] <==> old(payload.userId) != "" && old(payload.problemId) != ""
                                        && old(payload.language) != "")
                && (messages != [] ==> r == Err(ValidationFailure(messages)))
                && (messages == [] && insert.InsertRejected? ==> r == Err(insert.message))
                && (messages == [] && insert.Inserted? ==>
                      var record := SubmissionRecord(insert.id, old(payload.userId), old(payload.problemId),
                                                     payload.code, old(payload.language), Pending);
                      && repository.records == old(repository.records)[insert.id := record]
                      && r == Ok(Added(QueueMessage(record, fetched.body.value.testCases,
                                                    old(payload.userId), old(payload.problemId)), record)))
      ensures !(fetched.Fetched? && fetched.body.Some? && FindStub(fetched.body.value.codeStubs, old(payload.language)).Some?) ==>
                && payload.code == old(payload.code) && repository.records == old(repository.records) && r.Err?
    {
      var problemId := payload.problemId;
      var userId := payload.userId;
      if fetched.FetchThrew? {
        return Err(fetched.message);
      }
      if fetched.body.None? {
        return Err(FetchFailed);
      }
      var problem := fetched.body.value;
      var languageCodeStub := FindStub(problem.codeStubs, payload.language);
      if languageCodeStub.None? {
        return Err(NoStub + payload.language);
      }
      var completeCode := Combine(languageCodeStub.value.startSnippet, payload.code,
                                      languageCodeStub.value.endSnippet);
      payload.code := completeCode;
      var submission := repository.CreateSubmission(payload, insert);
      if submission.Err? {
        return Err(submission.error);
      }
      var message := QueueMessage(submission.value, problem.testCases, userId, problemId);
      r := Ok(Added(message, submission.value));
    }
  }

  /** What is queued is what the evaluator runs: the stored, wrapped code
      in the submitted language against the problem's test cases. */
  lemma QueuedJobRunsStoredCode(submission: SubmissionRecord, testCases: seq<SubmissionJob.TestCase>,
                                userId: string, problemId: string)
    ensures SubmissionJob.FirstEntry(AsJobPayload(QueueMessage(submission, testCases, userId, problemId)))
            == Some(SubmissionJob.SubmissionData(submission.code, submission.language, testCases, submission.id, userId))
  {
  }
}
