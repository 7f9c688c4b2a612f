/** The evaluator's `SubmissionJob.handle` (`jobs/SubmissionJob.ts`): run
    the submission against each test case with the executor for its
    language, record one result per test case and summarise them. Running
    code in a container is the parameter `execute`; the two `Date.now()`
    readings are the parameters `startTime` and `endTime`. */
module SubmissionJob {
  import opened Common
  import opened ExecutorFactory

  datatype TestCase = TestCase(input: string, output: string)

  /** The queued value the submission service stores under the
      submission's id. */
  datatype SubmissionData = SubmissionData(
    code: string, language: string, testCases: seq<TestCase>, submissionId: string, userId: string)

  /** What `strategy.execute(code, input, output)` does: it resolves with
      a response (whose `output` may be missing) or throws. */
  datatype Execution = Responded(output: Option<string>, status: string) | Threw(message: string)

  datatype TestStatus = PASS | FAIL

  datatype TestResult = TestResult(
    testCaseIndex: nat, input: string, expectedOutput: string, actualOutput: string,
    status: TestStatus, error: Option<string>)

  datatype OverallStatus = SUCCESS | PARTIAL | FAILED

  datatype EvaluationResult = EvaluationResult(
    submissionId: string, userId: string, totalTestCases: nat, passedTestCases: nat,
    failedTestCases: int, overallStatus: OverallStatus, testResults: seq<TestResult>,
    executionTime: int)

  const SuccessStatus: string := "SUCCESS"
  const DataNotFound: string := "Invalid payload: submission data not found"
  const NoExecutor: string := "No executor found for language: "

  type Runner = (Executor, string, string, string) -> Execution

  /** A test passes when the executor answers with status `SUCCESS`. */
  predicate Passed(e: Execution) {
    e.Responded? && e.status == SuccessStatus
  }

  /** The result recorded for test case `i`: the executor's output (or
      `""`) and PASS/FAIL, or FAIL with the thrown error's text. */
  function ResultFor(i: nat, testCase: TestCase, e: Execution): (r: TestResult)
    ensures r.testCaseIndex == i && r.input == testCase.input && r.expectedOutput == testCase.output
    ensures r.status == PASS <==> Passed(e)
    ensures r.error.Some? <==> e.Threw?
    ensures e.Threw? ==> r.status == FAIL && r.error == Some(e.message) && r.actualOutput == ""
    ensures e.Responded? ==> r.actualOutput == e.output.GetOr("")
  {
    match e
    case Responded(output, status) =>
      TestResult(i, testCase.input, testCase.output, output.GetOr(""),
                 if status == SuccessStatus then PASS else FAIL, None)
    case Threw(message) =>
      TestResult(i, testCase.input, testCase.output, "", FAIL, Some(message))
  }

  /** The execution of test case `i`. */
  function Run(execute: Runner, strategy: Executor, code: string, testCase: TestCase): Execution {
    execute(strategy, code, testCase.input, testCase.output)
  }

  /** The number of passing results. */
  function CountPassed(results: seq<TestResult>): (n: nat)
    ensures n <= |results|
  {
    if results == [] then 0
    else CountPassed(results[..|results| - 1]) + if results[|results| - 1].status == PASS then 1 else 0
  }

  /** The count is zero exactly when every result failed, and the number
      of results exactly when every result passed. */
  lemma {:induction false} CountPassedExtremes(results: seq<TestResult>)
    ensures CountPassed(results) == 0 <==> forall i :: 0 <= i < |results| ==> results[i].status == FAIL
    ensures CountPassed(results) == |results| <==> forall i :: 0 <= i < |results| ==> results[i].status == PASS
  {
    if results != [] {
      var init := results[..|results| - 1];
      CountPassedExtremes(init);
      assert forall i :: 0 <= i < |init| ==> init[i] == results[i];
    }
  }

  /** Appending a result adds one to the count exactly when it passed. */
  lemma CountPassedAppend(rs: seq<TestResult>, r: TestResult)
    ensures CountPassed(rs + [r]) == CountPassed(rs) + if r.status == PASS then 1 else 0
  {
    assert (rs + [r])[..|rs|] == rs;
  }

  /** `passedCount === length ? 'SUCCESS' : passedCount > 0 ? 'PARTIAL' : 'FAILED'`. */
  function Overall(passed: nat, total: nat): (s: OverallStatus)
    ensures s == SUCCESS <==> passed == total
    ensures s == PARTIAL <==> passed != total && passed > 0
    ensures s == FAILED <==> passed != total && passed == 0
  {
    if passed == total then SUCCESS else if passed > 0 then PARTIAL else FAILED
  }

  /** The `for` loop over the test cases: one result per test case, in
      order, and the number of passes. */
  method RunTestCases(execute: Runner, strategy: Executor, code: string, testCases: seq<TestCase>)
    returns (testResults: seq<TestResult>, passedCount: nat)
    ensures |testResults| == |testCases|
    ensures forall i :: 0 <= i < |testCases| ==>
              testResults[i] == ResultFor(i, testCases[i], Run(execute, strategy, code, testCases[i]))
    ensures passedCount == CountPassed(testResults)
  {
    testResults := [];
    passedCount := 0;
    for i := 0 to |testCases|
      invariant |testResults| == i
      invariant forall k :: 0 <= k < i ==>
                  testResults[k] == ResultFor(k, testCases[k], Run(execute, strategy, code, testCases[k]))
      invariant passedCount == CountPassed(testResults)
    {
      var response := execute(strategy, code, testCases[i].input, testCases[i].output);
      var testResult := ResultFor(i, testCases[i], response);
      CountPassedAppend(testResults, testResult);
      if Passed(response) {
        passedCount := passedCount + 1;
      }
      assert (testResults + [testResult])[..i] == testResults;
      testResults := testResults + [testResult];
    }
  }

  /** The summary of the loop's results. */
  function Summary(data: SubmissionData, testResults: seq<TestResult>, passedCount: nat, executionTime: int)
    : (r: EvaluationResult)
    ensures r.submissionId == data.submissionId && r.userId == data.userId
    ensures r.totalTestCases == |data.testCases| && r.passedTestCases == passedCount
    ensures r.passedTestCases + r.failedTestCases == r.totalTestCases
    ensures r.overallStatus == Overall(passedCount, |data.testCases|)
    ensures r.testResults == testResults && r.executionTime == executionTime
  {
    EvaluationResult(data.submissionId, data.userId, |data.testCases|, passedCount,
                     |data.testCases| - passedCount, Overall(passedCount, |data.testCases|),
                     testResults, executionTime)
  }

  /** `Object.keys(this.payload)[0]` and its value: `None` for an empty
      payload or a missing value. */
  function FirstEntry(payload: seq<(string, Option<SubmissionData>)>): (r: Option<SubmissionData>)
    ensures r.Some? <==> payload != [] && payload[0].1.Some?
    ensures r.Some? ==> r == payload[0].1
  {
    if payload == [] then None else payload[0].1
  }

  /** `handle(job)`. Without a job nothing happens (`Ok(None)`); a missing
      entry or a language without an executor throws (`Err`); otherwise
      the evaluation result is returned, after being posted to the
      submission service (the post's failures are swallowed). */
  method Handle(job: bool, payload: seq<(string, Option<SubmissionData>)>, execute: Runner,
                startTime: int, endTime: int)
    returns (r: Result<Option<EvaluationResult>, string>)
    ensures !job ==> r == Ok(None)
    ensures job && FirstEntry(payload).None? ==> r == Err(DataNotFound)
    ensures job && FirstEntry(payload).Some? && CreateExecutor(FirstEntry(payload).value.language).None? ==>
              r == Err(NoExecutor + FirstEntry(payload).value.language)
    ensures r.Ok? && r.value.Some? ==>
              && job && FirstEntry(payload).Some?
              && var data := FirstEntry(payload).value;
              && CreateExecutor(data.language).Some?
              && var ev := r.value.value;
              && ev.submissionId == data.submissionId && ev.userId == data.userId
              && ev.totalTestCases == |data.testCases|
              && ev.testResults == Evaluated(execute, CreateExecutor(data.language).value, data)
              && ev.passedTestCases == CountPassed(ev.testResults)
              && ev.failedTestCases == ev.totalTestCases - ev.passedTestCases
              && ev.overallStatus == Overall(ev.passedTestCases, ev.totalTestCases)
              && ev.executionTime == endTime - startTime
    ensures r.Err? || r.value.Some? || !job
  {
    if !job {
      return Ok(None);
    }
    var submissionData := FirstEntry(payload);
    if submissionData.None? {
      return Err(DataNotFound);
    }
    var data := submissionData.value;
    var strategy := CreateExecutor(data.language);
    if strategy.Some? {
      var testResults, passedCount := RunTestCases(execute, strategy.value, data.code, data.testCases);
      EvaluatedMeansLoop(execute, strategy.value, data, testResults);
      var evaluationResult := Summary(data, testResults, passedCount, endTime - startTime);
      r := Ok(Some(evaluationResult));
    } else {
      r := Err(NoExecutor + data.language);
    }
  }

  /** The results the loop produces, as a sequence. */
  function Evaluated(execute: Runner, strategy: Executor, data: SubmissionData): (rs: seq<TestResult>)
    ensures |rs| == |data.testCases|
  {
    seq(|data.testCases|, i requires 0 <= i < |data.testCases| =>
          ResultFor(i, data.testCases[i], Run(execute, strategy, data.code, data.testCases[i])))
  }

  lemma EvaluatedMeansLoop(execute: Runner, strategy: Executor, data: SubmissionData, rs: seq<TestResult>)
    requires |rs| == |data.testCases|
    requires forall i :: 0 <= i < |rs| ==>
               rs[i] == ResultFor(i, data.testCases[i], Run(execute, strategy, data.code, data.testCases[i]))
    ensures rs == Evaluated(execute, strategy, data)
  {
  }

  /** The passes are exactly the test cases whose execution answered
      `SUCCESS`, each result sits at its own index, and the counts add up
      to the number of test cases. */
  lemma EvaluationCounts(execute: Runner, strategy: Executor, data: SubmissionData)
    ensures var rs := Evaluated(execute, strategy, data);
            && CountPassed(rs) == |set i | 0 <= i < |data.testCases| && Passed(Run(execute, strategy, data.code, data.testCases[i]))|
            && forall i :: 0 <= i < |rs| ==> rs[i].testCaseIndex == i
  {
    var rs := Evaluated(execute, strategy, data);
    CountIsPassSet(rs);
    assert (set i | 0 <= i < |rs| && rs[i].status == PASS)
        == (set i | 0 <= i < |data.testCases| && Passed(Run(execute, strategy, data.code, data.testCases[i])));
  }

  /** `CountPassed` counts the indices of the passing results. */
  lemma {:induction false} CountIsPassSet(rs: seq<TestResult>)
    ensures CountPassed(rs) == |set i | 0 <= i < |rs| && rs[i].status == PASS|
  {
    if rs != [] {
      var init := rs[..|rs| - 1];
      CountIsPassSet(init);
      var s := set i | 0 <= i < |init| && init[i].status == PASS;
      var t := set i | 0 <= i < |rs| && rs[i].status == PASS;
      if rs[|rs| - 1].status == PASS {
        assert t == s + {|rs| - 1};
      } else {
        assert t == s;
      }
    }
  }

  /** The overall status: SUCCESS when every test passed, which includes a
      submission without test cases; FAILED when none did. */
  lemma OverallStatusMeaning(execute: Runner, strategy: Executor, data: SubmissionData)
    ensures var rs := Evaluated(execute, strategy, data);
            var s := Overall(CountPassed(rs), |rs|);
            && (s == SUCCESS <==> forall i :: 0 <= i < |rs| ==> rs[i].status == PASS)
            && (s == FAILED <==> |rs| > 0 && forall i :: 0 <= i < |rs| ==> rs[i].status == FAIL)
            && (data.testCases == [] ==> s == SUCCESS)
  {
    CountPassedExtremes(Evaluated(execute, strategy, data));
  }
}
