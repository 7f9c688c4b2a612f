/** The Joi schemas of the submission service
    (`validators/submissionValidator.js`), validated with Joi's defaults:
    values are converted (strings trimmed and lower-cased as the schema
    asks, numeric strings read as numbers), the keys are checked in schema
    order and the first error is reported. A request body is its entries
    in key order. */
module SubmissionValidator {
  import opened Common
  import ExecutorFactory
  import SubmissionJob

  type Entries = seq<(string, JsValue)>

  /** The value under `key`, or `undefined`. */
  function Lookup(body: Entries, key: string): JsValue {
    if body == [] then Undefined
    else if body[0].0 == key then body[0].1
    else Lookup(body[1..], key)
  }

  /** The value of the first entry with the key. */
  lemma {:induction false} LookupFirst(body: Entries, key: string, i: nat)
    requires i < |body| && body[i].0 == key
    requires forall j :: 0 <= j < i ==> body[j].0 != key
    ensures Lookup(body, key) == body[i].1
  {
    if i > 0 {
      LookupFirst(body[1..], key, i - 1);
    }
  }

  /** The first key the schema does not declare. */
  function FirstUnknown(body: Entries, keys: set<string>): (r: Option<string>)
    ensures r.None? <==> forall i :: 0 <= i < |body| ==> body[i].0 in keys
  {
    if body == [] then None
    else if body[0].0 !in keys then Some(body[0].0)
    else FirstUnknown(body[1..], keys)
  }

  function Quote(name: string): string {
    "\"" + name + "\""
  }

  // ---------------------------------------------------------------- strings

  /** A `joi.string()` key: whether it is required, trimmed and
      lower-cased, its allowed values (`valid`), its maximum length, and the
      custom messages for `any.required`, `string.empty`, `any.only` and
      `string.max`. */
  datatype StringRule = StringRule(
    key: string, trim: bool, lowercase: bool, valid: seq<string>, max: Option<nat>,
    requiredMsg: Option<string>, emptyMsg: Option<string>, onlyMsg: Option<string>, maxMsg: Option<string>)

  /** The string after conversion. */
  function Converted(rule: StringRule, s: string): string {
    var t := if rule.trim then JsTrim(s) else s;
    if rule.lowercase then Lower(t) else t
  }

  /** The steps in Joi's order: presence, conversion, allowed values, the
      string type, emptiness, then the length rule. */
  function CheckString(rule: StringRule, v: JsValue): (r: Result<string, string>)
    ensures r.Ok? ==> v.Str? && r.value == Converted(rule, v.s)
    ensures rule.valid != [] ==> (r.Ok? <==> v.Str? && Converted(rule, v.s) in rule.valid)
    ensures rule.valid == [] ==>
              (r.Ok? <==> v.Str? && Converted(rule, v.s) != "" && (rule.max.Some? ==> |Converted(rule, v.s)| <= rule.max.value))
    ensures v == Undefined ==> r == Err(rule.requiredMsg.GetOr(Quote(rule.key) + " is required"))
  {
    if v == Undefined then Err(rule.requiredMsg.GetOr(Quote(rule.key) + " is required"))
    else
      var c := if v.Str? then Converted(rule, v.s) else "";
      if rule.valid != [] then
        if v.Str? && c in rule.valid then Ok(c)
        else Err(rule.onlyMsg.GetOr(Quote(rule.key) + " must be one of [" + JoinText(rule.valid, ", ") + "]"))
      else if !v.Str? then Err(Quote(rule.key) + " must be a string")
      else if c == "" then Err(rule.emptyMsg.GetOr(Quote(rule.key) + " is not allowed to be empty"))
      else if rule.max.Some? && |c| > rule.max.value then
        Err(rule.maxMsg.GetOr(Quote(rule.key) + " length must be less than or equal to " + "the limit"))
      else Ok(c)
  }

  // ---------------------------------------------------------------- numbers

  /** Joi's reading of a numeric string: surrounding white space, an
      optional sign and decimal digits. */
  function NumericText(s: string): (r: Option<int>)
    ensures IsIntegerText(s) ==> r == Some(IntegerValue(s))
  {
    var t := JsTrim(s);
    if IsIntegerText(s) then Some(IntegerValue(s))
    else if IsIntegerText(t) then Some(IntegerValue(t))
    else if |t| > 1 && t[0] == '+' && t[1] != '-' && IsIntegerText(t[1..]) then Some(IntegerValue(t[1..]))
    else None
  }

  /** A `joi.number()` key: a `default` (or required when there is none), a
      minimum with its text, an optional maximum and its custom message. */
  datatype NumberRule = NumberRule(
    key: string, default: Option<int>, min: int, minText: string, max: Option<int>, maxMsg: Option<string>)

  function CheckNumber(rule: NumberRule, v: JsValue): (r: Result<int, string>)
    ensures v == Undefined ==> r == (if rule.default.Some? then Ok(rule.default.value)
                                    else Err(Quote(rule.key) + " is required"))
    ensures v != Undefined && r.Ok? ==> rule.min <= r.value && (rule.max.Some? ==> r.value <= rule.max.value)
    ensures v.Num? ==> (r.Ok? <==> rule.min <= v.n && (rule.max.Some? ==> v.n <= rule.max.value))
    ensures v.Num? && r.Ok? ==> r.value == v.n
    ensures v.Str? ==> (r.Ok? <==> NumericText(v.s).Some? && rule.min <= NumericText(v.s).value
                                   && (rule.max.Some? ==> NumericText(v.s).value <= rule.max.value))
    ensures v.Str? && r.Ok? ==> r.value == NumericText(v.s).value
    ensures !v.Num? && !v.Str? && v != Undefined ==> r.Err?
  {
    if v == Undefined then
      if rule.default.Some? then Ok(rule.default.value) else Err(Quote(rule.key) + " is required")
    else
      var n := if v.Num? then Some(v.n) else if v.Str? then NumericText(v.s) else None;
      if n.None? then Err(Quote(rule.key) + " must be a number")
      else if n.value < rule.min then Err(Quote(rule.key) + " must be greater than or equal to " + rule.minText)
      else if rule.max.Some? && n.value > rule.max.value then
        Err(rule.maxMsg.GetOr(Quote(rule.key) + " must be less than or equal to the limit"))
      else Ok(n.value)
  }

  // ---------------------------------------------------------------- submissionValidationSchema

  const Languages: seq<string> := ["cpp", "java", "python"]
  const MaxCodeSize: nat := 102400

  const UserIdRule := StringRule("userId", true, false, [], None,
                                 Some("User ID is required"), Some("User ID cannot be empty"), None, None)
  const ProblemIdRule := StringRule("problemId", true, false, [], None,
                                    Some("Problem ID is required"), Some("Problem ID cannot be empty"), None, None)
  const LanguageRule := StringRule("language", false, true, Languages, None,
                                   Some("Programming language is required"), None,
                                   Some("Language must be one of: cpp, java, python"), None)
  const CodeRule := StringRule("code", false, false, [], Some(MaxCodeSize),
                               Some("Code is required"), None, None, Some("Code size exceeds maximum limit of 100KB"))

  const SubmissionKeys: set<string> := {"userId", "problemId", "language", "code"}

  datatype SubmissionInput = SubmissionInput(userId: string, problemId: string, language: string, code: string)

  /** An accepted submission has non-blank ids, one of the three
      languages and code of at most 100 KB. */
  function ValidateSubmission(body: Entries): (r: Result<SubmissionInput, string>)
    ensures r.Ok? ==> && r.value.userId != "" && r.value.problemId != "" && r.value.language in Languages
                      && 0 < |r.value.code| <= MaxCodeSize
  {
    var userId := CheckString(UserIdRule, Lookup(body, "userId"));
    if userId.Err? then Err(userId.error) else
    var problemId := CheckString(ProblemIdRule, Lookup(body, "problemId"));
    if problemId.Err? then Err(problemId.error) else
    var language := CheckString(LanguageRule, Lookup(body, "language"));
    if language.Err? then Err(language.error) else
    var code := CheckString(CodeRule, Lookup(body, "code"));
    if code.Err? then Err(code.error) else
    var unknown := FirstUnknown(body, SubmissionKeys);
    if unknown.Some? then Err(Quote(unknown.value) + " is not allowed")
    else Ok(SubmissionInput(userId.value, problemId.value, language.value, code.value))
  }

  lemma UserIdRuleMeans(v: JsValue)
    ensures CheckString(UserIdRule, v).Ok? <==> v.Str? && JsTrim(v.s) != ""
    ensures v.Str? && JsTrim(v.s) == "" ==> CheckString(UserIdRule, v) == Err("User ID cannot be empty")
  {
  }

  lemma ProblemIdRuleMeans(v: JsValue)
    ensures CheckString(ProblemIdRule, v).Ok? <==> v.Str? && JsTrim(v.s) != ""
  {
  }

  lemma LanguageRuleMeans(v: JsValue)
    ensures CheckString(LanguageRule, v).Ok? <==> v.Str? && Lower(v.s) in {"cpp", "java", "python"}
  {
  }

  lemma CodeRuleMeans(v: JsValue)
    ensures CheckString(CodeRule, v).Ok? <==> v.Str? && 0 < |v.s| <= MaxCodeSize
  {
  }

  /** The schema's constraints stated directly. */
  predicate SubmissionShape(body: Entries) {
    && Lookup(body, "userId").Str? && JsTrim(Lookup(body, "userId").s) != ""
    && Lookup(body, "problemId").Str? && JsTrim(Lookup(body, "problemId").s) != ""
    && Lookup(body, "language").Str? && Lower(Lookup(body, "language").s) in {"cpp", "java", "python"}
    && Lookup(body, "code").Str? && 0 < |Lookup(body, "code").s| <= MaxCodeSize
    && forall i :: 0 <= i < |body| ==> body[i].0 in SubmissionKeys
  }

  /** A body is accepted exactly when it meets the schema. */
  lemma SubmissionAcceptedIff(body: Entries)
    ensures ValidateSubmission(body).Ok? <==> SubmissionShape(body)
  {
    ValidateSubmissionOk(body);
    UserIdRuleMeans(Lookup(body, "userId"));
    ProblemIdRuleMeans(Lookup(body, "problemId"));
    LanguageRuleMeans(Lookup(body, "language"));
    CodeRuleMeans(Lookup(body, "code"));
  }

  /** A body is accepted when each key's rule passes and no other key is
      present. */
  lemma ValidateSubmissionOk(body: Entries)
    ensures ValidateSubmission(body).Ok? <==>
              && CheckString(UserIdRule, Lookup(body, "userId")).Ok?
              && CheckString(ProblemIdRule, Lookup(body, "problemId")).Ok?
              && CheckString(LanguageRule, Lookup(body, "language")).Ok?
              && CheckString(CodeRule, Lookup(body, "code")).Ok?
              && FirstUnknown(body, SubmissionKeys).None?
  {
  }

  /** What an accepted body becomes: the ids trimmed, the language
      lower-cased, the code as sent. */
  lemma SubmissionNormalised(body: Entries)
    requires ValidateSubmission(body).Ok?
    ensures var r := ValidateSubmission(body).value;
            && r.userId == JsTrim(Lookup(body, "userId").s) && r.problemId == JsTrim(Lookup(body, "problemId").s)
            && r.language == Lower(Lookup(body, "language").s) && r.code == Lookup(body, "code").s
  {
    assert CheckString(UserIdRule, Lookup(body, "userId")).Ok?;
    assert CheckString(ProblemIdRule, Lookup(body, "problemId")).Ok?;
    assert CheckString(LanguageRule, Lookup(body, "language")).Ok?;
    assert CheckString(CodeRule, Lookup(body, "code")).Ok?;
  }

  /** The first failing key is the one reported, with its own message. */
  lemma SubmissionErrorsInKeyOrder(body: Entries)
    ensures Lookup(body, "userId") == Undefined ==> ValidateSubmission(body) == Err("User ID is required")
    ensures Lookup(body, "userId").Str? && JsTrim(Lookup(body, "userId").s) == "" ==>
              ValidateSubmission(body) == Err("User ID cannot be empty")
    ensures CheckString(UserIdRule, Lookup(body, "userId")).Ok? && Lookup(body, "problemId") == Undefined ==>
              ValidateSubmission(body) == Err("Problem ID is required")
  {
    UserIdRuleMeans(Lookup(body, "userId"));
  }

  /** Every accepted language has an executor in the evaluator. */
  lemma AcceptedLanguageHasExecutor(body: Entries)
    requires ValidateSubmission(body).Ok?
    ensures ExecutorFactory.CreateExecutor(ValidateSubmission(body).value.language).Some?
  {
    SubmissionNormalised(body);
    SubmissionAcceptedIff(body);
    var sent := Lookup(body, "language").s;
    LowerIdempotent(sent);
    assert Lower(sent) in {ExecutorFactory.Python, ExecutorFactory.Java, ExecutorFactory.Cpp};
  }

  // ---------------------------------------------------------------- getSubmissionSchema

  const SubmissionIdRule := StringRule("submissionId", true, false, [], None,
                                       Some("Submission ID is required"), None, None, None)

  function ValidateGetSubmission(body: Entries): (r: Result<string, string>)
    ensures r.Ok? <==> && Lookup(body, "submissionId").Str? && JsTrim(Lookup(body, "submissionId").s) != ""
                       && forall i :: 0 <= i < |body| ==> body[i].0 == "submissionId"
    ensures r.Ok? ==> r.value == JsTrim(Lookup(body, "submissionId").s)
  {
    var id := CheckString(SubmissionIdRule, Lookup(body, "submissionId"));
    if id.Err? then Err(id.error) else
    var unknown := FirstUnknown(body, {"submissionId"});
    if unknown.Some? then Err(Quote(unknown.value) + " is not allowed") else Ok(id.value)
  }

  // ---------------------------------------------------------------- getUserSubmissionsSchema

  const LimitRule := NumberRule("limit", Some(20), 1, "1", Some(100), Some("Limit cannot exceed 100"))
  const OffsetRule := NumberRule("offset", Some(0), 0, "0", None, None)
  const ListUserIdRule := StringRule("userId", true, false, [], None, Some("User ID is required"), None, None, None)

  datatype UserSubmissionsQuery = UserSubmissionsQuery(userId: string, limit: int, offset: int)

  /** An accepted query has a limit from 1 to 100 (20 when absent) and a
      non-negative offset (0 when absent). */
  function ValidateUserSubmissions(query: Entries): (r: Result<UserSubmissionsQuery, string>)
    ensures r.Ok? ==> && 1 <= r.value.limit <= 100 && r.value.offset >= 0
                      && (Lookup(query, "limit") == Undefined ==> r.value.limit == 20)
                      && (Lookup(query, "offset") == Undefined ==> r.value.offset == 0)
                      && Lookup(query, "userId").Str? && r.value.userId == JsTrim(Lookup(query, "userId").s)
  {
    var userId := CheckString(ListUserIdRule, Lookup(query, "userId"));
    if userId.Err? then Err(userId.error) else
    var limit := CheckNumber(LimitRule, Lookup(query, "limit"));
    if limit.Err? then Err(limit.error) else
    var offset := CheckNumber(OffsetRule, Lookup(query, "offset"));
    if offset.Err? then Err(offset.error) else
    var unknown := FirstUnknown(query, {"userId", "limit", "offset"});
    if unknown.Some? then Err(Quote(unknown.value) + " is not allowed")
    else Ok(UserSubmissionsQuery(userId.value, limit.value, offset.value))
  }

  /** A count as Joi's `number()` reads it: a number, or text holding
      one. */
  function QueryCount(v: JsValue): Option<int> {
    if v.Num? then Some(v.n) else if v.Str? then NumericText(v.s) else None
  }

  /** The query schema's constraints stated directly: a user id that is
      not blank, a limit that is absent or an integer from 1 to 100, an
      offset that is absent or a non-negative integer, and no other key. */
  predicate UserSubmissionsShape(query: Entries) {
    && Lookup(query, "userId").Str? && JsTrim(Lookup(query, "userId").s) != ""
    && (Lookup(query, "limit") == Undefined ||
          (QueryCount(Lookup(query, "limit")).Some? && 1 <= QueryCount(Lookup(query, "limit")).value <= 100))
    && (Lookup(query, "offset") == Undefined ||
          (QueryCount(Lookup(query, "offset")).Some? && 0 <= QueryCount(Lookup(query, "offset")).value))
    && forall i :: 0 <= i < |query| ==> query[i].0 in {"userId", "limit", "offset"}
  }

  lemma ListUserIdRuleMeans(v: JsValue)
    ensures CheckString(ListUserIdRule, v).Ok? <==> v.Str? && JsTrim(v.s) != ""
  {
  }

  lemma CountRuleMeans(rule: NumberRule, v: JsValue)
    requires rule in {LimitRule, OffsetRule}
    ensures v != Undefined ==>
              (CheckNumber(rule, v).Ok? <==> QueryCount(v).Some? && rule.min <= QueryCount(v).value
                                             && (rule.max.Some? ==> QueryCount(v).value <= rule.max.value))
    ensures v != Undefined && CheckNumber(rule, v).Ok? ==> CheckNumber(rule, v).value == QueryCount(v).value
  {
  }

  /** A query is accepted exactly when it meets the schema, and then its
      values are the trimmed id and the counts read (or their defaults). */
  lemma UserSubmissionsAcceptedIff(query: Entries)
    ensures ValidateUserSubmissions(query).Ok? <==> UserSubmissionsShape(query)
    ensures ValidateUserSubmissions(query).Ok? ==>
              ValidateUserSubmissions(query).value ==
                UserSubmissionsQuery(JsTrim(Lookup(query, "userId").s),
                                     if Lookup(query, "limit") == Undefined then 20 else QueryCount(Lookup(query, "limit")).value,
                                     if Lookup(query, "offset") == Undefined then 0 else QueryCount(Lookup(query, "offset")).value)
  {
    ValidateUserSubmissionsOk(query);
    ListUserIdRuleMeans(Lookup(query, "userId"));
    CountRuleMeans(LimitRule, Lookup(query, "limit"));
    CountRuleMeans(OffsetRule, Lookup(query, "offset"));
  }

  /** A query is accepted when each key's rule passes and no other key is
      present, and then it holds the values the rules give. */
  lemma ValidateUserSubmissionsOk(query: Entries)
    ensures var userId := CheckString(ListUserIdRule, Lookup(query, "userId"));
            var limit := CheckNumber(LimitRule, Lookup(query, "limit"));
            var offset := CheckNumber(OffsetRule, Lookup(query, "offset"));
            && (ValidateUserSubmissions(query).Ok? <==>
                  userId.Ok? && limit.Ok? && offset.Ok? && FirstUnknown(query, {"userId", "limit", "offset"}).None?)
            && (ValidateUserSubmissions(query).Ok? ==>
                  ValidateUserSubmissions(query).value == UserSubmissionsQuery(userId.value, limit.value, offset.value))
  {
  }

  /** A limit over 100 is refused with the schema's message. */
  lemma LimitOverHundredRefused(query: Entries)
    requires CheckString(ListUserIdRule, Lookup(query, "userId")).Ok?
    requires Lookup(query, "limit") == Num(101)
    ensures ValidateUserSubmissions(query) == Err("Limit cannot exceed 100")
  {
    assert CheckNumber(LimitRule, Num(101)) == Err("Limit cannot exceed 100");
  }

  /** Query strings are read as numbers. */
  lemma QueryNumbersConverted(query: Entries, digits: string)
    requires Lookup(query, "limit") == Str(digits) && IsIntegerText(digits)
    requires ValidateUserSubmissions(query).Ok?
    ensures ValidateUserSubmissions(query).value.limit == IntegerValue(digits)
  {
    var limit := CheckNumber(LimitRule, Str(digits));
    assert CheckString(ListUserIdRule, Lookup(query, "userId")).Ok? && limit.Ok?;
    assert ValidateUserSubmissions(query).value.limit == limit.value;
  }

  // ---------------------------------------------------------------- evaluationResultSchema

  const StatusValues: seq<string> := ["SUCCESS", "PARTIAL", "FAILED"]

  const EvalSubmissionIdRule := StringRule("submissionId", false, false, [], None,
                                           Some("Submission ID is required"), None, None, None)
  const EvalUserIdRule := StringRule("userId", false, false, [], None, None, None, None, None)
  const StatusRule := StringRule("overallStatus", false, false, StatusValues, None, None, None, None, None)

  function CountRule(key: string): NumberRule {
    NumberRule(key, None, 0, "0", None, None)
  }

  datatype EvaluationInput = EvaluationInput(
    submissionId: string, userId: string, totalTestCases: int, passedTestCases: int,
    failedTestCases: int, overallStatus: string, testResults: seq<JsValue>, executionTime: int)

  /** `joi.array().required().min(0)`: any array. */
  function CheckArray(key: string, v: JsValue): (r: Result<seq<JsValue>, string>)
    ensures r.Ok? <==> v.Arr?
    ensures r.Ok? ==> r.value == v.items
  {
    if v == Undefined then Err(Quote(key) + " is required")
    else if !v.Arr? then Err(Quote(key) + " must be an array")
    else Ok(v.items)
  }

  /** Extra keys are allowed (`unknown(true)`). */
  function ValidateEvaluationResult(body: Entries): (r: Result<EvaluationInput, string>)
    ensures r.Ok? ==> && r.value.totalTestCases >= 0 && r.value.passedTestCases >= 0
                      && r.value.failedTestCases >= 0 && r.value.executionTime >= 0
                      && r.value.overallStatus in {"SUCCESS", "PARTIAL", "FAILED"}
  {
    var submissionId := CheckString(EvalSubmissionIdRule, Lookup(body, "submissionId"));
    if submissionId.Err? then Err(submissionId.error) else
    var userId := CheckString(EvalUserIdRule, Lookup(body, "userId"));
    if userId.Err? then Err(userId.error) else
    var total := CheckNumber(CountRule("totalTestCases"), Lookup(body, "totalTestCases"));
    if total.Err? then Err(total.error) else
    var passed := CheckNumber(CountRule("passedTestCases"), Lookup(body, "passedTestCases"));
    if passed.Err? then Err(passed.error) else
    var failed := CheckNumber(CountRule("failedTestCases"), Lookup(body, "failedTestCases"));
    if failed.Err? then Err(failed.error) else
    var status := CheckString(StatusRule, Lookup(body, "overallStatus"));
    if status.Err? then Err(status.error) else
    var testResults := CheckArray("testResults", Lookup(body, "testResults"));
    if testResults.Err? then Err(testResults.error) else
    var time := CheckNumber(CountRule("executionTime"), Lookup(body, "executionTime"));
    if time.Err? then Err(time.error)
    else Ok(EvaluationInput(submissionId.value, userId.value, total.value, passed.value, failed.value,
                            status.value, testResults.value, time.value))
  }

  // ---------------------------------------------------------------- the evaluator's callback

  function StatusText(s: SubmissionJob.OverallStatus): string {
    match s
    case SUCCESS => "SUCCESS"
    case PARTIAL => "PARTIAL"
    case FAILED => "FAILED"
  }

  function TestResultJson(t: SubmissionJob.TestResult): JsValue {
    var fields := map["testCaseIndex" := Num(t.testCaseIndex), "input" := Str(t.input),
                      "expectedOutput" := Str(t.expectedOutput), "actualOutput" := Str(t.actualOutput),
                      "status" := Str(if t.status == SubmissionJob.PASS then "PASS" else "FAIL")];
    Obj(if t.error.Some? then fields["error" := Str(t.error.value)] else fields)
  }

  function TestResultsJson(rs: seq<SubmissionJob.TestResult>): (v: JsValue)
    ensures v.Arr? && |v.items| == |rs|
  {
    Arr(seq(|rs|, i requires 0 <= i < |rs| => TestResultJson(rs[i])))
  }

  /** The body the evaluator posts, in the key order of its object
      literal. */
  function EvaluationJson(ev: SubmissionJob.EvaluationResult): (body: Entries)
    ensures |body| == 8
  {
    EvaluationEntries(Str(ev.submissionId), Str(ev.userId), Num(ev.totalTestCases), Num(ev.passedTestCases),
                      Num(ev.failedTestCases), Str(StatusText(ev.overallStatus)),
                      TestResultsJson(ev.testResults), Num(ev.executionTime))
  }

  /** The eight entries of the evaluation body, in the evaluator's key
      order. */
  function EvaluationEntries(submissionId: JsValue, userId: JsValue, total: JsValue, passed: JsValue,
                             failed: JsValue, status: JsValue, results: JsValue, time: JsValue): Entries
  {
    [("submissionId", submissionId), ("userId", userId), ("totalTestCases", total), ("passedTestCases", passed)]
    + [("failedTestCases", failed), ("overallStatus", status), ("testResults", results), ("executionTime", time)]
  }

  /** Each key of the evaluation body reads back its own value. */
  lemma EvaluationEntriesLookups(submissionId: JsValue, userId: JsValue, total: JsValue, passed: JsValue,
                                 failed: JsValue, status: JsValue, results: JsValue, time: JsValue)
    ensures var body := EvaluationEntries(submissionId, userId, total, passed, failed, status, results, time);
            && Lookup(body, "submissionId") == submissionId
            && Lookup(body, "userId") == userId
            && Lookup(body, "totalTestCases") == total
            && Lookup(body, "passedTestCases") == passed
            && Lookup(body, "failedTestCases") == failed
            && Lookup(body, "overallStatus") == status
            && Lookup(body, "testResults") == results
            && Lookup(body, "executionTime") == time
  {
    var first := [("submissionId", submissionId), ("userId", userId), ("totalTestCases", total),
                  ("passedTestCases", passed)];
    var later := [("failedTestCases", failed), ("overallStatus", status), ("testResults", results),
                  ("executionTime", time)];
    FirstEntriesLookups(first, later, submissionId, userId, total, passed);
    LaterEntriesLookups(later, failed, status, results, time);
    LookupAfter(first, later, "failedTestCases");
    LookupAfter(first, later, "overallStatus");
    LookupAfter(first, later, "testResults");
    LookupAfter(first, later, "executionTime");
  }

  lemma FirstEntriesLookups(first: Entries, rest: Entries, submissionId: JsValue, userId: JsValue,
                            total: JsValue, passed: JsValue)
    requires first == [("submissionId", submissionId), ("userId", userId), ("totalTestCases", total),
                       ("passedTestCases", passed)]
    ensures && Lookup(first + rest, "submissionId") == submissionId && Lookup(first + rest, "userId") == userId
            && Lookup(first + rest, "totalTestCases") == total && Lookup(first + rest, "passedTestCases") == passed
  {
    var body := first + rest;
    LookupFirst(body, "submissionId", 0);
    LookupFirst(body, "userId", 1);
    LookupFirst(body, "totalTestCases", 2);
    LookupFirst(body, "passedTestCases", 3);
  }

  lemma LaterEntriesLookups(body: Entries, failed: JsValue, status: JsValue, results: JsValue, time: JsValue)
    requires body == [("failedTestCases", failed), ("overallStatus", status), ("testResults", results),
                      ("executionTime", time)]
    ensures && Lookup(body, "failedTestCases") == failed && Lookup(body, "overallStatus") == status
            && Lookup(body, "testResults") == results && Lookup(body, "executionTime") == time
  {
    LookupFirst(body, "failedTestCases", 0);
    LookupFirst(body, "overallStatus", 1);
    LookupFirst(body, "testResults", 2);
    LookupFirst(body, "executionTime", 3);
  }

  /** A key the first entries do not have is looked up in the rest. */
  lemma LookupAfter(first: Entries, rest: Entries, key: string)
    requires forall j :: 0 <= j < |first| ==> first[j].0 != key
    ensures Lookup(first + rest, key) == Lookup(rest, key)
  {
    LookupSkips(first + rest, |first|, key);
    assert (first + rest)[|first|..] == rest;
  }

  /** A key none of the first `n` entries has is looked up in the rest. */
  lemma {:induction false} LookupSkips(body: Entries, n: nat, key: string)
    requires n <= |body| && forall j :: 0 <= j < n ==> body[j].0 != key
    ensures Lookup(body, key) == Lookup(body[n..], key)
  {
    if n > 0 {
      assert body[1..][n - 1..] == body[n..];
      LookupSkips(body[1..], n - 1, key);
    }
  }

  /** A body with these values under the schema's keys is accepted. */
  lemma EvaluationAccepted(body: Entries, ev: SubmissionJob.EvaluationResult)
    requires Lookup(body, "submissionId") == Str(ev.submissionId) && ev.submissionId != ""
    requires Lookup(body, "userId") == Str(ev.userId) && ev.userId != ""
    requires Lookup(body, "totalTestCases") == Num(ev.totalTestCases)
    requires Lookup(body, "passedTestCases") == Num(ev.passedTestCases)
    requires Lookup(body, "failedTestCases") == Num(ev.failedTestCases) && ev.failedTestCases >= 0
    requires Lookup(body, "overallStatus") == Str(StatusText(ev.overallStatus))
    requires Lookup(body, "testResults").Arr?
    requires Lookup(body, "executionTime") == Num(ev.executionTime) && ev.executionTime >= 0
    ensures ValidateEvaluationResult(body).Ok?
    ensures ValidateEvaluationResult(body).value.overallStatus == StatusText(ev.overallStatus)
  {
    assert CheckString(EvalSubmissionIdRule, Lookup(body, "submissionId")).Ok?;
    assert CheckString(EvalUserIdRule, Lookup(body, "userId")).Ok?;
    assert CheckString(StatusRule, Lookup(body, "overallStatus")) == Ok(StatusText(ev.overallStatus));
  }

  /** What the evaluator sends is what the submission service accepts:
      the counts it computes are never negative, so its callback passes
      `evaluationResultSchema` whenever the clock did not run backwards and
      the ids are not empty. */
  lemma EvaluatorCallbackAccepted(ev: SubmissionJob.EvaluationResult)
    requires ev.passedTestCases + ev.failedTestCases == ev.totalTestCases
    requires ev.passedTestCases <= ev.totalTestCases && ev.executionTime >= 0
    requires ev.submissionId != "" && ev.userId != ""
    ensures ValidateEvaluationResult(EvaluationJson(ev)).Ok?
    ensures ValidateEvaluationResult(EvaluationJson(ev)).value.overallStatus == StatusText(ev.overallStatus)
  {
    EvaluationEntriesLookups(Str(ev.submissionId), Str(ev.userId), Num(ev.totalTestCases), Num(ev.passedTestCases),
                             Num(ev.failedTestCases), Str(StatusText(ev.overallStatus)),
                             TestResultsJson(ev.testResults), Num(ev.executionTime));
    EvaluationAccepted(EvaluationJson(ev), ev);
  }
}
