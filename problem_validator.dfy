/** The Zod schemas of the problem service
    (`validators/problem.validator.js`), applied with `schema.parse`: a
    body either parses to the normalised problem (strings trimmed, stub
    languages lower-cased, unknown keys dropped) or is refused with
    400 `Invalid request data`. A Zod string schema runs its steps in the
    order written, so `min(n)` before `trim()` measures the text as
    sent. */
module ProblemValidator {
  import opened Common

  datatype TestCase = TestCase(input: string, output: string)

  datatype CodeStub = CodeStub(language: string, startSnippet: string, userSnippet: Option<string>, endSnippet: string)

  datatype NewProblem = NewProblem(
    title: string, description: string, difficulty: string, testCases: seq<TestCase>,
    codeStubs: seq<CodeStub>, editorial: Option<string>)

  datatype ProblemUpdate = ProblemUpdate(
    title: Option<string>, description: Option<string>, difficulty: Option<string>,
    testCases: Option<seq<TestCase>>, codeStubs: Option<seq<CodeStub>>, editorial: Option<string>)

  const Difficulties: set<string> := {"easy", "medium", "hard"}

  /** `z.string().trim()`. */
  function TrimmedString(v: JsValue): (r: Option<string>)
    ensures r.Some? <==> v.Str?
    ensures r.Some? ==> r.value == JsTrim(v.s)
  {
    if v.Str? then Some(JsTrim(v.s)) else None
  }

  /** `z.string().min(n).trim()`: the length is checked before trimming. */
  function MinThenTrim(v: JsValue, n: nat): (r: Option<string>)
    ensures r.Some? <==> v.Str? && |v.s| >= n
    ensures r.Some? ==> r.value == JsTrim(v.s)
  {
    if v.Str? && |v.s| >= n then Some(JsTrim(v.s)) else None
  }

  /** `z.enum([...])`: the value itself must be listed. */
  function Difficulty(v: JsValue): (r: Option<string>)
    ensures r.Some? <==> v.Str? && v.s in Difficulties
    ensures r.Some? ==> r.value == v.s
  {
    if v.Str? && v.s in Difficulties then Some(v.s) else None
  }

  /** `.optional()`: an absent key passes as absent; `null` does not. */
  function OptionalTrimmed(v: JsValue): (r: Option<Option<string>>)
    ensures r.Some? <==> v == Undefined || v.Str?
    ensures r.Some? && v.Str? ==> r.value == Some(JsTrim(v.s))
    ensures r.Some? && v == Undefined ==> r.value.None?
  {
    if v == Undefined then Some(None)
    else if v.Str? then Some(Some(JsTrim(v.s)))
    else None
  }

  function ParseTestCase(v: JsValue): (r: Option<TestCase>)
    ensures r.Some? <==> v.Obj? && Get(v, "input").Str? && Get(v, "output").Str?
  {
    if !v.Obj? then None
    else
      var input := TrimmedString(Get(v, "input"));
      var output := TrimmedString(Get(v, "output"));
      if input.Some? && output.Some? then Some(TestCase(input.value, output.value)) else None
  }

  predicate StubShape(v: JsValue) {
    && v.Obj? && Get(v, "language").Str? && Get(v, "startSnippet").Str? && Get(v, "endSnippet").Str?
    && (Get(v, "userSnippet") == Undefined || Get(v, "userSnippet").Str?)
  }

  function ParseCodeStub(v: JsValue): (r: Option<CodeStub>)
    ensures r.Some? <==> StubShape(v)
    ensures r.Some? ==> r.value.language == Lower(JsTrim(Get(v, "language").s))
  {
    if !v.Obj? then None
    else
      var language := TrimmedString(Get(v, "language"));
      var start := TrimmedString(Get(v, "startSnippet"));
      var user := OptionalTrimmed(Get(v, "userSnippet"));
      var end := TrimmedString(Get(v, "endSnippet"));
      if language.Some? && start.Some? && user.Some? && end.Some? then
        Some(CodeStub(Lower(language.value), start.value, user.value, end.value))
      else None
  }

  /** `z.array(item)`: every element must parse. */
  function ParseAll<T>(items: seq<JsValue>, parse: JsValue -> Option<T>): (r: Option<seq<T>>)
    ensures r.Some? <==> forall i :: 0 <= i < |items| ==> parse(items[i]).Some?
    ensures r.Some? ==> |r.value| == |items| && forall i :: 0 <= i < |items| ==> r.value[i] == parse(items[i]).value
  {
    if items == [] then Some([])
    else
      var head := parse(items[0]);
      var tail := ParseAll(items[1..], parse);
      assert forall i :: 0 < i < |items| ==> items[1..][i - 1] == items[i];
      if head.Some? && tail.Some? then Some([head.value] + tail.value) else None
  }

  /** `z.array(...).min(1)`. */
  function NonEmptyTestCases(v: JsValue): (r: Option<seq<TestCase>>)
    ensures r.Some? ==> |r.value| >= 1
  {
    if v.Arr? && |v.items| >= 1 then ParseAll(v.items, ParseTestCase) else None
  }

  function NonEmptyCodeStubs(v: JsValue): (r: Option<seq<CodeStub>>)
    ensures r.Some? ==> |r.value| >= 1
  {
    if v.Arr? && |v.items| >= 1 then ParseAll(v.items, ParseCodeStub) else None
  }

  /** Each key's own rule applied to the body's value for it. */
  datatype ParsedKeys = ParsedKeys(
    title: Option<string>, description: Option<string>, difficulty: Option<string>,
    testCases: Option<seq<TestCase>>, codeStubs: Option<seq<CodeStub>>, editorial: Option<Option<string>>)

  function ParseKeys(body: JsValue): ParsedKeys {
    ParsedKeys(MinThenTrim(Get(body, "title"), 3), MinThenTrim(Get(body, "description"), 1),
               Difficulty(Get(body, "difficulty")), NonEmptyTestCases(Get(body, "testCases")),
               NonEmptyCodeStubs(Get(body, "codeStubs")), OptionalTrimmed(Get(body, "editorial")))
  }

  /** `createProblemSchema.parse(body)`. */
  function ParseCreateProblem(body: JsValue): (r: Option<NewProblem>)
    ensures r.Some? ==> && |r.value.testCases| >= 1 && |r.value.codeStubs| >= 1
                        && r.value.difficulty in Difficulties
  {
    if !body.Obj? then None
    else
      var k := ParseKeys(body);
      if k.title.Some? && k.description.Some? && k.difficulty.Some? && k.testCases.Some? && k.codeStubs.Some? && k.editorial.Some? then
        Some(NewProblem(k.title.value, k.description.value, k.difficulty.value, k.testCases.value,
                        k.codeStubs.value, k.editorial.value))
      else None
  }

  /** The create schema's constraints stated directly. */
  predicate CreateShape(body: JsValue) {
    && body.Obj?
    && Get(body, "title").Str? && |Get(body, "title").s| >= 3
    && Get(body, "description").Str? && |Get(body, "description").s| >= 1
    && Get(body, "difficulty").Str? && Get(body, "difficulty").s in Difficulties
    && Get(body, "testCases").Arr? && |Get(body, "testCases").items| >= 1
    && (forall i :: 0 <= i < |Get(body, "testCases").items| ==> ParseTestCase(Get(body, "testCases").items[i]).Some?)
    && Get(body, "codeStubs").Arr? && |Get(body, "codeStubs").items| >= 1
    && (forall i :: 0 <= i < |Get(body, "codeStubs").items| ==> StubShape(Get(body, "codeStubs").items[i]))
    && (Get(body, "editorial") == Undefined || Get(body, "editorial").Str?)
  }

  lemma CreateAcceptedIff(body: JsValue)
    ensures ParseCreateProblem(body).Some? <==> CreateShape(body)
  {
  }

  /** `updateProblemSchema.parse(body)`: every key may be absent; a key
      that is present must meet the create schema's rule for it. */
  function ParseUpdateProblem(body: JsValue): (r: Option<ProblemUpdate>)
    ensures r.Some? ==> body.Obj?
    ensures r.Some? ==> && (r.value.title.Some? <==> Get(body, "title") != Undefined)
                        && (r.value.description.Some? <==> Get(body, "description") != Undefined)
                        && (r.value.difficulty.Some? <==> Get(body, "difficulty") != Undefined)
                        && (r.value.testCases.Some? <==> Get(body, "testCases") != Undefined)
                        && (r.value.codeStubs.Some? <==> Get(body, "codeStubs") != Undefined)
                        && (r.value.editorial.Some? <==> Get(body, "editorial") != Undefined)
    ensures r.Some? && r.value.title.Some? ==>
              Get(body, "title").Str? && |Get(body, "title").s| >= 3 && r.value.title.value == JsTrim(Get(body, "title").s)
    ensures r.Some? && r.value.description.Some? ==>
              Get(body, "description").Str? && |Get(body, "description").s| >= 1 && r.value.description.value == JsTrim(Get(body, "description").s)
    ensures r.Some? && r.value.difficulty.Some? ==> r.value.difficulty.value in Difficulties
    ensures r.Some? && r.value.testCases.Some? ==> |r.value.testCases.value| >= 1
    ensures r.Some? && r.value.codeStubs.Some? ==> |r.value.codeStubs.value| >= 1
    ensures r.Some? && r.value.editorial.Some? ==>
              Get(body, "editorial").Str? && r.value.editorial.value == JsTrim(Get(body, "editorial").s)
  {
    if !body.Obj? then None
    else
      var k := ParseKeys(body);
      var title := Optional(Get(body, "title"), k.title);
      var description := Optional(Get(body, "description"), k.description);
      var difficulty := Optional(Get(body, "difficulty"), k.difficulty);
      var testCases := Optional(Get(body, "testCases"), k.testCases);
      var codeStubs := Optional(Get(body, "codeStubs"), k.codeStubs);
      if title.Some? && description.Some? && difficulty.Some? && testCases.Some? && codeStubs.Some? && k.editorial.Some? then
        Some(ProblemUpdate(title.value, description.value, difficulty.value, testCases.value, codeStubs.value, k.editorial.value))
      else None
  }

  /** `.optional()` around a parser that refuses `undefined`: absent
      passes as absent. */
  function Optional<T>(v: JsValue, parsed: Option<T>): (r: Option<Option<T>>)
    ensures parsed.Some? ==> r == Some(parsed)
    ensures parsed.None? ==> (r.Some? <==> v == Undefined) && (r.Some? ==> r.value.None?)
  {
    if parsed.Some? then Some(parsed) else if v == Undefined then Some(None) else None
  }

  /** An empty update is valid and changes nothing. */
  lemma EmptyUpdateAccepted()
    ensures ParseUpdateProblem(Obj(map[])) == Some(ProblemUpdate(None, None, None, None, None, None))
  {
  }

  /** Whatever the create schema accepts, the update schema accepts with
      every field present and the same values. */
  lemma CreateBodyIsUpdate(body: JsValue)
    requires ParseCreateProblem(body).Some?
    ensures var p := ParseCreateProblem(body).value;
            ParseUpdateProblem(body) ==
              Some(ProblemUpdate(Some(p.title), Some(p.description), Some(p.difficulty),
                                 Some(p.testCases), Some(p.codeStubs), p.editorial))
  {
  }

  /** The update schema's constraints stated directly: an object whose
      every key is absent or meets the create schema's rule for it. */
  predicate UpdateShape(body: JsValue) {
    && body.Obj?
    && (Get(body, "title") == Undefined || (Get(body, "title").Str? && |Get(body, "title").s| >= 3))
    && (Get(body, "description") == Undefined || (Get(body, "description").Str? && |Get(body, "description").s| >= 1))
    && (Get(body, "difficulty") == Undefined || (Get(body, "difficulty").Str? && Get(body, "difficulty").s in Difficulties))
    && (Get(body, "testCases") == Undefined ||
          (&& Get(body, "testCases").Arr? && |Get(body, "testCases").items| >= 1
           && forall i :: 0 <= i < |Get(body, "testCases").items| ==> ParseTestCase(Get(body, "testCases").items[i]).Some?))
    && (Get(body, "codeStubs") == Undefined ||
          (&& Get(body, "codeStubs").Arr? && |Get(body, "codeStubs").items| >= 1
           && forall i :: 0 <= i < |Get(body, "codeStubs").items| ==> StubShape(Get(body, "codeStubs").items[i])))
    && (Get(body, "editorial") == Undefined || Get(body, "editorial").Str?)
  }

  /** A body is a valid update exactly when it meets those constraints. */
  lemma UpdateAcceptedIff(body: JsValue)
    ensures ParseUpdateProblem(body).Some? <==> UpdateShape(body)
  {
  }

  // ---------------------------------------------------------------- min before trim

  /** As written, the length rule sees the surrounding blanks: a title of
      one character padded to three is accepted, and so is a description
      of blanks only, which becomes empty. */
  lemma PaddedTitleAccepted()
    ensures MinThenTrim(Str("  a"), 3) == Some("a")
    ensures MinThenTrim(Str("   "), 1) == Some("")
  {
    PaddedLetterTrims();
    BlanksTrim();
  }

  lemma PaddedLetterTrims()
    ensures JsTrim("  a") == "a"
  {
    assert "  a"[1..] == " a" && " a"[1..] == "a";
    assert TrimStart("  a", JsIsSpace) == "a";
    assert TrimEnd("a", JsIsSpace) == "a";
  }

  lemma BlanksTrim()
    ensures JsTrim("   ") == ""
  {
    assert "   "[1..] == "  " && "  "[1..] == " " && " "[1..] == "";
    assert TrimStart("   ", JsIsSpace) == "";
  }

  /** `z.string().trim().min(n)`: the length of the trimmed text. */
  function TrimThenMin(v: JsValue, n: nat): (r: Option<string>)
    ensures r.Some? <==> v.Str? && |JsTrim(v.s)| >= n
    ensures r.Some? ==> r.value == JsTrim(v.s) && |r.value| >= n
  {
    if v.Str? && |JsTrim(v.s)| >= n then Some(JsTrim(v.s)) else None
  }

  /** With the rules in that order the stored text meets the minimum, and
      parsing the stored text again gives it back unchanged. */
  lemma TrimThenMinStable(v: JsValue, n: nat)
    requires TrimThenMin(v, n).Some?
    ensures |TrimThenMin(v, n).value| >= n
    ensures TrimThenMin(Str(TrimThenMin(v, n).value), n) == TrimThenMin(v, n)
  {
    TrimIdempotent(v.s, JsIsSpace);
  }
}
