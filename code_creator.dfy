/** `utils/codeCreator.js` of the submission service: the program run for
    a submission is the problem's start snippet, the user's code and the end
    snippet, one per line. */
module CodeCreator {

  function Combine(startSnippet: string, userCode: string, endSnippet: string): (code: string)
    ensures |code| == |startSnippet| + |userCode| + |endSnippet| + 2
    ensures code[..|startSnippet|] == startSnippet
    ensures code[|startSnippet|] == '\n' && code[|startSnippet| + 1 + |userCode|] == '\n'
    ensures code[|startSnippet| + 1..|startSnippet| + 1 + |userCode|] == userCode
    ensures code[|code| - |endSnippet|..] == endSnippet
  {
    startSnippet + "\n" + userCode + "\n" + endSnippet
  }

  /** For given snippets the user's code is determined by the result: two
      different submissions never assemble to the same program. */
  lemma UserCodeRecoverable(startSnippet: string, u1: string, u2: string, endSnippet: string)
    requires Combine(startSnippet, u1, endSnippet) == Combine(startSnippet, u2, endSnippet)
    ensures u1 == u2
  {
    var c := Combine(startSnippet, u1, endSnippet);
    assert u1 == c[|startSnippet| + 1..|startSnippet| + 1 + |u1|];
    assert u2 == c[|startSnippet| + 1..|startSnippet| + 1 + |u2|];
  }
}
