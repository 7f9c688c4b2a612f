/** `utils/ExecutorFactory.ts` of the evaluator: the executor for a
    language name, compared after lowercasing. */
module ExecutorFactory {
  import opened Common

  datatype Executor = PythonExecutor | JavaExecutor | CppExecutor

  const Python: string := "python"
  const Java: string := "java"
  const Cpp: string := "cpp"

  /** `createExecutor(codeLanguage)`, with `None` for `null`. */
  function CreateExecutor(codeLanguage: string): (r: Option<Executor>)
    ensures r == Some(PythonExecutor) <==> Lower(codeLanguage) == Python
    ensures r == Some(JavaExecutor) <==> Lower(codeLanguage) == Java
    ensures r == Some(CppExecutor) <==> Lower(codeLanguage) == Cpp
    ensures r.None? <==> Lower(codeLanguage) !in {Python, Java, Cpp}
  {
    var l := Lower(codeLanguage);
    if l == Python then Some(PythonExecutor)
    else if l == Java then Some(JavaExecutor)
    else if l == Cpp then Some(CppExecutor)
    else None
  }

  /** The dispatch ignores case. */
  lemma DispatchIgnoresCase(codeLanguage: string)
    ensures CreateExecutor(Lower(codeLanguage)) == CreateExecutor(codeLanguage)
  {
    LowerIdempotent(codeLanguage);
  }
}
