/**
 * The code-running endpoint (`runCode`): request validation, the
 * language table, the call to the Judge0 service, and the choice of the
 * output string. The judge itself is outside the model: its reply is a
 * parameter, consulted only when a call is made.
 */
module RunCode {
  import opened Wrappers
  import Text

  datatype RunRequest = RunRequest(code: Option<string>, language: Option<string>, stdin: Option<string>)

  /**
   * The `language_id` the judge is sent: a table entry's number, or, for a
   * key every object inherits, a function value (dropped when the body is
   * serialised) or `Object.prototype` (serialised as `{}`).
   */
  datatype LanguageField = Number(id: int) | Dropped | EmptyObject

  /** What the judge is sent. */
  datatype JudgeCall = JudgeCall(sourceCode: string, languageId: LanguageField, stdin: string)

  /** What the judge answers: the three output fields, or a failed request. */
  datatype JudgeReply =
    | JudgeFailed
    | Judged(stdout: Option<string>, stderr: Option<string>, compileOutput: Option<string>)

  datatype RunResponse = RunResponse(status: int, output: string)

  const MissingMessage := "Code or language is missing"
  const UnsupportedMessage := "Unsupported language"
  const FailureMessage := "Error running code. Check your code or API key."
  const NoOutput := "No output"
  const SuccessSentinel := "Success \U{2705}"

  /** The table's own keys. */
  const Languages: set<string> := {"javascript", "python", "java", "cpp", "c"}

  /**
   * `languageMap[name.toLowerCase()]` on the plain-object table: the own
   * entries, and the two lower-case keys inherited from `Object.prototype`
   * ("constructor", a function, and "__proto__", the prototype object),
   * which are truthy and pass the endpoint's check; None is `undefined`.
   */
  function LanguageId(name: string): (r: Option<LanguageField>)
    ensures r.Some? <==> Text.ToLower(name) in Languages + {"constructor", "__proto__"}
    ensures r.Some? && r.value.Number? <==> Text.ToLower(name) in Languages
    ensures Text.ToLower(name) == "javascript" ==> r == Some(Number(63))
    ensures Text.ToLower(name) == "python" ==> r == Some(Number(71))
    ensures Text.ToLower(name) == "java" ==> r == Some(Number(62))
    ensures Text.ToLower(name) == "cpp" ==> r == Some(Number(54))
    ensures Text.ToLower(name) == "c" ==> r == Some(Number(50))
    ensures Text.ToLower(name) == "constructor" ==> r == Some(Dropped)
    ensures Text.ToLower(name) == "__proto__" ==> r == Some(EmptyObject)
  {
    var key := Text.ToLower(name);
    if key == "javascript" then Some(Number(63))
    else if key == "python" then Some(Number(71))
    else if key == "java" then Some(Number(62))
    else if key == "cpp" then Some(Number(54))
    else if key == "c" then Some(Number(50))
    else if key == "constructor" then Some(Dropped)
    else if key == "__proto__" then Some(EmptyObject)
    else None
  }

  /** The call the endpoint makes, or None when it answers 400 without calling the judge. */
  function Call(req: RunRequest): (r: Option<JudgeCall>)
    ensures r.Some? <==> Truthy(req.code) && Truthy(req.language) && LanguageId(req.language.value).Some?
    ensures r.Some? ==> r.value.sourceCode == req.code.value
    ensures r.Some? ==> r.value.stdin == (if Truthy(req.stdin) then req.stdin.value else "")
  {
    if !Truthy(req.code) || !Truthy(req.language) then None
    else match LanguageId(req.language.value)
      case None => None
      case Some(id) => Some(JudgeCall(req.code.value, id, if Truthy(req.stdin) then req.stdin.value else ""))
  }

  /** `stdout || stderr || compile_output || "No output"`: the first set field. */
  function FirstOutput(stdout: Option<string>, stderr: Option<string>, compileOutput: Option<string>): (r: string)
    ensures r != ""
    ensures Truthy(stdout) ==> r == stdout.value
    ensures !Truthy(stdout) && Truthy(stderr) ==> r == stderr.value
    ensures !Truthy(stdout) && !Truthy(stderr) && Truthy(compileOutput) ==> r == compileOutput.value
    ensures !Truthy(stdout) && !Truthy(stderr) && !Truthy(compileOutput) ==> r == NoOutput
  {
    if Truthy(stdout) then stdout.value
    else if Truthy(stderr) then stderr.value
    else if Truthy(compileOutput) then compileOutput.value
    else NoOutput
  }

  /**
   * The first set field, replaced by the success sentinel when it is blank
   * and neither stderr nor compile output is set.
   */
  function Output(stdout: Option<string>, stderr: Option<string>, compileOutput: Option<string>): (r: string)
    ensures r != ""
  {
    var output := FirstOutput(stdout, stderr, compileOutput);
    if Text.Trim(output) == "" && !Truthy(stderr) && !Truthy(compileOutput) then SuccessSentinel else output
  }

  /** The endpoint's response, given what the judge would answer. */
  function Run(req: RunRequest, reply: JudgeReply): (r: RunResponse)
    ensures !Truthy(req.code) || !Truthy(req.language) ==> r == RunResponse(400, MissingMessage)
    ensures Truthy(req.code) && Truthy(req.language) && LanguageId(req.language.value).None? ==>
              r == RunResponse(400, UnsupportedMessage)
    ensures Call(req).Some? && reply.JudgeFailed? ==> r == RunResponse(500, FailureMessage)
    ensures r.status == 200 <==> Call(req).Some? && reply.Judged?
    ensures Call(req).Some? && reply.Judged? ==> r.output == Output(reply.stdout, reply.stderr, reply.compileOutput)
  {
    if !Truthy(req.code) || !Truthy(req.language) then RunResponse(400, MissingMessage)
    else if LanguageId(req.language.value).None? then RunResponse(400, UnsupportedMessage)
    else match reply
      case JudgeFailed => RunResponse(500, FailureMessage)
      case Judged(out, err, compile) => RunResponse(200, Output(out, err, compile))
  }

  /** A non-empty stdout is the output, whatever stderr holds, unless it is blank. */
  lemma StdoutMasksStderr(stdout: string, stderr: Option<string>, compileOutput: Option<string>)
    requires stdout != ""
    ensures Output(Some(stdout), stderr, compileOutput) ==
              if Text.Trim(stdout) == "" && !Truthy(stderr) && !Truthy(compileOutput) then SuccessSentinel else stdout
  {
  }

  /**
   * The sentinel replaces the output exactly when stdout is set but blank
   * and neither stderr nor compile output is set; with no field set the
   * output is "No output".
   */
  lemma SentinelIff(stdout: Option<string>, stderr: Option<string>, compileOutput: Option<string>)
    ensures Output(stdout, stderr, compileOutput) ==
              if Truthy(stdout) && Text.Trim(stdout.value) == "" && !Truthy(stderr) && !Truthy(compileOutput)
              then SuccessSentinel else FirstOutput(stdout, stderr, compileOutput)
    ensures !Truthy(stdout) && !Truthy(stderr) && !Truthy(compileOutput) ==>
              Output(stdout, stderr, compileOutput) == NoOutput
  {
    Text.TrimTrimmed(NoOutput);
  }

  /** The judge is not consulted when no call is made: the response does not depend on its reply. */
  lemma NoCallNoReply(req: RunRequest, reply1: JudgeReply, reply2: JudgeReply)
    requires Call(req).None?
    ensures Run(req, reply1) == Run(req, reply2) && Run(req, reply1).status == 400
  {
  }

  /**
   * A language named like a key inherited from `Object.prototype` is not
   * refused as unsupported: the judge is called without a numeric id, and
   * the response is whatever its reply makes of that.
   */
  lemma InheritedKeyCallsJudge(code: string, language: string, stdin: Option<string>, reply: JudgeReply)
    requires code != [] && Text.ToLower(language) in {"constructor", "__proto__"}
    ensures var req := RunRequest(Some(code), Some(language), stdin);
            && Call(req).Some? && !Call(req).value.languageId.Number?
            && Run(req, reply).status == if reply.Judged? then 200 else 500
  {
    assert |language| == |Text.ToLower(language)| > 0;
  }
}
