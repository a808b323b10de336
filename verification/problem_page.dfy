/**
 * The problem page: the starter function name derived from a title, the
 * client-side verdict loop that runs every test case through the run
 * endpoint, the local record of a solve, the submit gate and the choice of
 * the next problem.
 */
module ProblemPage {
  import opened Wrappers
  import Text
  import opened Models
  import opened Store
  import opened RunCode
  import Progress

  // ------------------------------------------------ function-name derivation

  predicate AllAlnum(w: string) {
    forall i :: 0 <= i < |w| ==> Text.IsAlnumAscii(w[i])
  }

  /** `replace(/[^a-zA-Z0-9\s]/g, " ")`: every other character becomes a space. */
  function Scrub(s: string): (r: string)
    ensures |r| == |s|
    ensures forall i :: 0 <= i < |s| ==> r[i] == (if Text.IsAlnumAscii(s[i]) || Text.IsSpace(s[i]) then s[i] else ' ')
  {
    if s == [] then []
    else [if Text.IsAlnumAscii(s[0]) || Text.IsSpace(s[0]) then s[0] else ' '] + Scrub(s[1..])
  }

  /**
   * `split(/\s+/)`: the pieces between runs of white space. A leading or
   * trailing run gives an empty first or last piece, and "" gives [""].
   */
  function SplitWs(s: string): (words: seq<string>)
    ensures |words| >= 1
  {
    if s == [] then [""]
    else
      var rest := SplitWs(s[1..]);
      if Text.IsSpace(s[0]) then
        (if s[1..] != [] && Text.IsSpace(s[1]) then rest else [""] + rest)
      else
        [[s[0]] + rest[0]] + rest[1..]
  }

  /** The words hold no white space, and only characters of the text. */
  lemma {:induction false} SplitWsChars(s: string)
    ensures forall k, i :: 0 <= k < |SplitWs(s)| && 0 <= i < |SplitWs(s)[k]| ==>
              !Text.IsSpace(SplitWs(s)[k][i]) && SplitWs(s)[k][i] in s
    decreases |s|
  {
    if s != [] {
      SplitWsChars(s[1..]);
      var rest := SplitWs(s[1..]);
      if !Text.IsSpace(s[0]) {
        var words := SplitWs(s);
        assert words == [[s[0]] + rest[0]] + rest[1..];
        forall k, i | 0 <= k < |words| && 0 <= i < |words[k]|
          ensures !Text.IsSpace(words[k][i]) && words[k][i] in s
        {
          if k == 0 {
            if i > 0 { assert words[0][i] == rest[0][i - 1]; }
          } else {
            assert words[k] == rest[k];
          }
        }
      }
    }
  }

  /** `w.charAt(0).toUpperCase() + w.slice(1)`. */
  function Capitalize(w: string): (r: string)
    ensures |r| == |w|
    ensures AllAlnum(w) ==> AllAlnum(r)
  {
    if w == [] then [] else [Text.UpperChar(w[0])] + w[1..]
  }

  /** `words.slice(1).map(capitalize).join("")`. */
  function CapJoin(words: seq<string>): (r: string)
    ensures (forall k :: 0 <= k < |words| ==> AllAlnum(words[k])) ==> AllAlnum(r)
  {
    if words == [] then "" else Capitalize(words[0]) + CapJoin(words[1..])
  }

  /** The words, lower-cased. */
  function LowerWords(words: seq<string>): (r: seq<string>)
    ensures |r| == |words|
    ensures forall k :: 0 <= k < |words| ==> r[k] == Text.ToLower(words[k])
  {
    seq(|words|, k requires 0 <= k < |words| => Text.ToLower(words[k]))
  }

  /** The first word as it stands, each later word capitalised, all run together. */
  function Camel(words: seq<string>): (r: string)
    requires |words| >= 1
    ensures (forall k :: 0 <= k < |words| ==> AllAlnum(words[k])) ==> AllAlnum(r)
  {
    words[0] + CapJoin(words[1..])
  }

  /** `/^[a-zA-Z]/.test(camel) ? camel : `solve${camel}``. */
  function StartWithLetter(camel: string): (r: string)
    ensures r != [] && Text.IsLetterAscii(r[0])
    ensures AllAlnum(camel) ==> AllAlnum(r)
    ensures camel != [] && Text.IsLetterAscii(camel[0]) ==> r == camel
    ensures !(camel != [] && Text.IsLetterAscii(camel[0])) ==> r == "solve" + camel
  {
    if camel != [] && Text.IsLetterAscii(camel[0]) then camel else "solve" + camel
  }

  /** The lower-cased words of a title once it is scrubbed and trimmed. */
  function TitleWords(title: string): (words: seq<string>)
    ensures |words| >= 1
  {
    LowerWords(SplitWs(Text.Trim(Scrub(title))))
  }

  /**
   * `deriveFunctionNameFromTitle`: a missing or empty title gives "solve";
   * otherwise the scrubbed, trimmed title's words are lower-cased and
   * camel-cased, and a result that does not start with a letter is prefixed
   * with "solve". The result is always a non-empty ASCII identifier that
   * starts with a letter.
   */
  function DeriveFunctionName(title: Option<string>): (r: string)
    ensures r != [] && Text.IsLetterAscii(r[0]) && AllAlnum(r)
  {
    if !Truthy(title) then "solve"
    else
      WordsAlnum(title.value);
      StartWithLetter(Camel(TitleWords(title.value)))
  }

  /** The characters of a scrubbed, trimmed title's words are letters and digits. */
  lemma ScrubbedWordsAlnum(title: string)
    ensures forall k :: 0 <= k < |SplitWs(Text.Trim(Scrub(title)))| ==> AllAlnum(SplitWs(Text.Trim(Scrub(title)))[k])
  {
    var t := Text.Trim(Scrub(title));
    var words := SplitWs(t);
    SplitWsChars(t);
    forall k, i | 0 <= k < |words| && 0 <= i < |words[k]|
      ensures Text.IsAlnumAscii(words[k][i])
    {
      assert words[k][i] in t;
    }
  }

  /** Lower-casing keeps a word alphanumeric. */
  lemma LowerAlnum(w: string)
    requires AllAlnum(w)
    ensures AllAlnum(Text.ToLower(w))
  {
  }

  /** Every lower-cased word of a scrubbed title holds only ASCII letters and digits. */
  lemma WordsAlnum(title: string)
    ensures forall k :: 0 <= k < |TitleWords(title)| ==> AllAlnum(TitleWords(title)[k])
  {
    var words := SplitWs(Text.Trim(Scrub(title)));
    ScrubbedWordsAlnum(title);
    forall k | 0 <= k < |words|
      ensures AllAlnum(Text.ToLower(words[k]))
    {
      LowerAlnum(words[k]);
    }
  }

  /** A title with no letter or digit in it gives "solve"; so does a missing or empty one. */
  lemma NoAlnumGivesSolve(title: Option<string>)
    requires title.Some? ==> forall i :: 0 <= i < |title.value| ==> !Text.IsAlnumAscii(title.value[i])
    ensures DeriveFunctionName(title) == "solve"
  {
    if Truthy(title) {
      var s := Scrub(title.value);
      Text.TrimAllSpace(s);
      assert SplitWs("") == [""];
      assert LowerWords([""]) == [""];
      assert CapJoin([]) == "";
      assert Camel([""]) == "";
    }
  }

  /** Scrubbing leaves a title of letters, digits and white space as it is. */
  lemma {:induction false} ScrubKeeps(s: string)
    requires forall i :: 0 <= i < |s| ==> Text.IsAlnumAscii(s[i]) || Text.IsSpace(s[i])
    ensures Scrub(s) == s
  {
    assert forall i :: 0 <= i < |s| ==> Scrub(s)[i] == s[i];
  }

  /** A text with no white space is one word. */
  lemma {:induction false} SplitWsWord(w: string)
    requires forall i :: 0 <= i < |w| ==> !Text.IsSpace(w[i])
    ensures SplitWs(w) == [w]
    decreases |w|
  {
    if w != [] {
      SplitWsWord(w[1..]);
      assert [w[0]] + w[1..] == w;
    }
  }

  /** A word followed by a single space starts the word list. */
  lemma {:induction false} SplitWsPair(a: string, b: string)
    requires forall i :: 0 <= i < |a| ==> !Text.IsSpace(a[i])
    requires b == [] || !Text.IsSpace(b[0])
    ensures SplitWs(a + [' '] + b) == [a] + SplitWs(b)
    decreases |a|
  {
    var s := a + [' '] + b;
    if a == [] {
      assert s[1..] == b;
    } else {
      assert s[1..] == a[1..] + [' '] + b;
      SplitWsPair(a[1..], b);
      assert [a[0]] + a[1..] == a;
    }
  }

  /** An alphanumeric character is not white space. */
  lemma AlnumNotSpace(w: string)
    requires AllAlnum(w)
    ensures forall i :: 0 <= i < |w| ==> !Text.IsSpace(w[i])
  {
  }

  /** An alphanumeric word is the one word of its own title. */
  lemma OneWordTitle(w: string)
    requires w != [] && AllAlnum(w)
    ensures TitleWords(w) == [Text.ToLower(w)]
  {
    AlnumNotSpace(w);
    ScrubKeeps(w);
    Text.TrimTrimmed(w);
    SplitWsWord(w);
    CleanTitleWords(w);
  }

  /** Two alphanumeric words and a space between them survive scrubbing and trimming. */
  lemma PairScrubbed(a: string, b: string)
    requires a != [] && AllAlnum(a)
    requires b != [] && AllAlnum(b)
    ensures Text.Trim(Scrub(a + [' '] + b)) == a + [' '] + b
  {
    var s := a + [' '] + b;
    PairCharsKept(a, b);
    ScrubKeeps(s);
    PairTrimmed(a, b);
    Text.TrimTrimmed(s);
  }

  /** Every character of two alphanumeric words joined by a space survives scrubbing. */
  lemma PairCharsKept(a: string, b: string)
    requires AllAlnum(a) && AllAlnum(b)
    ensures var s := a + [' '] + b;
            forall i :: 0 <= i < |s| ==> Text.IsAlnumAscii(s[i]) || Text.IsSpace(s[i])
  {
    var s := a + [' '] + b;
    forall i | 0 <= i < |s|
      ensures Text.IsAlnumAscii(s[i]) || Text.IsSpace(s[i])
    {
      if i < |a| { assert s[i] == a[i]; }
      else if i > |a| { assert s[i] == b[i - |a| - 1]; }
    }
  }

  /** Two non-empty alphanumeric words joined by a space have nothing to trim. */
  lemma PairTrimmed(a: string, b: string)
    requires a != [] && AllAlnum(a)
    requires b != [] && AllAlnum(b)
    ensures Text.IsTrimmed(a + [' '] + b)
  {
    var s := a + [' '] + b;
    AlnumNotSpace(a);
    AlnumNotSpace(b);
    assert s[0] == a[0] && s[|s| - 1] == b[|b| - 1];
  }

  /** Two alphanumeric words with a space between them split into those two words. */
  lemma SplitWsTwo(a: string, b: string)
    requires a != [] && AllAlnum(a)
    requires b != [] && AllAlnum(b)
    ensures SplitWs(a + [' '] + b) == [a, b]
  {
    AlnumNotSpace(a);
    AlnumNotSpace(b);
    SplitWsPair(a, b);
    SplitWsWord(b);
  }

  /** A title that scrubbing and trimming leave alone has its own split words, lower-cased. */
  lemma CleanTitleWords(s: string)
    requires Text.Trim(Scrub(s)) == s
    ensures TitleWords(s) == LowerWords(SplitWs(s))
  {
  }

  /** Two alphanumeric words and a space between them are the two words of that title. */
  lemma TwoWordTitle(a: string, b: string)
    requires a != [] && AllAlnum(a)
    requires b != [] && AllAlnum(b)
    ensures TitleWords(a + [' '] + b) == [Text.ToLower(a), Text.ToLower(b)]
  {
    PairScrubbed(a, b);
    SplitWsTwo(a, b);
    CleanTitleWords(a + [' '] + b);
    LowerPair(a, b);
  }

  /** Lower-casing a pair of words lower-cases each. */
  lemma LowerPair(a: string, b: string)
    ensures LowerWords([a, b]) == [Text.ToLower(a), Text.ToLower(b)]
  {
  }

  /**
   * A one-word title is lower-cased, and prefixed with "solve" when it starts
   * with a digit: "3Sum" gives "solve3sum".
   */
  lemma OneWordName(w: string)
    requires w != [] && AllAlnum(w)
    ensures Text.IsLetterAscii(w[0]) ==> DeriveFunctionName(Some(w)) == Text.ToLower(w)
    ensures Text.IsDigitAscii(w[0]) ==> DeriveFunctionName(Some(w)) == "solve" + Text.ToLower(w)
  {
    OneWordTitle(w);
    var only := [Text.ToLower(w)];
    assert only[1..] == [];
    assert Camel(only) == Text.ToLower(w);
  }

  /** Two words camel-case to the first followed by the second capitalised. */
  lemma CamelOfTwo(x: string, y: string)
    ensures Camel([x, y]) == x + Capitalize(y)
  {
    var second := [y];
    assert [x, y][1..] == second && second[1..] == [];
    assert CapJoin(second) == Capitalize(y) + CapJoin([]);
  }

  /**
   * Two words separated by a space are camel-cased, the first lower-cased and
   * the second capitalised after lower-casing: "Two Sum" gives "twoSum".
   */
  lemma TwoWordName(a: string, b: string)
    requires a != [] && AllAlnum(a) && Text.IsLetterAscii(a[0])
    requires b != [] && AllAlnum(b)
    ensures DeriveFunctionName(Some(a + [' '] + b)) == Text.ToLower(a) + Capitalize(Text.ToLower(b))
  {
    TwoWordTitle(a, b);
    assert Text.ToLower(a)[0] == Text.LowerChar(a[0]);
    NameOfTwoWords(a + [' '] + b, Text.ToLower(a), Text.ToLower(b));
  }

  /** A title whose words are x and y, x starting with a letter, is named x followed by y capitalised. */
  lemma NameOfTwoWords(title: string, x: string, y: string)
    requires title != [] && TitleWords(title) == [x, y]
    requires x != [] && Text.IsLetterAscii(x[0])
    ensures DeriveFunctionName(Some(title)) == x + Capitalize(y)
  {
    CamelOfTwo(x, y);
  }

  /**
   * The starter's function name: the problem's own functionName unless it is
   * missing, empty or "solve", and otherwise the name derived from the title.
   */
  function PreferredName(functionName: Option<string>, title: Option<string>): (r: string)
    ensures r != []
    ensures Truthy(functionName) && functionName.value != "solve" ==> r == functionName.value
    ensures !(Truthy(functionName) && functionName.value != "solve") ==>
              r == DeriveFunctionName(title) && Text.IsLetterAscii(r[0]) && AllAlnum(r)
  {
    if Truthy(functionName) && functionName.value != "solve" then functionName.value
    else DeriveFunctionName(title)
  }

  // ---------------------------------------------------------- verdict loop

  /** An entry of the page's language picker. */
  datatype Language = Language(id: int, name: string, monacoLang: string)

  const JavaScript := Language(63, "JavaScript", "javascript")
  const Java := Language(62, "Java", "java")
  const Python := Language(71, "Python", "python")
  const Cpp := Language(54, "C++", "cpp")

  const Languages: seq<Language> := [JavaScript, Java, Python, Cpp]

  /** A test case together with what the run gave for it. */
  datatype TestResult = TestResult(input: string, expectedOutput: string, output: string, passed: bool)

  /** What the run button produces: nothing when there are no test cases, else one result per case. */
  datatype RunVerdict = NoTestCases | Ran(results: seq<TestResult>, allPassed: bool)

  /** The request the page sends for one test case. */
  function CaseRequest(tc: TestCase, code: string, lang: Language): RunRequest {
    RunRequest(Some(code), Some(Text.ToLower(lang.name)), Some(tc.input))
  }

  /**
   * One iteration of the loop: a 200 response is trimmed and compared with
   * the trimmed expected output; any other response is a thrown request,
   * recorded as output "Error" and not passed.
   */
  function CaseResult(tc: TestCase, code: string, lang: Language, reply: JudgeReply): (r: TestResult)
    ensures r.input == tc.input && r.expectedOutput == tc.expectedOutput
    ensures r.passed <==>
              Run(CaseRequest(tc, code, lang), reply).status == 200 &&
              Text.Trim(Run(CaseRequest(tc, code, lang), reply).output) == Text.Trim(tc.expectedOutput)
    ensures Run(CaseRequest(tc, code, lang), reply).status != 200 ==> r.output == "Error" && !r.passed
  {
    var response := Run(CaseRequest(tc, code, lang), reply);
    if response.status == 200 then
      var cleaned := Text.Trim(response.output);
      TestResult(tc.input, tc.expectedOutput, cleaned, cleaned == Text.Trim(tc.expectedOutput))
    else
      TestResult(tc.input, tc.expectedOutput, "Error", false)
  }

  /**
   * `handleRunCode`: with no test cases, nothing is run. Otherwise every test
   * case is sent in order (the judge's reply for case i is `replies[i]`), a
   * failed case does not stop the loop, and the verdict holds iff every case
   * passed.
   */
  method HandleRunCode(cases: seq<TestCase>, code: string, lang: Language, replies: seq<JudgeReply>)
    returns (v: RunVerdict)
    requires |replies| == |cases|
    ensures v.NoTestCases? <==> cases == []
    ensures v.Ran? ==> |v.results| == |cases|
    ensures v.Ran? ==> forall i :: 0 <= i < |cases| ==> v.results[i] == CaseResult(cases[i], code, lang, replies[i])
    ensures v.Ran? ==> (v.allPassed <==> forall i :: 0 <= i < |v.results| ==> v.results[i].passed)
  {
    if |cases| == 0 {
      return NoTestCases;
    }
    var results: seq<TestResult> := [];
    var k := 0;
    while k < |cases|
      invariant 0 <= k <= |cases|
      invariant |results| == k
      invariant forall i :: 0 <= i < k ==> results[i] == CaseResult(cases[i], code, lang, replies[i])
    {
      results := results + [CaseResult(cases[k], code, lang, replies[k])];
      k := k + 1;
    }
    var allPass := forall i :: 0 <= i < |results| ==> results[i].passed;
    v := Ran(results, allPass);
  }

  /**
   * The C++ entry sends the language "c++", which the run endpoint's table
   * does not know: every C++ case comes back as "Error" and fails.
   */
  lemma CppAlwaysFails(tc: TestCase, code: string, reply: JudgeReply)
    ensures CaseResult(tc, code, Cpp, reply) == TestResult(tc.input, tc.expectedOutput, "Error", false)
  {
    assert Text.ToLower("C++") == "c++";
    assert Text.ToLower("c++") == "c++";
  }

  /**
   * For a language the run endpoint knows, a case whose judged stdout
   * matches the expected output up to surrounding white space passes.
   */
  lemma MatchingStdoutPasses(tc: TestCase, code: string, lang: Language, stdout: string)
    requires code != [] && LanguageId(Text.ToLower(lang.name)).Some?
    requires Text.Trim(stdout) != [] && Text.Trim(stdout) == Text.Trim(tc.expectedOutput)
    ensures CaseResult(tc, code, lang, Judged(Some(stdout), None, None)).passed
  {
    var req := CaseRequest(tc, code, lang);
    assert Call(req).Some?;
    StdoutAnswered(req, stdout);
  }

  /** A judged run whose stdout is not blank answers 200 with that stdout. */
  lemma StdoutAnswered(req: RunRequest, stdout: string)
    requires Call(req).Some? && Text.Trim(stdout) != []
    ensures Run(req, Judged(Some(stdout), None, None)) == RunResponse(200, stdout)
  {
    assert stdout != [] by {
      assert Text.Trim(stdout)[0] in Text.Trim(stdout);
    }
    assert Output(Some(stdout), None, None) == stdout;
  }

  // ------------------------------------------------------ recording a solve

  /** The local record the page asks for: problem, language name and solve time. */
  datatype LocalRecord = LocalRecord(problemId: Id, language: string, solveTime: Option<int>)

  /** `solveStartTime ? now - solveStartTime : null`. */
  function SolveTime(start: Option<int>, now: int): (r: Option<int>)
    ensures r.Some? <==> TruthyNum(start)
    ensures r.Some? ==> r.value + start.value == now
  {
    if TruthyNum(start) then Some(now - start.value) else None
  }

  /**
   * After a run: when every case passed and the problem is not already in
   * the cached solved list, the solve is recorded locally.
   */
  function AfterRun(v: RunVerdict, solvedIds: seq<Id>, problemId: Id, lang: Language,
                    start: Option<int>, now: int): (r: Option<LocalRecord>)
    ensures r.Some? <==> v.Ran? && v.allPassed && problemId !in solvedIds
    ensures r.Some? ==> r.value == LocalRecord(problemId, lang.name, SolveTime(start, now))
  {
    if v.Ran? && v.allPassed && problemId !in solvedIds then
      Some(LocalRecord(problemId, lang.name, SolveTime(start, now)))
    else None
  }

  /** `handleSubmit`: refused unless the last run passed; else the progress request is sent. */
  function SubmitRequest(allPassed: bool, user: Option<string>, problemId: Id, lang: Language,
                         start: Option<int>, now: int): (r: Option<Progress.SolveRequest>)
    ensures r.None? <==> !allPassed
    ensures r.Some? ==> r.value.userId == None && r.value.username == user
    ensures r.Some? ==> r.value.problemId == Some(problemId) && r.value.language == Some(lang.name)
    ensures r.Some? ==> r.value.solveTime == SolveTime(start, now)
  {
    if !allPassed then None
    else Some(Progress.SolveRequest(None, user, Some(problemId), Some(lang.name), SolveTime(start, now)))
  }

  /**
   * A submitted request for a non-empty problem id from a signed-in user
   * passes the progress endpoint's field check.
   */
  lemma SubmittedRequestComplete(user: string, problemId: Id, lang: Language, start: Option<int>, now: int)
    requires user != [] && problemId != []
    ensures SubmitRequest(true, Some(user), problemId, lang, start, now).Some?
    ensures !Progress.MissesFields(SubmitRequest(true, Some(user), problemId, lang, start, now).value)
  {
  }

  // ----------------------------------------------------------- next problem

  /**
   * `handleNextQuestion`: the entry after the current problem's first
   * occurrence; when the current problem is not listed (index -1) the first
   * entry; when it is the last entry, none.
   */
  function NextProblem(ids: seq<Id>, current: Id): (r: Option<Id>)
    ensures r.Some? ==> r.value in ids
    ensures current !in ids ==> r == (if ids == [] then None else Some(ids[0]))
  {
    match IndexWhere(ids, (p: Id) => p == current)
    case None => if ids == [] then None else Some(ids[0])
    case Some(i) => if i + 1 < |ids| then Some(ids[i + 1]) else None
  }

  /** With distinct ids, the next problem after entry i is entry i + 1, and the last has none. */
  lemma NextFollowsOrder(ids: seq<Id>, i: nat)
    requires forall a, b :: 0 <= a < b < |ids| ==> ids[a] != ids[b]
    requires i < |ids|
    ensures NextProblem(ids, ids[i]) == if i + 1 < |ids| then Some(ids[i + 1]) else None
  {
    var found := IndexWhere(ids, (p: Id) => p == ids[i]);
    assert found.Some?;
    assert found.value == i;
  }
}
