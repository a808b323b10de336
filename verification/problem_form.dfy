/**
 * The admin's problem editor: a form of plain text fields, the parser that
 * turns it into a request payload (tags separated by commas; examples and
 * test cases one per line, fields separated by '|'), the serialiser that
 * fills the form from a stored problem, the submit guard and the reset.
 */
module ProblemForm {
  import opened Wrappers
  import Text
  import opened Models

  /** The editor's text fields. */
  datatype Form = Form(
    title: string,
    functionName: string,
    inputSignature: string,
    description: string,
    difficulty: string,
    tags: string,
    constraints: string,
    solution: string,
    examples: string,
    testCases: string)

  /** The form together with the id of the problem being edited, if any. */
  datatype Editor = Editor(form: Form, editId: Option<Id>)

  /** What the form holds when the page opens and after a reset. */
  const InitialForm := Form("", "solve", "string", "", "Easy", "", "", "", "", "")

  /** The body sent to the create and update endpoints. */
  datatype Payload = Payload(
    title: string,
    functionName: string,
    inputSignature: string,
    description: string,
    difficulty: string,
    tags: seq<string>,
    constraints: string,
    solution: string,
    examples: seq<Example>,
    testCases: seq<TestCase>)

  // ------------------------------------------------------------- parsing

  /** `parts[i]?.trim() || ''`: the trimmed i-th field, or "" when the line has fewer. */
  function Field(parts: seq<string>, i: nat): (r: string)
    ensures Text.IsTrimmed(r)
    ensures i >= |parts| ==> r == ""
    ensures i < |parts| ==> r == Text.Trim(parts[i])
  {
    if i < |parts| then Text.Trim(parts[i]) else ""
  }

  /** One test-case line: the first two '|'-separated fields, kept only when both are non-empty. */
  function ParseTestCaseLine(line: string): (r: Option<TestCase>)
    ensures r.Some? <==> Field(Text.Split(line, '|'), 0) != "" && Field(Text.Split(line, '|'), 1) != ""
    ensures r.Some? ==> r.value.input != "" && r.value.expectedOutput != ""
    ensures r.Some? ==> Text.IsTrimmed(r.value.input) && Text.IsTrimmed(r.value.expectedOutput)
  {
    var parts := Text.Split(line, '|');
    var input := Field(parts, 0);
    var expected := Field(parts, 1);
    if input != "" && expected != "" then Some(TestCase(input, expected)) else None
  }

  /** Every line parsed, the dropped ones left out, in order. */
  function KeepParsed<T>(lines: seq<string>, parse: string -> Option<T>): (r: seq<T>)
    ensures |r| <= |lines|
  {
    if lines == [] then []
    else
      var head := match parse(lines[0])
        case Some(x) => [x]
        case None => [];
      head + KeepParsed(lines[1..], parse)
  }

  /** The test-case field, one case per '\n' line: an empty field gives no test cases. */
  function ParseTestCases(text: string): (r: seq<TestCase>)
    ensures text == "" ==> r == []
  {
    if text == "" then [] else KeepParsed(Text.Split(text, '\n'), ParseTestCaseLine)
  }

  /** One example line: three fields, kept when input and output are non-empty; the explanation may be "". */
  function ParseExampleLine(line: string): (r: Option<Example>)
    ensures r.Some? <==> Field(Text.Split(line, '|'), 0) != "" && Field(Text.Split(line, '|'), 1) != ""
    ensures r.Some? ==> r.value.input.Some? && r.value.output.Some? && r.value.explanation.Some?
    ensures r.Some? ==> r.value.input.value != "" && r.value.output.value != ""
    ensures r.Some? ==> Text.IsTrimmed(r.value.input.value) && Text.IsTrimmed(r.value.output.value)
                        && Text.IsTrimmed(r.value.explanation.value)
  {
    var parts := Text.Split(line, '|');
    var input := Field(parts, 0);
    var output := Field(parts, 1);
    if input != "" && output != "" then Some(Example(Some(input), Some(output), Some(Field(parts, 2)))) else None
  }

  /** The example field, one example per '\n' line. */
  function ParseExamples(text: string): (r: seq<Example>)
    ensures text == "" ==> r == []
  {
    if text == "" then [] else KeepParsed(Text.Split(text, '\n'), ParseExampleLine)
  }

  /** The comma-separated pieces, trimmed, with the empty ones dropped. */
  function CleanTags(pieces: seq<string>): (r: seq<string>)
    ensures |r| <= |pieces|
  {
    if pieces == [] then []
    else
      var t := Text.Trim(pieces[0]);
      (if t == "" then [] else [t]) + CleanTags(pieces[1..])
  }

  /** The tag field: an empty field gives no tags. */
  function ParseTags(text: string): (r: seq<string>)
    ensures text == "" ==> r == []
  {
    if text == "" then [] else CleanTags(Text.Split(text, ','))
  }

  /**
   * `buildPayload`: the text fields trimmed; an empty function name or input
   * signature takes its default before trimming, so a blank one becomes "".
   */
  function BuildPayload(f: Form): (r: Payload)
    ensures Text.IsTrimmed(r.title) && Text.IsTrimmed(r.description)
    ensures Text.IsTrimmed(r.constraints) && Text.IsTrimmed(r.solution)
    ensures r.title == Text.Trim(f.title) && r.description == Text.Trim(f.description)
    ensures r.constraints == Text.Trim(f.constraints) && r.solution == Text.Trim(f.solution)
    ensures f.functionName == "" ==> r.functionName == "solve"
    ensures f.functionName != "" ==> r.functionName == Text.Trim(f.functionName)
    ensures f.inputSignature == "" ==> r.inputSignature == "string"
    ensures f.inputSignature != "" ==> r.inputSignature == Text.Trim(f.inputSignature)
    ensures r.difficulty == f.difficulty
    ensures f.tags == "" ==> r.tags == []
    ensures f.examples == "" ==> r.examples == []
    ensures f.testCases == "" ==> r.testCases == []
  {
    Text.TrimTrimmed("solve");
    Text.TrimTrimmed("string");
    Payload(
      Text.Trim(f.title),
      Text.Trim(if f.functionName == "" then "solve" else f.functionName),
      Text.Trim(if f.inputSignature == "" then "string" else f.inputSignature),
      Text.Trim(f.description),
      f.difficulty,
      ParseTags(f.tags),
      Text.Trim(f.constraints),
      Text.Trim(f.solution),
      ParseExamples(f.examples),
      ParseTestCases(f.testCases))
  }

  // ------------------------------------------------------ what parsing gives

  /** A string fit to be a field of the line format: no separator, no line break. */
  predicate Plain(s: string) {
    '|' !in s && '\n' !in s
  }

  /** A test case the line format can carry unchanged. */
  predicate RoundTrippable(tc: TestCase) {
    && Plain(tc.input) && Plain(tc.expectedOutput)
    && tc.input != "" && tc.expectedOutput != ""
    && Text.IsTrimmed(tc.input) && Text.IsTrimmed(tc.expectedOutput)
  }

  /** A tag the comma format can carry unchanged. */
  predicate CleanTag(t: string) {
    t != "" && Text.IsTrimmed(t) && ',' !in t
  }

  /** A field of a line without line breaks is plain. */
  lemma FieldPlain(line: string, i: nat)
    requires '\n' !in line
    ensures Plain(Field(Text.Split(line, '|'), i))
  {
    var parts := Text.Split(line, '|');
    if i < |parts| {
      assert parts[i] in parts;
      var f := Text.Trim(parts[i]);
      forall c | c in f
        ensures c in line
      {
        assert c in parts[i];
        SplitPieceChars(line, '|', i);
      }
    }
  }

  /** The characters of a piece of a split are characters of the text. */
  lemma {:induction false} SplitPieceChars(s: string, sep: char, i: nat)
    requires i < |Text.Split(s, sep)|
    ensures forall c :: c in Text.Split(s, sep)[i] ==> c in s
    decreases |s|
  {
    if s != [] {
      var rest := Text.Split(s[1..], sep);
      if s[0] == sep {
        if i > 0 { SplitPieceChars(s[1..], sep, i - 1); }
      } else if i == 0 {
        SplitPieceChars(s[1..], sep, 0);
      } else {
        SplitPieceChars(s[1..], sep, i);
      }
    }
  }

  /** A test case parsed from a line without line breaks can be written back unchanged. */
  lemma ParsedLineRoundTrippable(line: string)
    requires '\n' !in line
    ensures ParseTestCaseLine(line).Some? ==> RoundTrippable(ParseTestCaseLine(line).value)
  {
    FieldPlain(line, 0);
    FieldPlain(line, 1);
  }

  /** When every parsed line satisfies `ok`, so does every element of the list. */
  lemma {:induction false} KeepParsedAll<T>(lines: seq<string>, parse: string -> Option<T>, ok: T -> bool)
    requires forall k :: 0 <= k < |lines| && parse(lines[k]).Some? ==> ok(parse(lines[k]).value)
    ensures forall i :: 0 <= i < |KeepParsed(lines, parse)| ==> ok(KeepParsed(lines, parse)[i])
    decreases |lines|
  {
    if lines != [] {
      KeepParsedAll(lines[1..], parse, ok);
      var rest := KeepParsed(lines[1..], parse);
      match parse(lines[0])
      case Some(x) =>
        var r := [x] + rest;
        assert KeepParsed(lines, parse) == r;
        forall i | 0 <= i < |r|
          ensures ok(r[i])
        {
          if i > 0 { assert r[i] == rest[i - 1]; }
        }
      case None =>
        assert KeepParsed(lines, parse) == rest;
    }
  }

  lemma ParsedLinesRoundTrippable(lines: seq<string>)
    requires forall k :: 0 <= k < |lines| ==> '\n' !in lines[k]
    ensures forall i :: 0 <= i < |KeepParsed(lines, ParseTestCaseLine)| ==>
              RoundTrippable(KeepParsed(lines, ParseTestCaseLine)[i])
  {
    forall k | 0 <= k < |lines| && ParseTestCaseLine(lines[k]).Some?
      ensures RoundTrippable(ParseTestCaseLine(lines[k]).value)
    {
      ParsedLineRoundTrippable(lines[k]);
    }
    KeepParsedAll(lines, ParseTestCaseLine, RoundTrippable);
  }

  /**
   * Every test case `buildPayload` produces has non-empty, trimmed fields
   * free of '|' and line breaks.
   */
  lemma ParsedTestCasesRoundTrippable(text: string)
    ensures forall i :: 0 <= i < |ParseTestCases(text)| ==> RoundTrippable(ParseTestCases(text)[i])
  {
    if text != "" {
      ParsedLinesRoundTrippable(Text.Split(text, '\n'));
    }
  }

  lemma {:induction false} CleanTagsClean(pieces: seq<string>)
    requires forall p :: p in pieces ==> ',' !in p
    ensures forall i :: 0 <= i < |CleanTags(pieces)| ==> CleanTag(CleanTags(pieces)[i])
    decreases |pieces|
  {
    if pieces != [] {
      assert pieces[0] in pieces;
      assert forall p :: p in pieces[1..] ==> p in pieces;
      CleanTagsClean(pieces[1..]);
    }
  }

  /** Every tag `buildPayload` produces is non-empty, trimmed and comma-free. */
  lemma ParsedTagsClean(text: string)
    ensures forall i :: 0 <= i < |ParseTags(text)| ==> CleanTag(ParseTags(text)[i])
  {
    if text != "" {
      CleanTagsClean(Text.Split(text, ','));
    }
  }

  // ----------------------------------------------------------- serialising

  function TestCaseLine(tc: TestCase): string {
    tc.input + "|" + tc.expectedOutput
  }

  function TestCaseLines(tcs: seq<TestCase>): (r: seq<string>)
    ensures |r| == |tcs|
    ensures forall i :: 0 <= i < |tcs| ==> r[i] == TestCaseLine(tcs[i])
  {
    if tcs == [] then [] else [TestCaseLine(tcs[0])] + TestCaseLines(tcs[1..])
  }

  /** The template `${input}|${output}|${explanation}`: an absent field is written "undefined". */
  function ExampleLine(ex: Example): string {
    Shown(ex.input) + "|" + Shown(ex.output) + "|" + Shown(ex.explanation)
  }

  function ExampleLines(exs: seq<Example>): (r: seq<string>)
    ensures |r| == |exs|
    ensures forall i :: 0 <= i < |exs| ==> r[i] == ExampleLine(exs[i])
  {
    if exs == [] then [] else [ExampleLine(exs[0])] + ExampleLines(exs[1..])
  }

  /**
   * `handleEdit`: the form filled from a stored problem, tags joined with
   * ", ", examples and test cases one per line with '|' between fields, and
   * the problem's id remembered for the update.
   */
  function EditProblem(p: Problem): (e: Editor)
    ensures e.editId == Some(p.id)
  {
    Editor(
      Form(p.title,
           if p.functionName == "" then "solve" else p.functionName,
           if p.inputSignature == "" then "string" else p.inputSignature,
           p.description,
           DifficultyName(p.difficulty),
           Text.Join(p.tags, ", "),
           p.constraints.GetOr(""),
           p.solution.GetOr(""),
           Text.Join(ExampleLines(p.examples), "\n"),
           Text.Join(TestCaseLines(p.testCases), "\n")),
      Some(p.id))
  }

  // ------------------------------------------------------- submit and reset

  /** What pressing submit does. */
  datatype SubmitAction =
    | Refused                              // "Title and description are required"
    | Update(id: Id, payload: Payload)
    | Create(payload: Payload)

  /** `handleSubmit`: refused when the trimmed title or description is empty; else update or create. */
  function Submit(e: Editor): (r: SubmitAction)
    ensures r.Refused? <==> Text.Trim(e.form.title) == "" || Text.Trim(e.form.description) == ""
    ensures r.Update? <==> !r.Refused? && Truthy(e.editId)
    ensures !r.Refused? ==> r.payload == BuildPayload(e.form)
    ensures r.Update? ==> r.id == e.editId.value
  {
    var payload := BuildPayload(e.form);
    if payload.title == "" || payload.description == "" then Refused
    else if Truthy(e.editId) then Update(e.editId.value, payload)
    else Create(payload)
  }

  /** `resetForm`: the initial form, no problem under edit. */
  function Reset(e: Editor): (r: Editor)
    ensures r.form == InitialForm && r.editId == None
  {
    Editor(InitialForm, None)
  }

  /** A reset editor refuses to submit, since its title is empty. */
  lemma ResetRefuses(e: Editor)
    ensures Submit(Reset(e)).Refused?
  {
    assert Reset(e).form.title == "";
    Text.TrimTrimmed("");
  }

  // ------------------------------------------------------------- round trips

  /** A line of two plain fields splits on '|' into exactly those two. */
  lemma SplitTwoFields(a: string, b: string)
    requires Plain(a) && Plain(b)
    ensures Text.Split(a + "|" + b, '|') == [a, b]
  {
    Text.SplitAfterPiece(a, '|', b);
    Text.SplitNoSep(b, '|');
  }

  /** A serialised test case of plain, trimmed, non-empty fields parses back to itself. */
  lemma TestCaseLineRoundTrip(tc: TestCase)
    requires Plain(tc.input) && Plain(tc.expectedOutput)
    requires tc.input != "" && tc.expectedOutput != ""
    requires Text.IsTrimmed(tc.input) && Text.IsTrimmed(tc.expectedOutput)
    ensures ParseTestCaseLine(TestCaseLine(tc)) == Some(tc)
  {
    SplitTwoFields(tc.input, tc.expectedOutput);
    Text.TrimTrimmed(tc.input);
    Text.TrimTrimmed(tc.expectedOutput);
  }

  /** Lines that parse one by one into the given values parse together into the list of them. */
  lemma {:induction false} ParseEachLine<T>(lines: seq<string>, parse: string -> Option<T>, xs: seq<T>)
    requires |lines| == |xs|
    requires forall i :: 0 <= i < |lines| ==> parse(lines[i]) == Some(xs[i])
    ensures KeepParsed(lines, parse) == xs
    decreases |lines|
  {
    if lines != [] {
      ParseEachLine(lines[1..], parse, xs[1..]);
      calc {
        KeepParsed(lines, parse);
        [xs[0]] + KeepParsed(lines[1..], parse);
        [xs[0]] + xs[1..];
        xs;
      }
    }
  }

  lemma TestCaseLinesRoundTrip(tcs: seq<TestCase>)
    requires forall i :: 0 <= i < |tcs| ==> RoundTrippable(tcs[i])
    ensures KeepParsed(TestCaseLines(tcs), ParseTestCaseLine) == tcs
  {
    var lines := TestCaseLines(tcs);
    forall i | 0 <= i < |tcs|
      ensures ParseTestCaseLine(lines[i]) == Some(tcs[i])
    {
      TestCaseLineRoundTrip(tcs[i]);
    }
    ParseEachLine(lines, ParseTestCaseLine, tcs);
  }

  /**
   * Serialising test cases with `handleEdit` and parsing them with
   * `buildPayload` gives the same list back, when every field is
   * non-empty, trimmed and free of '|' and line breaks.
   */
  lemma TestCasesRoundTrip(tcs: seq<TestCase>)
    requires forall i :: 0 <= i < |tcs| ==> RoundTrippable(tcs[i])
    ensures ParseTestCases(Text.Join(TestCaseLines(tcs), "\n")) == tcs
  {
    var lines := TestCaseLines(tcs);
    if tcs != [] {
      LinesHaveNoBreak(tcs);
      Text.SplitJoin(lines, '\n');
      JoinNonEmpty(lines, "\n");
      TestCaseLinesRoundTrip(tcs);
    }
  }

  /** Serialised lines of plain fields hold no line break. */
  lemma LinesHaveNoBreak(tcs: seq<TestCase>)
    requires forall i :: 0 <= i < |tcs| ==> RoundTrippable(tcs[i])
    ensures forall l :: l in TestCaseLines(tcs) ==> '\n' !in l
  {
    var lines := TestCaseLines(tcs);
    forall i | 0 <= i < |lines|
      ensures '\n' !in lines[i]
    {
      assert lines[i] == tcs[i].input + "|" + tcs[i].expectedOutput;
    }
  }

  /** Fields after the second are ignored: a third field does not change the parsed test case. */
  lemma ExtraFieldIgnored(a: string, b: string, c: string)
    requires Plain(a) && Plain(b)
    ensures ParseTestCaseLine(a + "|" + b + "|" + c) == ParseTestCaseLine(a + "|" + b)
  {
    FirstTwoFields(a, b, c);
    SplitTwoFields(a, b);
    SameFirstFields(a + "|" + b + "|" + c, a + "|" + b);
  }

  /** Two lines with the same first two fields parse alike. */
  lemma SameFirstFields(l1: string, l2: string)
    requires |Text.Split(l1, '|')| >= 2 && |Text.Split(l2, '|')| >= 2
    requires Text.Split(l1, '|')[0] == Text.Split(l2, '|')[0] && Text.Split(l1, '|')[1] == Text.Split(l2, '|')[1]
    ensures ParseTestCaseLine(l1) == ParseTestCaseLine(l2)
  {
  }

  /** "a|b|c" is a, a separator, and "b|c". */
  lemma PipeRegroup(a: string, b: string, c: string)
    ensures a + "|" + b + "|" + c == a + ['|'] + (b + "|" + c)
  {
  }

  /** "a, rest" is a, a comma, and " rest". */
  lemma CommaSpace(a: string, rest: string)
    ensures a + ", " + rest == a + [','] + (" " + rest)
  {
    assert ", " == [','] + " ";
  }

  /** The first two fields of "a|b|c" are a and b. */
  lemma FirstTwoFields(a: string, b: string, c: string)
    requires Plain(a) && Plain(b)
    ensures var parts := Text.Split(a + "|" + b + "|" + c, '|');
            |parts| >= 2 && parts[0] == a && parts[1] == b
  {
    PipeRegroup(a, b, c);
    Text.SplitAfterPiece(a, '|', b + "|" + c);
    Text.SplitAfterPiece(b, '|', c);
  }

  /** An example line with two fields has the empty explanation. */
  lemma ExampleWithoutExplanation(a: string, b: string)
    requires Plain(a) && Plain(b) && a != "" && b != "" && Text.IsTrimmed(a) && Text.IsTrimmed(b)
    ensures ParseExampleLine(a + "|" + b) == Some(Example(Some(a), Some(b), Some("")))
  {
    SplitTwoFields(a, b);
    Text.TrimTrimmed(a);
    Text.TrimTrimmed(b);
  }

  /** "a|b|c" of plain fields splits into the three fields. */
  lemma SplitThreeFields(a: string, b: string, c: string)
    requires Plain(a) && Plain(b) && Plain(c)
    ensures Text.Split(a + "|" + b + "|" + c, '|') == [a, b, c]
  {
    PipeRegroup(a, b, c);
    Text.SplitAfterPiece(a, '|', b + "|" + c);
    SplitTwoFields(b, c);
  }

  /**
   * A stored example without an explanation is written into the form with
   * the explanation "undefined", and saving the form stores that text.
   */
  lemma MissingExplanationSaved(a: string, b: string)
    requires Plain(a) && Plain(b) && a != "" && b != "" && Text.IsTrimmed(a) && Text.IsTrimmed(b)
    ensures ExampleLine(Example(Some(a), Some(b), None)) == a + "|" + b + "|undefined"
    ensures ParseExampleLine(ExampleLine(Example(Some(a), Some(b), None))) == Some(Example(Some(a), Some(b), Some("undefined")))
  {
    var u := "undefined";
    assert Plain(u) && Text.IsTrimmed(u);
    assert a + "|" + b + "|" + u == a + "|" + b + "|undefined";
    SplitThreeFields(a, b, u);
    Text.TrimTrimmed(a);
    Text.TrimTrimmed(b);
    Text.TrimTrimmed(u);
  }

  /**
   * The defaults apply only to an empty field: a function name of white
   * space alone is sent as "".
   */
  lemma BlankNameNotDefaulted(f: Form)
    requires forall i :: 0 <= i < |f.functionName| ==> Text.IsSpace(f.functionName[i])
    ensures BuildPayload(f).functionName == if f.functionName == "" then "solve" else ""
  {
    if f.functionName == "" {
      Text.TrimTrimmed("solve");
    } else {
      Text.TrimAllSpace(f.functionName);
    }
  }

  /**
   * Parsing is a fixed point of the round trip: what `buildPayload` gives,
   * serialised and parsed again, is unchanged.
   */
  lemma ParseSerializeParse(text: string)
    ensures ParseTestCases(Text.Join(TestCaseLines(ParseTestCases(text)), "\n")) == ParseTestCases(text)
  {
    ParsedTestCasesRoundTrippable(text);
    TestCasesRoundTrip(ParseTestCases(text));
  }

  /** A join whose first part is non-empty is non-empty. */
  lemma JoinNonEmpty(parts: seq<string>, sep: string)
    requires |parts| >= 1 && parts[0] != ""
    ensures Text.Join(parts, sep) != ""
  {
  }

  /**
   * A test case whose input spans two lines does not survive: the first line
   * has no '|' and is dropped, and the second becomes the input. "3\n4" with
   * expected "7" comes back as input "4".
   */
  lemma MultiLineInputAltered(a: string, b: string, expected: string)
    requires Plain(a) && Plain(b) && Plain(expected)
    requires a != "" && b != "" && expected != ""
    requires Text.IsTrimmed(a) && Text.IsTrimmed(b) && Text.IsTrimmed(expected)
    ensures ParseTestCases(Text.Join(TestCaseLines([TestCase(a + "\n" + b, expected)]), "\n"))
            == [TestCase(b, expected)]
  {
    var tc := TestCase(a + "\n" + b, expected);
    assert TestCaseLines([tc]) == [TestCaseLine(tc)];
    var text := a + "\n" + b + "|" + expected;
    assert Text.Join([TestCaseLine(tc)], "\n") == text;
    assert Text.Split(text, '\n') == [a, b + "|" + expected] by {
      assert text == a + ['\n'] + (b + "|" + expected);
      Text.SplitAfterPiece(a, '\n', b + "|" + expected);
      Text.SplitNoSep(b + "|" + expected, '\n');
    }
    assert ParseTestCaseLine(a) == None by {
      Text.SplitNoSep(a, '|');
    }
    TestCaseLineRoundTrip(TestCase(b, expected));
    var lines := [a, b + "|" + expected];
    assert lines[1..] == [b + "|" + expected] && lines[1..][1..] == [];
    assert KeepParsed(lines[1..], ParseTestCaseLine) == [TestCase(b, expected)] + KeepParsed([], ParseTestCaseLine);
    assert KeepParsed(lines, ParseTestCaseLine) == [] + KeepParsed(lines[1..], ParseTestCaseLine);
  }

  /** A space before a piece does not change its trim. */
  lemma TrimLeadingSpace(p: string)
    ensures Text.Trim(" " + p) == Text.Trim(p)
  {
    assert (" " + p)[1..] == p;
  }

  /** Splitting on ',' after a leading space: the space joins the first piece. */
  lemma SplitLeadingSpace(x: string)
    ensures Text.Split(" " + x, ',') == [" " + Text.Split(x, ',')[0]] + Text.Split(x, ',')[1..]
  {
    assert (" " + x)[1..] == x;
  }

  /** Tag cleaning ignores a space in front of the first piece. */
  lemma CleanTagsLeadingSpace(pieces: seq<string>)
    requires |pieces| >= 1
    ensures CleanTags([" " + pieces[0]] + pieces[1..]) == CleanTags(pieces)
  {
    TrimLeadingSpace(pieces[0]);
    assert ([" " + pieces[0]] + pieces[1..])[1..] == pieces[1..];
  }

  /** Tag cleaning keeps a clean first piece and moves on to the rest. */
  lemma CleanTagsHead(t: string, pieces: seq<string>)
    requires CleanTag(t)
    ensures CleanTags([t] + pieces) == [t] + CleanTags(pieces)
  {
    Text.TrimTrimmed(t);
    assert ([t] + pieces)[1..] == pieces;
  }

  /** Splitting tags joined with ", " cuts off the first tag and leaves the rest with a leading space. */
  lemma JoinedHead(tags: seq<string>)
    requires |tags| >= 2 && ',' !in tags[0]
    ensures Text.Split(Text.Join(tags, ", "), ',') == [tags[0]] + Text.Split(" " + Text.Join(tags[1..], ", "), ',')
  {
    var rest := Text.Join(tags[1..], ", ");
    assert Text.Join(tags, ", ") == tags[0] + ", " + rest;
    CommaSpace(tags[0], rest);
    Text.SplitAfterPiece(tags[0], ',', " " + rest);
  }

  lemma {:induction false} TagsJoinSplit(tags: seq<string>)
    requires |tags| >= 1
    requires forall i :: 0 <= i < |tags| ==> CleanTag(tags[i])
    ensures CleanTags(Text.Split(Text.Join(tags, ", "), ',')) == tags
    decreases |tags|
  {
    if |tags| == 1 {
      Text.SplitNoSep(tags[0], ',');
      CleanTagsHead(tags[0], []);
    } else {
      var rest := Text.Join(tags[1..], ", ");
      var split := Text.Split(rest, ',');
      calc {
        CleanTags(Text.Split(Text.Join(tags, ", "), ','));
        { JoinedHead(tags); }
        CleanTags([tags[0]] + Text.Split(" " + rest, ','));
        { CleanTagsHead(tags[0], Text.Split(" " + rest, ',')); }
        [tags[0]] + CleanTags(Text.Split(" " + rest, ','));
        { SplitLeadingSpace(rest); }
        [tags[0]] + CleanTags([" " + split[0]] + split[1..]);
        { CleanTagsLeadingSpace(split); }
        [tags[0]] + CleanTags(split);
        { TagsJoinSplit(tags[1..]); }
        [tags[0]] + tags[1..];
        tags;
      }
    }
  }

  /**
   * Tags joined with ", " by `handleEdit` and split on ',' by `buildPayload`
   * come back unchanged, when each is non-empty, trimmed and comma-free.
   */
  lemma TagsRoundTrip(tags: seq<string>)
    requires forall i :: 0 <= i < |tags| ==> CleanTag(tags[i])
    ensures ParseTags(Text.Join(tags, ", ")) == tags
  {
    if tags != [] {
      TagsJoinSplit(tags);
      JoinNonEmpty(tags, ", ");
    }
  }

  /**
   * Editing a stored problem and saving it without changes sends back its
   * tags and test cases, under the side conditions of the two round trips.
   */
  lemma EditThenSave(p: Problem)
    requires forall i :: 0 <= i < |p.tags| ==> CleanTag(p.tags[i])
    requires forall i :: 0 <= i < |p.testCases| ==> RoundTrippable(p.testCases[i])
    requires p.title != "" && Text.IsTrimmed(p.title) && p.description != "" && Text.IsTrimmed(p.description)
    requires p.id != ""
    ensures Submit(EditProblem(p)) == Update(p.id, BuildPayload(EditProblem(p).form))
    ensures BuildPayload(EditProblem(p).form).tags == p.tags
    ensures BuildPayload(EditProblem(p).form).testCases == p.testCases
    ensures BuildPayload(EditProblem(p).form).title == p.title
  {
    var f := EditProblem(p).form;
    var payload := BuildPayload(f);
    assert payload.tags == p.tags by {
      assert payload.tags == ParseTags(Text.Join(p.tags, ", "));
      TagsRoundTrip(p.tags);
    }
    assert payload.testCases == p.testCases by {
      assert payload.testCases == ParseTestCases(Text.Join(TestCaseLines(p.testCases), "\n"));
      TestCasesRoundTrip(p.testCases);
    }
    assert payload.title == p.title && payload.description == p.description by {
      Text.TrimTrimmed(p.title);
      Text.TrimTrimmed(p.description);
    }
  }
}
