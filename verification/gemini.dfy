/**
 * The AI-assistant endpoint: request validation, the API-key check, the
 * choice of prompt by question type, and the extraction of the reply
 * from the model's answer. The outbound call is a parameter.
 */
module Gemini {
  import opened Wrappers
  import Text

  datatype AskRequest = AskRequest(
    problemTitle: Option<string>,
    problemDescription: Option<string>,
    userCode: Option<string>,
    questionType: Option<string>,
    customQuestion: Option<string>)

  /** The parts of the model's answer the endpoint reads; every level may be missing. */
  datatype Part = Part(text: Option<string>)
  datatype Content = Content(parts: Option<seq<Part>>)
  datatype Candidate = Candidate(content: Option<Content>)
  datatype Answer = Answer(candidates: Option<seq<Candidate>>)

  datatype AskOutcome = AskFailed(status: int, error: string) | Answered(reply: string)

  const NoResponse := "No response from Gemini"

  /** The question type, when it is exactly `t`. */
  predicate IsType(req: AskRequest, t: string) {
    req.questionType == Some(t)
  }

  /** `customQuestion && customQuestion.trim()`: a question with something besides white space. */
  predicate HasQuestion(req: AskRequest) {
    Truthy(req.customQuestion) && Text.Trim(req.customQuestion.value) != ""
  }

  /** At least one of title, description and code is present and non-empty. */
  predicate HasContext(req: AskRequest) {
    Truthy(req.problemTitle) || Truthy(req.problemDescription) || Truthy(req.userCode)
  }

  /** The validation: a general question needs a question, any other type some problem context. */
  function Validate(req: AskRequest): (r: Option<AskOutcome>)
    ensures r.None? <==> (if IsType(req, "general") then HasQuestion(req) else HasContext(req))
    ensures IsType(req, "general") && !HasQuestion(req) ==>
              r == Some(AskFailed(400, "Question is required for general chat"))
    ensures !IsType(req, "general") && !HasContext(req) ==> r == Some(AskFailed(400, "At least one field is required"))
  {
    if IsType(req, "general") then
      if !HasQuestion(req) then Some(AskFailed(400, "Question is required for general chat")) else None
    else if !HasContext(req) then Some(AskFailed(400, "At least one field is required"))
    else None
  }

  const HintHead := "Give a hint for this problem:\nTitle: "
  const ExplainHead := "Explain the following solution:\n"
  const DefaultHead := "Answer user question about this problem:\nTitle: "

  /**
   * The prompt: the trimmed question for "general", the hint template for
   * "hint", the explanation template for "explanation", and the default
   * template (with "N/A" for missing code) for any other type.
   */
  function Prompt(req: AskRequest): (r: string)
    requires IsType(req, "general") ==> req.customQuestion.Some?
    ensures IsType(req, "general") ==> r == Text.Trim(req.customQuestion.value)
    ensures IsType(req, "hint") ==> Text.StartsWith(r, HintHead)
    ensures IsType(req, "hint") ==>
              r == HintHead + Shown(req.problemTitle) + "\nDescription: " + Shown(req.problemDescription)
    ensures IsType(req, "explanation") ==> r == ExplainHead + Shown(req.userCode)
    ensures !IsType(req, "general") && !IsType(req, "hint") && !IsType(req, "explanation") ==>
              Text.StartsWith(r, DefaultHead)
    ensures !IsType(req, "general") && !IsType(req, "hint") && !IsType(req, "explanation") ==>
              r == DefaultHead + Shown(req.problemTitle) + "\nDescription: " + Shown(req.problemDescription)
                   + "\nCode: " + (if Truthy(req.userCode) then req.userCode.value else "N/A")
  {
    if IsType(req, "general") then Text.Trim(req.customQuestion.value)
    else if IsType(req, "hint") then
      HintHead + Shown(req.problemTitle) + "\nDescription: " + Shown(req.problemDescription)
    else if IsType(req, "explanation") then ExplainHead + Shown(req.userCode)
    else
      DefaultHead + Shown(req.problemTitle) + "\nDescription: " + Shown(req.problemDescription)
      + "\nCode: " + (if Truthy(req.userCode) then req.userCode.value else "N/A")
  }

  /** The default template ends with "N/A" in place of missing or empty code. */
  lemma DefaultPromptWithoutCode(req: AskRequest)
    requires !IsType(req, "general") && !IsType(req, "hint") && !IsType(req, "explanation")
    requires !Truthy(req.userCode)
    ensures Text.EndsWith(Prompt(req), "\nCode: N/A")
  {
    var head := DefaultHead + Shown(req.problemTitle) + "\nDescription: " + Shown(req.problemDescription);
    assert Prompt(req) == head + "\nCode: N/A";
  }

  /** A valid general question is sent as a non-empty prompt with no surrounding white space. */
  lemma GeneralPromptTrimmed(req: AskRequest)
    requires IsType(req, "general") && Validate(req).None?
    ensures Prompt(req) != "" && Text.IsTrimmed(Prompt(req))
  {
  }

  /** `data?.candidates?.[0]?.content?.parts?.[0]?.text || "No response from Gemini"`. */
  function ReplyText(data: Answer): (r: string)
    ensures r != ""
    ensures r != NoResponse ==>
              && data.candidates.Some? && |data.candidates.value| > 0
              && data.candidates.value[0].content.Some?
              && data.candidates.value[0].content.value.parts.Some?
              && |data.candidates.value[0].content.value.parts.value| > 0
              && data.candidates.value[0].content.value.parts.value[0].text.Some?
              && r ==data.candidates.value[0].content.value.parts.value[0].text.value
  {
    match data.candidates
    case Some(cs) =>
      if |cs| > 0 && cs[0].content.Some? && cs[0].content.value.parts.Some?
         && |cs[0].content.value.parts.value| > 0 && Truthy(cs[0].content.value.parts.value[0].text)
      then cs[0].content.value.parts.value[0].text.value
      else NoResponse
    case None => NoResponse
  }

  /** The first candidate's first non-empty text is the reply. */
  lemma FirstTextIsReply(text: string, rest: seq<Part>, others: seq<Candidate>)
    requires text != ""
    ensures ReplyText(Answer(Some([Candidate(Some(Content(Some([Part(Some(text))] + rest))))] + others))) == text
  {
  }

  /**
   * `askGemini`: validation, then the key, then the call. `call` is the
   * outbound request with its prompt; None is a failed call.
   */
  function AskGemini(req: AskRequest, apiKey: Option<string>, call: string -> Option<Answer>): (r: AskOutcome)
    ensures Validate(req).Some? ==> r == Validate(req).value
    ensures Validate(req).None? && !Truthy(apiKey) ==> r == AskFailed(500, "Gemini API key not configured")
    ensures Validate(req).None? && Truthy(apiKey) && call(Prompt(req)).None? ==>
              r == AskFailed(500, "Error contacting Gemini API")
    ensures Validate(req).None? && Truthy(apiKey) && call(Prompt(req)).Some? ==>
              r == Answered(ReplyText(call(Prompt(req)).value))
    ensures r.AskFailed? ==> r.status == 400 || r.status == 500
  {
    match Validate(req)
    case Some(e) => e
    case None =>
      if !Truthy(apiKey) then AskFailed(500, "Gemini API key not configured")
      else match call(Prompt(req))
        case None => AskFailed(500, "Error contacting Gemini API")
        case Some(data) => Answered(ReplyText(data))
  }

  /** A rejected request and a missing key are answered without any outbound call. */
  lemma NoCallWithoutKey(req: AskRequest, apiKey: Option<string>, c1: string -> Option<Answer>,
                         c2: string -> Option<Answer>)
    requires Validate(req).Some? || !Truthy(apiKey)
    ensures AskGemini(req, apiKey, c1) == AskGemini(req, apiKey, c2)
    ensures AskGemini(req, apiKey, c1).AskFailed?
  {
  }

  /** An answered request carries a non-empty reply. */
  lemma AnsweredReplyNonEmpty(req: AskRequest, apiKey: Option<string>, call: string -> Option<Answer>)
    requires AskGemini(req, apiKey, call).Answered?
    ensures AskGemini(req, apiKey, call).reply != ""
    ensures Validate(req).None? && Truthy(apiKey)
  {
  }
}
