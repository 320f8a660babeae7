// The question-generation endpoint (`POST /api/generate-questions`) without its
// provider call: request validation, defaults and the cap on the count, the
// composition of the system instruction, and the mapping of the provider's reply
// into questions. The provider's answer is a parameter (`Completion`), and so are
// the environment and the source of fresh ids.
module GenerateQuestions {
  import opened Common
  import opened QuizTypes
  import Text

  const FallbackNumQuestions: int := 5
  const FallbackMaxQuestions: int := 10
  const DefaultDifficulty: string := "medium"
  const DefaultModel: string := "gpt-4o-mini"
  const DefaultExplanation: string := "No explanation available."
  const PromptRequiredMessage: string := "A prompt is required to generate questions"
  const GenerationFailedMessage: string := "Failed to generate questions"

  /** The JSON body; a field the client left out is `None`. */
  datatype GenerationRequest = GenerationRequest(
    prompt: Option<string>,
    numberOfQuestions: Option<int>,
    difficulty: Option<string>,
    subject: Option<string>)

  /** NEXT_PUBLIC_DEFAULT_NUM_QUESTIONS, NEXT_PUBLIC_MAX_QUESTIONS and OPENAI_MODEL,
      already parsed; `None` when unset or empty. */
  datatype Env = Env(defaultNumQuestions: Option<int>, maxQuestions: Option<int>, model: Option<string>)

  /** One entry of the provider's `questions` array, fields as the provider sent them. */
  datatype RawQuestion = RawQuestion(
    question: string,
    options: seq<string>,
    correctAnswerIndex: int,
    explanation: Option<string>)

  /** The content of the provider's first choice: null or empty, not JSON, or a
      JSON object whose `questions` array may be missing. */
  datatype ReplyContent = NoContent | NotJson | Json(questions: Option<seq<RawQuestion>>)

  /** The provider call either throws (network, credentials, provider error) or replies. */
  datatype Completion = ProviderError | Reply(content: ReplyContent)

  /** The chat exchange sent to the provider. */
  datatype ChatRequest = ChatRequest(system: string, user: string, model: string)

  datatype Response = Success(questions: seq<Question>) | Failure(status: int, error: string)

  /** `!prompt || prompt.trim() === ''`. */
  predicate PromptMissing(prompt: Option<string>) {
    prompt.None? || Text.Trim(prompt.value) == ""
  }

  /** A prompt is rejected exactly when it is absent or only whitespace. */
  lemma PromptMissingIffBlank(prompt: Option<string>)
    ensures PromptMissing(prompt) <==> prompt.None? || Text.IsBlank(prompt.value)
  {
    if prompt.Some? {
      Text.TrimEmptyIffBlank(prompt.value);
    }
  }

  /** The count asked for, defaulted from the environment (5 if unset) when absent. */
  function RequestedCount(req: GenerationRequest, env: Env): (n: int)
    ensures req.numberOfQuestions.Some? ==> n == req.numberOfQuestions.value
    ensures req.numberOfQuestions.None? && env.defaultNumQuestions.Some? ==> n == env.defaultNumQuestions.value
    ensures req.numberOfQuestions.None? && env.defaultNumQuestions.None? ==> n == FallbackNumQuestions
  {
    match req.numberOfQuestions
    case Some(n) => n
    case None => if env.defaultNumQuestions.Some? then env.defaultNumQuestions.value else FallbackNumQuestions
  }

  /** The cap: NEXT_PUBLIC_MAX_QUESTIONS when set, otherwise 10. */
  function MaxQuestions(env: Env): (m: int)
    ensures env.maxQuestions.Some? ==> m == env.maxQuestions.value
    ensures env.maxQuestions.None? ==> m == FallbackMaxQuestions
  {
    if env.maxQuestions.Some? then env.maxQuestions.value else FallbackMaxQuestions
  }

  /** `Math.min(numberOfQuestions, maxQuestions)`: capped from above only, so a
      count below the cap, zero or negative included, is passed through. */
  function EffectiveCount(req: GenerationRequest, env: Env): (n: int)
    ensures n <= MaxQuestions(env) && n <= RequestedCount(req, env)
    ensures n == MaxQuestions(env) || n == RequestedCount(req, env)
  {
    var requested := RequestedCount(req, env);
    if requested <= MaxQuestions(env) then requested else MaxQuestions(env)
  }

  /** The difficulty after defaulting: 'medium' only when the field is absent. */
  function EffectiveDifficulty(req: GenerationRequest): (d: string)
    ensures req.difficulty.Some? ==> d == req.difficulty.value
    ensures req.difficulty.None? ==> d == DefaultDifficulty
  {
    if req.difficulty.Some? then req.difficulty.value else DefaultDifficulty
  }

  function Head(count: int, prompt: string): string {
    "Generate " + Text.IntToString(count)
    + " multiple choice questions with 4 options each about the following topic: " + prompt + ". "
  }

  function DifficultySentence(difficulty: string): string {
    "The questions should be of " + difficulty + " difficulty. "
  }

  function SubjectSentence(subject: string): string {
    "The questions should be related to the subject: " + subject + ". "
  }

  const FormatDirective: string :=
    "Format your response as a valid JSON object with a \"questions\" array where each question object has:\n"
    + "     - \"question\": The question text\n"
    + "     - \"options\": An array of 4 possible answers\n"
    + "     - \"correctAnswerIndex\": The index of the correct answer (0-3)\n"
    + "     - \"explanation\": A brief explanation (1-2 sentences) of why the correct answer is right\n"
    + "    Just provide the formatted JSON."

  /** `if (subject)`: present and non-empty. */
  predicate HasSubject(subject: Option<string>) {
    subject.Some? && subject.value != ""
  }

  /** The optional middle of the instruction: a difficulty sentence whenever the
      difficulty is non-empty, then a subject sentence exactly when there is a subject. */
  function OptionalSentences(difficulty: string, subject: Option<string>): string {
    (if difficulty != "" then DifficultySentence(difficulty) else "")
    + (if HasSubject(subject) then SubjectSentence(subject.value) else "")
  }

  /** The system instruction: the count-and-topic sentence, the optional sentences,
      then the fixed format directive, in that order. */
  function Instruction(count: int, prompt: string, difficulty: string, subject: Option<string>): (r: string)
    ensures Head(count, prompt) <= r
    ensures |r| == |Head(count, prompt)| + |OptionalSentences(difficulty, subject)| + |FormatDirective|
  {
    Head(count, prompt) + OptionalSentences(difficulty, subject) + FormatDirective
  }

  /** Each part of the instruction sits at its position: the optional sentences
      right after the first sentence, and the format directive at the end. */
  lemma InstructionLayout(count: int, prompt: string, difficulty: string, subject: Option<string>)
    ensures var r := Instruction(count, prompt, difficulty, subject);
            var n := |Head(count, prompt)|;
            && r[|r| - |FormatDirective|..] == FormatDirective
            && r[n..|r| - |FormatDirective|] == OptionalSentences(difficulty, subject)
  {
    var h, m := Head(count, prompt), OptionalSentences(difficulty, subject);
    var r := Instruction(count, prompt, difficulty, subject);
    assert r == (h + m) + FormatDirective;
    assert r[|h + m|..] == FormatDirective;
    assert r[|h|..|h + m|] == m;
  }

  /** Builds `systemMessage` as the endpoint does, one `+=` at a time. */
  method ComposeSystemMessage(count: int, prompt: string, difficulty: string, subject: Option<string>)
    returns (systemMessage: string)
    ensures systemMessage == Instruction(count, prompt, difficulty, subject)
  {
    var h := Head(count, prompt);
    var d := if difficulty != "" then DifficultySentence(difficulty) else "";
    var t := if HasSubject(subject) then SubjectSentence(subject.value) else "";
    systemMessage := h;
    if difficulty != "" {
      systemMessage := systemMessage + DifficultySentence(difficulty);
    }
    assert systemMessage == h + d;
    if subject.Some? && subject.value != "" {
      systemMessage := systemMessage + SubjectSentence(subject.value);
    }
    assert systemMessage == (h + d) + t;
    systemMessage := systemMessage + FormatDirective;
    ConcatAssociative(h, d, t);
  }

  lemma ConcatAssociative(a: string, b: string, c: string)
    ensures (a + b) + c == a + (b + c)
  {
  }

  /** The count's digits follow "Generate " at the start of the first sentence. */
  lemma HeadStatesCount(count: int, prompt: string)
    ensures var digits := Text.IntToString(count);
            var h := Head(count, prompt);
            |h| >= 9 + |digits| && h[9..9 + |digits|] == digits
  {
    var digits := Text.IntToString(count);
    var rest := " multiple choice questions with 4 options each about the following topic: " + prompt + ". ";
    var lead := "Generate ";
    assert |lead| == 9;
    assert Head(count, prompt) == lead + digits + rest;
    assert (lead + digits + rest)[9..9 + |digits|] == digits;
  }

  /** A message that opens with the first sentence, as the instruction does, states
      the count in a form that parses back to it. */
  lemma InstructionStatesCount(count: int, prompt: string, message: string)
    requires Head(count, prompt) <= message
    ensures var digits := Text.IntToString(count);
            && |message| >= 9 + |digits|
            && message[9..9 + |digits|] == digits
            && Text.ParseInt(message[9..9 + |digits|]) == count
  {
    var digits := Text.IntToString(count);
    var h := Head(count, prompt);
    HeadStatesCount(count, prompt);
    assert message[9..9 + |digits|] == h[9..9 + |digits|];
    Text.IntToStringRoundTrip(count);
  }

  /** `q.explanation || 'No explanation available.'`. */
  function ExplanationOrDefault(explanation: Option<string>): (e: string)
    ensures explanation.Some? && explanation.value != "" ==> e == explanation.value
    ensures explanation.None? || explanation.value == "" ==> e == DefaultExplanation
  {
    if explanation.Some? && explanation.value != "" then explanation.value else DefaultExplanation
  }

  /** The `.map` over the provider's array; entry `i` receives the id `freshId(i)`. */
  function MapQuestions(raw: seq<RawQuestion>, freshId: nat -> string): (qs: seq<Question>)
    ensures |qs| == |raw|
    ensures forall i :: 0 <= i < |raw| ==>
              && qs[i].id == freshId(i)
              && qs[i].text == raw[i].question
              && qs[i].options == raw[i].options
              && qs[i].correctAnswerIndex == raw[i].correctAnswerIndex
              && qs[i].explanation == Some(ExplanationOrDefault(raw[i].explanation))
    ensures (forall i: nat, j: nat :: i != j ==> freshId(i) != freshId(j)) ==>
              forall i, j :: 0 <= i < j < |qs| ==> qs[i].id != qs[j].id
  {
    seq(|raw|, i requires 0 <= i < |raw| =>
      Question(freshId(i), raw[i].question, raw[i].options, raw[i].correctAnswerIndex,
               Some(ExplanationOrDefault(raw[i].explanation))))
  }

  /** What the endpoint answers once the provider has replied (or thrown). A null
      or empty content and a JSON object with an empty `questions` array both read as
      an empty list; a provider error, content that is not JSON, or JSON without a
      `questions` array throws and is answered with a 500. */
  function ReplyResponse(completion: Completion, freshId: nat -> string): (r: Response)
    ensures r.Failure? ==> r == Failure(500, GenerationFailedMessage)
    ensures r.Failure? <==>
              completion.ProviderError? || completion == Reply(NotJson) || completion == Reply(Json(None))
    ensures r == Success([]) <==>
              completion == Reply(NoContent) || completion == Reply(Json(Some([])))
    ensures completion.Reply? && completion.content.Json? && completion.content.questions.Some? ==>
              r == Success(MapQuestions(completion.content.questions.value, freshId))
  {
    match completion
    case ProviderError => Failure(500, GenerationFailedMessage)
    case Reply(NoContent) => Success([])
    case Reply(NotJson) => Failure(500, GenerationFailedMessage)
    case Reply(Json(None)) => Failure(500, GenerationFailedMessage)
    case Reply(Json(Some(raw))) => Success(MapQuestions(raw, freshId))
  }

  /** `POST`. `body` is `None` when `request.json()` throws. `call` is the chat
      exchange sent to the provider, `None` when the handler returns before it. */
  method Post(body: Option<GenerationRequest>, env: Env, completion: Completion, freshId: nat -> string)
    returns (response: Response, call: Option<ChatRequest>)
    ensures body.None? ==> response == Failure(500, GenerationFailedMessage) && call == None
    ensures body.Some? && PromptMissing(body.value.prompt) ==>
              response == Failure(400, PromptRequiredMessage) && call == None
    ensures body.Some? && !PromptMissing(body.value.prompt) ==>
              && call == Some(ChatRequest(
                   Instruction(EffectiveCount(body.value, env), body.value.prompt.value,
                               EffectiveDifficulty(body.value), body.value.subject),
                   body.value.prompt.value,
                   if env.model.Some? then env.model.value else DefaultModel))
              && response == ReplyResponse(completion, freshId)
  {
    if body.None? {
      return Failure(500, GenerationFailedMessage), None;
    }
    var req := body.value;
    if req.prompt.None? || Text.Trim(req.prompt.value) == "" {
      return Failure(400, PromptRequiredMessage), None;
    }
    var prompt := req.prompt.value;
    var numQuestions := EffectiveCount(req, env);
    var systemMessage := ComposeSystemMessage(numQuestions, prompt, EffectiveDifficulty(req), req.subject);
    var model := if env.model.Some? then env.model.value else DefaultModel;
    call := Some(ChatRequest(systemMessage, prompt, model));
    match completion {
      case ProviderError =>
        response := Failure(500, GenerationFailedMessage);
      case Reply(content) =>
        match content {
          case NoContent =>
            response := Success(MapQuestions([], freshId));
          case NotJson =>
            response := Failure(500, GenerationFailedMessage);
          case Json(questions) =>
            if questions.None? {
              response := Failure(500, GenerationFailedMessage);
            } else {
              response := Success(MapQuestions(questions.value, freshId));
            }
        }
    }
  }
}
