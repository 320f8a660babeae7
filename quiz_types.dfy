// The application's records: generated questions, saved templates and saved quiz
// sessions. Timestamps, which the application stores as ISO strings and compares
// through `Date`, are integers here.
module QuizTypes {
  import opened Common

  /** An answer slot: `None` is the application's `null` (unanswered). */
  type Answer = Option<int>

  /** A multiple-choice question as the generation endpoint returns it. Nothing
      checks that there are four options or that `correctAnswerIndex` indexes them. */
  datatype Question = Question(
    id: string,
    text: string,
    options: seq<string>,
    correctAnswerIndex: int,
    explanation: Option<string>)

  /** The parameters a template remembers. `difficulty` is kept as the string the
      form passed on ('easy', 'medium' or 'hard'). */
  datatype TemplateData = TemplateData(
    prompt: string,
    numberOfQuestions: int,
    difficulty: string,
    subject: Option<string>)

  datatype Template = Template(
    id: string,
    name: string,
    prompt: string,
    numberOfQuestions: int,
    difficulty: string,
    subject: Option<string>,
    createdAt: int)

  datatype QuizSession = QuizSession(
    id: string,
    title: string,
    questions: seq<Question>,
    userAnswers: seq<Answer>,
    currentQuestionIndex: int,
    createdAt: int,
    lastUpdatedAt: int)
}
