// The quiz page (`Home`): the state the page keeps, the handlers that change it,
// the values it derives from it, the guards on its buttons and which screen it
// shows. The request to the generation endpoint is a parameter (`FetchOutcome`).
// Each handler is one atomic step; a button's `disabled` attribute, or the
// screen a button is rendered on, is the handler's precondition.
module Page {
  import opened Common
  import opened QuizTypes
  import SubmissionPreview
  import ResultsSummary
  import TemplateManager
  import SaveTemplateModal

  const DefaultFetchError: string := "Failed to generate questions"
  const DefaultThrownError: string := "Something went wrong"
  const NoQuizToSaveMessage: string := "No current quiz to save as template."

  /** What the page's request for questions produced: the questions of a successful
      answer, a non-ok answer whose body may carry an `error` text, or a thrown
      error (network failure, unreadable body) with its message. */
  datatype FetchOutcome =
    | Fetched(questions: seq<Question>)
    | NotOk(serverError: Option<string>)
    | Thrown(message: string)

  /** The text `generateQuestions` puts in `error` when the request fails. */
  function FailureMessage(outcome: FetchOutcome): (message: string)
    requires !outcome.Fetched?
    ensures message != ""
    ensures (outcome.NotOk? && outcome.serverError.Some? && outcome.serverError.value != "") ==>
              message == outcome.serverError.value
    ensures (outcome.NotOk? && (outcome.serverError.None? || outcome.serverError.value == "")) ==>
              message == DefaultFetchError
    ensures outcome.Thrown? ==> message == (if outcome.message != "" then outcome.message else DefaultThrownError)
  {
    match outcome
    case NotOk(serverError) =>
      // thrown as `new Error(errorData.error || ...)`, whose non-empty message the catch keeps
      if serverError.Some? && serverError.value != "" then serverError.value else DefaultFetchError
    case Thrown(message) =>
      if message != "" then message else DefaultThrownError
  }

  /** `Array(n).fill(null)`. */
  function Unanswered(n: nat): (answers: seq<Answer>)
    ensures |answers| == n
    ensures forall i :: 0 <= i < n ==> answers[i].None?
    ensures SubmissionPreview.AnsweredCount(answers) == 0
  {
    seq(n, i => None)
  }

  datatype Screen = GeneratorScreen | ResultsScreen | PreviewScreen | QuizScreen

  /** The screen is chosen from the flags alone: the generator first, then the
      results, then the preview, and otherwise the question being answered. */
  function ScreenOf(generatorVisible: bool, hasSubmitted: bool, isPreviewMode: bool): (s: Screen)
    ensures s == GeneratorScreen <==> generatorVisible
    ensures s == ResultsScreen <==> !generatorVisible && hasSubmitted
    ensures s == PreviewScreen <==> !generatorVisible && !hasSubmitted && isPreviewMode
    ensures s == QuizScreen <==> !generatorVisible && !hasSubmitted && !isPreviewMode
  {
    if generatorVisible then GeneratorScreen
    else if hasSubmitted then ResultsScreen
    else if isPreviewMode then PreviewScreen
    else QuizScreen
  }

  /** The `reduce` behind `correctAnswers`: the positions whose answer is that
      question's `correctAnswerIndex`. A `null` answer never counts. */
  function CorrectCount(questions: seq<Question>, answers: seq<Answer>): (n: nat)
    requires |answers| <= |questions|
    ensures n <= SubmissionPreview.AnsweredCount(answers)
    ensures n == |answers| <==> forall i :: 0 <= i < |answers| ==> ResultsSummary.IsCorrect(answers[i], questions[i])
    ensures n == 0 <==> forall i :: 0 <= i < |answers| ==> !ResultsSummary.IsCorrect(answers[i], questions[i])
  {
    if answers == [] then 0
    else
      assert forall i :: 1 <= i < |answers| ==>
        answers[i] == answers[1..][i - 1] && questions[i] == questions[1..][i - 1];
      (if ResultsSummary.IsCorrect(answers[0], questions[0]) then 1 else 0)
      + CorrectCount(questions[1..], answers[1..])
  }

  /** Counting one more question adds one exactly when its answer is correct, so
      the count is the number of correctly answered positions. */
  lemma {:induction false} CorrectCountAppend(questions: seq<Question>, answers: seq<Answer>, q: Question, a: Answer)
    requires |answers| == |questions|
    ensures CorrectCount(questions + [q], answers + [a])
            == CorrectCount(questions, answers) + (if ResultsSummary.IsCorrect(a, q) then 1 else 0)
  {
    if answers == [] {
      assert questions + [q] == [q] && answers + [a] == [a];
      assert CorrectCount([q][1..], [a][1..]) == 0;
    } else {
      assert (questions + [q])[0] == questions[0] && (answers + [a])[0] == answers[0];
      assert (questions + [q])[1..] == questions[1..] + [q];
      assert (answers + [a])[1..] == answers[1..] + [a];
      CorrectCountAppend(questions[1..], answers[1..], q, a);
    }
  }

  /** The ✗ legend under the results is shown exactly when some question is
      labelled Incorrect. */
  lemma WrongLegendIffSomeIncorrect(questions: seq<Question>, answers: seq<Answer>)
    requires |answers| == |questions|
    ensures ResultsSummary.ShowsWrongLegend(CorrectCount(questions, answers), |questions|)
            <==> exists i :: 0 <= i < |answers| && ResultsSummary.Label(answers[i], questions[i]) == "Incorrect"
  {
    forall i | 0 <= i < |answers|
      ensures ResultsSummary.Label(answers[i], questions[i]) == "Incorrect"
              <==> !ResultsSummary.IsCorrect(answers[i], questions[i])
    {
    }
  }

  /** `existingTemplatesStr ? JSON.parse(existingTemplatesStr) : []`, for a key that parses. */
  function TemplatesIn(slot: Slot<Template>): seq<Template> {
    if slot.Stored? then slot.items else []
  }

  /** Appending a template with a new id and then deleting that id from the list
      gives back the stored templates. */
  lemma AppendThenDeleteRestores(existing: seq<Template>, t: Template)
    requires forall u :: u in existing ==> u.id != t.id
    ensures TemplateManager.WithoutTemplate(existing + [t], t.id) == existing
  {
    TemplateManager.DeleteKeepsOrder(existing, [t], t.id);
  }

  class Home {
    var questions: seq<Question>
    var currentQuestionIndex: int
    var userAnswers: seq<Answer>
    var isLoading: bool
    var hasSubmitted: bool
    var isPreviewMode: bool
    var error: Option<string>
    var generatorVisible: bool
    // the parameters of the last generation, offered when saving a template
    var currentPrompt: string
    var currentNumberOfQuestions: int
    var currentDifficulty: string
    var currentSubject: Option<string>
    var isSaveTemplateModalOpen: bool

    function CurrentScreen(): Screen
      reads this
    {
      ScreenOf(generatorVisible, hasSubmitted, isPreviewMode)
    }

    /** What the handlers keep true: one answer slot per question, the index on a
        question whenever there is one, preview mode off behind the generator and
        the results, something answered in the preview, and a non-empty quiz on
        the results screen. */
    predicate Valid()
      reads this
    {
      && |userAnswers| == |questions|
      && 0 <= currentQuestionIndex
      && (|questions| > 0 ==> currentQuestionIndex < |questions|)
      && (generatorVisible || hasSubmitted ==> !isPreviewMode)
      && (CurrentScreen() == PreviewScreen ==> SubmissionPreview.AnsweredCount(userAnswers) >= 1)
      && (CurrentScreen() == ResultsScreen ==> |questions| > 0)
    }

    /** `totalAnswered`. */
    function TotalAnswered(): (n: nat)
      reads this
      ensures n <= |userAnswers|
    {
      SubmissionPreview.AnsweredCount(userAnswers)
    }

    /** `correctAnswers`: 0 until the quiz is submitted, then the number of correct answers. */
    function CorrectAnswers(): (n: nat)
      reads this
      requires Valid()
      ensures !hasSubmitted ==> n == 0
      ensures n <= TotalAnswered() && n <= |questions|
      ensures hasSubmitted ==>
                (n == |questions| <==> forall i :: 0 <= i < |questions| ==> ResultsSummary.IsCorrect(userAnswers[i], questions[i]))
    {
      if hasSubmitted then CorrectCount(questions, userAnswers) else 0
    }

    /** The template data handed to the save dialog. */
    function CurrentParameters(): TemplateData
      reads this
    {
      TemplateData(currentPrompt, currentNumberOfQuestions, currentDifficulty, currentSubject)
    }

    // The buttons of the question screen.
    function PreviousDisabled(): bool
      reads this
    {
      currentQuestionIndex == 0
    }

    function PreviewDisabled(): bool
      reads this
    {
      TotalAnswered() < 1
    }

    /** Submit replaces Next on the last question. */
    function SubmitShown(): bool
      reads this
    {
      currentQuestionIndex == |questions| - 1
    }

    function SubmitDisabled(): bool
      reads this
    {
      TotalAnswered() != |questions|
    }

    constructor ()
      ensures questions == [] && userAnswers == [] && currentQuestionIndex == 0
      ensures !isLoading && !hasSubmitted && !isPreviewMode && error == None && generatorVisible
      ensures currentPrompt == "" && currentNumberOfQuestions == 5 && currentDifficulty == "medium"
      ensures currentSubject == None && !isSaveTemplateModalOpen
      ensures Valid() && CurrentScreen() == GeneratorScreen
    {
      questions := [];
      currentQuestionIndex := 0;
      userAnswers := [];
      isLoading := false;
      hasSubmitted := false;
      isPreviewMode := false;
      error := None;
      generatorVisible := true;
      currentPrompt := "";
      currentNumberOfQuestions := 5;
      currentDifficulty := "medium";
      currentSubject := None;
      isSaveTemplateModalOpen := false;
    }

    /** The success path of `generateQuestions`: the fetched questions become a
        fresh, unanswered quiz shown from its first question. */
    method StartQuiz(fetched: seq<Question>)
      requires !isPreviewMode
      modifies this`questions, this`currentQuestionIndex, this`userAnswers, this`hasSubmitted, this`generatorVisible
      ensures Valid() && CurrentScreen() == QuizScreen
      ensures questions == fetched && userAnswers == Unanswered(|fetched|)
      ensures currentQuestionIndex == 0 && !hasSubmitted && !generatorVisible
    {
      questions := fetched;
      currentQuestionIndex := 0;
      userAnswers := Unanswered(|fetched|);
      hasSubmitted := false;
      generatorVisible := false;
    }

    /** `generateQuestions`, from the generator form. The parameters are remembered;
        a successful answer starts a fresh quiz on its questions; a failure only sets
        `error`. Loading is over afterwards either way. */
    method GenerateQuestions(prompt: string, numberOfQuestions: int, difficulty: string,
                             subject: Option<string>, outcome: FetchOutcome)
      requires Valid() && CurrentScreen() == GeneratorScreen
      modifies this`currentPrompt, this`currentNumberOfQuestions, this`currentDifficulty, this`currentSubject
      modifies this`isLoading, this`error
      modifies this`questions, this`currentQuestionIndex, this`userAnswers, this`hasSubmitted, this`generatorVisible
      ensures Valid()
      ensures currentPrompt == prompt && currentNumberOfQuestions == numberOfQuestions
      ensures currentDifficulty == difficulty && currentSubject == subject
      ensures !isLoading
      ensures outcome.Fetched? ==>
                && questions == outcome.questions
                && userAnswers == Unanswered(|outcome.questions|)
                && currentQuestionIndex == 0 && !hasSubmitted && !generatorVisible
                && error == None && CurrentScreen() == QuizScreen
      ensures !outcome.Fetched? ==>
                && error == Some(FailureMessage(outcome))
                && questions == old(questions) && userAnswers == old(userAnswers)
                && currentQuestionIndex == old(currentQuestionIndex)
                && hasSubmitted == old(hasSubmitted) && generatorVisible == old(generatorVisible)
    {
      currentPrompt := prompt;
      currentNumberOfQuestions := numberOfQuestions;
      currentDifficulty := difficulty;
      currentSubject := subject;
      isLoading := true;
      error := None;
      if outcome.Fetched? {
        StartQuiz(outcome.questions);
      } else {
        error := Some(FailureMessage(outcome));
      }
      isLoading := false;
    }

    /** `handleLoadTemplate`: generates with the template's parameters, which become
        the page's current parameters. */
    method LoadTemplate(t: Template, outcome: FetchOutcome)
      requires Valid() && CurrentScreen() == GeneratorScreen
      modifies this`currentPrompt, this`currentNumberOfQuestions, this`currentDifficulty, this`currentSubject
      modifies this`isLoading, this`error
      modifies this`questions, this`currentQuestionIndex, this`userAnswers, this`hasSubmitted, this`generatorVisible
      ensures Valid() && !isLoading
      ensures CurrentParameters() == SaveTemplateModal.ParametersOf(t)
      ensures outcome.Fetched? ==>
                && questions == outcome.questions
                && userAnswers == Unanswered(|outcome.questions|)
                && currentQuestionIndex == 0 && !hasSubmitted && !generatorVisible
                && error == None && CurrentScreen() == QuizScreen
      ensures !outcome.Fetched? ==>
                && error == Some(FailureMessage(outcome))
                && questions == old(questions) && userAnswers == old(userAnswers)
                && currentQuestionIndex == old(currentQuestionIndex)
                && hasSubmitted == old(hasSubmitted) && generatorVisible == old(generatorVisible)
    {
      GenerateQuestions(t.prompt, t.numberOfQuestions, t.difficulty, t.subject, outcome);
    }

    /** `handleSelectAnswer`: writes the answer of the current question and nothing else. */
    method SelectAnswer(optionIndex: int)
      requires Valid() && CurrentScreen() == QuizScreen && |questions| > 0
      modifies this`userAnswers
      ensures Valid()
      ensures userAnswers == old(userAnswers)[currentQuestionIndex := Some(optionIndex)]
      ensures TotalAnswered() == old(TotalAnswered()) + (if old(userAnswers[currentQuestionIndex]).None? then 1 else 0)
    {
      SubmissionPreview.AnsweredCountAfterAnswer(userAnswers, currentQuestionIndex, optionIndex);
      var newAnswers := userAnswers;
      newAnswers := newAnswers[currentQuestionIndex := Some(optionIndex)];
      userAnswers := newAnswers;
    }

    /** `handleNextQuestion`: moves on only while there is a next question. */
    method NextQuestion()
      requires Valid()
      modifies this`currentQuestionIndex
      ensures Valid()
      ensures old(currentQuestionIndex) < |questions| - 1 ==> currentQuestionIndex == old(currentQuestionIndex) + 1
      ensures old(currentQuestionIndex) >= |questions| - 1 ==> currentQuestionIndex == old(currentQuestionIndex)
    {
      if currentQuestionIndex < |questions| - 1 {
        currentQuestionIndex := currentQuestionIndex + 1;
      }
    }

    /** `handlePreviousQuestion`: moves back only from a question after the first. */
    method PreviousQuestion()
      requires Valid()
      modifies this`currentQuestionIndex
      ensures Valid()
      ensures old(currentQuestionIndex) > 0 ==> currentQuestionIndex == old(currentQuestionIndex) - 1
      ensures old(currentQuestionIndex) == 0 ==> currentQuestionIndex == 0
    {
      if currentQuestionIndex > 0 {
        currentQuestionIndex := currentQuestionIndex - 1;
      }
    }

    /** `handlePreviewSubmission`, behind "Preview All", which needs one answer. */
    method PreviewSubmission()
      requires Valid() && CurrentScreen() == QuizScreen && !PreviewDisabled()
      modifies this`isPreviewMode
      ensures Valid() && isPreviewMode && CurrentScreen() == PreviewScreen
    {
      isPreviewMode := true;
    }

    /** `handleReturnToQuiz`, the preview's Edit button. */
    method ReturnToQuiz()
      requires Valid()
      modifies this`isPreviewMode
      ensures Valid() && !isPreviewMode
      ensures old(CurrentScreen()) == PreviewScreen ==> CurrentScreen() == QuizScreen
    {
      isPreviewMode := false;
    }

    /** `handleSubmit`. The handler itself checks nothing: it is reached from the
        question screen's Submit (shown on the last question, enabled when every
        question is answered) or from the preview's Submit (enabled when complete). */
    method Submit()
      requires Valid()
      requires || (CurrentScreen() == QuizScreen && SubmitShown() && !SubmitDisabled())
               || (CurrentScreen() == PreviewScreen && SubmissionPreview.IsComplete(questions, userAnswers))
      modifies this`hasSubmitted, this`isPreviewMode
      ensures Valid() && hasSubmitted && !isPreviewMode && CurrentScreen() == ResultsScreen
    {
      hasSubmitted := true;
      isPreviewMode := false;
    }

    /** `handleReset` ("Try Again"): every answer cleared, back to the first question. */
    method Reset()
      requires Valid()
      modifies this`userAnswers, this`currentQuestionIndex, this`hasSubmitted, this`isPreviewMode
      ensures Valid()
      ensures userAnswers == Unanswered(|questions|) && currentQuestionIndex == 0
      ensures !hasSubmitted && !isPreviewMode
      ensures !generatorVisible ==> CurrentScreen() == QuizScreen
    {
      userAnswers := Unanswered(|questions|);
      currentQuestionIndex := 0;
      hasSubmitted := false;
      isPreviewMode := false;
    }

    /** `handleGenerateNew`, from the question screen or the results: the quiz is
        emptied and the generator, which takes precedence over every other screen,
        comes back. `hasSubmitted` is left as it was. */
    method GenerateNew()
      requires Valid() && (CurrentScreen() == QuizScreen || CurrentScreen() == ResultsScreen)
      modifies this`questions, this`userAnswers, this`generatorVisible
      ensures Valid()
      ensures questions == [] && userAnswers == [] && generatorVisible
      ensures CurrentScreen() == GeneratorScreen
    {
      questions := [];
      userAnswers := [];
      generatorVisible := true;
    }

    /** `handleOpenSaveTemplateModal`: opens the dialog once a prompt has been used,
        otherwise reports that there is nothing to save. */
    method OpenSaveTemplateModal()
      modifies this`isSaveTemplateModalOpen, this`error
      ensures currentPrompt != "" ==> isSaveTemplateModalOpen && error == old(error)
      ensures currentPrompt == "" ==>
                error == Some(NoQuizToSaveMessage) && isSaveTemplateModalOpen == old(isSaveTemplateModalOpen)
    {
      if currentPrompt != "" {
        isSaveTemplateModalOpen := true;
      } else {
        error := Some(NoQuizToSaveMessage);
      }
    }

    /** The dialog's `onClose`, used by its Cancel button and after a save. */
    method CloseSaveTemplateModal()
      requires Valid()
      modifies this`isSaveTemplateModalOpen
      ensures Valid() && !isSaveTemplateModalOpen
    {
      isSaveTemplateModalOpen := false;
    }

    /** `handleSaveTemplate`: appends the template after every stored one. Content
        that does not parse makes `JSON.parse` throw, uncaught: nothing is written. */
    method HandleSaveTemplate(store: TemplateManager.TemplateStore, t: Template) returns (written: bool)
      modifies store
      ensures written <==> !old(store.slot).Corrupt?
      ensures written ==> store.slot == Stored(TemplatesIn(old(store.slot)) + [t])
      ensures !written ==> store.slot == old(store.slot)
    {
      if store.slot.Corrupt? {
        return false;
      }
      var existingTemplates := if store.slot.Stored? then store.slot.items else [];
      var updatedTemplates := existingTemplates + [t];
      store.slot := Stored(updatedTemplates);
      written := true;
    }

    /** The dialog's Save: the dialog builds the template from the page's current
        parameters, the page appends it to the store, then the dialog clears its name
        and closes. When the append throws, neither of the last two happens. */
    method ConfirmSaveTemplate(dialog: SaveTemplateModal.SaveTemplateDialog,
                               store: TemplateManager.TemplateStore, id: string, now: int)
      returns (saved: Option<Template>)
      requires Valid()
      modifies this`isSaveTemplateModalOpen, dialog, store
      ensures Valid()
      ensures !old(isSaveTemplateModalOpen) || old(store.slot).Corrupt? ==>
                && saved == None && store.slot == old(store.slot)
                && dialog.templateName == old(dialog.templateName)
                && isSaveTemplateModalOpen == old(isSaveTemplateModalOpen)
      ensures old(isSaveTemplateModalOpen) && !old(store.slot).Corrupt? ==>
                && saved == Some(SaveTemplateModal.NewTemplate(old(dialog.templateName), old(CurrentParameters()), id, now))
                && store.slot == Stored(TemplatesIn(old(store.slot)) + [saved.value])
                && dialog.templateName == "" && !isSaveTemplateModalOpen
    {
      ghost var name := dialog.templateName;
      var parameters := CurrentParameters();
      var built := dialog.BuildTemplate(isSaveTemplateModalOpen, parameters, id, now);
      if built.None? {
        return None;
      }
      var template := built.value;
      assert template == SaveTemplateModal.NewTemplate(name, parameters, id, now);
      var written := HandleSaveTemplate(store, template);
      if !written {
        return None;
      }
      ghost var slot := store.slot;
      dialog.Clear();
      assert store.slot == slot;
      CloseSaveTemplateModal();
      saved := built;
    }
  }

  // ---------------------------------------------------------------------------
  // What the buttons guarantee.

  /** On the question screen, an enabled Submit means a non-empty quiz with every
      question answered, which is what the preview's Submit asks too; an enabled
      "Preview All" means some question is answered. */
  lemma QuizButtonGuards(h: Home)
    requires h.Valid() && h.CurrentScreen() == QuizScreen
    ensures h.SubmitShown() && !h.SubmitDisabled() ==>
              && |h.questions| > 0
              && (forall i :: 0 <= i < |h.questions| ==> h.userAnswers[i].Some?)
    ensures !h.SubmitDisabled() <==> SubmissionPreview.IsComplete(h.questions, h.userAnswers)
    ensures !h.PreviewDisabled() <==> exists i :: 0 <= i < |h.userAnswers| && h.userAnswers[i].Some?
  {
  }

  /** On the results screen the score is out of a non-empty quiz and its percentage
      lies in [0, 100]. */
  lemma ResultsPercentageInRange(h: Home)
    requires h.Valid() && h.CurrentScreen() == ResultsScreen
    ensures |h.questions| > 0
    ensures 0 <= ResultsSummary.Percentage(h.CorrectAnswers(), |h.questions|) <= 100
  {
    ResultsSummary.PercentageBounds(h.CorrectAnswers(), |h.questions|);
  }
}
