// The submission preview: how many questions are answered, whether the quiz may
// be submitted, which questions carry the "not answered yet" notice and which
// option of each question is highlighted. The component holds no state.
module SubmissionPreview {
  import opened Common
  import opened QuizTypes

  /** `userAnswers.filter(answer => answer !== null).length`. */
  function AnsweredCount(answers: seq<Answer>): (n: nat)
    ensures n <= |answers|
    ensures n == |answers| <==> forall i :: 0 <= i < |answers| ==> answers[i].Some?
    ensures n == 0 <==> forall i :: 0 <= i < |answers| ==> answers[i].None?
  {
    if answers == [] then 0
    else
      assert forall i :: 1 <= i < |answers| ==> answers[i] == answers[1..][i - 1];
      (if answers[0].Some? then 1 else 0) + AnsweredCount(answers[1..])
  }

  /** Filling an unanswered slot adds exactly one to the count; overwriting an
      answer leaves it unchanged. */
  lemma {:induction false} AnsweredCountAfterAnswer(answers: seq<Answer>, i: int, k: int)
    requires 0 <= i < |answers|
    ensures AnsweredCount(answers[i := Some(k)])
            == AnsweredCount(answers) + (if answers[i].None? then 1 else 0)
  {
    if i > 0 {
      assert answers[i := Some(k)][1..] == answers[1..][i - 1 := Some(k)];
      AnsweredCountAfterAnswer(answers[1..], i - 1, k);
    } else {
      assert answers[i := Some(k)][1..] == answers[1..];
    }
  }

  /** `isComplete`: with one answer slot per question, complete means every
      question is answered. The submit button is disabled exactly when this is false. */
  function IsComplete(questions: seq<Question>, answers: seq<Answer>): (b: bool)
    ensures |answers| == |questions| ==>
              (b <==> forall i :: 0 <= i < |answers| ==> answers[i].Some?)
    ensures b ==> |answers| >= |questions|
  {
    AnsweredCount(answers) == |questions|
  }

  /** Whether question `i` shows "You haven't answered this question yet.". */
  function ShowsUnansweredNotice(answers: seq<Answer>, i: int): bool
    requires 0 <= i < |answers|
  {
    answers[i].None?
  }

  /** The preview is complete exactly when no question shows the notice. */
  lemma CompleteIffNoNotice(questions: seq<Question>, answers: seq<Answer>)
    requires |answers| == |questions|
    ensures IsComplete(questions, answers)
            <==> forall i :: 0 <= i < |answers| ==> !ShowsUnansweredNotice(answers, i)
  {
    assert forall i :: 0 <= i < |answers| ==> (ShowsUnansweredNotice(answers, i) <==> answers[i].None?);
  }

  /** The highlight of each of a question's `optionCount` options (`userAnswer === optIndex`). */
  function Highlights(answer: Answer, optionCount: nat): (marks: seq<bool>)
    ensures |marks| == optionCount
    ensures forall i :: 0 <= i < optionCount ==> (marks[i] <==> answer == Some(i))
    ensures forall i, j :: 0 <= i < optionCount && 0 <= j < optionCount && marks[i] && marks[j] ==> i == j
    ensures answer.None? ==> forall i :: 0 <= i < optionCount ==> !marks[i]
  {
    seq(optionCount, i => answer == Some(i))
  }
}
