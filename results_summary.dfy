// The results screen: the score as a rounded percentage, the feedback message
// and ring colour chosen from it, the per-question Correct/Incorrect label, the
// marking of options in an expanded review row, and the single expanded row.
module ResultsSummary {
  import opened Common
  import opened QuizTypes

  /** `Math.round((correct / total) * 100)`, computed exactly: the nearest integer
      to 100·correct/total, halves rounded up. */
  function Percentage(correct: int, total: int): (p: int)
    requires total > 0
    ensures 2 * total * p <= 200 * correct + total < 2 * total * (p + 1)
  {
    (200 * correct + total) / (2 * total)
  }

  /** Multiplying by a positive factor preserves strict order. */
  lemma ScaleStrict(a: int, x: int, y: int)
    requires a > 0
    ensures x < y <==> a * x < a * y
  {
    assert a * y - a * x == a * (y - x);
  }

  /** For a score out of `total`, the percentage lies in [0, 100], is 0 for no
      correct answer and 100 for all correct. */
  lemma PercentageBounds(correct: int, total: int)
    requires 0 <= correct <= total && total > 0
    ensures 0 <= Percentage(correct, total) <= 100
    ensures correct == 0 ==> Percentage(correct, total) == 0
    ensures correct == total ==> Percentage(correct, total) == 100
  {
    var p := Percentage(correct, total);
    var t2 := 2 * total;
    ScaleStrict(t2, -1, p);
    ScaleStrict(t2, p, 101);
    assert t2 * 101 == 202 * total;
    if correct == 0 {
      ScaleStrict(t2, p, 1);
    }
    if correct == total {
      ScaleStrict(t2, 100, p + 1);
      assert t2 * 100 == 200 * total;
    }
  }

  /** More correct answers never give a lower percentage. */
  lemma PercentageMonotone(c1: int, c2: int, total: int)
    requires total > 0 && c1 <= c2
    ensures Percentage(c1, total) <= Percentage(c2, total)
  {
    ScaleStrict(2 * total, Percentage(c1, total), Percentage(c2, total) + 1);
  }

  datatype Feedback = Mastered | GoodUnderstanding | MakingProgress | KeepPracticing

  /** The feedback tier: lower bounds 90, 70 and 50 are inclusive. */
  function FeedbackFor(percentage: int): (f: Feedback)
    ensures f == Mastered <==> percentage >= 90
    ensures f == GoodUnderstanding <==> 70 <= percentage < 90
    ensures f == MakingProgress <==> 50 <= percentage < 70
    ensures f == KeepPracticing <==> percentage < 50
  {
    if percentage >= 90 then Mastered
    else if percentage >= 70 then GoodUnderstanding
    else if percentage >= 50 then MakingProgress
    else KeepPracticing
  }

  function FeedbackMessage(f: Feedback): string {
    match f
    case Mastered => "Excellent! You have mastered this topic!"
    case GoodUnderstanding => "Great job! You have a good understanding of this topic."
    case MakingProgress => "Good effort. You're making progress on this topic."
    case KeepPracticing => "Keep practicing. You'll improve with more study."
  }

  /** Tiers ordered from lowest to highest. */
  function TierRank(f: Feedback): nat {
    match f
    case KeepPracticing => 0
    case MakingProgress => 1
    case GoodUnderstanding => 2
    case Mastered => 3
  }

  /** A higher percentage never yields a lower tier. */
  lemma FeedbackMonotone(p: int, q: int)
    requires p <= q
    ensures TierRank(FeedbackFor(p)) <= TierRank(FeedbackFor(q))
  {
  }

  datatype RingColour = Green | Yellow | Red

  /** The colour of the score ring. */
  function RingColourFor(percentage: int): (c: RingColour)
    ensures c == Green <==> percentage >= 70
    ensures c == Yellow <==> 40 <= percentage < 70
    ensures c == Red <==> percentage < 40
  {
    if percentage >= 70 then Green else if percentage >= 40 then Yellow else Red
  }

  /** `userAnswer === question.correctAnswerIndex`. */
  predicate IsCorrect(answer: Answer, q: Question) {
    answer == Some(q.correctAnswerIndex)
  }

  /** The badge of a review row. */
  function Label(answer: Answer, q: Question): (badge: string)
    ensures badge == "Correct" <==> IsCorrect(answer, q)
    ensures answer.None? ==> badge == "Incorrect"
  {
    if IsCorrect(answer, q) then "Correct" else "Incorrect"
  }

  /** The `✗ ... shows your incorrect answers.` legend. */
  predicate ShowsWrongLegend(correctAnswers: int, totalQuestions: int) {
    correctAnswers != totalQuestions
  }

  /** The background an option gets in an expanded row (green, red or none). */
  datatype Shade = CorrectShade | WrongShade | NoShade

  function OptionShade(optIndex: int, q: Question, answer: Answer): Shade {
    if optIndex == q.correctAnswerIndex then CorrectShade
    else if answer == Some(optIndex) then WrongShade
    else NoShade
  }

  /** The icons an option gets in an expanded row: each is drawn under its own condition. */
  datatype Icon = Check | Cross | Blank

  function OptionIcons(optIndex: int, q: Question, answer: Answer): set<Icon> {
    (if optIndex == q.correctAnswerIndex then {Check} else {})
    + (if answer == Some(optIndex) && optIndex != q.correctAnswerIndex then {Cross} else {})
    + (if answer != Some(optIndex) && optIndex != q.correctAnswerIndex then {Blank} else {})
  }

  /** Each option gets exactly one icon, and it agrees with its shade: the correct
      option is always checked, the user's option is crossed only when it differs
      from the correct one, and every other option is left blank. */
  lemma OptionMarkingConsistent(optIndex: int, q: Question, answer: Answer)
    ensures var icons := OptionIcons(optIndex, q, answer);
            (icons == {Check} <==> OptionShade(optIndex, q, answer) == CorrectShade)
            && (icons == {Cross} <==> OptionShade(optIndex, q, answer) == WrongShade)
            && (icons == {Blank} <==> OptionShade(optIndex, q, answer) == NoShade)
    ensures optIndex == q.correctAnswerIndex ==> OptionShade(optIndex, q, answer) == CorrectShade
    ensures OptionShade(optIndex, q, answer) == WrongShade
            ==> answer == Some(optIndex) && !IsCorrect(answer, q)
  {
    var icons := OptionIcons(optIndex, q, answer);
    if optIndex == q.correctAnswerIndex {
      assert icons == {Check};
    } else if answer == Some(optIndex) {
      assert icons == {Cross};
    } else {
      assert icons == {Blank};
    }
  }

  /** `toggleQuestionExpand(index)`: collapse the row if it is the expanded one,
      otherwise expand it (collapsing any other). */
  function Toggled(expanded: Option<int>, index: int): (r: Option<int>)
    ensures r.Some? ==> r.value == index
    ensures r.None? <==> expanded == Some(index)
  {
    if expanded == Some(index) then None else Some(index)
  }

  /** After a toggle, row `j` is expanded exactly when it is the toggled row and
      that row was not expanded before. */
  lemma ToggleExpandsOnlyToggledRow(expanded: Option<int>, index: int, j: int)
    ensures Toggled(expanded, index) == Some(j) <==> j == index && expanded != Some(index)
  {
  }

  /** The component's own state: whether the review list is shown and which row,
      if any, is expanded. An `Option` holds at most one row by construction. */
  class ReviewPanel {
    var showQuestions: bool
    var expandedQuestionIndex: Option<int>

    constructor ()
      ensures !showQuestions && expandedQuestionIndex == None
    {
      showQuestions := false;
      expandedQuestionIndex := None;
    }

    method ToggleQuestionExpand(index: int)
      modifies this
      ensures expandedQuestionIndex == Toggled(old(expandedQuestionIndex), index)
      ensures showQuestions == old(showQuestions)
    {
      if expandedQuestionIndex == Some(index) {
        expandedQuestionIndex := None;
      } else {
        expandedQuestionIndex := Some(index);
      }
    }

    /** The "Review All Answers" / "Hide Review Mode" button. */
    method ToggleReview()
      modifies this
      ensures showQuestions == !old(showQuestions)
      ensures expandedQuestionIndex == old(expandedQuestionIndex)
    {
      showQuestions := !showQuestions;
    }
  }
}
