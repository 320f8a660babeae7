# MCQ Generator — a Dafny model

This project models the core of the MCQ Generator, a Next.js application that generates
multiple-choice quizzes from a prompt and lets the user take them. The model covers the
following parts:

- **The quiz page (`Home`).** Its state, the handlers that change it, the derived values
  `totalAnswered` and `correctAnswers`, the guards on its buttons, and which screen it shows.
- **The generation endpoint (`POST /api/generate-questions`) without the provider call.**
  Prompt validation, defaults, the cap on the count, how the instruction text is built, how
  the reply is mapped to questions, and how errors become responses.
- **The saved-session store (`mcq-quiz-sessions`).** Save is an upsert by id that stamps the
  time, orders newest first and keeps ten. Read falls back to an empty list. Delete is by id.
- **The template list (`mcq-templates`).** Loading on mount, the search filter, the four sort
  orders, delete by id, and the page's append.
- **The save-template dialog.** It builds a template with a default name.
- **The results summary.** Percentage, feedback and colour tiers, the Correct/Incorrect labels,
  option marking and the single expanded row.
- **The submission preview.** Answered count, completeness, the unanswered notice and
  option highlighting.

There is one Dafny module per source file, plus shared modules:

- `Common`: `Option`, the storage-key state `Slot`, and `Keep`, which models `Array.prototype.filter`.
- `Text`: JavaScript `trim`, `includes`, and integer rendering.
- `Sorting`: `Array.prototype.sort`, which is stable, modelled as an insertion sort.
- `QuizTypes`: the records.

Pure code is modelled as functions and lemmas. Code that updates state is modelled as
classes whose methods change fields: `Home`, `SessionStore`, `TemplateStore`, `TemplateList`,
`SaveTemplateDialog` and `ReviewPanel`. Each React handler is one atomic method. Where the
model relies on it, a button's `disabled` attribute, or the screen the button appears on,
becomes that handler's precondition.
`Home.Valid()` is the invariant every handler keeps:

- there is one answer slot per question;
- the index points at a question whenever there is one;
- preview mode is off behind the generator and the results;
- the preview is only reached with an answer;
- the results screen always has a non-empty quiz.

On these points the model follows the code:

- The requested count is only capped from above, with no lower bound of 1 (`route.ts:32`).
- A model reply that is not JSON, or has no `questions` array, produces a 500 with
  'Failed to generate questions'. An empty list comes back only for a null or empty reply
  content or a `questions` array that is itself empty (`route.ts:63-81`).
- A stored list that does not parse is not always swallowed. `saveQuizSession` and the
  page's `handleSaveTemplate` let the `JSON.parse` error escape, so nothing is written. Only
  `getQuizSessions`, `deleteQuizSession` and the template list's mount catch it.

Some parts of the system are parameters of the model:

- ids (`uuidv4`) and the clock (`new Date()`). Timestamps are integers, and comparing them
  stands for comparing `Date`s.
- the environment variables;
- the provider's reply (`Completion`);
- the page's fetch result (`FetchOutcome`);
- `toLowerCase` (`fold`) and `localeCompare` (`nameLe`).

## Model

| member | source | states |
|---|---|---|
| Common.Keep | src/components/TemplateManager.tsx:40-44 | `filter` keeps only elements of the input that satisfy the predicate and never grows the list |
| Common.KeepMembers | src/utils/sessionStorage.ts:68 | an element is kept exactly when it is in the input and satisfies the predicate |
| Common.KeepAppend | src/components/TemplateManager.tsx:72 | filtering a concatenation filters each part, so kept elements keep their relative order |
| Common.KeepSubMultiset | src/components/TemplateManager.tsx:40-44 | the filtered list is a sub-multiset of the input: nothing is added or duplicated |
| Text.Trim | src/app/api/generate-questions/route.ts:23 | `trim` returns a slice with only whitespace cut off on both sides, and a non-empty result starts and ends with a non-whitespace character |
| Text.TrimEmptyIffBlank | src/app/api/generate-questions/route.ts:23 | `s.trim() === ''` exactly when `s` is empty or whitespace only |
| Text.TrimIdempotent | src/components/SaveTemplateModal.tsx:30 | trimming a trimmed string changes nothing |
| Text.Contains | src/components/TemplateManager.tsx:41-43 | `includes` holds exactly when the substring occurs at some position |
| Text.IntToString | src/app/api/generate-questions/route.ts:35 | the decimal text of an integer is a numeral (an optional minus, then digits) with a leading minus exactly for negatives and no leading zeros |
| Text.IntToStringRoundTrip | src/app/api/generate-questions/route.ts:35 | the decimal text written into the instruction reads back as the same integer |
| Sorting.SortBy | src/utils/sessionStorage.ts:41-42 | `sort` returns a permutation of its input |
| Sorting.SortBySorted | src/components/TemplateManager.tsx:48-61 | under a total-preorder comparator the sorted list is ordered |
| Sorting.InsertSorted | src/utils/sessionStorage.ts:42 | inserting into an ordered list keeps it ordered |
| Sorting.PermutationPositions | src/utils/sessionStorage.ts:42 | two positions of a permutation come from two distinct positions of the original |
| Sorting.InsertBeforeTies | src/utils/sessionStorage.ts:42 | an inserted element goes before every element already there that compares equal to it |
| Sorting.SortByStable | src/utils/sessionStorage.ts:42 | the sort is stable: elements that compare equal come out in their input order, so of two sessions with the same time the earlier one in the list is kept by the cap |
| SessionStorage.NewerFirstIsTotalPreorder | src/utils/sessionStorage.ts:42 | the newest-first comparator is a total preorder |
| SessionStorage.IndexOfId | src/utils/sessionStorage.ts:30 | `findIndex` returns the first position with the id, or none exactly when no session has it |
| SessionStorage.Upsert | src/utils/sessionStorage.ts:30-38 | the first session with the same id (as `findIndex` finds it) is replaced in place and every other position is kept; without one the session is appended at the end |
| SessionStorage.WithoutId | src/utils/sessionStorage.ts:68 | delete keeps exactly the sessions with another id; an absent id leaves the list unchanged |
| SessionStorage.WithoutIdAppend | src/utils/sessionStorage.ts:68 | delete distributes over concatenation, so the remaining sessions keep their relative order |
| SessionStorage.SavedSessions | src/utils/sessionStorage.ts:41-43 | the written list holds min(10, n) of the n upserted sessions and nothing that was not among them |
| SessionStorage.SessionStore.SaveQuizSession | src/utils/sessionStorage.ts:15-46 | a corrupt key aborts the save with nothing written; otherwise the key holds the stamped session upserted, sorted newest first and cut to ten |
| SessionStorage.SessionStore.GetQuizSessions | src/utils/sessionStorage.ts:49-59 | returns the stored list unchanged, or `[]` when the key is missing or unparseable |
| SessionStorage.SessionStore.DeleteQuizSession | src/utils/sessionStorage.ts:62-73 | rewrites a stored list without the id; a missing or corrupt key is left as it is |
| SessionStorage.SavedSessionsOrderedAndBounded | src/utils/sessionStorage.ts:41-45 | after a save the list is ordered newest `lastUpdatedAt` first and holds exactly min(10, n) of the n upserted sessions |
| SessionStorage.SavedSessionsDropOldest | src/utils/sessionStorage.ts:41-43 | kept and dropped sessions together are the upserted list, only the overflow beyond ten is dropped, and no dropped session is newer than a kept one |
| SessionStorage.UpsertKeepsDistinctIds | src/utils/sessionStorage.ts:30-38 | the upsert keeps ids distinct |
| SessionStorage.PermutationKeepsDistinctIds | src/utils/sessionStorage.ts:42 | sorting keeps ids distinct |
| SessionStorage.SaveKeepsDistinctIds | src/utils/sessionStorage.ts:30-45 | if stored ids were distinct before a save they are distinct after it |
| SessionStorage.SavedSessionIsStamped | src/utils/sessionStorage.ts:18-21 | the saved session carries the save time whatever the caller passed; when the stored ids were distinct, it is the only one with its id; it comes first when the clock is ahead of every stored session |
| SessionStorage.SameIdSameSession | src/utils/sessionStorage.ts:30 | with distinct ids a stored session is determined by its id |
| GenerateQuestions.PromptMissingIffBlank | src/app/api/generate-questions/route.ts:23 | a prompt is rejected exactly when it is absent, empty or whitespace only |
| GenerateQuestions.RequestedCount | src/app/api/generate-questions/route.ts:15-20 | a present count is used as given; an absent one takes NEXT_PUBLIC_DEFAULT_NUM_QUESTIONS when set, and 5 when unset |
| GenerateQuestions.MaxQuestions | src/app/api/generate-questions/route.ts:31 | the cap is NEXT_PUBLIC_MAX_QUESTIONS when set, and 10 when unset |
| GenerateQuestions.EffectiveDifficulty | src/app/api/generate-questions/route.ts:18 | a present difficulty is used as given, an absent one becomes 'medium' |
| GenerateQuestions.EffectiveCount | src/app/api/generate-questions/route.ts:31-32 | the count is the minimum of the requested count and the cap (10 when unset); there is no lower bound |
| GenerateQuestions.Instruction | src/app/api/generate-questions/route.ts:35-50 | the instruction opens with the count-and-topic sentence and is exactly as long as that sentence, the optional sentences and the format directive together |
| GenerateQuestions.InstructionLayout | src/app/api/generate-questions/route.ts:37-50 | the optional sentences follow the first sentence directly and the fixed format directive ends the instruction |
| GenerateQuestions.ComposeSystemMessage | src/app/api/generate-questions/route.ts:35-50 | the `+=` sequence produces the instruction: a difficulty sentence when the difficulty is non-empty and a subject sentence when the subject is non-empty |
| GenerateQuestions.InstructionStatesCount | src/app/api/generate-questions/route.ts:35 | any message opening with the first sentence, the instruction among them, carries the count's digits right after "Generate ", and they parse back to the count |
| GenerateQuestions.ExplanationOrDefault | src/app/api/generate-questions/route.ts:71 | a missing or empty explanation becomes 'No explanation available.'; a present one is kept |
| GenerateQuestions.MapQuestions | src/app/api/generate-questions/route.ts:66-72 | the output has the reply's length and order, copies question, options and index unchanged, and gives each entry a fresh id, so the ids are distinct when the id source is |
| GenerateQuestions.ReplyResponse | src/app/api/generate-questions/route.ts:63-81 | the answer is a 500 'Failed to generate questions' exactly for a provider error, non-JSON content or a missing `questions` array; an empty list exactly for null or empty content or an empty `questions` array; otherwise the mapped questions |
| GenerateQuestions.Post | src/app/api/generate-questions/route.ts:11-82 | an unreadable body gives 500; a missing or blank prompt gives 400 'A prompt is required to generate questions' with no model call; otherwise the model is called with the instruction, the raw prompt and the model name, and its reply is mapped |
| ResultsSummary.Percentage | src/components/ResultsSummary.tsx:24 | the percentage is 100·correct/total rounded half up |
| ResultsSummary.PercentageBounds | src/components/ResultsSummary.tsx:24 | for 0 ≤ correct ≤ total the percentage lies in [0, 100], is 0 for no correct answer and 100 for all correct |
| ResultsSummary.PercentageMonotone | src/components/ResultsSummary.tsx:24 | more correct answers never give a lower percentage |
| ResultsSummary.FeedbackFor | src/components/ResultsSummary.tsx:27-36 | each percentage gets exactly one tier: at least 90, 70 to 89, 50 to 69, below 50 |
| ResultsSummary.FeedbackMessage | src/components/ResultsSummary.tsx:27-36 | the message text of each tier, as written in the component |
| ResultsSummary.FeedbackMonotone | src/components/ResultsSummary.tsx:28-36 | a higher percentage never yields a lower tier |
| ResultsSummary.RingColourFor | src/components/ResultsSummary.tsx:64 | the ring is green at 70 or more, yellow from 40 to 69, red below 40 |
| ResultsSummary.Label | src/components/ResultsSummary.tsx:129-146 | the badge reads Correct exactly when the answer equals `correctAnswerIndex`; an unanswered question is Incorrect |
| ResultsSummary.OptionShade | src/components/ResultsSummary.tsx:169-173 | the correct option is shaded green; otherwise the user's option is shaded red; any other option is unshaded |
| ResultsSummary.OptionIcons | src/components/ResultsSummary.tsx:178-194 | the check icon on the correct option, the cross on a chosen wrong option, a blank spacer on every other option |
| ResultsSummary.OptionMarkingConsistent | src/components/ResultsSummary.tsx:169-194 | each option gets exactly one icon, matching its shade; the correct option is always marked correct; the user's option is marked wrong only when it is not the correct one |
| ResultsSummary.Toggled | src/components/ResultsSummary.tsx:38-44 | toggling the expanded row collapses it; toggling any other row expands that row alone |
| ResultsSummary.ToggleExpandsOnlyToggledRow | src/components/ResultsSummary.tsx:38-44 | after a toggle, a row is expanded exactly when it is the toggled row and was not expanded before |
| ResultsSummary.ReviewPanel.ToggleQuestionExpand | src/components/ResultsSummary.tsx:38-44 | the expanded row becomes the toggled value and the review visibility is unchanged |
| ResultsSummary.ReviewPanel.ToggleReview | src/components/ResultsSummary.tsx:106 | the review list's visibility flips and the expanded row is unchanged |
| SubmissionPreview.AnsweredCount | src/components/SubmissionPreview.tsx:18 | the count of non-null answers is at most the length; it equals the length exactly when all are answered and is 0 exactly when none is |
| SubmissionPreview.AnsweredCountAfterAnswer | src/app/page.tsx:76-80 | answering an unanswered question adds one to the count; changing an answer adds nothing |
| SubmissionPreview.IsComplete | src/components/SubmissionPreview.tsx:19 | with one slot per question, the preview is complete exactly when every question is answered |
| SubmissionPreview.ShowsUnansweredNotice | src/components/SubmissionPreview.tsx:63-67 | a question shows "You haven't answered this question yet." exactly when its answer is null |
| SubmissionPreview.CompleteIffNoNotice | src/components/SubmissionPreview.tsx:63-67 | the preview is complete exactly when no question shows the unanswered notice |
| SubmissionPreview.Highlights | src/components/SubmissionPreview.tsx:47-53 | an option is highlighted exactly when its index is the answer, so at most one is, and none when unanswered |
| TemplateManager.OrderLeIsTotalPreorder | src/components/TemplateManager.tsx:48-61 | every sort order is a total preorder when the locale comparison is one |
| TemplateManager.OrderLe | src/components/TemplateManager.tsx:48-61 | the four comparators: `createdAt` descending or ascending, and `localeCompare` of the names ascending or descending |
| TemplateManager.Matches | src/components/TemplateManager.tsx:39-44 | a template matches when its folded name, prompt or non-empty subject contains the query |
| TemplateManager.FilterTemplates | src/components/TemplateManager.tsx:36-45 | the filter result comes from the stored templates and is no longer than them |
| TemplateManager.BlankQueryKeepsAll | src/components/TemplateManager.tsx:38 | a whitespace-only search keeps every template |
| TemplateManager.SearchKeepsExactlyMatches | src/components/TemplateManager.tsx:39-44 | a non-blank search keeps exactly the templates whose folded name, prompt or present subject contains the folded, untrimmed query |
| TemplateManager.ViewIsReorderedSubset | src/components/TemplateManager.tsx:36-63 | the displayed list is a reordering of a sub-collection of the templates |
| TemplateManager.View | src/components/TemplateManager.tsx:36-63 | the displayed list holds exactly the filtered templates, reordered |
| TemplateManager.ViewOrdered | src/components/TemplateManager.tsx:48-61 | 'date-new' orders by creation time newest first, 'date-old' oldest first, and the name orders ascend or descend under the locale comparison |
| TemplateManager.WithoutTemplate | src/components/TemplateManager.tsx:72 | delete keeps exactly the templates with another id; an absent id leaves the list unchanged |
| TemplateManager.DeleteKeepsOrder | src/components/TemplateManager.tsx:72 | deleting from a concatenation deletes from each part, so the rest stay in order |
| TemplateManager.TemplateList.Refresh | src/components/TemplateManager.tsx:34-64 | the effect sets the displayed list to the filtered, sorted templates and changes nothing else |
| TemplateManager.TemplateList.Mount | src/components/TemplateManager.tsx:20-31 | a stored list is loaded; a missing or unparseable key leaves the list as it was (empty at mount) |
| TemplateManager.TemplateList.SetSearchQuery | src/components/TemplateManager.tsx:111 | the query changes and the displayed list is recomputed |
| TemplateManager.TemplateList.SetSortOrder | src/components/TemplateManager.tsx:119 | the order changes and the displayed list is recomputed |
| TemplateManager.TemplateList.ToggleOpen | src/components/TemplateManager.tsx:81 | the list's visibility flips |
| TemplateManager.TemplateList.HandleLoadTemplate | src/components/TemplateManager.tsx:66-69 | the template is handed on unchanged and the list closes |
| TemplateManager.TemplateList.HandleDeleteTemplate | src/components/TemplateManager.tsx:71-75 | the templates lose every entry with the id, that exact list is written to the key, and the displayed list is recomputed |
| SaveTemplateModal.TemplateName | src/components/SaveTemplateModal.tsx:30 | the name is the trimmed input, or 'Untitled Template' when the input is blank |
| SaveTemplateModal.TemplateNameIsTrimmed | src/components/SaveTemplateModal.tsx:30 | a stored name is never empty and has no surrounding whitespace |
| SaveTemplateModal.NewTemplate | src/components/SaveTemplateModal.tsx:28-36 | the template carries the given id and time and the defaulted name, and its parameters are those of the template data |
| SaveTemplateModal.SaveTemplateDialog.BuildTemplate | src/components/SaveTemplateModal.tsx:25-36 | a closed dialog produces no template; an open one produces the template built from its name field |
| SaveTemplateModal.SaveTemplateDialog.Clear | src/components/SaveTemplateModal.tsx:39 | the name field is emptied |
| Page.FailureMessage | src/app/page.tsx:58-61 | a non-ok answer reports the server's error text or 'Failed to generate questions'; a thrown error reports its message or 'Something went wrong'; never empty |
| Page.Unanswered | src/app/page.tsx:66 | `Array(n).fill(null)` has n slots, all unanswered |
| Page.ScreenOf | src/app/page.tsx:191-224 | the generator takes precedence, then the results, then the preview, and otherwise the question screen |
| Page.CorrectCount | src/app/page.tsx:154-160 | counts the positions whose answer equals `correctAnswerIndex`: never more than the answered ones, all of them exactly when every answer is correct, none exactly when no answer is |
| Page.CorrectCountAppend | src/app/page.tsx:154-160 | one more question adds one to the count exactly when its answer is correct, which fixes the count at every length |
| Page.WrongLegendIffSomeIncorrect | src/components/ResultsSummary.tsx:121-124 | the ✗ legend is shown exactly when some question is labelled Incorrect |
| Page.AppendThenDeleteRestores | src/app/page.tsx:137 | appending a template with a new id and deleting that id gives back the stored list |
| Page.Home.constructor | src/app/page.tsx:13-27 | the initial state: no questions or answers, index 0, generator shown, nothing loading, submitted or previewed, default parameters 5 and 'medium' |
| Page.Home.TotalAnswered | src/app/page.tsx:153 | `totalAnswered` counts the non-null answers and never exceeds the number of slots |
| Page.Home.PreviousDisabled | src/app/page.tsx:249 | Previous is disabled on the first question |
| Page.Home.PreviewDisabled | src/app/page.tsx:258 | Preview All is disabled while nothing is answered |
| Page.Home.SubmitShown | src/app/page.tsx:264 | Submit replaces Next on the last question |
| Page.Home.SubmitDisabled | src/app/page.tsx:267 | Submit is disabled until every question is answered |
| Page.Home.CorrectAnswers | src/app/page.tsx:154-160 | `correctAnswers` is 0 before submission and afterwards at most `totalAnswered` and the question count |
| Page.Home.StartQuiz | src/app/page.tsx:63-68 | the fetched questions become the quiz, all unanswered, shown from question 0 on the question screen, with the invariant kept |
| Page.Home.GenerateQuestions | src/app/page.tsx:29-74 | parameters are remembered; on success the quiz restarts with all answers null, index 0, not submitted, generator hidden; on failure only `error` changes; loading is off afterwards |
| Page.Home.LoadTemplate | src/app/page.tsx:143-151 | generation runs with the template's parameters, which become the current parameters; success starts a fresh unanswered quiz at index 0 with no error, failure sets `error` and leaves the quiz as it was |
| Page.Home.SelectAnswer | src/app/page.tsx:76-80 | only the answer at the current index is written; length, index and everything else are kept |
| Page.Home.NextQuestion | src/app/page.tsx:82-86 | the index advances only below the last question, so it stays in range |
| Page.Home.PreviousQuestion | src/app/page.tsx:88-92 | the index goes back only above 0, so it stays in range |
| Page.Home.PreviewSubmission | src/app/page.tsx:94-96 | with at least one answer, the preview opens |
| Page.Home.ReturnToQuiz | src/app/page.tsx:98-100 | preview mode ends and the question screen returns |
| Page.Home.Submit | src/app/page.tsx:102-105 | from an enabled Submit, the quiz is submitted, preview mode ends and the results show |
| Page.Home.Reset | src/app/page.tsx:107-112 | every answer is null again with the same length, the index is 0, submission and preview are cleared, questions are kept |
| Page.Home.GenerateNew | src/app/page.tsx:114-118 | questions and answers are emptied and the generator screen takes precedence |
| Page.Home.OpenSaveTemplateModal | src/app/page.tsx:121-127 | the dialog opens when a prompt has been used, otherwise `error` says there is no quiz to save |
| Page.Home.CloseSaveTemplateModal | src/app/page.tsx:181 | the dialog closes and nothing else changes |
| Page.Home.HandleSaveTemplate | src/app/page.tsx:129-141 | the template is appended after all stored templates in order; an unparseable key aborts with nothing written |
| Page.Home.ConfirmSaveTemplate | src/components/SaveTemplateModal.tsx:27-41 | an open dialog saves the built template once, then clears its name and closes; a closed dialog or a failed append changes nothing |
| Page.QuizButtonGuards | src/app/page.tsx:258-267 | an enabled Submit means a non-empty quiz with every question answered, the same condition as the preview's Submit; an enabled Preview All means some answer |
| Page.ResultsPercentageInRange | src/app/page.tsx:208-216 | on the results screen the quiz is non-empty and the percentage lies in [0, 100] |

## Left out

- Network and provider calls (`fetch`, the OpenAI client) are left out. Their results are parameters.
- `localStorage`, `JSON.parse` and `JSON.stringify` are left out. A key is absent, corrupt or a
  parsed list. An empty stored string counts as absent, because the code tests it for truthiness.
- `uuidv4` and `new Date()` are parameters. Timestamps are integers, so ISO-string parsing and
  `Date` arithmetic are out.
- Unicode case folding (`toLowerCase`) and locale collation (`localeCompare`) are parameters.
  The name orders are only proved ordered when the given comparison is a total preorder.
- Environment variables are parameters, already parsed. `parseInt` of a non-numeric value
  (NaN) is out.
- Outside the integer cases, JSON values of the wrong type are out. This covers a
  non-string prompt, a string count, a non-array `questions` and a null entry in it.
- Floating point is out. `Math.round` is exact half-up rounding for a positive total.
  The NaN of an empty quiz is out, and the model shows the results screen never has one.
  The SVG `strokeDashoffset` is out.
- React scheduling and batching are out. Each handler is one atomic step. The template
  list's filter-and-sort effect runs at the end of each handler that changes its inputs.
- `generateQuestions` is asynchronous. The model takes it as one step, so `isLoading`
  is only observed as false afterwards. Overlapping requests are not modelled.
- Reading `userAnswers[i]` past the end of the array gives `undefined` in the code. That is
  out, because the invariant keeps one slot per question.
- The question card, the saved-sessions view, the generator form and the layout are out.
  They are markup over the rules modelled here.
- `console.error` logging is out.

