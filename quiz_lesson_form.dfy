// The quiz editor of the lesson form (client/src/components/QuizLessonForm.jsx).
// Each handler copies the lesson's question list, changes one entry, and
// hands the lesson with the new quiz to `onUpdate`; here each handler is a
// function from the current quiz to the quiz passed on.
module QuizLessonForm {
  import opened Common

  datatype Question = Question(
    id: int, question: string, kind: string, options: seq<string>,
    correctAnswer: int, explanation: string, points: int)

  /** The quiz of a lesson being edited; the settings are absent until set. */
  datatype QuizDraft = QuizDraft(
    questions: seq<Question>, timeLimit: Option<int>, passingScore: Option<int>,
    maxAttempts: Option<int>, randomizeQuestions: Option<bool>)

  /** `lessonData.quiz?.questions || []`. */
  function QuestionsOf(quiz: Option<QuizDraft>): seq<Question>
  {
    if quiz.Some? then quiz.value.questions else []
  }

  /** `{...lessonData.quiz, questions}`: the settings of an existing quiz
      are kept. */
  function WithQuestions(quiz: Option<QuizDraft>, questions: seq<Question>): QuizDraft
  {
    if quiz.Some? then quiz.value.(questions := questions)
    else QuizDraft(questions, None, None, None, None)
  }

  /** The same settings in both quizzes. */
  predicate SameSettings(a: QuizDraft, b: QuizDraft)
  {
    a.timeLimit == b.timeLimit && a.passingScore == b.passingScore &&
    a.maxAttempts == b.maxAttempts && a.randomizeQuestions == b.randomizeQuestions
  }

  // ---------------------------------------------------------------------
  // Questions

  /** A new question: multiple choice with four empty options, the first
      marked correct, worth one point; its id is the clock reading. */
  function NewQuestion(now: int): Question
  {
    Question(now, "", "multiple-choice", ["", "", "", ""], 0, "", 1)
  }

  function AddQuestion(quiz: Option<QuizDraft>, now: int): (r: QuizDraft)
    ensures |r.questions| == |QuestionsOf(quiz)| + 1
    ensures r.questions[..|QuestionsOf(quiz)|] == QuestionsOf(quiz)
    ensures var q := r.questions[|QuestionsOf(quiz)|];
      q.id == now && q.kind == "multiple-choice" && |q.options| == 4 &&
      (forall k :: 0 <= k < 4 ==> q.options[k] == "") &&
      q.correctAnswer == 0 && q.points == 1 && q.question == "" && q.explanation == ""
    ensures quiz.Some? ==> SameSettings(r, quiz.value)
  {
    WithQuestions(quiz, QuestionsOf(quiz) + [NewQuestion(now)])
  }

  /** `questions.filter((_, i) => i !== questionIndex)`. */
  function RemoveQuestion(quiz: Option<QuizDraft>, questionIndex: int): (r: QuizDraft)
    ensures !(0 <= questionIndex < |QuestionsOf(quiz)|) ==> r.questions == QuestionsOf(quiz)
    ensures 0 <= questionIndex < |QuestionsOf(quiz)| ==>
      |r.questions| == |QuestionsOf(quiz)| - 1 &&
      forall k :: 0 <= k < |r.questions| ==>
        r.questions[k] == QuestionsOf(quiz)[if questionIndex <= k then k + 1 else k]
    ensures quiz.Some? ==> SameSettings(r, quiz.value)
  {
    WithQuestions(quiz, DropIndex(QuestionsOf(quiz), questionIndex))
  }

  /** Removing the question just added gives back the list as it was. */
  lemma AddThenRemoveQuestion(quiz: Option<QuizDraft>, now: int)
    ensures RemoveQuestion(Some(AddQuestion(quiz, now)), |QuestionsOf(quiz)|).questions == QuestionsOf(quiz)
  {
    var added := AddQuestion(quiz, now);
    assert added.questions[..|QuestionsOf(quiz)|] == QuestionsOf(quiz);
  }

  /** One field of a question, with the value the form gives it. */
  datatype Edit =
    | QuestionText(text: string)
    | Kind(kind: string)
    | Points(points: int)
    | CorrectAnswer(index: int)
    | Explanation(text: string)

  /** `{...question, [field]: value}`. */
  function Apply(q: Question, e: Edit): Question
  {
    match e
    case QuestionText(t) => q.(question := t)
    case Kind(k) => q.(kind := k)
    case Points(p) => q.(points := p)
    case CorrectAnswer(i) => q.(correctAnswer := i)
    case Explanation(t) => q.(explanation := t)
  }

  /** The points field takes `parseInt(value) || 1`. */
  function PointsInput(parsed: Option<int>): (r: int)
    ensures r != 0
  {
    ParsedOr(parsed, 1)
  }

  /** Whether the edit writes field `f`, numbered as in `SameField`. */
  predicate Touches(e: Edit, f: nat)
  {
    match e
    case QuestionText(_) => f == 1
    case Kind(_) => f == 2
    case Points(_) => f == 6
    case CorrectAnswer(_) => f == 4
    case Explanation(_) => f == 5
  }

  /** Fields numbered 0 to 6 in the order of the datatype, options at 3. */
  predicate SameField(a: Question, b: Question, f: nat)
  {
    match f
    case 0 => a.id == b.id
    case 1 => a.question == b.question
    case 2 => a.kind == b.kind
    case 3 => a.options == b.options
    case 4 => a.correctAnswer == b.correctAnswer
    case 5 => a.explanation == b.explanation
    case _ => a.points == b.points
  }

  function UpdateQuestion(quiz: Option<QuizDraft>, questionIndex: int, e: Edit): (r: QuizDraft)
    requires 0 <= questionIndex < |QuestionsOf(quiz)|
    ensures |r.questions| == |QuestionsOf(quiz)|
    ensures forall k :: 0 <= k < |r.questions| && k != questionIndex ==> r.questions[k] == QuestionsOf(quiz)[k]
    ensures quiz.Some? ==> SameSettings(r, quiz.value)
  {
    var qs := QuestionsOf(quiz);
    WithQuestions(quiz, qs[questionIndex := Apply(qs[questionIndex], e)])
  }

  /** An edit sets its own field to the value given and leaves every other
      field of the question as it was; repeating it changes nothing. */
  lemma UpdateQuestionSetsOneField(quiz: Option<QuizDraft>, questionIndex: int, e: Edit, f: nat)
    requires 0 <= questionIndex < |QuestionsOf(quiz)| && f <= 6
    ensures var before := QuestionsOf(quiz)[questionIndex];
      var after := UpdateQuestion(quiz, questionIndex, e).questions[questionIndex];
      (!Touches(e, f) ==> SameField(after, before, f)) &&
      (e.QuestionText? ==> after.question == e.text) &&
      (e.Kind? ==> after.kind == e.kind) &&
      (e.Points? ==> after.points == e.points) &&
      (e.CorrectAnswer? ==> after.correctAnswer == e.index) &&
      (e.Explanation? ==> after.explanation == e.text)
    ensures UpdateQuestion(Some(UpdateQuestion(quiz, questionIndex, e)), questionIndex, e) == UpdateQuestion(quiz, questionIndex, e)
  {
  }

  // ---------------------------------------------------------------------
  // Options

  function UpdateOption(quiz: Option<QuizDraft>, questionIndex: int, optionIndex: int, value: string): (r: QuizDraft)
    requires 0 <= questionIndex < |QuestionsOf(quiz)|
    requires 0 <= optionIndex < |QuestionsOf(quiz)[questionIndex].options|
    ensures |r.questions| == |QuestionsOf(quiz)|
    ensures forall k :: 0 <= k < |r.questions| && k != questionIndex ==> r.questions[k] == QuestionsOf(quiz)[k]
    ensures var before := QuestionsOf(quiz)[questionIndex];
      var after := r.questions[questionIndex];
      after == before.(options := after.options) && |after.options| == |before.options| &&
      after.options[optionIndex] == value &&
      forall k :: 0 <= k < |after.options| && k != optionIndex ==> after.options[k] == before.options[k]
    ensures quiz.Some? ==> SameSettings(r, quiz.value)
  {
    var qs := QuestionsOf(quiz);
    var q := qs[questionIndex];
    WithQuestions(quiz, qs[questionIndex := q.(options := q.options[optionIndex := value])])
  }

  function AddOption(quiz: Option<QuizDraft>, questionIndex: int): (r: QuizDraft)
    requires 0 <= questionIndex < |QuestionsOf(quiz)|
    ensures |r.questions| == |QuestionsOf(quiz)|
    ensures forall k :: 0 <= k < |r.questions| && k != questionIndex ==> r.questions[k] == QuestionsOf(quiz)[k]
    ensures var before := QuestionsOf(quiz)[questionIndex];
      var after := r.questions[questionIndex];
      after == before.(options := after.options) &&
      |after.options| == |before.options| + 1 &&
      after.options[..|before.options|] == before.options && after.options[|before.options|] == ""
    ensures quiz.Some? ==> SameSettings(r, quiz.value)
  {
    var qs := QuestionsOf(quiz);
    var q := qs[questionIndex];
    WithQuestions(quiz, qs[questionIndex := q.(options := q.options + [""])])
  }

  /** The correct answer after removing option `optionIndex`: an answer at
      or after the removed option moves back one, but not below 0. */
  function ShiftedAnswer(correctAnswer: int, optionIndex: int): int
  {
    if correctAnswer >= optionIndex then Max(0, correctAnswer - 1) else correctAnswer
  }

  /** removeOption: a question with two options or fewer keeps them and the
      form is not updated (`None`); otherwise the option goes and the
      correct answer is shifted. */
  function RemoveOption(quiz: Option<QuizDraft>, questionIndex: int, optionIndex: int): (r: Option<QuizDraft>)
    requires 0 <= questionIndex < |QuestionsOf(quiz)|
    ensures r.None? <==> |QuestionsOf(quiz)[questionIndex].options| <= 2
    ensures r.Some? ==>
      |r.value.questions| == |QuestionsOf(quiz)| &&
      (forall k :: 0 <= k < |QuestionsOf(quiz)| && k != questionIndex ==> r.value.questions[k] == QuestionsOf(quiz)[k]) &&
      (quiz.Some? ==> SameSettings(r.value, quiz.value))
    ensures r.Some? ==>
      var before := QuestionsOf(quiz)[questionIndex];
      var after := r.value.questions[questionIndex];
      after == before.(options := DropIndex(before.options, optionIndex),
                       correctAnswer := ShiftedAnswer(before.correctAnswer, optionIndex))
  {
    var qs := QuestionsOf(quiz);
    var q := qs[questionIndex];
    if |q.options| > 2 then
      var removed := q.(options := DropIndex(q.options, optionIndex));
      var adjusted := removed.(correctAnswer := ShiftedAnswer(removed.correctAnswer, optionIndex));
      Some(WithQuestions(quiz, qs[questionIndex := adjusted]))
    else None
  }

  /** A correct answer that names an option still names one after an
      option is removed; and when the removed option came before it, it
      still names the same text. */
  lemma RemoveOptionKeepsAnswer(quiz: Option<QuizDraft>, questionIndex: int, optionIndex: int)
    requires 0 <= questionIndex < |QuestionsOf(quiz)|
    requires var q := QuestionsOf(quiz)[questionIndex]; 0 <= q.correctAnswer < |q.options|
    ensures var r := RemoveOption(quiz, questionIndex, optionIndex);
      r.Some? ==>
        var before := QuestionsOf(quiz)[questionIndex];
        var after := r.value.questions[questionIndex];
        0 <= after.correctAnswer < |after.options| &&
        (0 <= optionIndex < before.correctAnswer ==> after.options[after.correctAnswer] == before.options[before.correctAnswer]) &&
        (before.correctAnswer < optionIndex ==> after.options[after.correctAnswer] == before.options[before.correctAnswer])
  {
  }

  /** Removing the correct option itself moves the mark to the option
      before it (or keeps it on the first), so the question is left with a
      correct answer the author did not choose. */
  lemma RemovingCorrectOptionMovesMark()
    ensures var q := Question(0, "q", "multiple-choice", ["a", "b", "c"], 1, "", 1);
      var r := RemoveOption(Some(QuizDraft([q], None, None, None, None)), 0, 1);
      r.Some? && r.value.questions[0].options == ["a", "c"] && r.value.questions[0].correctAnswer == 0
  {
    var q := Question(0, "q", "multiple-choice", ["a", "b", "c"], 1, "", 1);
    assert DropIndex(q.options, 1) == ["a", "c"];
  }

  /** Removing the option just added gives back the question as it was,
      once it had more than one option and a valid correct answer. */
  lemma AddThenRemoveOption(quiz: Option<QuizDraft>, questionIndex: int)
    requires 0 <= questionIndex < |QuestionsOf(quiz)|
    requires var q := QuestionsOf(quiz)[questionIndex]; |q.options| >= 2 && 0 <= q.correctAnswer < |q.options|
    ensures var before := QuestionsOf(quiz)[questionIndex];
      var r := RemoveOption(Some(AddOption(quiz, questionIndex)), questionIndex, |before.options|);
      r.Some? && r.value.questions == QuestionsOf(quiz)
  {
    var before := QuestionsOf(quiz)[questionIndex];
    var added := AddOption(quiz, questionIndex);
    var r := RemoveOption(Some(added), questionIndex, |before.options|);
    assert DropIndex(added.questions[questionIndex].options, |before.options|) == before.options;
    assert r.value.questions[questionIndex] == before;
  }
}
