// The lesson dialog (client/src/components/LessonCreationModal_Simple.jsx):
// the guard on submitting, the reset when the lesson type changes, and the
// edits to the quiz questions, assignment instructions and resources of
// the lesson being written.  Each handler hands a new lesson object to
// `setNewLesson`; here each is a function from lesson to lesson.  The
// option text editor, which writes into the shown question, is
// `CourseCreateStreamlined.EditOption`.
module LessonCreationModal {
  import opened Common

  /** The video duration field: the number the lesson starts with, or the
      text typed into the field. */
  datatype Duration = Seconds(n: int) | Typed(text: string)

  /** JavaScript falsiness of the duration: 0 or the empty text. */
  predicate Falsy(d: Duration)
  {
    d == Seconds(0) || d == Typed("")
  }

  datatype Question = Question(id: int, question: string, options: seq<string>, correctAnswer: int)

  /** The quiz; `timeLimit` and `passingScore` are absent when the quiz was
      made by adding a question to a lesson without one. */
  datatype Quiz = Quiz(questions: seq<Question>, timeLimit: Option<int>, passingScore: Option<int>)

  datatype Assignment = Assignment(
    title: string, description: string, instructions: seq<string>, maxScore: int,
    dueDate: string, submissionType: string)

  datatype Resource = Resource(title: string, url: string, kind: string)

  datatype LessonDraft = LessonDraft(
    title: string, description: string, kind: string, videoUrl: string, videoDuration: Duration,
    content: string, resources: seq<Resource>, quiz: Option<Quiz>, assignment: Option<Assignment>)

  /** handleSubmit: the lesson is added only when its title and its
      description are both not blank. */
  predicate CanSubmit(d: LessonDraft)
  {
    !IsBlank(d.title) && !IsBlank(d.description)
  }

  /** A lesson with a title of spaces is never added, whatever its
      description. */
  lemma BlankTitleBlocksSubmit(d: LessonDraft)
    requires forall i :: 0 <= i < |d.title| ==> d.title[i] == ' '
    ensures !CanSubmit(d)
  {
    BlankIffAllWhitespace(d.title);
  }

  // ---------------------------------------------------------------------
  // Changing the type

  /** The type selector: keeps the title, description and resources, keeps
      the video fields only for a video lesson and the content only for a
      text lesson, and gives a quiz or assignment lesson fresh defaults. */
  function ChangeType(d: LessonDraft, t: string): (r: LessonDraft)
    ensures r.kind == t && r.title == d.title && r.description == d.description && r.resources == d.resources
    ensures t == "video" ==> r.videoUrl == d.videoUrl
    ensures t == "video" && !Falsy(d.videoDuration) ==> r.videoDuration == d.videoDuration
    ensures Falsy(d.videoDuration) ==> r.videoDuration == Seconds(0)
    ensures t != "video" ==> r.videoUrl == "" && r.videoDuration == Seconds(0)
    ensures r.content == (if t == "text" then d.content else "")
    ensures r.quiz.Some? <==> t == "quiz"
    ensures r.quiz.Some? ==> r.quiz.value == Quiz([], Some(300), Some(70))
    ensures r.assignment.Some? <==> t == "assignment"
    ensures r.assignment.Some? ==> r.assignment.value == Assignment(d.title, d.description, [], 100, "", "both")
  {
    var video := t == "video";
    d.(kind := t,
       videoUrl := if video then d.videoUrl else "",
       videoDuration := if video && !Falsy(d.videoDuration) then d.videoDuration else Seconds(0),
       content := if t == "text" then d.content else "",
       quiz := if t == "quiz" then Some(Quiz([], Some(300), Some(70))) else None,
       assignment := if t == "assignment" then Some(Assignment(d.title, d.description, [], 100, "", "both")) else None)
  }

  /** Choosing the same type twice is choosing it once; and a change of
      type discards any quiz questions already written. */
  lemma ChangeTypeSettles(d: LessonDraft, t: string, u: string)
    ensures ChangeType(ChangeType(d, t), t) == ChangeType(d, t)
    ensures ChangeType(ChangeType(d, t), u).quiz.Some? ==> ChangeType(ChangeType(d, t), u).quiz.value.questions == []
  {
  }

  // ---------------------------------------------------------------------
  // Quiz questions

  /** `newLesson.quiz?.questions || []`. */
  function QuestionsOf(d: LessonDraft): seq<Question>
  {
    if d.quiz.Some? then d.quiz.value.questions else []
  }

  /** `{...newLesson.quiz, questions}`. */
  function WithQuestions(d: LessonDraft, questions: seq<Question>): (r: LessonDraft)
    ensures QuestionsOf(r) == questions && r.quiz.Some?
    ensures r == d.(quiz := r.quiz)
    ensures d.quiz.Some? ==> r.quiz.value.timeLimit == d.quiz.value.timeLimit && r.quiz.value.passingScore == d.quiz.value.passingScore
  {
    if d.quiz.Some? then d.(quiz := Some(d.quiz.value.(questions := questions)))
    else d.(quiz := Some(Quiz(questions, None, None)))
  }

  /** The time limit field shows whole minutes of the limit, five when the
      limit is missing or zero (`Math.floor((quiz?.timeLimit || 300) / 60)`). */
  function TimeLimitShown(d: LessonDraft): int
  {
    var seconds := if d.quiz.Some? && d.quiz.value.timeLimit.Some? && d.quiz.value.timeLimit.value != 0
      then d.quiz.value.timeLimit.value else 300;
    seconds / 60
  }

  /** Typing into the time limit field stores the minutes as seconds; text
      that is not a number (`None`) stores nothing usable. */
  function SetTimeLimit(d: LessonDraft, minutes: Option<int>): (r: LessonDraft)
    requires d.quiz.Some?
    ensures r.quiz.Some? && r.quiz.value == d.quiz.value.(timeLimit := r.quiz.value.timeLimit)
    ensures r == d.(quiz := r.quiz)
  {
    d.(quiz := Some(d.quiz.value.(timeLimit := if minutes.Some? then Some(minutes.value * 60) else None)))
  }

  /** The passing score field (`quiz?.passingScore || 70`). */
  function PassingScoreShown(d: LessonDraft): int
  {
    if d.quiz.Some? && d.quiz.value.passingScore.Some? && d.quiz.value.passingScore.value != 0
    then d.quiz.value.passingScore.value else 70
  }

  function SetPassingScore(d: LessonDraft, score: Option<int>): (r: LessonDraft)
    requires d.quiz.Some?
    ensures r.quiz.Some? && r.quiz.value == d.quiz.value.(passingScore := score)
    ensures r == d.(quiz := r.quiz)
  {
    d.(quiz := Some(d.quiz.value.(passingScore := score)))
  }

  /** The fields show back what was typed, except that zero, and text that
      is not a number, show the defaults of five minutes and 70%. */
  lemma SettingsShowBack(d: LessonDraft, minutes: Option<int>, score: Option<int>)
    requires d.quiz.Some?
    ensures TimeLimitShown(SetTimeLimit(d, minutes)) == (if minutes.Some? && minutes.value != 0 then minutes.value else 5)
    ensures PassingScoreShown(SetPassingScore(d, score)) == ParsedOr(score, 70)
  {
  }

  /** Add Question: one question with four empty options, the first marked
      correct. */
  function AddQuestion(d: LessonDraft, now: int): (r: LessonDraft)
    ensures |QuestionsOf(r)| == |QuestionsOf(d)| + 1 && QuestionsOf(r)[..|QuestionsOf(d)|] == QuestionsOf(d)
    ensures var q := QuestionsOf(r)[|QuestionsOf(d)|];
      q.options == ["", "", "", ""] && q.correctAnswer == 0 && q.question == ""
  {
    WithQuestions(d, QuestionsOf(d) + [Question(now, "", ["", "", "", ""], 0)])
  }

  function RemoveQuestion(d: LessonDraft, index: int): (r: LessonDraft)
    ensures QuestionsOf(r) == DropIndex(QuestionsOf(d), index)
  {
    WithQuestions(d, DropIndex(QuestionsOf(d), index))
  }

  function SetQuestionText(d: LessonDraft, index: int, text: string): (r: LessonDraft)
    requires 0 <= index < |QuestionsOf(d)|
    ensures r.quiz.Some? && |QuestionsOf(r)| == |QuestionsOf(d)|
    ensures forall k :: 0 <= k < |QuestionsOf(d)| && k != index ==> QuestionsOf(r)[k] == QuestionsOf(d)[k]
    ensures QuestionsOf(r)[index] == QuestionsOf(d)[index].(question := text)
  {
    WithQuestions(d, QuestionsOf(d)[index := QuestionsOf(d)[index].(question := text)])
  }

  function SelectAnswer(d: LessonDraft, index: int, option: int): (r: LessonDraft)
    requires 0 <= index < |QuestionsOf(d)|
    ensures |QuestionsOf(r)| == |QuestionsOf(d)|
    ensures forall k :: 0 <= k < |QuestionsOf(d)| && k != index ==> QuestionsOf(r)[k] == QuestionsOf(d)[k]
    ensures QuestionsOf(r)[index] == QuestionsOf(d)[index].(correctAnswer := option)
  {
    WithQuestions(d, QuestionsOf(d)[index := QuestionsOf(d)[index].(correctAnswer := option)])
  }

  // ---------------------------------------------------------------------
  // Assignment instructions (shown only on an assignment lesson, which
  // always has an assignment)

  function WithInstructions(d: LessonDraft, instructions: seq<string>): (r: LessonDraft)
    requires d.assignment.Some?
    ensures r.assignment.Some? && r.assignment.value == d.assignment.value.(instructions := instructions)
    ensures r == d.(assignment := r.assignment)
  {
    d.(assignment := Some(d.assignment.value.(instructions := instructions)))
  }

  function AddInstruction(d: LessonDraft): (r: LessonDraft)
    requires d.assignment.Some?
    ensures var before := d.assignment.value.instructions;
      r.assignment.Some? && |r.assignment.value.instructions| == |before| + 1 &&
      r.assignment.value.instructions[..|before|] == before && r.assignment.value.instructions[|before|] == ""
  {
    WithInstructions(d, d.assignment.value.instructions + [""])
  }

  function ChangeInstruction(d: LessonDraft, index: int, text: string): (r: LessonDraft)
    requires d.assignment.Some? && 0 <= index < |d.assignment.value.instructions|
    ensures r.assignment.Some? && r.assignment.value.instructions == d.assignment.value.instructions[index := text]
  {
    WithInstructions(d, d.assignment.value.instructions[index := text])
  }

  function RemoveInstruction(d: LessonDraft, index: int): (r: LessonDraft)
    requires d.assignment.Some?
    ensures r.assignment.Some? && r.assignment.value.instructions == DropIndex(d.assignment.value.instructions, index)
  {
    WithInstructions(d, DropIndex(d.assignment.value.instructions, index))
  }

  // ---------------------------------------------------------------------
  // Resources

  /** Add Resource: an empty link. */
  function AddResource(d: LessonDraft): (r: LessonDraft)
    ensures |r.resources| == |d.resources| + 1 && r.resources[..|d.resources|] == d.resources
    ensures r.resources[|d.resources|] == Resource("", "", "link")
    ensures r == d.(resources := r.resources)
  {
    d.(resources := d.resources + [Resource("", "", "link")])
  }

  datatype ResourceEdit = SetTitle(title: string) | SetUrl(url: string) | SetKind(kind: string)

  function ChangeResource(d: LessonDraft, index: int, e: ResourceEdit): (r: LessonDraft)
    requires 0 <= index < |d.resources|
    ensures |r.resources| == |d.resources| && r == d.(resources := r.resources)
    ensures forall k :: 0 <= k < |d.resources| && k != index ==> r.resources[k] == d.resources[k]
    ensures var a := r.resources[index]; var b := d.resources[index];
      (e.SetTitle? ==> a == b.(title := e.title)) &&
      (e.SetUrl? ==> a == b.(url := e.url)) &&
      (e.SetKind? ==> a == b.(kind := e.kind))
  {
    var res := d.resources[index];
    var changed := match e
      case SetTitle(t) => res.(title := t)
      case SetUrl(u) => res.(url := u)
      case SetKind(k) => res.(kind := k);
    d.(resources := d.resources[index := changed])
  }

  function RemoveResource(d: LessonDraft, index: int): (r: LessonDraft)
    ensures r.resources == DropIndex(d.resources, index) && r == d.(resources := r.resources)
  {
    d.(resources := DropIndex(d.resources, index))
  }

  /** Removing the entry just added — question, instruction or resource —
      gives back the lesson as it was. */
  lemma AddThenRemove(d: LessonDraft, now: int)
    ensures d.quiz.Some? ==> RemoveQuestion(AddQuestion(d, now), |QuestionsOf(d)|) == d
    ensures d.assignment.Some? ==> RemoveInstruction(AddInstruction(d), |d.assignment.value.instructions|) == d
    ensures RemoveResource(AddResource(d), |d.resources|) == d
  {
    AppendThenDrop(QuestionsOf(d), Question(now, "", ["", "", "", ""], 0));
    if d.assignment.Some? {
      AppendThenDrop(d.assignment.value.instructions, "");
    }
    AppendThenDrop(d.resources, Resource("", "", "link"));
  }
}
