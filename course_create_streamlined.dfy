// The one-page course editor (client/src/pages/CourseCreateStreamlined.jsx):
// adding modules and lessons, checking the course before it is sent, the
// payload it sends, the duration format, and the quiz option editor that
// writes into the question it shows.
module CourseCreateStreamlined {
  import opened Common
  import opened CourseDraft

  // ---------------------------------------------------------------------
  // formatTime

  /** formatTime: "0:00" when the duration is missing or zero, `m:ss`
      otherwise. */
  function FormatTime(seconds: Option<nat>): string
  {
    if seconds.None? || seconds.value == 0 then "0:00" else ClockText(seconds.value)
  }

  /** The special case for zero gives what the general rule gives, and the
      text reads back as the duration. */
  lemma FormatTimeIsClock(seconds: Option<nat>)
    ensures FormatTime(seconds) == ClockText(if seconds.Some? then seconds.value else 0)
    ensures seconds.Some? ==> ParseClock(FormatTime(seconds)) == Some(seconds.value)
  {
    assert NatToString(0) == "0";
    if seconds.Some? {
      ClockRoundTrip(seconds.value);
    }
  }

  // ---------------------------------------------------------------------
  // Modules

  /** The module dialog; `duration` is `parseFloat` of the field, `None`
      when it is not a number. */
  datatype ModuleForm = ModuleForm(title: string, description: string, duration: Option<real>)

  /** `parseFloat(duration) || 0`. */
  function DurationInput(parsed: Option<real>): real
  {
    if parsed.Some? then parsed.value else 0.0
  }

  /** addModule: with a non-blank title, a module numbered after the last
      one, with no lessons and the clock reading as its id; otherwise
      nothing happens. */
  function AddModule(c: CourseForm, form: ModuleForm, now: string): (r: Option<CourseForm>)
    ensures r.None? <==> IsBlank(form.title)
    ensures r.Some? ==>
      r.value == c.(modules := r.value.modules) &&
      |r.value.modules| == |c.modules| + 1 && r.value.modules[..|c.modules|] == c.modules &&
      var m := r.value.modules[|c.modules|];
      m.order == |c.modules| + 1 && m.lessons == [] && m.id == now && m.title == form.title
  {
    if IsBlank(form.title) then None
    else
      var m := DraftModule(now, form.title, form.description, |c.modules| + 1, Some(DurationInput(form.duration)), []);
      Some(c.(modules := c.modules + [m]))
  }

  // ---------------------------------------------------------------------
  // Lessons

  /** The quiz part of the lesson dialog. */
  datatype QuizForm = QuizForm(questions: seq<DraftQuestion>, timeLimit: int, passingScore: int, instructions: string)

  /** The lesson dialog; `videoDuration` is `parseInt` of the field. */
  datatype LessonForm = LessonForm(
    title: string, description: string, kind: string, videoUrl: string, videoDuration: Option<int>,
    transcript: string, notes: string, content: string, resources: seq<string>,
    quiz: QuizForm, assignment: DraftAssignment)

  /** `x || fallback` on a number: zero falls back. */
  function OrElse(x: int, fallback: int): int
  {
    if x != 0 then x else fallback
  }

  /** `s || fallback` on a string: the empty string falls back. */
  function TextOr(s: string, fallback: string): string
  {
    if s != "" then s else fallback
  }

  /** The quiz as stored on the lesson: each question keeps its text,
      options and answer; a zero time limit becomes 300 seconds and a zero
      pass mark 70. */
  function QuizOf(q: QuizForm): (r: DraftQuiz)
    ensures |r.questions| == |q.questions|
    ensures forall k :: 0 <= k < |r.questions| ==>
      r.questions[k].question == q.questions[k].question &&
      r.questions[k].options == q.questions[k].options &&
      r.questions[k].correctAnswer == q.questions[k].correctAnswer
    ensures r.timeLimit != 0 && r.passingScore != 0
  {
    DraftQuiz(q.questions, OrElse(q.timeLimit, 300), OrElse(q.passingScore, 70), q.instructions)
  }

  /** The assignment as stored on the lesson, with the dialog's fallbacks. */
  function AssignmentOf(a: DraftAssignment): (r: DraftAssignment)
    ensures r.title == a.title && r.maxScore != 0 && r.submissionType != ""
  {
    a.(maxScore := OrElse(a.maxScore, 100), submissionType := TextOr(a.submissionType, "both"))
  }

  /** The lesson addLessonToModule builds: the common fields, then the
      fields of its kind. */
  function BuildLesson(form: LessonForm, order: int, now: string): DraftLesson
  {
    var video := form.kind == "video";
    DraftLesson(
      now, form.title, form.description, form.kind, order, false, Some(form.resources),
      if video then Some(form.videoUrl) else None,
      if video then Some(if form.videoDuration.Some? then form.videoDuration.value else 0) else None,
      if video then Some(form.transcript) else None,
      if video then Some(form.notes) else None,
      if form.kind == "quiz" && |form.quiz.questions| > 0 then Some(QuizOf(form.quiz)) else None,
      if form.kind == "assignment" && form.assignment.title != "" then Some(AssignmentOf(form.assignment)) else None,
      if form.kind == "text" then Some(form.content) else None)
  }

  /** addLessonToModule: with a non-blank title, the lesson goes at the end
      of module `moduleIndex`, numbered after its lessons; otherwise nothing
      happens. */
  function AddLessonToModule(c: CourseForm, moduleIndex: int, form: LessonForm, now: string): (r: Option<CourseForm>)
    requires 0 <= moduleIndex < |c.modules|
    ensures r.None? <==> IsBlank(form.title)
    ensures r.Some? ==> r.value == c.(modules := r.value.modules)
  {
    if IsBlank(form.title) then None
    else
      var lesson := BuildLesson(form, |c.modules[moduleIndex].lessons| + 1, now);
      Some(c.(modules := AppendLesson(c.modules, moduleIndex, lesson)))
  }

  /** The lesson added is numbered after the module's lessons; it carries a
      quiz exactly when it is a quiz lesson with questions, an assignment
      exactly when it is an assignment lesson with a title, video fields
      exactly when it is a video lesson and content exactly when it is a
      text lesson; and no other module changes. */
  lemma AddedLessonShape(c: CourseForm, moduleIndex: int, form: LessonForm, now: string)
    requires 0 <= moduleIndex < |c.modules| && !IsBlank(form.title)
    ensures var r := AddLessonToModule(c, moduleIndex, form, now).value;
      var before := c.modules[moduleIndex].lessons;
      |r.modules| == |c.modules| &&
      (forall k :: 0 <= k < |c.modules| && k != moduleIndex ==> r.modules[k] == c.modules[k]) &&
      r.modules[moduleIndex].lessons[..|before|] == before &&
      |r.modules[moduleIndex].lessons| == |before| + 1 &&
      var l := r.modules[moduleIndex].lessons[|before|];
      l.order == |before| + 1 && !l.isCompleted && l.title == form.title &&
      (l.quiz.Some? <==> form.kind == "quiz" && form.quiz.questions != []) &&
      (l.assignment.Some? <==> form.kind == "assignment" && form.assignment.title != "") &&
      (l.videoDuration.Some? <==> form.kind == "video") &&
      (l.content.Some? <==> form.kind == "text")
  {
    var r := AddLessonToModule(c, moduleIndex, form, now).value;
    assert r.modules[moduleIndex].lessons == c.modules[moduleIndex].lessons + [BuildLesson(form, |c.modules[moduleIndex].lessons| + 1, now)];
  }

  // ---------------------------------------------------------------------
  // handleSubmit

  datatype SubmitError = TitleRequired | DescriptionRequired | ModuleRequired | LessonRequired

  /** The checks before sending, in their order; `None` when all pass. */
  function Validate(c: CourseForm): (r: Option<SubmitError>)
    ensures r.None? <==> !IsBlank(c.title) && !IsBlank(c.description) && c.modules != [] && HasLessons(c.modules)
    ensures r == Some(TitleRequired) <==> IsBlank(c.title)
  {
    if IsBlank(c.title) then Some(TitleRequired)
    else if IsBlank(c.description) then Some(DescriptionRequired)
    else if c.modules == [] then Some(ModuleRequired)
    else if !HasLessons(c.modules) then Some(LessonRequired)
    else None
  }

  /** The first failing check is reported, so the later messages appear
      only when the earlier checks pass; and a course with no modules fails
      before the lesson check can. */
  lemma ValidateOrder(c: CourseForm)
    ensures Validate(c) == Some(DescriptionRequired) ==> !IsBlank(c.title) && IsBlank(c.description)
    ensures Validate(c) == Some(ModuleRequired) ==> !IsBlank(c.title) && !IsBlank(c.description) && c.modules == []
    ensures Validate(c) == Some(LessonRequired) ==> c.modules != [] && !HasLessons(c.modules)
  {
  }

  /** `lesson.videoDuration || 0` summed over a module. */
  function LessonSeconds(lessons: seq<DraftLesson>): int
  {
    if lessons == [] then 0
    else (if lessons[0].videoDuration.Some? then lessons[0].videoDuration.value else 0) + LessonSeconds(lessons[1..])
  }

  /** The course's `totalDuration`: every lesson's video duration, a
      missing one counted as 0. */
  function TotalDuration(modules: seq<DraftModule>): int
  {
    if modules == [] then 0 else LessonSeconds(modules[0].lessons) + TotalDuration(modules[1..])
  }

  lemma {:induction false} LessonSecondsAppend(a: seq<DraftLesson>, b: seq<DraftLesson>)
    ensures LessonSeconds(a + b) == LessonSeconds(a) + LessonSeconds(b)
  {
    if a == [] {
      assert a + b == b;
    } else {
      assert (a + b)[1..] == a[1..] + b;
      LessonSecondsAppend(a[1..], b);
    }
  }

  lemma {:induction false} TotalDurationReplace(modules: seq<DraftModule>, index: int, m: DraftModule)
    requires 0 <= index < |modules|
    ensures TotalDuration(modules[index := m]) ==
      TotalDuration(modules) - LessonSeconds(modules[index].lessons) + LessonSeconds(m.lessons)
  {
    if index > 0 {
      assert modules[index := m][1..] == modules[1..][index - 1 := m];
      TotalDurationReplace(modules[1..], index - 1, m);
    }
  }

  /** Adding a lesson adds its video duration to the course total. */
  lemma DurationGrowsByLesson(c: CourseForm, moduleIndex: int, form: LessonForm, now: string)
    requires 0 <= moduleIndex < |c.modules| && !IsBlank(form.title)
    ensures var r := AddLessonToModule(c, moduleIndex, form, now).value;
      var l := BuildLesson(form, |c.modules[moduleIndex].lessons| + 1, now);
      TotalDuration(r.modules) == TotalDuration(c.modules) + (if l.videoDuration.Some? then l.videoDuration.value else 0)
  {
    var l := BuildLesson(form, |c.modules[moduleIndex].lessons| + 1, now);
    var m := c.modules[moduleIndex];
    TotalDurationReplace(c.modules, moduleIndex, m.(lessons := m.lessons + [l]));
    LessonSecondsAppend(m.lessons, [l]);
    assert LessonSeconds([l]) == (if l.videoDuration.Some? then l.videoDuration.value else 0) + LessonSeconds([]);
  }

  /** Adding a module, which has no lessons yet, leaves the total alone. */
  lemma DurationKeptByModule(c: CourseForm, form: ModuleForm, now: string)
    requires !IsBlank(form.title)
    ensures TotalDuration(AddModule(c, form, now).value.modules) == TotalDuration(c.modules)
  {
    var r := AddModule(c, form, now).value.modules;
    assert r == c.modules + [r[|c.modules|]];
    TotalDurationAppend(c.modules, r[|c.modules|]);
  }

  lemma {:induction false} TotalDurationAppend(modules: seq<DraftModule>, m: DraftModule)
    ensures TotalDuration(modules + [m]) == TotalDuration(modules) + LessonSeconds(m.lessons)
  {
    if modules == [] {
      assert [m][1..] == [];
    } else {
      assert (modules + [m])[1..] == modules[1..] + [m];
      TotalDurationAppend(modules[1..], m);
    }
  }

  /** The payload sent to create the course. */
  datatype Payload = Payload(
    course: CourseForm, totalDuration: int, status: string, isPublished: bool)

  /** Lines that are not blank (`lines.filter(l => l.trim())`). */
  function NonBlank(lines: seq<string>): (r: seq<string>)
    ensures forall s :: s in r <==> s in lines && !IsBlank(s)
    ensures |r| <= |lines|
  {
    if lines == [] then []
    else
      var rest := NonBlank(lines[1..]);
      assert forall s :: s in lines <==> s == lines[0] || s in lines[1..];
      if !IsBlank(lines[0]) then [lines[0]] + rest else rest
  }

  lemma {:induction false} NonBlankIdempotent(lines: seq<string>)
    ensures NonBlank(NonBlank(lines)) == NonBlank(lines)
  {
    if lines != [] {
      NonBlankIdempotent(lines[1..]);
    }
  }

  /** The payload: the course with blank lines dropped from its three
      lists, the logged-in user's name when there is one, the summed
      duration, as an unpublished draft. */
  function MakePayload(c: CourseForm, userName: Option<string>): (r: Payload)
    ensures r.status == "draft" && !r.isPublished
    ensures r.totalDuration == TotalDuration(c.modules)
    ensures r.course.modules == c.modules && r.course.title == c.title && r.course.tags == c.tags
    ensures r.course.learningOutcomes == NonBlank(c.learningOutcomes)
    ensures r.course.requirements == NonBlank(c.requirements)
    ensures r.course.targetAudience == NonBlank(c.targetAudience)
    ensures userName.Some? && userName.value != "" ==> r.course.instructorName == userName.value
    ensures userName.None? ==> r.course.instructorName == c.instructorName
  {
    var name := if userName.Some? then TextOr(userName.value, c.instructorName) else c.instructorName;
    var course := c.(learningOutcomes := NonBlank(c.learningOutcomes),
                     requirements := NonBlank(c.requirements),
                     targetAudience := NonBlank(c.targetAudience),
                     instructorName := name);
    Payload(course, TotalDuration(c.modules), "draft", false)
  }

  /** Building the payload from a payload's course leaves its lists as
      they are: the filter has nothing left to drop. */
  lemma PayloadListsSettled(c: CourseForm, userName: Option<string>)
    ensures var p := MakePayload(c, userName).course;
      MakePayload(p, userName).course == p
  {
    NonBlankIdempotent(c.learningOutcomes);
    NonBlankIdempotent(c.requirements);
    NonBlankIdempotent(c.targetAudience);
  }

  // ---------------------------------------------------------------------
  // The quiz option editor

  /** A question of the lesson dialog's quiz, as an object whose options
      array the editor writes into. */
  class QuestionDraft {
    var question: string
    var correctAnswer: int
    var options: array<string>

    constructor (question: string, options: array<string>)
      ensures this.question == question && this.options == options && correctAnswer == 0
    {
      this.question := question;
      this.options := options;
      correctAnswer := 0;
    }
  }

  /** Choosing the correct option: a new question object with the new
      answer that shares its options array with the old one. */
  method SelectCorrect(questions: seq<QuestionDraft>, qIndex: int, oIndex: int) returns (updated: seq<QuestionDraft>)
    requires 0 <= qIndex < |questions|
    ensures |updated| == |questions| && fresh(updated[qIndex])
    ensures forall k :: 0 <= k < |questions| && k != qIndex ==> updated[k] == questions[k]
    ensures updated[qIndex].correctAnswer == oIndex && updated[qIndex].question == questions[qIndex].question
    ensures updated[qIndex].options == questions[qIndex].options
  {
    var q := new QuestionDraft(questions[qIndex].question, questions[qIndex].options);
    q.correctAnswer := oIndex;
    updated := questions[qIndex := q];
  }

  /** Editing an option text: the list is copied but the question is not,
      so the text is written into the options array that the previous
      state holds as well. */
  method EditOption(questions: seq<QuestionDraft>, qIndex: int, oIndex: int, value: string) returns (updated: seq<QuestionDraft>)
    requires 0 <= qIndex < |questions| && 0 <= oIndex < questions[qIndex].options.Length
    modifies questions[qIndex].options
    ensures updated == questions
    ensures questions[qIndex].options[..] == old(questions[qIndex].options[..])[oIndex := value]
  {
    updated := questions;
    updated[qIndex].options[oIndex] := value;
  }
}
