// The lesson routes (server/routes/lessons.js): marking a lesson of the
// flat lesson list complete on the user's enrolment, reading that
// progress, scoring a quiz, and the essay and assignment submissions on
// the module/lesson tree.  The essay's machine-learning score is an opaque
// input to the route.
module LessonRoutes {
  import opened Common
  import opened Documents

  // ---------------------------------------------------------------------
  // POST /:lessonId/complete

  datatype LessonCompletion = LessonCompletion(progress: int, completedLessons: nat, totalLessons: nat)

  /** The user's enrolment entry after completing `lesson` in a course of
      `total` lessons: the id appended and the percentage recomputed, or
      unchanged when the id is already there. */
  function CompletedEntry(ec: EnrolledCourse, lesson: Id, total: nat): (r: EnrolledCourse)
    requires total > 0
    ensures lesson in r.completedLessons
    ensures lesson in ec.completedLessons ==> r == ec
    ensures lesson !in ec.completedLessons ==>
      r == ec.(completedLessons := ec.completedLessons + [lesson], progress := Percent(|ec.completedLessons| + 1, total))
  {
    if lesson in ec.completedLessons then ec
    else ec.(completedLessons := ec.completedLessons + [lesson], progress := Percent(|ec.completedLessons| + 1, total))
  }

  /** POST /:lessonId/complete: refused in the order 400 (no course id),
      404 (no course), 404 (no such lesson in `course.lessons`), 403 (not
      enrolled), 500 (the user document is gone and is dereferenced), 404
      (no enrolment entry on the user); the user is saved only when the
      lesson is new to the entry. */
  function CompleteLesson(db: Db, user: Id, lessonId: Id, courseId: Option<Id>): Outcome<LessonCompletion>
  {
    if courseId.None? then Outcome(db, Error(400))
    else if courseId.value !in db.courses then Outcome(db, Error(404))
    else
      var c := db.courses[courseId.value];
      if LessonIndex(c.lessons, lessonId).None? then Outcome(db, Error(404))
      else if EnrollmentIndex(c.enrolledStudents, user).None? then Outcome(db, Error(403))
      else if user !in db.users then Outcome(db, Error(500))
      else
        var u := db.users[user];
        match EnrolledCourseIndex(u.enrolledCourses, courseId.value)
        case None => Outcome(db, Error(404))
        case Some(k) =>
          var ec := CompletedEntry(u.enrolledCourses[k], lessonId, |c.lessons|);
          var db1 := if lessonId in u.enrolledCourses[k].completedLessons then db
                     else db.(users := db.users[user := u.(enrolledCourses := u.enrolledCourses[k := ec])]);
          Outcome(db1, Success(200, LessonCompletion(ec.progress, |ec.completedLessons|, |c.lessons|)))
  }

  /** The refusals, each with its cause; a refusal writes nothing. */
  lemma CompleteLessonRefusals(db: Db, user: Id, lessonId: Id, courseId: Option<Id>)
    ensures CompleteLesson(db, user, lessonId, courseId).response.Error? ==>
      CompleteLesson(db, user, lessonId, courseId).db == db
    ensures CompleteLesson(db, user, lessonId, courseId).response == Error(400) <==> courseId.None?
    ensures CompleteLesson(db, user, lessonId, courseId).response == Error(403) <==>
      courseId.Some? && courseId.value in db.courses &&
      LessonIndex(db.courses[courseId.value].lessons, lessonId).Some? &&
      !IsEnrolled(db.courses[courseId.value], user)
  {
  }

  /** A completion adds the lesson id to the user's entry at most once,
      sets the percentage to round(100 * completed / lessons), and touches
      nothing but that entry; a repeat writes nothing. */
  lemma CompleteLessonEffects(db: Db, user: Id, lessonId: Id, courseId: Id)
    requires CompleteLesson(db, user, lessonId, Some(courseId)).response.Success?
    ensures courseId in db.courses && user in db.users
    ensures var o := CompleteLesson(db, user, lessonId, Some(courseId));
      var u := db.users[user];
      var k := EnrolledCourseIndex(u.enrolledCourses, courseId).value;
      var ec := o.db.users[user].enrolledCourses[k];
      lessonId in ec.completedLessons &&
      o.response.body.completedLessons == |ec.completedLessons| &&
      o.response.body.totalLessons == |db.courses[courseId].lessons| > 0 &&
      (lessonId in u.enrolledCourses[k].completedLessons ==> o.db == db) &&
      (lessonId !in u.enrolledCourses[k].completedLessons ==>
        ec.completedLessons == u.enrolledCourses[k].completedLessons + [lessonId] &&
        ec.progress == o.response.body.progress == Percent(|ec.completedLessons|, |db.courses[courseId].lessons|) &&
        o.db == db.(users := db.users[user := u.(enrolledCourses := u.enrolledCourses[k := ec])]))
  {
  }

  /** Completing the same lesson twice is completing it once. */
  lemma CompleteLessonTwice(db: Db, user: Id, lessonId: Id, courseId: Option<Id>)
    ensures var o := CompleteLesson(db, user, lessonId, courseId);
      CompleteLesson(o.db, user, lessonId, courseId) == Outcome(o.db, o.response)
  {
    var o := CompleteLesson(db, user, lessonId, courseId);
    if o.response.Success? && o.db != db {
      var u := db.users[user];
      var k := EnrolledCourseIndex(u.enrolledCourses, courseId.value).value;
      var u1 := o.db.users[user];
      assert u1.enrolledCourses[k].course == courseId.value;
      assert forall j :: 0 <= j < |u1.enrolledCourses| && j != k ==> u1.enrolledCourses[j] == u.enrolledCourses[j];
      assert EnrolledCourseIndex(u1.enrolledCourses, courseId.value) == Some(k);
    }
  }

  /** The route on the database object: the lesson id is pushed onto the
      user's entry, the percentage assigned, and the user saved. */
  method CompleteLessonOn(db: Database, user: Id, lessonId: Id, courseId: Option<Id>) returns (r: Response<LessonCompletion>)
    modifies db
    ensures Outcome(db.State(), r) == CompleteLesson(old(db.State()), user, lessonId, courseId)
  {
    if courseId.None? {
      return Error(400);
    }
    if courseId.value !in db.courses {
      return Error(404);
    }
    var c := db.courses[courseId.value];
    if LessonIndex(c.lessons, lessonId).None? {
      return Error(404);
    }
    if EnrollmentIndex(c.enrolledStudents, user).None? {
      return Error(403);
    }
    if user !in db.users {
      return Error(500);
    }
    var u := db.users[user];
    var found := EnrolledCourseIndex(u.enrolledCourses, courseId.value);
    if found.None? {
      return Error(404);
    }
    var k := found.value;
    var ec := u.enrolledCourses[k];
    if lessonId !in ec.completedLessons {
      ec := ec.(completedLessons := ec.completedLessons + [lessonId]);
      ec := ec.(progress := Percent(|ec.completedLessons|, |c.lessons|));
      db.users := db.users[user := u.(enrolledCourses := u.enrolledCourses[k := ec])];
    }
    assert ec == CompletedEntry(u.enrolledCourses[k], lessonId, |c.lessons|);
    r := Success(200, LessonCompletion(ec.progress, |ec.completedLessons|, |c.lessons|));
  }

  // ---------------------------------------------------------------------
  // GET /progress/:courseId

  datatype LessonProgressView = LessonProgressView(courseId: Id, progress: int, completedLessons: seq<Id>,
                                                   totalLessons: nat, enrolledAt: Time)

  /** GET /progress/:courseId: the user's enrolment entry (404 without one,
      500 when the user is gone) and the course's lesson count (404 when
      the course is gone). */
  function LessonProgress(db: Db, user: Id, courseId: Id): (r: Response<LessonProgressView>)
    ensures r.Success? <==> user in db.users && courseId in db.courses &&
                            EnrolledCourseIndex(db.users[user].enrolledCourses, courseId).Some?
    ensures r.Success? ==> r.body.totalLessons == |db.courses[courseId].lessons|
    ensures r.Success? ==>
      exists ec :: ec in db.users[user].enrolledCourses && ec.course == courseId &&
        r.body.progress == ec.progress && r.body.completedLessons == ec.completedLessons
  {
    if user !in db.users then Error(500)
    else
      var u := db.users[user];
      match EnrolledCourseIndex(u.enrolledCourses, courseId)
      case None => Error(404)
      case Some(k) =>
        if courseId !in db.courses then Error(404)
        else
          var ec := u.enrolledCourses[k];
          assert ec in u.enrolledCourses;
          Success(200, LessonProgressView(courseId, ec.progress, ec.completedLessons, |db.courses[courseId].lessons|,
                                          ec.enrolledAt))
  }

  // ---------------------------------------------------------------------
  // POST /:lessonId/quiz

  /** An answer as the request carries it: a number, or anything else
      (missing, a string, null), which never equals a numeric key. */
  function AnswerAt(answers: seq<Option<int>>, i: nat): Option<int>
  {
    if i < |answers| then answers[i] else None
  }

  /** `answers[index] === question.correctAnswer`. */
  predicate Correct(q: Question, answers: seq<Option<int>>, i: nat)
  {
    AnswerAt(answers, i) == Some(q.correctAnswer)
  }

  /** Correct answers among the first `n` questions. */
  function CountCorrect(qs: seq<Question>, answers: seq<Option<int>>, n: nat): (r: nat)
    requires n <= |qs|
    ensures r <= n
  {
    if n == 0 then 0 else CountCorrect(qs, answers, n - 1) + (if Correct(qs[n - 1], answers, n - 1) then 1 else 0)
  }

  datatype QuestionResult = QuestionResult(question: string, userAnswer: Option<int>, correctAnswer: int,
                                           isCorrect: bool, explanation: string)

  function ResultFor(qs: seq<Question>, answers: seq<Option<int>>, i: nat): QuestionResult
    requires i < |qs|
  {
    QuestionResult(qs[i].question, AnswerAt(answers, i), qs[i].correctAnswer, Correct(qs[i], answers, i),
                   qs[i].explanation)
  }

  datatype QuizReport = QuizReport(score: int, passed: bool, passingScore: int, results: seq<QuestionResult>,
                                   totalQuestions: nat, correctAnswers: nat)

  /** The report of a quiz with questions: one result per question, the
      rounded percentage of correct answers, and the pass mark. */
  function QuizReportOf(quiz: Quiz, answers: seq<Option<int>>): QuizReport
    requires |quiz.questions| > 0
  {
    var qs := quiz.questions;
    var correct := CountCorrect(qs, answers, |qs|);
    var score := Percent(correct, |qs|);
    QuizReport(score, score >= quiz.passingScore, quiz.passingScore,
               seq(|qs|, i requires 0 <= i < |qs| => ResultFor(qs, answers, i)), |qs|, correct)
  }

  /** Counting the results marked correct gives the count of correct
      answers. */
  function MarkedCorrect(rs: seq<QuestionResult>): nat
  {
    if rs == [] then 0 else MarkedCorrect(rs[..|rs| - 1]) + (if rs[|rs| - 1].isCorrect then 1 else 0)
  }

  lemma {:induction false} MarkedCorrectCounts(qs: seq<Question>, answers: seq<Option<int>>, n: nat)
    requires n <= |qs|
    ensures MarkedCorrect(seq(n, i requires 0 <= i < n => ResultFor(qs, answers, i))) == CountCorrect(qs, answers, n)
  {
    if n > 0 {
      var rs := seq(n, i requires 0 <= i < n => ResultFor(qs, answers, i));
      assert rs[..n - 1] == seq(n - 1, i requires 0 <= i < n - 1 => ResultFor(qs, answers, i));
      MarkedCorrectCounts(qs, answers, n - 1);
    }
  }

  /** What the report promises: one result per question, each marked
      correct iff the answer equals the key; a score in [0, 100] that is
      round(100 * correct / questions), so 100 already at 199 right out of
      200; and a pass iff the score reaches the pass mark. */
  lemma QuizReportProperties(quiz: Quiz, answers: seq<Option<int>>)
    requires |quiz.questions| > 0
    ensures var r := QuizReportOf(quiz, answers);
      |r.results| == r.totalQuestions == |quiz.questions| &&
      r.correctAnswers <= r.totalQuestions &&
      MarkedCorrect(r.results) == r.correctAnswers &&
      (forall i :: 0 <= i < |r.results| ==>
        (r.results[i].isCorrect <==> i < |answers| && answers[i] == Some(quiz.questions[i].correctAnswer))) &&
      0 <= r.score <= 100 &&
      2 * r.totalQuestions * r.score - r.totalQuestions <= 200 * r.correctAnswers < 2 * r.totalQuestions * r.score + r.totalQuestions &&
      (r.score == 100 <==> 200 * r.correctAnswers >= 199 * r.totalQuestions) &&
      (r.passed <==> r.score >= quiz.passingScore)
  {
    var qs := quiz.questions;
    var correct := CountCorrect(qs, answers, |qs|);
    PercentBounds(correct, |qs|);
    PercentIsHundredIff(correct, |qs|);
    MarkedCorrectCounts(qs, answers, |qs|);
  }

  /** More correct answers never lower the score. */
  lemma QuizScoreMonotone(n: nat, c1: nat, c2: nat)
    requires n > 0 && c1 <= c2 <= n
    ensures Percent(c1, n) <= Percent(c2, n)
  {
    PercentMonotone(c1, c2, n);
  }

  /** The scoring loop: one result per question, counting correct answers
      as it goes. */
  method GradeQuiz(quiz: Quiz, answers: seq<Option<int>>) returns (report: QuizReport)
    requires |quiz.questions| > 0
    ensures report == QuizReportOf(quiz, answers)
  {
    var qs := quiz.questions;
    var correctAnswers := 0;
    var results: seq<QuestionResult> := [];
    var index := 0;
    while index < |qs|
      invariant 0 <= index <= |qs|
      invariant correctAnswers == CountCorrect(qs, answers, index)
      invariant results == seq(index, i requires 0 <= i < index => ResultFor(qs, answers, i))
    {
      var userAnswer := if index < |answers| then answers[index] else None;
      var isCorrect := userAnswer == Some(qs[index].correctAnswer);
      if isCorrect {
        correctAnswers := correctAnswers + 1;
      }
      results := results + [QuestionResult(qs[index].question, userAnswer, qs[index].correctAnswer, isCorrect,
                                           qs[index].explanation)];
      index := index + 1;
    }
    var score := Percent(correctAnswers, |qs|);
    report := QuizReport(score, score >= quiz.passingScore, quiz.passingScore, results, |qs|, correctAnswers);
  }

  /** The lesson `lessonId`, with a quiz that has questions. */
  predicate QuizOf(l: Lesson, lessonId: Id)
  {
    l.id == lessonId && l.quiz.Some? && |l.quiz.value.questions| > 0
  }

  /** POST /:lessonId/quiz: refused in the order 400 (no course id or no
      answers), 404 (no course), 404 (no lesson), 400 (no quiz or no
      questions), 403 (not enrolled); nothing is stored. */
  function SubmitQuiz(db: Db, user: Id, lessonId: Id, courseId: Option<Id>, answers: Option<seq<Option<int>>>)
    : (r: Response<QuizReport>)
    ensures r.Success? ==> r.status == 200 && answers.Some? && courseId.Some? && courseId.value in db.courses
    ensures r.Success? ==> IsEnrolled(db.courses[courseId.value], user)
    ensures r.Success? ==>
      exists i :: 0 <= i < |db.courses[courseId.value].lessons| && QuizOf(db.courses[courseId.value].lessons[i], lessonId) &&
        r.body == QuizReportOf(db.courses[courseId.value].lessons[i].quiz.value, answers.value)
  {
    if courseId.None? || answers.None? then Error(400)
    else if courseId.value !in db.courses then Error(404)
    else
      var c := db.courses[courseId.value];
      match LessonIndex(c.lessons, lessonId)
      case None => Error(404)
      case Some(i) =>
        var lesson := c.lessons[i];
        if lesson.quiz.None? || |lesson.quiz.value.questions| == 0 then Error(400)
        else if EnrollmentIndex(c.enrolledStudents, user).None? then Error(403)
        else Success(200, QuizReportOf(lesson.quiz.value, answers.value))
  }

  /** The route, scoring with the loop. */
  method SubmitQuizOn(db: Db, user: Id, lessonId: Id, courseId: Option<Id>, answers: Option<seq<Option<int>>>)
    returns (r: Response<QuizReport>)
    ensures r == SubmitQuiz(db, user, lessonId, courseId, answers)
  {
    if courseId.None? || answers.None? {
      return Error(400);
    }
    if courseId.value !in db.courses {
      return Error(404);
    }
    var c := db.courses[courseId.value];
    var i := LessonIndex(c.lessons, lessonId);
    if i.None? {
      return Error(404);
    }
    var lesson := c.lessons[i.value];
    if lesson.quiz.None? || |lesson.quiz.value.questions| == 0 {
      return Error(400);
    }
    if EnrollmentIndex(c.enrolledStudents, user).None? {
      return Error(403);
    }
    var report := GradeQuiz(lesson.quiz.value, answers.value);
    r := Success(200, report);
  }

  // ---------------------------------------------------------------------
  // POST /courses/:courseId/modules/:moduleId/lessons/:lessonId/submit-essay

  /** The scoring service's reply, an input to the route. */
  datatype EssayScore = ScoringFailed | Scored(score: int, feedback: string)

  predicate HasSubmitted(subs: seq<Submission>, user: Id)
  {
    exists j :: 0 <= j < |subs| && subs[j].student == user
  }

  /** The course with one more submission on the lesson at (m, l). */
  function WithSubmission(c: Course, m: nat, l: nat, s: Submission): (r: Course)
    requires m < |c.modules| && l < |c.modules[m].lessons| && c.modules[m].lessons[l].assignment.Some?
    ensures |r.modules| == |c.modules| && |r.modules[m].lessons| == |c.modules[m].lessons|
    ensures r.modules[m].lessons[l].assignment ==
      Some(Assignment(c.modules[m].lessons[l].assignment.value.submissions + [s]))
    ensures forall j :: 0 <= j < |c.modules| && j != m ==> r.modules[j] == c.modules[j]
    ensures forall j :: 0 <= j < |c.modules[m].lessons| && j != l ==> r.modules[m].lessons[j] == c.modules[m].lessons[j]
    ensures r == c.(modules := r.modules)
  {
    var lesson := c.modules[m].lessons[l];
    var lesson1 := lesson.(assignment := Some(Assignment(lesson.assignment.value.submissions + [s])));
    var module1 := c.modules[m].(lessons := c.modules[m].lessons[l := lesson1]);
    c.(modules := c.modules[m := module1])
  }

  /** The essay routes' submission: graded at once with the service's
      score and feedback. */
  function EssaySubmission(id: Id, user: Id, essayText: string, score: int, feedback: string, now: Time): Submission
  {
    Submission(id, user, "", essayText, Some(score), feedback, "", now, Some(now))
  }

  /** POST submit-essay: refused in the order 400 (empty text), 404 (no
      course), 404 (no module), 404 (no lesson in it), 403 (not enrolled),
      400 (no assignment), 409 (already submitted), 500 (scoring failed);
      otherwise the scored submission is appended, with 201. */
  function SubmitEssay(db: Db, user: Id, courseId: Id, moduleId: Id, lessonId: Id, essayText: string,
                       scored: EssayScore, id: Id, now: Time): Outcome<Submission>
  {
    if essayText == "" then Outcome(db, Error(400))
    else if courseId !in db.courses then Outcome(db, Error(404))
    else
      var c := db.courses[courseId];
      match ModuleIndex(c.modules, moduleId)
      case None => Outcome(db, Error(404))
      case Some(m) =>
        match LessonIndex(c.modules[m].lessons, lessonId)
        case None => Outcome(db, Error(404))
        case Some(l) =>
          var lesson := c.modules[m].lessons[l];
          if EnrollmentIndex(c.enrolledStudents, user).None? then Outcome(db, Error(403))
          else if lesson.assignment.None? then Outcome(db, Error(400))
          else if HasSubmitted(lesson.assignment.value.submissions, user) then Outcome(db, Error(409))
          else if scored.ScoringFailed? then Outcome(db, Error(500))
          else
            var s := EssaySubmission(id, user, essayText, scored.score, scored.feedback, now);
            Outcome(db.(courses := db.courses[courseId := WithSubmission(c, m, l, s)]), Success(201, s))
  }

  /** An essay is stored only for an enrolled student with no earlier
      submission to that lesson; exactly one submission is added, so a
      student never has two; and a second essay is refused with 409. */
  lemma SubmitEssayOnce(db: Db, user: Id, courseId: Id, moduleId: Id, lessonId: Id, essayText: string,
                        scored: EssayScore, id: Id, now: Time,
                        essayText2: string, scored2: EssayScore, id2: Id, now2: Time)
    requires SubmitEssay(db, user, courseId, moduleId, lessonId, essayText, scored, id, now).response.Success?
    requires essayText2 != ""
    ensures courseId in db.courses && IsEnrolled(db.courses[courseId], user)
    ensures var o := SubmitEssay(db, user, courseId, moduleId, lessonId, essayText, scored, id, now);
      o.response.body.student == user && o.response.body.grade == Some(scored.score) &&
      SubmitEssay(o.db, user, courseId, moduleId, lessonId, essayText2, scored2, id2, now2) == Outcome(o.db, Error(409))
  {
    var c := db.courses[courseId];
    var m := ModuleIndex(c.modules, moduleId).value;
    var l := LessonIndex(c.modules[m].lessons, lessonId).value;
    var s := EssaySubmission(id, user, essayText, scored.score, scored.feedback, now);
    WithSubmissionKeepsPlace(c, m, l, s, moduleId, lessonId);
  }

  /** Appending a submission keeps the enrolments and where the module and
      the lesson are found, and leaves its student with a submission there. */
  lemma WithSubmissionKeepsPlace(c: Course, m: nat, l: nat, s: Submission, moduleId: Id, lessonId: Id)
    requires m < |c.modules| && l < |c.modules[m].lessons| && c.modules[m].lessons[l].assignment.Some?
    requires ModuleIndex(c.modules, moduleId) == Some(m)
    requires LessonIndex(c.modules[m].lessons, lessonId) == Some(l)
    ensures var c1 := WithSubmission(c, m, l, s);
      c1.enrolledStudents == c.enrolledStudents &&
      ModuleIndex(c1.modules, moduleId) == Some(m) &&
      LessonIndex(c1.modules[m].lessons, lessonId) == Some(l) &&
      c1.modules[m].lessons[l].assignment.Some? &&
      HasSubmitted(c1.modules[m].lessons[l].assignment.value.submissions, s.student)
  {
    var c1 := WithSubmission(c, m, l, s);
    assert forall j :: 0 <= j < |c.modules| ==> c1.modules[j].id == c.modules[j].id;
    assert forall j :: 0 <= j < |c.modules[m].lessons| ==> c1.modules[m].lessons[j].id == c.modules[m].lessons[j].id;
    var subs := c1.modules[m].lessons[l].assignment.value.submissions;
    assert subs[|subs| - 1].student == s.student;
  }

  // ---------------------------------------------------------------------
  // POST /:lessonId/submit

  /** The plain assignment submission. */
  function AssignmentSubmission(id: Id, user: Id, content: string, now: Time): Submission
  {
    Submission(id, user, content, "", None, "", "", now, None)
  }

  /** POST /:lessonId/submit.  `found` is the course the database returns
      for `findOne({'modules.lessons._id': lessonId})`, any course whose
      modules hold the lesson; the lesson is then the first match over the
      modules in order.  404 without such a course or when that lesson has
      no assignment; there is no enrolment check. */
  function SubmitAssignment(db: Db, found: Option<Id>, user: Id, lessonId: Id, content: string, id: Id, now: Time)
    : Outcome<Submission>
    requires found.Some? ==> found.value in db.courses &&
                             LessonLocation(db.courses[found.value].modules, lessonId).Some?
    requires found.None? ==> forall c :: c in db.courses ==> LessonLocation(db.courses[c].modules, lessonId).None?
  {
    match found
    case None => Outcome(db, Error(404))
    case Some(cid) =>
      var c := db.courses[cid];
      var loc := LessonLocation(c.modules, lessonId).value;
      if c.modules[loc.0].lessons[loc.1].assignment.None? then Outcome(db, Error(404))
      else
        var s := AssignmentSubmission(id, user, content, now);
        Outcome(db.(courses := db.courses[cid := WithSubmission(c, loc.0, loc.1, s)]), Success(201, s))
  }

  /** A submission is appended to exactly the one lesson's assignment, and
      even a user who is not enrolled can submit. */
  lemma SubmitAssignmentEffects(db: Db, found: Option<Id>, user: Id, lessonId: Id, content: string, id: Id, now: Time)
    requires found.Some? ==> found.value in db.courses &&
                             LessonLocation(db.courses[found.value].modules, lessonId).Some?
    requires found.None? ==> forall c :: c in db.courses ==> LessonLocation(db.courses[c].modules, lessonId).None?
    ensures var o := SubmitAssignment(db, found, user, lessonId, content, id, now);
      o.response.Success? <==>
        found.Some? &&
        (var loc := LessonLocation(db.courses[found.value].modules, lessonId).value;
         db.courses[found.value].modules[loc.0].lessons[loc.1].assignment.Some?)
    ensures var o := SubmitAssignment(db, found, user, lessonId, content, id, now);
      o.response.Success? ==>
        var c := db.courses[found.value];
        var loc := LessonLocation(c.modules, lessonId).value;
        var c1 := o.db.courses[found.value];
        o.response.body.student == user && o.response.body.grade.None? &&
        c1.modules[loc.0].lessons[loc.1].assignment.value.submissions ==
          c.modules[loc.0].lessons[loc.1].assignment.value.submissions + [o.response.body] &&
        o.db.courses.Keys == db.courses.Keys &&
        (forall k :: k in db.courses && k != found.value ==> o.db.courses[k] == db.courses[k]) &&
        o.db == db.(courses := o.db.courses)
  {
  }

  /** The `for ... of course.modules` search with its `break`. */
  method FindLesson(ms: seq<Module>, lessonId: Id) returns (r: Option<(nat, nat)>)
    ensures r == LessonLocation(ms, lessonId)
  {
    var m := 0;
    while m < |ms|
      invariant 0 <= m <= |ms|
      invariant forall j :: 0 <= j < m ==> LessonIndex(ms[j].lessons, lessonId).None?
    {
      var l := LessonIndex(ms[m].lessons, lessonId);
      if l.Some? {
        return Some((m, l.value));
      }
      m := m + 1;
    }
    return None;
  }
}
