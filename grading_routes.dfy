// The instructor's grading handlers (server/routes/grading.js): grading a
// submission found by a nested search over the course's modules and
// lessons, crediting an approved lesson to the student's enrolment once, and
// forwarding an essay to the scoring service.  The search is a method with
// nested loops proved equal to a function, which is in turn proved to find a
// submission exactly when the course holds one.
module GradingRoutes {
  import opened Common
  import opened Documents
  import LessonRoutes

  /** `lesson.assignment.submissions.id(sid)`, when the lesson has an
      assignment. */
  function SubmissionIn(l: Lesson, sid: Id): (r: Option<nat>)
    ensures r.Some? ==> l.assignment.Some? && r.value < |l.assignment.value.submissions| &&
                        l.assignment.value.submissions[r.value].id == sid
    ensures r.None? <==> l.assignment.None? ||
                         forall k :: 0 <= k < |l.assignment.value.submissions| ==> l.assignment.value.submissions[k].id != sid
  {
    match l.assignment
    case None => None
    case Some(a) => FirstIndex(a.submissions, (s: Submission) => s.id == sid)
  }

  /** The inner loop: the first lesson of a module holding the submission,
      and the submission's index in it. */
  function LessonWithSubmission(ls: seq<Lesson>, sid: Id): (r: Option<(nat, nat)>)
    ensures r.Some? ==> r.value.0 < |ls| && SubmissionIn(ls[r.value.0], sid) == Some(r.value.1)
    ensures r.Some? ==> forall j :: 0 <= j < r.value.0 ==> SubmissionIn(ls[j], sid).None?
    ensures r.None? <==> forall j :: 0 <= j < |ls| ==> SubmissionIn(ls[j], sid).None?
  {
    match FirstIndex(ls, (l: Lesson) => SubmissionIn(l, sid).Some?)
    case None => None
    case Some(j) => Some((j, SubmissionIn(ls[j], sid).value))
  }

  /** Module, lesson and submission index of a submission in the tree. */
  datatype Place = Place(moduleIndex: nat, lessonIndex: nat, submissionIndex: nat)

  /** The whole nested search, with both breaks: the first module holding
      the submission, then the first lesson in it. */
  function SubmissionPlace(ms: seq<Module>, sid: Id): (r: Option<Place>)
    ensures r.Some? ==> r.value.moduleIndex < |ms|
    ensures r.Some? ==>
      LessonWithSubmission(ms[r.value.moduleIndex].lessons, sid) == Some((r.value.lessonIndex, r.value.submissionIndex))
    ensures r.Some? ==> forall j :: 0 <= j < r.value.moduleIndex ==> LessonWithSubmission(ms[j].lessons, sid).None?
    ensures r.None? <==> forall j :: 0 <= j < |ms| ==> LessonWithSubmission(ms[j].lessons, sid).None?
  {
    match FirstIndex(ms, (m: Module) => LessonWithSubmission(m.lessons, sid).Some?)
    case None => None
    case Some(i) =>
      var p := LessonWithSubmission(ms[i].lessons, sid).value;
      Some(Place(i, p.0, p.1))
  }

  predicate ValidPlace(ms: seq<Module>, p: Place)
  {
    p.moduleIndex < |ms| && p.lessonIndex < |ms[p.moduleIndex].lessons| &&
    ms[p.moduleIndex].lessons[p.lessonIndex].assignment.Some? &&
    p.submissionIndex < |ms[p.moduleIndex].lessons[p.lessonIndex].assignment.value.submissions|
  }

  function SubmissionAt(ms: seq<Module>, p: Place): Submission
    requires ValidPlace(ms, p)
  {
    ms[p.moduleIndex].lessons[p.lessonIndex].assignment.value.submissions[p.submissionIndex]
  }

  /** What the database query matches: some lesson of some module has an
      assignment with a submission of that id. */
  predicate Holds(ms: seq<Module>, sid: Id)
  {
    exists i, j, k :: 0 <= i < |ms| && 0 <= j < |ms[i].lessons| && ms[i].lessons[j].assignment.Some? &&
      0 <= k < |ms[i].lessons[j].assignment.value.submissions| &&
      ms[i].lessons[j].assignment.value.submissions[k].id == sid
  }

  /** The search finds a valid place holding the submission exactly when
      the module tree holds it. */
  lemma PlaceFoundIffHeld(ms: seq<Module>, sid: Id)
    ensures SubmissionPlace(ms, sid).Some? ==>
      ValidPlace(ms, SubmissionPlace(ms, sid).value) && SubmissionAt(ms, SubmissionPlace(ms, sid).value).id == sid
    ensures SubmissionPlace(ms, sid).Some? <==> Holds(ms, sid)
  {
    if Holds(ms, sid) {
      HeldIsFound(ms, sid);
    }
    if SubmissionPlace(ms, sid).Some? {
      FoundIsHeld(ms, sid);
    }
  }

  lemma HeldIsFound(ms: seq<Module>, sid: Id)
    requires Holds(ms, sid)
    ensures SubmissionPlace(ms, sid).Some?
  {
    var i, j, k :| 0 <= i < |ms| && 0 <= j < |ms[i].lessons| && ms[i].lessons[j].assignment.Some? &&
      0 <= k < |ms[i].lessons[j].assignment.value.submissions| &&
      ms[i].lessons[j].assignment.value.submissions[k].id == sid;
    var ls := ms[i].lessons;
    assert SubmissionIn(ls[j], sid).Some?;
    assert LessonWithSubmission(ls, sid).Some?;
  }

  lemma FoundIsHeld(ms: seq<Module>, sid: Id)
    requires SubmissionPlace(ms, sid).Some?
    ensures ValidPlace(ms, SubmissionPlace(ms, sid).value)
    ensures SubmissionAt(ms, SubmissionPlace(ms, sid).value).id == sid
    ensures Holds(ms, sid)
  {
    var p := SubmissionPlace(ms, sid).value;
    var ls := ms[p.moduleIndex].lessons;
    assert SubmissionIn(ls[p.lessonIndex], sid) == Some(p.submissionIndex);
    var subs := ls[p.lessonIndex].assignment.value.submissions;
    assert subs[p.submissionIndex].id == sid;
  }

  /** The inner `for` loop, up to its `break`. */
  method FindInModule(ls: seq<Lesson>, sid: Id) returns (r: Option<(nat, nat)>)
    ensures r == LessonWithSubmission(ls, sid)
  {
    var j := 0;
    while j < |ls|
      invariant 0 <= j <= |ls|
      invariant forall q :: 0 <= q < j ==> SubmissionIn(ls[q], sid).None?
    {
      var k := SubmissionIn(ls[j], sid);
      if k.Some? {
        return Some((j, k.value));
      }
      j := j + 1;
    }
    return None;
  }

  /** The two `for` loops of the handler with their `break`s. */
  method FindSubmission(ms: seq<Module>, sid: Id) returns (r: Option<Place>)
    ensures r == SubmissionPlace(ms, sid)
  {
    var i := 0;
    while i < |ms|
      invariant 0 <= i <= |ms|
      invariant forall j :: 0 <= j < i ==> LessonWithSubmission(ms[j].lessons, sid).None?
    {
      var found := FindInModule(ms[i].lessons, sid);
      if found.Some? {
        FirstModuleHolding(ms, sid, i);
        return Some(Place(i, found.value.0, found.value.1));
      }
      i := i + 1;
    }
    return None;
  }

  /** The first module whose lessons hold the submission is where the
      search stops. */
  lemma FirstModuleHolding(ms: seq<Module>, sid: Id, i: nat)
    requires i < |ms| && LessonWithSubmission(ms[i].lessons, sid).Some?
    requires forall j :: 0 <= j < i ==> LessonWithSubmission(ms[j].lessons, sid).None?
    ensures var w := LessonWithSubmission(ms[i].lessons, sid).value;
      SubmissionPlace(ms, sid) == Some(Place(i, w.0, w.1))
  {
    var r := SubmissionPlace(ms, sid);
    assert r.Some?;
  }

  /** `LessonCount` is at least the size of any one module. */
  lemma {:induction false} LessonCountAtLeast(ms: seq<Module>, i: nat)
    requires i < |ms|
    ensures LessonCount(ms) >= |ms[i].lessons|
  {
    if i < |ms| - 1 {
      LessonCountAtLeast(ms[..|ms| - 1], i);
    }
  }

  /** The submission at `p` replaced by `s`, the rest of the course kept. */
  function WithSubmissionAt(c: Course, p: Place, s: Submission): (r: Course)
    requires ValidPlace(c.modules, p)
    ensures ValidPlace(r.modules, p) && SubmissionAt(r.modules, p) == s
    ensures |r.modules| == |c.modules| && LessonCount(r.modules) == LessonCount(c.modules)
    ensures forall j :: 0 <= j < |c.modules| ==> r.modules[j].id == c.modules[j].id
    ensures forall j :: 0 <= j < |c.modules| && j != p.moduleIndex ==> r.modules[j] == c.modules[j]
    ensures r.modules[p.moduleIndex].lessons[p.lessonIndex].id == c.modules[p.moduleIndex].lessons[p.lessonIndex].id
    ensures r == c.(modules := r.modules)
  {
    var m := c.modules[p.moduleIndex];
    var l := m.lessons[p.lessonIndex];
    var a := l.assignment.value;
    var l1 := l.(assignment := Some(a.(submissions := a.submissions[p.submissionIndex := s])));
    var m1 := m.(lessons := m.lessons[p.lessonIndex := l1]);
    LessonCountReplace(c.modules, p.moduleIndex, m1);
    c.(modules := c.modules[p.moduleIndex := m1])
  }

  /** The handler's field assignments: the grade, feedback and status overwritten, the grading
      time stamped. */
  function Regraded(s: Submission, grade: Option<int>, feedback: string, status: string, now: Time): (r: Submission)
    ensures r.id == s.id && r.student == s.student && r.content == s.content && r.essayText == s.essayText
    ensures r.submittedAt == s.submittedAt
    ensures r.grade == grade && r.feedback == feedback && r.status == status && r.gradedAt == Some(now)
  {
    s.(grade := grade, feedback := feedback, status := status, gradedAt := Some(now))
  }

  /** Approval: the lesson is added to the student's enrolment unless it is
      there already, and the enrolment's progress recomputed over all the
      modules' lessons.  A student with no enrolment is left alone. */
  function Approved(c: Course, student: Id, lesson: Id): (r: Course)
    requires LessonCount(c.modules) > 0
    ensures r == c.(enrolledStudents := r.enrolledStudents)
  {
    match EnrollmentIndex(c.enrolledStudents, student)
    case None => c
    case Some(k) =>
      var e := c.enrolledStudents[k];
      if lesson in e.completedLessons then c
      else
        var cl := e.completedLessons + [lesson];
        c.(enrolledStudents := c.enrolledStudents[k := e.(completedLessons := cl,
                                                          progress := Percent(|cl|, LessonCount(c.modules)))])
  }

  /** The lesson id ends up in the enrolment exactly once when it was there
      at most once; the progress is the rounded share of all lessons. */
  lemma ApprovedCreditsOnce(c: Course, student: Id, lesson: Id)
    requires LessonCount(c.modules) > 0
    requires EnrollmentIndex(c.enrolledStudents, student).Some?
    ensures var k := EnrollmentIndex(c.enrolledStudents, student).value;
      var e := c.enrolledStudents[k];
      var e1 := Approved(c, student, lesson).enrolledStudents[k];
      |Approved(c, student, lesson).enrolledStudents| == |c.enrolledStudents| &&
      lesson in e1.completedLessons &&
      (lesson in e.completedLessons ==> e1 == e) &&
      (lesson !in e.completedLessons ==>
        e1.completedLessons == e.completedLessons + [lesson] &&
        var n := LessonCount(c.modules);
        2 * n * e1.progress - n <= 200 * |e1.completedLessons| < 2 * n * e1.progress + n) &&
      (NoDuplicates(e.completedLessons) ==> NoDuplicates(e1.completedLessons))
    ensures Approved(Approved(c, student, lesson), student, lesson) == Approved(c, student, lesson)
  {
    var k := EnrollmentIndex(c.enrolledStudents, student).value;
    var e := c.enrolledStudents[k];
    if lesson !in e.completedLessons {
      if NoDuplicates(e.completedLessons) {
        AddToSetKeepsDistinct(e.completedLessons, lesson);
      }
      var a := Approved(c, student, lesson);
      assert a.enrolledStudents[k].student == student;
      assert forall j :: 0 <= j < k ==> a.enrolledStudents[j] == c.enrolledStudents[j];
      assert EnrollmentIndex(a.enrolledStudents, student) == Some(k);
    }
  }

  /** The course `findOne` returns for the submission id: one whose module
      tree holds it, or None when none does (by PlaceFoundIffHeld, holding
      it is the search finding it). */
  predicate FoundBy(db: Db, found: Option<Id>, sid: Id)
  {
    (found.Some? ==> found.value in db.courses && SubmissionPlace(db.courses[found.value].modules, sid).Some?) &&
    (found.None? ==> forall c :: c in db.courses ==> SubmissionPlace(db.courses[c].modules, sid).None?)
  }

  /** The course after grading the submission at `p` with `s`: the
      submission stored back, and on approval the lesson credited. */
  function GradedCourse(c: Course, p: Place, s: Submission): (r: Course)
    requires ValidPlace(c.modules, p)
    ensures ValidPlace(r.modules, p) && SubmissionAt(r.modules, p) == s
    ensures r == c.(modules := r.modules, enrolledStudents := r.enrolledStudents)
    ensures s.status != "approved" ==> r.enrolledStudents == c.enrolledStudents
  {
    var c1 := WithSubmissionAt(c, p, s);
    if s.status != "approved" then c1
    else
      LessonCountAtLeast(c.modules, p.moduleIndex);
      Approved(c1, s.student, c.modules[p.moduleIndex].lessons[p.lessonIndex].id)
  }

  /** PUT /submissions/:submissionId.  No course holding the submission
      404; the submission is regraded; on approval a missing student makes
      the handler throw (500, nothing saved), otherwise the lesson is
      credited; the course is saved and the submission returned. */
  function GradeSubmission(db: Db, found: Option<Id>, sid: Id, grade: Option<int>, feedback: string,
                           status: string, now: Time): Outcome<Submission>
    requires FoundBy(db, found, sid)
  {
    match found
    case None => Outcome(db, Error(404))
    case Some(cid) =>
      var c := db.courses[cid];
      match SubmissionPlace(c.modules, sid)
      case None => Outcome(db, Error(404))
      case Some(p) =>
        PlaceFoundIffHeld(c.modules, sid);
        var s := Regraded(SubmissionAt(c.modules, p), grade, feedback, status, now);
        if status == "approved" && s.student !in db.users then Outcome(db, Error(500))
        else Outcome(db.(courses := db.courses[cid := GradedCourse(c, p, s)]), Success(200, s))
  }

  lemma GradeNotFound(db: Db, found: Option<Id>, sid: Id, grade: Option<int>, feedback: string,
                      status: string, now: Time)
    requires FoundBy(db, found, sid)
    ensures found.None? ==> GradeSubmission(db, found, sid, grade, feedback, status, now) == Outcome(db, Error(404))
    ensures found.Some? ==> GradeSubmission(db, found, sid, grade, feedback, status, now).response != Error(404)
  {
    if found.Some? {
      PlaceFoundIffHeld(db.courses[found.value].modules, sid);
    }
  }

  /** What a successful grading stores: the submission's course replaced
      by the graded course, nothing else. */
  lemma GradeSucceeded(db: Db, found: Option<Id>, sid: Id, grade: Option<int>, feedback: string,
                       status: string, now: Time)
    requires FoundBy(db, found, sid)
    requires GradeSubmission(db, found, sid, grade, feedback, status, now).response.Success?
    ensures found.Some? && SubmissionPlace(db.courses[found.value].modules, sid).Some?
    ensures var c := db.courses[found.value];
      var p := SubmissionPlace(c.modules, sid).value;
      ValidPlace(c.modules, p) &&
      var s := Regraded(SubmissionAt(c.modules, p), grade, feedback, status, now);
      (status == "approved" ==> s.student in db.users) &&
      GradeSubmission(db, found, sid, grade, feedback, status, now) ==
        Outcome(db.(courses := db.courses[found.value := GradedCourse(c, p, s)]), Success(200, s))
  {
    PlaceFoundIffHeld(db.courses[found.value].modules, sid);
  }

  /** A graded submission carries the new grade, feedback, status and time
      and is stored back at its place. */
  lemma GradeStoresSubmission(db: Db, found: Option<Id>, sid: Id, grade: Option<int>, feedback: string,
                              status: string, now: Time)
    requires FoundBy(db, found, sid)
    requires GradeSubmission(db, found, sid, grade, feedback, status, now).response.Success?
    ensures var o := GradeSubmission(db, found, sid, grade, feedback, status, now);
      var c := db.courses[found.value];
      var p := SubmissionPlace(c.modules, sid).value;
      var c1 := o.db.courses[found.value];
      ValidPlace(c.modules, p) && ValidPlace(c1.modules, p) &&
      o.response.body == Regraded(SubmissionAt(c.modules, p), grade, feedback, status, now) &&
      o.response.body.id == sid &&
      SubmissionAt(c1.modules, p) == o.response.body
  {
    PlaceFoundIffHeld(db.courses[found.value].modules, sid);
  }

  /** Only the course holding the submission changes, and its enrolments
      change only on approval. */
  lemma GradeTouchesOneCourse(db: Db, found: Option<Id>, sid: Id, grade: Option<int>, feedback: string,
                              status: string, now: Time)
    requires FoundBy(db, found, sid)
    requires GradeSubmission(db, found, sid, grade, feedback, status, now).response.Success?
    ensures var o := GradeSubmission(db, found, sid, grade, feedback, status, now);
      o.db.courses.Keys == db.courses.Keys &&
      (forall k :: k in db.courses && k != found.value ==> o.db.courses[k] == db.courses[k]) &&
      o.db == db.(courses := o.db.courses)
    ensures var o := GradeSubmission(db, found, sid, grade, feedback, status, now);
      status != "approved" ==> o.db.courses[found.value].enrolledStudents == db.courses[found.value].enrolledStudents
  {
    GradeSucceeded(db, found, sid, grade, feedback, status, now);
    var c := db.courses[found.value];
    var p := SubmissionPlace(c.modules, sid).value;
    var s := Regraded(SubmissionAt(c.modules, p), grade, feedback, status, now);
    GradedCourseStored(db, found.value, GradedCourse(c, p, s));
    assert s.status == status;
  }

  /** Storing one course back keeps every other course and the rest of
      the database. */
  lemma GradedCourseStored(db: Db, cid: Id, c1: Course)
    requires cid in db.courses
    ensures var d := db.(courses := db.courses[cid := c1]);
      d.courses.Keys == db.courses.Keys &&
      (forall k :: k in db.courses && k != cid ==> d.courses[k] == db.courses[k]) &&
      d == db.(courses := d.courses) && d.courses[cid] == c1
  {
  }

  /** Approving a submission of an enrolled student credits the submission's
      lesson to that student's enrolment. */
  lemma GradeApprovalCredits(db: Db, found: Option<Id>, sid: Id, grade: Option<int>, feedback: string, now: Time)
    requires FoundBy(db, found, sid)
    requires GradeSubmission(db, found, sid, grade, feedback, "approved", now).response.Success?
    ensures var o := GradeSubmission(db, found, sid, grade, feedback, "approved", now);
      var c := db.courses[found.value];
      var p := SubmissionPlace(c.modules, sid).value;
      var student := o.response.body.student;
      student in db.users &&
      ValidPlace(c.modules, p) &&
      (EnrollmentIndex(c.enrolledStudents, student).Some? ==>
        var k := EnrollmentIndex(c.enrolledStudents, student).value;
        k < |o.db.courses[found.value].enrolledStudents| &&
        c.modules[p.moduleIndex].lessons[p.lessonIndex].id in o.db.courses[found.value].enrolledStudents[k].completedLessons)
  {
    GradeSucceeded(db, found, sid, grade, feedback, "approved", now);
    var c := db.courses[found.value];
    var p := SubmissionPlace(c.modules, sid).value;
    var s := Regraded(SubmissionAt(c.modules, p), grade, feedback, "approved", now);
    var c1 := WithSubmissionAt(c, p, s);
    LessonCountAtLeast(c.modules, p.moduleIndex);
    if EnrollmentIndex(c.enrolledStudents, s.student).Some? {
      ApprovedCreditsOnce(c1, s.student, c.modules[p.moduleIndex].lessons[p.lessonIndex].id);
    }
  }

  /** The course document's updates, in the handler's order: the
      submission's fields written back, then on approval the lesson pushed
      onto the student's enrolment. */
  method RegradeCourse(c: Course, p: Place, s: Submission) returns (r: Course)
    requires ValidPlace(c.modules, p)
    ensures r == GradedCourse(c, p, s)
  {
    var lessonId := c.modules[p.moduleIndex].lessons[p.lessonIndex].id;
    LessonCountAtLeast(c.modules, p.moduleIndex);
    r := WithSubmissionAt(c, p, s);
    if s.status == "approved" {
      r := Approved(r, s.student, lessonId);
    }
  }

  /** The handler on the database object: the nested search, the field
      assignments, the approval and the save. */
  method GradeOn(db: Database, found: Option<Id>, sid: Id, grade: Option<int>, feedback: string,
                 status: string, now: Time) returns (r: Response<Submission>)
    requires FoundBy(db.State(), found, sid)
    modifies db
    ensures Outcome(db.State(), r) == GradeSubmission(old(db.State()), found, sid, grade, feedback, status, now)
  {
    if found.None? {
      return Error(404);
    }
    var course := db.courses[found.value];
    var place := FindSubmission(course.modules, sid);
    PlaceFoundIffHeld(course.modules, sid);
    r := GradeAt(db, found.value, place.value, grade, feedback, status, now);
  }

  /** The handler once the submission is found at `p` in course `cid`. */
  method GradeAt(db: Database, cid: Id, p: Place, grade: Option<int>, feedback: string,
                 status: string, now: Time) returns (r: Response<Submission>)
    requires cid in db.courses && ValidPlace(db.courses[cid].modules, p)
    modifies db
    ensures var s := Regraded(SubmissionAt(old(db.courses[cid]).modules, p), grade, feedback, status, now);
      if status == "approved" && s.student !in old(db.users) then Outcome(db.State(), r) == Outcome(old(db.State()), Error(500))
      else Outcome(db.State(), r) == Outcome(old(db.State()).(courses := old(db.courses)[cid := GradedCourse(old(db.courses[cid]), p, s)]), Success(200, s))
  {
    var course := db.courses[cid];
    var submission := Regraded(SubmissionAt(course.modules, p), grade, feedback, status, now);
    if status == "approved" && submission.student !in db.users {
      return Error(500);
    }
    course := RegradeCourse(course, p, submission);
    db.courses := db.courses[cid := course];
    r := Success(200, submission);
  }

  // ---------------------------------------------------------------------
  // POST /score-essay

  /** An empty text 400; otherwise the scoring service's answer is sent
      with 200, even when it reports that scoring failed (the helper catches
      its own errors). */
  function ScoreEssay(essayText: string, scored: LessonRoutes.EssayScore): (r: Response<LessonRoutes.EssayScore>)
    ensures r.Error? <==> essayText == ""
    ensures r.Error? ==> r.status == 400
    ensures r.Success? ==> r.status == 200 && r.body == scored
  {
    if essayText == "" then Error(400) else Success(200, scored)
  }
}
