// The enrolment routes (server/routes/enrollment.js): enrolling in a
// course, the enrolment status, the lesson-progress update with its streak
// and completion side effects, the certificate the completion issues, and
// the learner's course listings.  Each handler is a function from the
// database value to an `Outcome`, about which the properties are proved,
// and the handlers that write are also methods on the `Database` object
// that update the fetched documents step by step.
module EnrollmentRoutes {
  import opened Common
  import opened ProgressModel
  import opened CertificateModel
  import opened Documents

  // ---------------------------------------------------------------------
  // POST /enroll/:courseId

  datatype Enrolled = Enrolled(courseId: Id, enrolledAt: Time)

  /** The enrolment entry, user entry and progress record a new enrolment
      creates. */
  function NewEnrollment(user: Id, now: Time): Enrollment
  {
    Enrollment(user, now, 0, [], false)
  }

  function NewEnrolledCourse(course: Id, now: Time): EnrolledCourse
  {
    EnrolledCourse(course, now, 0, [])
  }

  /** The enrolment handler.  A missing instructor (populate yields null)
      and a missing user (findById yields null) throw, giving 500; the
      course has already been saved when the user lookup fails. */
  function Enroll(db: Db, user: Id, courseId: Id, now: Time): Outcome<Enrolled>
  {
    if courseId !in db.courses then Outcome(db, Error(404))
    else
      var c := db.courses[courseId];
      if !c.isPublished then Outcome(db, Error(400))
      else if c.instructor !in db.users then Outcome(db, Error(500))
      else if c.instructor == user then Outcome(db, Error(400))
      else if EnrollmentIndex(c.enrolledStudents, user).Some? then Outcome(db, Error(400))
      else if ProgressIndex(db.progress, user, courseId).Some? then Outcome(db, Error(400))
      else
        var c1 := c.(enrolledStudents := c.enrolledStudents + [NewEnrollment(user, now)],
                     analytics := c.analytics.(enrollments := c.analytics.enrollments + 1));
        var db1 := db.(courses := db.courses[courseId := c1]);
        if user !in db.users then Outcome(db1, Error(500))
        else
          var u := db.users[user];
          var u1 := u.(enrolledCourses := u.enrolledCourses + [NewEnrolledCourse(courseId, now)]);
          Outcome(db1.(users := db.users[user := u1], progress := db.progress + [NewProgress(user, courseId, now)]),
                  Success(201, Enrolled(courseId, now)))
  }

  /** The refusals, in the handler's order, and that a refusal writes nothing. */
  lemma EnrollRefusals(db: Db, user: Id, courseId: Id, now: Time)
    ensures var o := Enroll(db, user, courseId, now);
      (courseId !in db.courses ==> o == Outcome(db, Error(404))) &&
      (courseId in db.courses && !db.courses[courseId].isPublished ==> o == Outcome(db, Error(400))) &&
      (courseId in db.courses && db.courses[courseId].isPublished && db.courses[courseId].instructor in db.users &&
       (db.courses[courseId].instructor == user || IsEnrolled(db.courses[courseId], user) ||
        ProgressIndex(db.progress, user, courseId).Some?)
       ==> o == Outcome(db, Error(400)))
  {
    if courseId in db.courses && IsEnrolled(db.courses[courseId], user) {
      var es := db.courses[courseId].enrolledStudents;
      var j :| 0 <= j < |es| && es[j].student == user;
      assert EnrollmentIndex(es, user).Some?;
    }
  }

  /** A successful enrolment appends exactly one entry to the course's
      students and one to the user's courses, counts one enrolment, and
      creates a 0% record; nothing else changes. */
  lemma EnrollSuccessEffects(db: Db, user: Id, courseId: Id, now: Time)
    requires Enroll(db, user, courseId, now).response.Success?
    ensures var o := Enroll(db, user, courseId, now);
      courseId in db.courses && user in db.users &&
      !IsEnrolled(db.courses[courseId], user) &&
      o.response.status == 201 &&
      o.db.courses == db.courses[courseId := o.db.courses[courseId]] &&
      o.db.courses[courseId].enrolledStudents == db.courses[courseId].enrolledStudents + [NewEnrollment(user, now)] &&
      o.db.courses[courseId].analytics.enrollments == db.courses[courseId].analytics.enrollments + 1 &&
      o.db.users == db.users[user := o.db.users[user]] &&
      o.db.users[user].enrolledCourses == db.users[user].enrolledCourses + [NewEnrolledCourse(courseId, now)] &&
      o.db.progress == db.progress + [NewProgress(user, courseId, now)] &&
      o.db.certificates == db.certificates && o.db.comments == db.comments
  {
  }

  /** Enrolment keeps at most one enrolment per student on every course and
      at most one progress record per (user, course) pair. */
  predicate StudentsDistinct(c: Course)
  {
    forall i, j :: 0 <= i < j < |c.enrolledStudents| ==>
      c.enrolledStudents[i].student != c.enrolledStudents[j].student
  }

  predicate EnrolmentInvariant(db: Db)
  {
    UniquePerUserCourse(db.progress) &&
    forall id :: id in db.courses ==> StudentsDistinct(db.courses[id])
  }

  lemma EnrollKeepsInvariant(db: Db, user: Id, courseId: Id, now: Time)
    requires EnrolmentInvariant(db)
    ensures EnrolmentInvariant(Enroll(db, user, courseId, now).db)
  {
    var o := Enroll(db, user, courseId, now);
    if courseId in db.courses && o.db != db {
      var c := db.courses[courseId];
      var es := c.enrolledStudents;
      assert EnrollmentIndex(es, user).None?;
      var es1 := es + [NewEnrollment(user, now)];
      assert o.db.courses[courseId].enrolledStudents == es1;
      forall i, j | 0 <= i < j < |es1|
        ensures es1[i].student != es1[j].student
      {
        if j == |es| {
          assert es1[i] == es[i];
        }
      }
      if user in db.users {
        assert ProgressIndex(db.progress, user, courseId).None?;
        var ps := db.progress + [NewProgress(user, courseId, now)];
        assert o.db.progress == ps;
        forall i, j | 0 <= i < j < |ps|
          ensures !(ps[i].user == ps[j].user && ps[i].course == ps[j].course)
        {
          if j == |db.progress| {
            assert ps[i] == db.progress[i];
          }
        }
      }
    }
  }

  /** Enrolling twice: the second request is refused. */
  lemma EnrollTwiceRefused(db: Db, user: Id, courseId: Id, now: Time, later: Time)
    requires Enroll(db, user, courseId, now).response.Success?
    ensures Enroll(Enroll(db, user, courseId, now).db, user, courseId, later).response == Error(400)
  {
    EnrollSuccessEffects(db, user, courseId, now);
    var db1 := Enroll(db, user, courseId, now).db;
    var es1 := db1.courses[courseId].enrolledStudents;
    assert es1[|es1| - 1].student == user;
    assert IsEnrolled(db1.courses[courseId], user);
    EnrollRefusals(db1, user, courseId, later);
  }

  method EnrollIn(db: Database, user: Id, courseId: Id, now: Time) returns (r: Response<Enrolled>)
    modifies db
    ensures Outcome(db.State(), r) == Enroll(old(db.State()), user, courseId, now)
  {
    if courseId !in db.courses {
      return Error(404);
    }
    var course := db.courses[courseId];
    if !course.isPublished {
      return Error(400);
    }
    if course.instructor !in db.users {
      return Error(500);
    }
    if course.instructor == user || EnrollmentIndex(course.enrolledStudents, user).Some? {
      return Error(400);
    }
    if ProgressIndex(db.progress, user, courseId).Some? {
      return Error(400);
    }
    course := course.(enrolledStudents := course.enrolledStudents + [NewEnrollment(user, now)]);
    course := course.(analytics := course.analytics.(enrollments := course.analytics.enrollments + 1));
    db.courses := db.courses[courseId := course];
    if user !in db.users {
      return Error(500);
    }
    var u := db.users[user];
    u := u.(enrolledCourses := u.enrolledCourses + [NewEnrolledCourse(courseId, now)]);
    db.users := db.users[user := u];
    db.progress := db.progress + [NewProgress(user, courseId, now)];
    r := Success(201, Enrolled(courseId, now));
  }

  // ---------------------------------------------------------------------
  // GET /status/:courseId

  datatype EnrollmentStatus =
    | NotEnrolled(canEnroll: bool)
    | EnrolledStatus(enrolledAt: Time, percentage: int, completedLessons: nat, isCompleted: bool,
                     totalTimeSpent: int, lastAccessed: Option<Time>, certificate: Option<Certificate>,
                     nextLesson: Option<Id>)

  /** `Certificate.findOne({user, course})`. */
  function CertificateOf(certs: seq<Certificate>, user: Id, course: Id): (r: Option<Certificate>)
    ensures r.Some? ==> r.value in certs && r.value.user == user && r.value.course == course
    ensures r.None? ==> forall c :: c in certs ==> !(c.user == user && c.course == course)
  {
    match FirstIndex(certs, (c: Certificate) => c.user == user && c.course == course)
    case None => None
    case Some(i) => Some(certs[i])
  }

  function EnrollmentStatusOf(db: Db, user: Id, courseId: Id): Response<EnrollmentStatus>
  {
    if courseId !in db.courses then Error(404)
    else
      var c := db.courses[courseId];
      match EnrollmentIndex(c.enrolledStudents, user)
      case None => Success(200, NotEnrolled(c.isPublished && c.instructor != user))
      case Some(k) =>
        var cert := CertificateOf(db.certificates, user, courseId);
        match ProgressIndex(db.progress, user, courseId)
        case None => Success(200, EnrolledStatus(c.enrolledStudents[k].enrolledAt, 0, 0, false, 0, None, cert, None))
        case Some(i) =>
          var p := db.progress[i];
          Success(200, EnrolledStatus(c.enrolledStudents[k].enrolledAt, p.progressPercentage,
                                      |p.completedLessons|, p.isCompleted, p.totalTimeSpent,
                                      Some(p.lastAccessed), cert, p.currentLesson))
  }

  /** The status agrees with the enrolment handler: `canEnroll` is false
      exactly when enrolment is refused before the progress-record check,
      and after a successful enrolment the status is enrolled at 0%. */
  lemma StatusAgreesWithEnroll(db: Db, user: Id, courseId: Id, now: Time)
    requires EnrolmentInvariant(db)
    requires courseId in db.courses && db.courses[courseId].instructor in db.users && user in db.users
    requires EnrollmentStatusOf(db, user, courseId).Success? && EnrollmentStatusOf(db, user, courseId).body.NotEnrolled?
    ensures EnrollmentStatusOf(db, user, courseId).body.canEnroll && ProgressIndex(db.progress, user, courseId).None?
      <==> Enroll(db, user, courseId, now).response.Success?
    ensures var o := Enroll(db, user, courseId, now);
      o.response.Success? ==>
        EnrollmentStatusOf(o.db, user, courseId).Success? &&
        EnrollmentStatusOf(o.db, user, courseId).body.EnrolledStatus? &&
        EnrollmentStatusOf(o.db, user, courseId).body.percentage == 0 &&
        EnrollmentStatusOf(o.db, user, courseId).body.enrolledAt == now
  {
    var o := Enroll(db, user, courseId, now);
    if o.response.Success? {
      EnrollSuccessEffects(db, user, courseId, now);
      var es1 := o.db.courses[courseId].enrolledStudents;
      var es := db.courses[courseId].enrolledStudents;
      assert EnrollmentIndex(es, user).None?;
      assert EnrollmentIndex(es1, user) == Some(|es|) by {
        assert es1[|es|].student == user;
        assert forall j :: 0 <= j < |es| ==> es1[j] == es[j];
      }
      assert ProgressIndex(db.progress, user, courseId).None?;
      var ps := o.db.progress;
      assert ProgressIndex(ps, user, courseId) == Some(|db.progress|) by {
        assert ps[|db.progress|].user == user && ps[|db.progress|].course == courseId;
        assert forall j :: 0 <= j < |db.progress| ==> ps[j] == db.progress[j];
      }
    }
  }

  // ---------------------------------------------------------------------
  // POST /progress/:courseId/lesson/:lessonId

  /** The request's `quizScore`: absent, or a number (0 is falsy). */
  datatype QuizInput = Absent | Given(value: int)

  /** `Math.min(100, Math.max(0, parseInt(quizScore)))`. */
  function ClampedScore(v: int): (r: int)
    ensures 0 <= r <= 100
    ensures 0 <= v <= 100 ==> r == v
  {
    Clamp(v, 0, 100)
  }

  /** Records the completion on the progress value: a first completion
      appends an entry (storing the quiz score only when it is truthy); a
      repeat adds the time to the existing entry and overwrites its score
      whenever one is given.  The time is clamped at 0 either way. */
  function RecordCompletion(s: ProgressState, lesson: Id, timeSpent: int, quiz: QuizInput, now: Time): ProgressState
  {
    var t := Max(0, timeSpent);
    match CompletionOf(s.completedLessons, lesson)
    case None =>
      var q := if quiz.Given? && quiz.value != 0 then Some(ClampedScore(quiz.value)) else None;
      s.(completedLessons := s.completedLessons + [Completion(lesson, now, t, q)],
         totalTimeSpent := s.totalTimeSpent + t)
    case Some(i) =>
      var c := s.completedLessons[i];
      var q := if quiz.Given? then Some(ClampedScore(quiz.value)) else c.quizScore;
      s.(completedLessons := s.completedLessons[i := c.(timeSpent := c.timeSpent + t, quizScore := q)],
         totalTimeSpent := s.totalTimeSpent + t)
  }

  /** Stored times are never negative and stored scores lie in [0, 100]. */
  predicate EntriesInRange(cs: seq<Completion>)
  {
    forall i :: 0 <= i < |cs| ==>
      cs[i].timeSpent >= 0 && (cs[i].quizScore.Some? ==> 0 <= cs[i].quizScore.value <= 100)
  }

  lemma RecordCompletionKeepsRange(s: ProgressState, lesson: Id, timeSpent: int, quiz: QuizInput, now: Time)
    requires EntriesInRange(s.completedLessons)
    ensures EntriesInRange(RecordCompletion(s, lesson, timeSpent, quiz, now).completedLessons)
  {
  }

  /** The lesson is recorded once: a first completion adds exactly one entry,
      a repeat none, and the total time grows by the clamped time. */
  lemma RecordCompletionOnce(s: ProgressState, lesson: Id, timeSpent: int, quiz: QuizInput, now: Time)
    ensures var r := RecordCompletion(s, lesson, timeSpent, quiz, now);
      HasCompleted(r.completedLessons, lesson) &&
      |r.completedLessons| == |s.completedLessons| + (if HasCompleted(s.completedLessons, lesson) then 0 else 1) &&
      r.totalTimeSpent == s.totalTimeSpent + Max(0, timeSpent) &&
      r.isCompleted == s.isCompleted
  {
    var r := RecordCompletion(s, lesson, timeSpent, quiz, now);
    match CompletionOf(s.completedLessons, lesson)
    case None =>
      assert r.completedLessons[|s.completedLessons|].lesson == lesson;
    case Some(i) =>
      assert r.completedLessons[i].lesson == lesson;
  }

  /** A quiz score of 0 is dropped on a first completion (the truthiness
      test) but stored on a repeat (the `!== undefined` test). */
  lemma ZeroScoreQuirk(s: ProgressState, lesson: Id, timeSpent: int, now: Time)
    ensures var r := RecordCompletion(s, lesson, timeSpent, Given(0), now);
      (!HasCompleted(s.completedLessons, lesson) ==>
        r.completedLessons[|s.completedLessons|].quizScore == None) &&
      (HasCompleted(s.completedLessons, lesson) ==>
        exists i :: 0 <= i < |r.completedLessons| && r.completedLessons[i].lesson == lesson &&
                    r.completedLessons[i].quizScore == Some(0))
  {
    var r := RecordCompletion(s, lesson, timeSpent, Given(0), now);
    match CompletionOf(s.completedLessons, lesson)
    case None =>
    case Some(i) =>
      assert r.completedLessons[i].lesson == lesson && r.completedLessons[i].quizScore == Some(0);
  }

  /** `new Date(t).toDateString()`: the calendar day of a moment (in UTC). */
  function DayOf(t: Time): int
  {
    t / DayMs
  }

  lemma DayBefore(t: Time)
    ensures DayOf(t - DayMs) == DayOf(t) - 1
  {
    var d := DayOf(t);
    assert DayMs * d <= t < DayMs * d + DayMs;
    assert DayMs * (d - 1) <= t - DayMs < DayMs * (d - 1) + DayMs;
  }

  /** The handler's streak: unchanged on the same day, one more after
      yesterday, otherwise restarted at 1; the date moves only on a new day. */
  function StreakByDay(s: ProgressState, now: Time): ProgressState
  {
    if DayOf(s.lastActiveDate) == DayOf(now) then s
    else if DayOf(s.lastActiveDate) == DayOf(now - DayMs) then s.(streakDays := s.streakDays + 1, lastActiveDate := now)
    else s.(streakDays := 1, lastActiveDate := now)
  }

  lemma StreakByDayCases(s: ProgressState, now: Time)
    ensures DayOf(s.lastActiveDate) == DayOf(now) ==> StreakByDay(s, now) == s
    ensures DayOf(s.lastActiveDate) == DayOf(now) - 1 ==>
      StreakByDay(s, now) == s.(streakDays := s.streakDays + 1, lastActiveDate := now)
    ensures DayOf(s.lastActiveDate) != DayOf(now) && DayOf(s.lastActiveDate) != DayOf(now) - 1 ==>
      StreakByDay(s, now) == s.(streakDays := 1, lastActiveDate := now)
  {
    DayBefore(now);
  }

  /** Two updates on the same day count once. */
  lemma StreakByDaySameDay(s: ProgressState, now: Time, later: Time)
    requires DayOf(now) == DayOf(later)
    ensures StreakByDay(StreakByDay(s, now), later).streakDays == StreakByDay(s, now).streakDays
  {
  }

  /** `Math.round(sum / count)` of the recorded quiz scores, or 100 when
      there are none (generateCourseCompletionCertificate). */
  function CompletionScore(cs: seq<Completion>): int
  {
    var scores := QuizScores(cs);
    if |scores| > 0 then RoundedMean(scores) else 100
  }

  lemma CompletionScoreWithin(cs: seq<Completion>)
    requires EntriesInRange(cs)
    ensures 0 <= CompletionScore(cs) <= 100
  {
    var scores := QuizScores(cs);
    if |scores| > 0 {
      QuizScoresWithin(cs, 0, 100);
      RoundedMeanWithin(scores, 0, 100);
    }
  }

  /** The certificate generateCourseCompletionCertificate creates. */
  function CompletionCertificate(user: Id, course: Course, cs: seq<Completion>, now: Time, seed: CertSeed): Certificate
  {
    var score := CompletionScore(cs);
    NewCertificate(seed.id, user, course.id, Some(score), GradeFor(score), course.tags,
                   CreditsFor(course.estimatedDuration), now)
  }

  /** With scores in range, the completion certificate saves with the grade
      the ladder gives its score. */
  lemma CompletionCertificateSaves(user: Id, course: Course, cs: seq<Completion>, now: Time, seed: CertSeed)
    requires EntriesInRange(cs) && seed.randomCode != ""
    ensures var c := CompletionCertificate(user, course, cs, now, seed);
      var saved := Save(c, seed.year, seed.randomId, seed.randomCode);
      saved.Some? && saved.value.grade == GradeFor(CompletionScore(cs)) &&
      SchemaValid(saved.value) && saved.value.user == user && saved.value.course == course.id
  {
    CompletionScoreWithin(cs);
    SaveAssignsIds(CompletionCertificate(user, course, cs, now, seed), seed.year, seed.randomId, seed.randomCode);
  }

  datatype LessonProgressReport = LessonProgressReport(
    percentage: int, completedLessons: nat, isCompleted: bool, timeSpent: int,
    streakDays: int, certificateGenerated: bool, nextLesson: Option<Id>)

  /** Where the completion test reads `isCompleted`: after calculateProgress
      (as written), or captured before it. */
  datatype CompletionGuard = ReadAfterRecalculation | CapturedBefore

  /** The record the handler works on: the existing one, or a new one it
      creates (and persists) first. */
  function RecordsWith(db: Db, user: Id, courseId: Id, now: Time): (r: seq<ProgressState>)
    ensures ProgressIndex(r, user, courseId).Some?
  {
    match ProgressIndex(db.progress, user, courseId)
    case Some(_) => db.progress
    case None =>
      var r := db.progress + [NewProgress(user, courseId, now)];
      assert r[|db.progress|].user == user && r[|db.progress|].course == courseId;
      r
  }

  /** The completion side effects: the enrolment is marked, the user's and
      the course's completion counters move, and the certificate is created
      (when its save succeeds). */
  function CompletionEffects(guard: CompletionGuard, db: Db, user: Id, courseId: Id, k: nat,
                             record: ProgressState, now: Time, seed: CertSeed): (o: (Db, bool))
    requires courseId in db.courses && k < |db.courses[courseId].enrolledStudents|
  {
    var c := db.courses[courseId];
    var e := c.enrolledStudents[k];
    var c1 := c.(enrolledStudents := c.enrolledStudents[k := e.(certificateIssued := true)],
                 analytics := c.analytics.(completions := c.analytics.completions + 1));
    var users := if user in db.users
      then db.users[user := db.users[user].(coursesCompleted := db.users[user].coursesCompleted + 1)]
      else db.users;
    var cert := CompletionCertificate(user, c, record.completedLessons, now, seed);
    var saved := if guard == ReadAfterRecalculation
      then SaveAsWritten(cert, seed.year, seed.randomId, seed.randomCode)
      else Save(cert, seed.year, seed.randomId, seed.randomCode);
    var certs := if saved.Some? then db.certificates + [saved.value] else db.certificates;
    (db.(courses := db.courses[courseId := c1], users := users, certificates := certs), saved.Some?)
  }

  /** The record after the completion is recorded and calculateProgress has
      run against a course of `lessonCount` lessons. */
  function AdvancedRecord(s: ProgressState, lessonCount: nat, lesson: Id, timeSpent: int,
                          quiz: QuizInput, now: Time): ProgressState
  {
    Recalculated(RecordCompletion(s, lesson, timeSpent, quiz, now), Some(lessonCount), now)
  }

  /** The database with record `i` replaced. */
  function WithRecord(db: Db, i: nat, s: ProgressState): Db
    requires i < |db.progress|
  {
    db.(progress := db.progress[i := s])
  }

  /** The database with enrolment `k` of course `courseId` replaced. */
  function WithEnrollment(db: Db, courseId: Id, k: nat, e: Enrollment): Db
    requires courseId in db.courses && k < |db.courses[courseId].enrolledStudents|
  {
    var c := db.courses[courseId];
    db.(courses := db.courses[courseId := c.(enrolledStudents := c.enrolledStudents[k := e])])
  }

  /** The enrolment entry after the update: the new percentage, and the
      lesson entered once. */
  function EnrollmentAfter(e: Enrollment, pct: int, lesson: Id): (r: Enrollment)
    ensures NoDuplicates(e.completedLessons) ==> NoDuplicates(r.completedLessons)
    ensures lesson in r.completedLessons
  {
    e.(progress := pct, completedLessons := AddToSet(e.completedLessons, lesson))
  }

  /** The handler once enrolment `k` and record `i` are found: record the
      completion, recalculate (a percentage above 100 fails the record's
      `max: 100` validator inside calculateProgress: 500), update the
      streak, save, update the enrolment, and run the completion side
      effects when the guard lets them through. */
  function CompletionStep(guard: CompletionGuard, db: Db, user: Id, courseId: Id, k: nat, i: nat,
                          lesson: Id, timeSpent: int, quiz: QuizInput, now: Time, seed: CertSeed): Outcome<LessonProgressReport>
    requires courseId in db.courses && k < |db.courses[courseId].enrolledStudents| && i < |db.progress|
  {
    var course := db.courses[courseId];
    var before := db.progress[i];
    var s2 := AdvancedRecord(before, |course.lessons|, lesson, timeSpent, quiz, now);
    var pct := s2.progressPercentage;
    if pct > 100 then Outcome(db, Error(500))
    else
      var wasCompleted := if guard == ReadAfterRecalculation then s2.isCompleted else before.isCompleted;
      SavedStep(guard, db, user, courseId, k, i, StreakByDay(s2.(lastAccessed := now), now),
                lesson, wasCompleted, now, seed)
  }

  /** The rest of the step once the record `s` (percentage within 100) is
      saved: update the enrolment, then the completion side effects. */
  function SavedStep(guard: CompletionGuard, db: Db, user: Id, courseId: Id, k: nat, i: nat,
                     s: ProgressState, lesson: Id, wasCompleted: bool, now: Time, seed: CertSeed): Outcome<LessonProgressReport>
    requires courseId in db.courses && k < |db.courses[courseId].enrolledStudents| && i < |db.progress|
  {
    var pct := s.progressPercentage;
    var db2 := WithEnrollment(WithRecord(db, i, s), courseId, k,
                              EnrollmentAfter(db.courses[courseId].enrolledStudents[k], pct, lesson));
    if pct >= 100 && !wasCompleted then
      var effects := CompletionEffects(guard, db2, user, courseId, k, s, now, seed);
      Outcome(effects.0, Success(200, LessonProgressReport(pct, |s.completedLessons|, true,
                                                           s.totalTimeSpent, s.streakDays, effects.1, s.currentLesson)))
    else
      Outcome(db2, Success(200, LessonProgressReport(pct, |s.completedLessons|, pct >= 100,
                                                     s.totalTimeSpent, s.streakDays, false, s.currentLesson)))
  }

  /** The lesson-progress handler, with the completion guard read as given. */
  function LessonProgressWith(guard: CompletionGuard, db: Db, user: Id, courseId: Id, lesson: Id,
                              timeSpent: int, quiz: QuizInput, now: Time, seed: CertSeed): Outcome<LessonProgressReport>
  {
    if courseId !in db.courses then Outcome(db, Error(404))
    else
      match EnrollmentIndex(db.courses[courseId].enrolledStudents, user)
      case None => Outcome(db, Error(403))
      case Some(k) =>
        var db1 := db.(progress := RecordsWith(db, user, courseId, now));
        CompletionStep(guard, db1, user, courseId, k, ProgressIndex(db1.progress, user, courseId).value,
                       lesson, timeSpent, quiz, now, seed)
  }

  /** What one completion step does, for either guard: it succeeds iff the
      percentage stays within 100, it touches record `i` only, the record
      keeps its owner, and the course's completion counter moves by one
      exactly when the side effects fire. */
  lemma CompletionStepFacts(guard: CompletionGuard, db: Db, user: Id, courseId: Id, k: nat, i: nat,
                            lesson: Id, timeSpent: int, quiz: QuizInput, now: Time, seed: CertSeed)
    requires courseId in db.courses && k < |db.courses[courseId].enrolledStudents| && i < |db.progress|
    ensures var o := CompletionStep(guard, db, user, courseId, k, i, lesson, timeSpent, quiz, now, seed);
      var s2 := AdvancedRecord(db.progress[i], |db.courses[courseId].lessons|, lesson, timeSpent, quiz, now);
      var wasCompleted := if guard == ReadAfterRecalculation then s2.isCompleted else db.progress[i].isCompleted;
      courseId in o.db.courses &&
      (o.response.Success? <==> s2.progressPercentage <= 100) &&
      (o.response.Success? ==> o.response.body.percentage == s2.progressPercentage) &&
      |o.db.progress| == |db.progress| &&
      (forall j :: 0 <= j < |db.progress| && j != i ==> o.db.progress[j] == db.progress[j]) &&
      o.db.progress[i].user == db.progress[i].user && o.db.progress[i].course == db.progress[i].course &&
      (o.response.Success? ==> o.db.progress[i].isCompleted == s2.isCompleted) &&
      o.db.courses[courseId].analytics.completions == db.courses[courseId].analytics.completions +
        (if o.response.Success? && s2.progressPercentage >= 100 && !wasCompleted then 1 else 0)
  {
    var s2 := AdvancedRecord(db.progress[i], |db.courses[courseId].lessons|, lesson, timeSpent, quiz, now);
    var o := CompletionStep(guard, db, user, courseId, k, i, lesson, timeSpent, quiz, now, seed);
    if s2.progressPercentage <= 100 {
      var s3 := StreakByDay(s2.(lastAccessed := now), now);
      StreakKeepsRecord(s2.(lastAccessed := now), now);
      AdvancedKeepsOwner(db.progress[i], |db.courses[courseId].lessons|, lesson, timeSpent, quiz, now);
      var wasCompleted := if guard == ReadAfterRecalculation then s2.isCompleted else db.progress[i].isCompleted;
      assert o == SavedStep(guard, db, user, courseId, k, i, s3, lesson, wasCompleted, now, seed);
      SavedStepFacts(guard, db, user, courseId, k, i, s3, lesson, wasCompleted, now, seed);
    } else {
      assert o == Outcome(db, Error(500));
    }
  }

  lemma AdvancedKeepsOwner(s: ProgressState, lessonCount: nat, lesson: Id, timeSpent: int,
                           quiz: QuizInput, now: Time)
    ensures var r := AdvancedRecord(s, lessonCount, lesson, timeSpent, quiz, now);
      r.user == s.user && r.course == s.course
  {
  }

  /** The streak update touches only the streak and its date. */
  lemma StreakKeepsRecord(s: ProgressState, now: Time)
    ensures var r := StreakByDay(s, now);
      r.(streakDays := s.streakDays, lastActiveDate := s.lastActiveDate) == s
  {
  }

  lemma SavedStepFacts(guard: CompletionGuard, db: Db, user: Id, courseId: Id, k: nat, i: nat,
                       s: ProgressState, lesson: Id, wasCompleted: bool, now: Time, seed: CertSeed)
    requires courseId in db.courses && k < |db.courses[courseId].enrolledStudents| && i < |db.progress|
    ensures var o := SavedStep(guard, db, user, courseId, k, i, s, lesson, wasCompleted, now, seed);
      o.response.Success? && o.response.body.percentage == s.progressPercentage &&
      courseId in o.db.courses && o.db.progress == db.progress[i := s] &&
      o.db.courses[courseId].analytics.completions == db.courses[courseId].analytics.completions +
        (if s.progressPercentage >= 100 && !wasCompleted then 1 else 0)
  {
  }

  /** The handler as written. */
  function LessonProgressAsWritten(db: Db, user: Id, courseId: Id, lesson: Id, timeSpent: int,
                                   quiz: QuizInput, now: Time, seed: CertSeed): Outcome<LessonProgressReport>
  {
    LessonProgressWith(ReadAfterRecalculation, db, user, courseId, lesson, timeSpent, quiz, now, seed)
  }

  /** The handler with `isCompleted` captured before calculateProgress. */
  function LessonProgress(db: Db, user: Id, courseId: Id, lesson: Id, timeSpent: int,
                          quiz: QuizInput, now: Time, seed: CertSeed): Outcome<LessonProgressReport>
  {
    LessonProgressWith(CapturedBefore, db, user, courseId, lesson, timeSpent, quiz, now, seed)
  }

  /** As written, the completion side effects never happen: calculateProgress
      has already set `isCompleted` whenever the percentage reaches 100, and
      a percentage above 100 never gets past its save. */
  lemma AsWrittenNeverCompletes(db: Db, user: Id, courseId: Id, lesson: Id, timeSpent: int,
                                quiz: QuizInput, now: Time, seed: CertSeed)
    ensures var o := LessonProgressAsWritten(db, user, courseId, lesson, timeSpent, quiz, now, seed);
      o.db.users == db.users && o.db.certificates == db.certificates &&
      (courseId in o.db.courses ==>
        courseId in db.courses && o.db.courses[courseId].analytics == db.courses[courseId].analytics) &&
      (o.response.Success? ==> !o.response.body.certificateGenerated)
  {
    if courseId in db.courses {
      match EnrollmentIndex(db.courses[courseId].enrolledStudents, user)
      case None =>
      case Some(k) =>
        var db1 := db.(progress := RecordsWith(db, user, courseId, now));
        var i := ProgressIndex(db1.progress, user, courseId).value;
        var n := |db.courses[courseId].lessons|;
        var s1 := RecordCompletion(db1.progress[i], lesson, timeSpent, quiz, now);
        var s2 := AdvancedRecord(db1.progress[i], n, lesson, timeSpent, quiz, now);
        RecalculatedNeverUncompletes(s1, Some(n), now);
        if s2.progressPercentage <= 100 {
          var s3 := StreakByDay(s2.(lastAccessed := now), now);
          StreakKeepsRecord(s2.(lastAccessed := now), now);
          assert CompletionStep(ReadAfterRecalculation, db1, user, courseId, k, i, lesson, timeSpent, quiz, now, seed) ==
            SavedStep(ReadAfterRecalculation, db1, user, courseId, k, i, s3, lesson, s2.isCompleted, now, seed);
          SavedStepWithoutEffects(ReadAfterRecalculation, db1, user, courseId, k, i, s3, lesson, s2.isCompleted, now, seed);
        }
    }
  }

  /** When the guard holds the side effects back, the saved step changes
      only the record and the enrolment. */
  lemma SavedStepWithoutEffects(guard: CompletionGuard, db: Db, user: Id, courseId: Id, k: nat, i: nat,
                                s: ProgressState, lesson: Id, wasCompleted: bool, now: Time, seed: CertSeed)
    requires courseId in db.courses && k < |db.courses[courseId].enrolledStudents| && i < |db.progress|
    requires s.progressPercentage >= 100 ==> wasCompleted
    ensures var o := SavedStep(guard, db, user, courseId, k, i, s, lesson, wasCompleted, now, seed);
      o.db.users == db.users && o.db.certificates == db.certificates &&
      courseId in o.db.courses && o.db.courses[courseId].analytics == db.courses[courseId].analytics &&
      o.response.Success? && !o.response.body.certificateGenerated
  {
  }

  /** The input that shows it: the enrolled learner completes the only lesson
      of a one-lesson course.  As written, the handler reports 100% but
      neither counts the completion nor marks the enrolment. */
  lemma AsWrittenMissesOnlyLesson(db: Db, user: Id, courseId: Id, lesson: Id, timeSpent: int,
                                  quiz: QuizInput, now: Time, seed: CertSeed, k: nat, i: nat)
    requires courseId in db.courses && |db.courses[courseId].lessons| == 1
    requires EnrollmentIndex(db.courses[courseId].enrolledStudents, user) == Some(k)
    requires ProgressIndex(db.progress, user, courseId) == Some(i)
    requires db.progress[i].completedLessons == [] && !db.progress[i].isCompleted
    ensures var w := LessonProgressAsWritten(db, user, courseId, lesson, timeSpent, quiz, now, seed);
      w.response.Success? && w.response.body.percentage == 100 &&
      w.db.courses[courseId].analytics.completions == db.courses[courseId].analytics.completions &&
      w.db.courses[courseId].enrolledStudents[k].certificateIssued == db.courses[courseId].enrolledStudents[k].certificateIssued
  {
    OnlyLessonCompletes(db, user, courseId, lesson, timeSpent, quiz, now, i);
  }

  /** On the same input the corrected handler counts the completion and
      marks the enrolment. */
  lemma CorrectedCountsOnlyLesson(db: Db, user: Id, courseId: Id, lesson: Id, timeSpent: int,
                                  quiz: QuizInput, now: Time, seed: CertSeed, k: nat, i: nat)
    requires courseId in db.courses && |db.courses[courseId].lessons| == 1
    requires EnrollmentIndex(db.courses[courseId].enrolledStudents, user) == Some(k)
    requires ProgressIndex(db.progress, user, courseId) == Some(i)
    requires db.progress[i].completedLessons == [] && !db.progress[i].isCompleted
    ensures var f := LessonProgress(db, user, courseId, lesson, timeSpent, quiz, now, seed);
      f.response.Success? && f.response.body.percentage == 100 &&
      f.db.courses[courseId].analytics.completions == db.courses[courseId].analytics.completions + 1 &&
      f.db.courses[courseId].enrolledStudents[k].certificateIssued
  {
    OnlyLessonCompletes(db, user, courseId, lesson, timeSpent, quiz, now, i);
    var s2 := AdvancedRecord(db.progress[i], 1, lesson, timeSpent, quiz, now);
    assert s2.progressPercentage == 100;
    var s3 := StreakByDay(s2.(lastAccessed := now), now);
    StreakKeepsRecord(s2.(lastAccessed := now), now);
    var wasCompleted := db.progress[i].isCompleted;
    assert RecordsWith(db, user, courseId, now) == db.progress;
    assert db.(progress := db.progress) == db;
    assert LessonProgress(db, user, courseId, lesson, timeSpent, quiz, now, seed) ==
      CompletionStep(CapturedBefore, db, user, courseId, k, i, lesson, timeSpent, quiz, now, seed);
    assert CompletionStep(CapturedBefore, db, user, courseId, k, i, lesson, timeSpent, quiz, now, seed) ==
      SavedStep(CapturedBefore, db, user, courseId, k, i, s3, lesson, wasCompleted, now, seed);
    SavedStepFacts(CapturedBefore, db, user, courseId, k, i, s3, lesson, wasCompleted, now, seed);
  }

  lemma OnlyLessonCompletes(db: Db, user: Id, courseId: Id, lesson: Id, timeSpent: int, quiz: QuizInput, now: Time, i: nat)
    requires i < |db.progress| && db.progress[i].completedLessons == []
    ensures |RecordCompletion(db.progress[i], lesson, timeSpent, quiz, now).completedLessons| == 1
    ensures Percent(1, 1) == 100
  {
    var s1 := RecordCompletion(db.progress[i], lesson, timeSpent, quiz, now);
    RecordCompletionOnce(db.progress[i], lesson, timeSpent, quiz, now);
    PercentOfWhole(1);
  }

  /** The record the handler finds or creates has the completion state of the
      stored record, if there was one. */
  lemma RecordsWithFacts(db: Db, user: Id, courseId: Id, now: Time)
    ensures var records := RecordsWith(db, user, courseId, now);
      var i := ProgressIndex(records, user, courseId).value;
      var before := ProgressIndex(db.progress, user, courseId);
      |records| >= |db.progress| &&
      (forall j :: 0 <= j < |db.progress| ==> records[j] == db.progress[j]) &&
      records[i].isCompleted == (before.Some? && db.progress[before.value].isCompleted)
  {
  }

  /** Corrected, the side effects happen exactly when this request takes the
      record to 100% from not completed; the record is then completed, so a
      later request does not repeat them. */
  lemma CompletionCountedOnce(db: Db, user: Id, courseId: Id, lesson: Id, timeSpent: int,
                              quiz: QuizInput, now: Time, seed: CertSeed)
    requires courseId in db.courses
    requires LessonProgress(db, user, courseId, lesson, timeSpent, quiz, now, seed).response.Success?
    ensures var o := LessonProgress(db, user, courseId, lesson, timeSpent, quiz, now, seed);
      var i := ProgressIndex(o.db.progress, user, courseId);
      var before := ProgressIndex(db.progress, user, courseId);
      var wasCompleted := before.Some? && db.progress[before.value].isCompleted;
      i.Some? && courseId in o.db.courses &&
      (o.response.body.percentage == 100 ==> o.db.progress[i.value].isCompleted) &&
      o.db.courses[courseId].analytics.completions ==
        db.courses[courseId].analytics.completions +
        (if o.response.body.percentage == 100 && !wasCompleted then 1 else 0)
  {
    var k := EnrollmentIndex(db.courses[courseId].enrolledStudents, user).value;
    var db1 := db.(progress := RecordsWith(db, user, courseId, now));
    var i := ProgressIndex(db1.progress, user, courseId).value;
    RecordsWithFacts(db, user, courseId, now);
    var o := CompletionStep(CapturedBefore, db1, user, courseId, k, i, lesson, timeSpent, quiz, now, seed);
    assert o == LessonProgress(db, user, courseId, lesson, timeSpent, quiz, now, seed);
    CompletionStepFacts(CapturedBefore, db1, user, courseId, k, i, lesson, timeSpent, quiz, now, seed);
    ProgressIndexKept(db1.progress, o.db.progress, i, user, courseId);
  }

  /** A successful update reports a percentage in [0, 100]. */
  lemma LessonProgressPercentWithin(db: Db, user: Id, courseId: Id, lesson: Id, timeSpent: int,
                                    quiz: QuizInput, now: Time, seed: CertSeed)
    requires LessonProgress(db, user, courseId, lesson, timeSpent, quiz, now, seed).response.Success?
    ensures 0 <= LessonProgress(db, user, courseId, lesson, timeSpent, quiz, now, seed).response.body.percentage <= 100
  {
    var k := EnrollmentIndex(db.courses[courseId].enrolledStudents, user).value;
    var db1 := db.(progress := RecordsWith(db, user, courseId, now));
    var i := ProgressIndex(db1.progress, user, courseId).value;
    CompletionStepFacts(CapturedBefore, db1, user, courseId, k, i, lesson, timeSpent, quiz, now, seed);
    var s1 := RecordCompletion(db1.progress[i], lesson, timeSpent, quiz, now);
    var n := |db1.courses[courseId].lessons|;
    if n > 0 {
      PercentNonNegative(|s1.completedLessons|, n);
    }
  }

  /** Records the completion on the fetched document. */
  method RecordOn(progress: Progress, lesson: Id, timeSpent: int, quiz: QuizInput, now: Time)
    modifies progress
    ensures progress.State() == RecordCompletion(old(progress.State()), lesson, timeSpent, quiz, now)
  {
    var t := Max(0, timeSpent);
    var existing := CompletionOf(progress.completedLessons, lesson);
    if existing.None? {
      var q := if quiz.Given? && quiz.value != 0 then Some(ClampedScore(quiz.value)) else None;
      progress.completedLessons := progress.completedLessons + [Completion(lesson, now, t, q)];
    } else {
      var c := progress.completedLessons[existing.value];
      var q := if quiz.Given? then Some(ClampedScore(quiz.value)) else c.quizScore;
      progress.completedLessons := progress.completedLessons[existing.value := c.(timeSpent := c.timeSpent + t, quizScore := q)];
    }
    progress.totalTimeSpent := progress.totalTimeSpent + t;
  }

  /** The handler's day-based streak update on the fetched document. */
  method DayStreakOn(progress: Progress, now: Time)
    modifies progress
    ensures progress.State() == StreakByDay(old(progress.State()), now)
  {
    if DayOf(progress.lastActiveDate) != DayOf(now) {
      if DayOf(progress.lastActiveDate) == DayOf(now - DayMs) {
        progress.streakDays := progress.streakDays + 1;
      } else {
        progress.streakDays := 1;
      }
      progress.lastActiveDate := now;
    }
  }

  /** The step on the mutable documents, as the source updates them. */
  method RunCompletionStep(db: Database, user: Id, courseId: Id, k: nat, i: nat, lesson: Id,
                           timeSpent: int, quiz: QuizInput, now: Time, seed: CertSeed)
    returns (r: Response<LessonProgressReport>)
    requires courseId in db.courses && k < |db.courses[courseId].enrolledStudents| && i < |db.progress|
    modifies db
    ensures Outcome(db.State(), r) ==
      CompletionStep(CapturedBefore, old(db.State()), user, courseId, k, i, lesson, timeSpent, quiz, now, seed)
  {
    ghost var db0 := db.State();
    var course := db.courses[courseId];
    var progress := new Progress.Load(db.progress[i]);
    var wasCompleted := progress.isCompleted;
    RecordOn(progress, lesson, timeSpent, quiz, now);
    var pct := progress.CalculateProgress(Some(|course.lessons|), now);
    ghost var s2 := progress.State();
    assert s2 == AdvancedRecord(db0.progress[i], |course.lessons|, lesson, timeSpent, quiz, now);
    if pct > 100 {
      return Error(500);
    }
    progress.lastAccessed := now;
    DayStreakOn(progress, now);
    r := SaveStep(db, user, courseId, k, i, progress.State(), lesson, wasCompleted, now, seed);
  }

  /** Saves the record, updates the enrolment and runs the side effects. */
  method SaveStep(db: Database, user: Id, courseId: Id, k: nat, i: nat, s: ProgressState,
                  lesson: Id, wasCompleted: bool, now: Time, seed: CertSeed) returns (r: Response<LessonProgressReport>)
    requires courseId in db.courses && k < |db.courses[courseId].enrolledStudents| && i < |db.progress|
    modifies db
    ensures Outcome(db.State(), r) ==
      SavedStep(CapturedBefore, old(db.State()), user, courseId, k, i, s, lesson, wasCompleted, now, seed)
  {
    var pct := s.progressPercentage;
    SaveRecordAndEnrollment(db, courseId, k, i, s, lesson);
    var generated := false;
    if pct >= 100 && !wasCompleted {
      var effects := CompletionEffects(CapturedBefore, db.State(), user, courseId, k, s, now, seed);
      db.courses, db.users, db.certificates := effects.0.courses, effects.0.users, effects.0.certificates;
      generated := effects.1;
    }
    r := Success(200, LessonProgressReport(pct, |s.completedLessons|, pct >= 100,
                                           s.totalTimeSpent, s.streakDays, generated, s.currentLesson));
  }

  /** `progress.save()` and the enrolment's percentage and lesson list. */
  method SaveRecordAndEnrollment(db: Database, courseId: Id, k: nat, i: nat, s: ProgressState, lesson: Id)
    requires courseId in db.courses && k < |db.courses[courseId].enrolledStudents| && i < |db.progress|
    modifies db
    ensures db.State() == WithEnrollment(WithRecord(old(db.State()), i, s), courseId, k,
                                         EnrollmentAfter(old(db.State()).courses[courseId].enrolledStudents[k],
                                                         s.progressPercentage, lesson))
  {
    var pct := s.progressPercentage;
    db.progress := db.progress[i := s];
    var course := db.courses[courseId];
    var e := course.enrolledStudents[k];
    e := e.(progress := pct);
    if lesson !in e.completedLessons {
      e := e.(completedLessons := e.completedLessons + [lesson]);
    }
    course := course.(enrolledStudents := course.enrolledStudents[k := e]);
    db.courses := db.courses[courseId := course];
  }

  /** The lesson-progress handler on the mutable documents. */
  method UpdateLessonProgress(db: Database, user: Id, courseId: Id, lesson: Id, timeSpent: int,
                              quiz: QuizInput, now: Time, seed: CertSeed) returns (r: Response<LessonProgressReport>)
    modifies db
    ensures Outcome(db.State(), r) == LessonProgress(old(db.State()), user, courseId, lesson, timeSpent, quiz, now, seed)
  {
    if courseId !in db.courses {
      return Error(404);
    }
    var found := EnrollmentIndex(db.courses[courseId].enrolledStudents, user);
    if found.None? {
      return Error(403);
    }
    var db0 := db.State();
    db.progress := RecordsWith(db0, user, courseId, now);
    var i := ProgressIndex(db.progress, user, courseId).value;
    r := RunCompletionStep(db, user, courseId, found.value, i, lesson, timeSpent, quiz, now, seed);
  }

  // ---------------------------------------------------------------------
  // GET /my-courses, /enrolled-courses, /completed-courses

  /** The course fields a `populate({select})` can ask for. */
  datatype CourseField = Title | Description | Thumbnail | InstructorField | Category | Level |
                         EstimatedDuration | IsPublished | Modules

  /** A populated course: the selected fields, the others undefined. */
  datatype CourseView = CourseView(id: Id, title: Option<string>, isPublished: Option<bool>,
                                   modules: Option<seq<Module>>)

  function Populate(c: Course, select: set<CourseField>): (v: CourseView)
    ensures v.id == c.id
    ensures v.isPublished.Some? <==> IsPublished in select
    ensures v.isPublished.Some? ==> v.isPublished.value == c.isPublished
  {
    CourseView(c.id,
               if Title in select then Some(c.title) else None,
               if IsPublished in select then Some(c.isPublished) else None,
               if Modules in select then Some(c.modules) else None)
  }

  const MyCoursesSelect: set<CourseField> :=
    {Title, Description, Thumbnail, InstructorField, Category, Level, EstimatedDuration, IsPublished}
  const EnrolledCoursesSelect: set<CourseField> :=
    {Title, Description, Thumbnail, InstructorField, Category, Level, EstimatedDuration, IsPublished, Modules}
  const CompletedCoursesSelect: set<CourseField> :=
    {Title, Description, Thumbnail, InstructorField, Category, Level}

  /** `status` query: 'completed', 'in-progress', anything else all. */
  predicate StatusMatches(status: string, p: ProgressState)
  {
    if status == "completed" then p.isCompleted
    else if status == "in-progress" then !p.isCompleted
    else true
  }

  /** The sort key `{ lastAccessed: -1 }`. */
  function LastAccessed(p: ProgressState): int
  {
    p.lastAccessed
  }

  /** The user's records that match the status filter, most recently
      accessed first. */
  function MyRecords(db: Db, user: Id, status: string): (r: seq<ProgressState>)
    ensures forall p :: p in r <==> p in db.progress && p.user == user && StatusMatches(status, p)
    ensures SortedDesc(r, LastAccessed)
  {
    var mine := Filter(db.progress, (p: ProgressState) => p.user == user && StatusMatches(status, p));
    SortDescSorted(mine, LastAccessed);
    SortDesc(mine, LastAccessed)
  }

  datatype MyCourse = MyCourse(course: Id, title: Option<string>, lastAccessed: Time, percentage: int,
                               completedLessons: nat, isCompleted: bool, timeSpent: int, streakDays: int,
                               certificate: Option<Certificate>)

  datatype MyCoursesPage = MyCoursesPage(courses: seq<MyCourse>, total: nat, completed: nat, inProgress: int,
                                         currentPage: int, totalPages: Option<int>)

  function MyCourseOf(db: Db, p: ProgressState): (r: MyCourse)
    requires p.course in db.courses
    ensures r.course == p.course && r.lastAccessed == p.lastAccessed
    ensures r.certificate.Some? ==> p.isCompleted && r.certificate == CertificateOf(db.certificates, p.user, p.course)
  {
    var v := Populate(db.courses[p.course], MyCoursesSelect);
    MyCourse(p.course, v.title, p.lastAccessed, p.progressPercentage, |p.completedLessons|, p.isCompleted,
             p.totalTimeSpent, p.streakDays,
             if p.isCompleted then CertificateOf(db.certificates, p.user, p.course) else None)
  }

  /** The counters of the response: all the user's records, and those of
      them that are completed. */
  function UserCounts(db: Db, user: Id): (r: (nat, nat))
    ensures r.1 <= r.0
  {
    FilterStronger(db.progress, (p: ProgressState) => p.user == user && p.isCompleted,
                   (p: ProgressState) => p.user == user);
    (|Filter(db.progress, (p: ProgressState) => p.user == user)|,
     |Filter(db.progress, (p: ProgressState) => p.user == user && p.isCompleted)|)
  }

  function PageEntries(db: Db, records: seq<ProgressState>): (r: seq<MyCourse>)
    requires forall p :: p in records ==> p.course in db.courses
    ensures |r| == |records|
    ensures forall j :: 0 <= j < |r| ==> r[j].course == records[j].course && r[j].lastAccessed == records[j].lastAccessed
  {
    seq(|records|, j requires 0 <= j < |records| => MyCourseOf(db, records[j]))
  }

  /** GET /my-courses: one page of the user's matching records, most
      recently accessed first; a record on the page whose course is gone
      makes the handler throw (500); the counters run over all the user's
      records. */
  function MyCourses(db: Db, user: Id, status: string, page: int, limit: int): (r: Response<MyCoursesPage>)
    ensures (page - 1) * limit < 0 ==> r == Error(500)
    ensures (page - 1) * limit >= 0 ==>
      (r.Error? <==> exists p :: p in Paginate(MyRecords(db, user, status), page, limit).body && p.course !in db.courses)
    ensures r.Success? ==> r.body.completed <= r.body.total && r.body.inProgress == r.body.total - r.body.completed
    ensures r.Success? && limit > 0 ==> |r.body.courses| <= limit
    ensures r.Success? ==> forall j :: 0 <= j < |r.body.courses| ==> UserHasRecord(db, user, status, r.body.courses[j].course)
    ensures r.Success? ==> SortedDesc(r.body.courses, CourseAccessed)
  {
    var sorted := MyRecords(db, user, status);
    match Paginate(sorted, page, limit)
    case Error(st) => Error(st)
    case Success(_, records) =>
      if exists p :: p in records && p.course !in db.courses then Error(500)
      else
        PaginateSorted(sorted, page, limit, LastAccessed);
        var counts := UserCounts(db, user);
        PageEntriesFacts(db, user, status, records);
        Success(200, MyCoursesPage(PageEntries(db, records), counts.0, counts.1, counts.0 - counts.1,
                                   page, PageCount(counts.0, limit)))
  }

  function CourseAccessed(c: MyCourse): Time { c.lastAccessed }

  /** The user has a record of the course matching the status filter. */
  predicate UserHasRecord(db: Db, user: Id, status: string, course: Id)
  {
    exists p :: p in db.progress && p.user == user && StatusMatches(status, p) && p.course == course
  }

  /** The entries of a page of the user's sorted matching records come from
      those records and keep their order. */
  lemma PageEntriesFacts(db: Db, user: Id, status: string, records: seq<ProgressState>)
    requires forall p :: p in records ==> p.course in db.courses
    requires forall p :: p in records ==> p in db.progress && p.user == user && StatusMatches(status, p)
    requires SortedDesc(records, LastAccessed)
    ensures forall j :: 0 <= j < |PageEntries(db, records)| ==>
      UserHasRecord(db, user, status, PageEntries(db, records)[j].course)
    ensures SortedDesc(PageEntries(db, records), CourseAccessed)
  {
    forall j | 0 <= j < |PageEntries(db, records)|
      ensures UserHasRecord(db, user, status, PageEntries(db, records)[j].course)
    {
      var p := records[j];
      assert p in records;
      assert PageEntries(db, records)[j].course == p.course;
    }
    forall i, j | 0 <= i < j < |PageEntries(db, records)|
      ensures CourseAccessed(PageEntries(db, records)[i]) >= CourseAccessed(PageEntries(db, records)[j])
    {
      assert LastAccessed(records[i]) >= LastAccessed(records[j]);
    }
  }

  datatype EnrolledEntry = EnrolledEntry(course: Id, title: Option<string>, totalLessons: nat, percentage: int,
                                         completedLessons: nat, totalTimeSpent: int, lastAccessed: Time,
                                         isCompleted: bool)

  /** `enrollment.course && enrollment.course.isPublished` on the populated
      course (a deleted course populates as null). */
  predicate ListedAsPublished(db: Db, p: ProgressState, select: set<CourseField>)
  {
    p.course in db.courses && Populate(db.courses[p.course], select).isPublished == Some(true)
  }

  function EnrolledEntryOf(db: Db, p: ProgressState): (r: EnrolledEntry)
    requires p.course in db.courses
    ensures r.course == p.course && r.lastAccessed == p.lastAccessed
    ensures r.totalLessons == LessonCount(db.courses[p.course].modules)
  {
    var v := Populate(db.courses[p.course], EnrolledCoursesSelect);
    EnrolledEntry(p.course, v.title, if v.modules.Some? then LessonCount(v.modules.value) else 0,
                  p.progressPercentage, |p.completedLessons|, p.totalTimeSpent, p.lastAccessed, p.isCompleted)
  }

  function EntryAccessed(e: EnrolledEntry): int
  {
    e.lastAccessed
  }

  /** GET /enrolled-courses: the user's records whose course still exists
      and is published, all of them and only them, most recently accessed
      first, each with the lesson total over all its modules. */
  function EnrolledCourses(db: Db, user: Id): (r: seq<EnrolledEntry>)
    ensures forall j :: 0 <= j < |r| ==>
      r[j].course in db.courses && db.courses[r[j].course].isPublished &&
      r[j].totalLessons == LessonCount(db.courses[r[j].course].modules) &&
      exists p :: p in db.progress && p.user == user && p.course == r[j].course
    ensures forall p :: p in db.progress && p.user == user && p.course in db.courses && db.courses[p.course].isPublished ==>
      EnrolledEntryOf(db, p) in r
    ensures SortedDesc(r, EntryAccessed)
  {
    var mine := MyRecords(db, user, "");
    var shown := Filter(mine, (p: ProgressState) => ListedAsPublished(db, p, EnrolledCoursesSelect));
    EnrolledEntriesFacts(db, user, shown);
    FilterSorted(mine, (p: ProgressState) => ListedAsPublished(db, p, EnrolledCoursesSelect), LastAccessed);
    EnrolledEntriesOrder(db, user, shown);
    EnrolledEntries(db, shown)
  }

  /** Every listed record gives its entry, and the entries keep the
      records' order of last access. */
  lemma EnrolledEntriesOrder(db: Db, user: Id, shown: seq<ProgressState>)
    requires forall p :: p in shown ==> p.course in db.courses
    requires forall p :: p in db.progress && p.user == user && p.course in db.courses && db.courses[p.course].isPublished ==>
      p in shown
    requires SortedDesc(shown, LastAccessed)
    ensures forall p :: p in db.progress && p.user == user && p.course in db.courses && db.courses[p.course].isPublished ==>
      EnrolledEntryOf(db, p) in EnrolledEntries(db, shown)
    ensures SortedDesc(EnrolledEntries(db, shown), EntryAccessed)
  {
    var r := EnrolledEntries(db, shown);
    forall p | p in db.progress && p.user == user && p.course in db.courses && db.courses[p.course].isPublished
      ensures EnrolledEntryOf(db, p) in r
    {
      var j :| 0 <= j < |shown| && shown[j] == p;
      assert r[j] == EnrolledEntryOf(db, p);
    }
    forall i, j | 0 <= i < j < |r|
      ensures EntryAccessed(r[i]) >= EntryAccessed(r[j])
    {
      assert LastAccessed(shown[i]) >= LastAccessed(shown[j]);
    }
  }

  function EnrolledEntries(db: Db, shown: seq<ProgressState>): (r: seq<EnrolledEntry>)
    requires forall p :: p in shown ==> p.course in db.courses
    ensures |r| == |shown|
    ensures forall j :: 0 <= j < |r| ==> r[j] == EnrolledEntryOf(db, shown[j])
  {
    seq(|shown|, j requires 0 <= j < |shown| => EnrolledEntryOf(db, shown[j]))
  }

  /** The entries of the user's published records name published courses
      of the user's records, with their lesson totals. */
  lemma EnrolledEntriesFacts(db: Db, user: Id, shown: seq<ProgressState>)
    requires forall p :: p in shown ==> p.course in db.courses && ListedAsPublished(db, p, EnrolledCoursesSelect)
    requires forall p :: p in shown ==> p in db.progress && p.user == user
    ensures forall j :: 0 <= j < |EnrolledEntries(db, shown)| ==>
      var e := EnrolledEntries(db, shown)[j];
      e.course in db.courses && db.courses[e.course].isPublished &&
      e.totalLessons == LessonCount(db.courses[e.course].modules) &&
      exists p :: p in db.progress && p.user == user && p.course == e.course
  {
    var r := EnrolledEntries(db, shown);
    forall j | 0 <= j < |r|
      ensures r[j].course in db.courses && db.courses[r[j].course].isPublished &&
        r[j].totalLessons == LessonCount(db.courses[r[j].course].modules) &&
        exists p :: p in db.progress && p.user == user && p.course == r[j].course
    {
      var p := shown[j];
      assert p in shown;
      assert ListedAsPublished(db, p, EnrolledCoursesSelect);
      assert r[j] == EnrolledEntryOf(db, p);
    }
  }

  /** GET /completed-courses: the user's completed records, whose populated
      course lacks `isPublished` (it is not selected), so the published
      filter drops every one of them; reading `course._id` of a deleted
      course throws first (500). */
  function CompletedCourses(db: Db, user: Id): Response<seq<Id>>
  {
    var done := Filter(db.progress, (p: ProgressState) => p.user == user && p.isCompleted);
    if exists p :: p in done && p.course !in db.courses then Error(500)
    else
      var shown := Filter(done, (p: ProgressState) => ListedAsPublished(db, p, CompletedCoursesSelect));
      Success(200, seq(|shown|, j requires 0 <= j < |shown| => shown[j].course))
  }

  /** The completed-courses listing is always empty. */
  lemma CompletedCoursesAlwaysEmpty(db: Db, user: Id)
    ensures CompletedCourses(db, user).Success? ==> CompletedCourses(db, user).body == []
  {
    var done := Filter(db.progress, (p: ProgressState) => p.user == user && p.isCompleted);
    var shown := Filter(done, (p: ProgressState) => ListedAsPublished(db, p, CompletedCoursesSelect));
    assert IsPublished !in CompletedCoursesSelect;
    if shown != [] {
      assert shown[0] in shown;
    }
  }
}
