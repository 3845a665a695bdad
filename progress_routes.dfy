// The learning-progress handlers (server/routes/progress.js): reading a
// record, starting a course, completing lessons and courses, moving the
// current lesson, the learner's and the instructor's analytics, and resetting
// a record.  Each handler is a function from the database value to an
// `Outcome`; complete-lesson and complete-course are also methods on the
// `Database` object that drive a `Progress` document, proved equal to their
// functions, and the two `forEach` tallies of the analytics are loops proved
// equal to folds that are in turn related to plain counts.
module ProgressRoutes {
  import opened Common
  import opened ProgressModel
  import opened Documents
  import opened EnrollmentRoutes

  /** The bounds the Progress schema checks on every save: the percentage,
      the quiz average and every stored quiz score lie in [0, 100]. */
  predicate ProgressValid(s: ProgressState)
  {
    0 <= s.progressPercentage <= 100 && 0 <= s.averageQuizScore <= 100 &&
    forall i :: 0 <= i < |s.completedLessons| && s.completedLessons[i].quizScore.Some? ==>
      0 <= s.completedLessons[i].quizScore.value <= 100
  }

  /** The record's key fields, passed by name as sort keys and summands. */
  function Percentage(p: ProgressState): int { p.progressPercentage }

  function TimeSpent(p: ProgressState): int { p.totalTimeSpent }

  predicate Finished(p: ProgressState) { p.isCompleted }

  // ---------------------------------------------------------------------
  // GET /:courseId and GET /user/all

  /** The record of the caller for the course, or 404. */
  function GetProgress(db: Db, user: Id, courseId: Id): (r: Response<ProgressState>)
    ensures r.Error? <==>
      forall j :: 0 <= j < |db.progress| ==> !(db.progress[j].user == user && db.progress[j].course == courseId)
    ensures r.Error? ==> r.status == 404
    ensures r.Success? ==> r.status == 200 && r.body in db.progress && r.body.user == user && r.body.course == courseId
  {
    match ProgressIndex(db.progress, user, courseId)
    case None => Error(404)
    case Some(i) => Success(200, db.progress[i])
  }

  /** All the caller's records, most recently accessed first. */
  function AllProgress(db: Db, user: Id): (r: seq<ProgressState>)
    ensures forall p :: p in r <==> p in db.progress && p.user == user
    ensures SortedDesc(r, LastAccessed)
  {
    MyRecords(db, user, "")
  }

  // ---------------------------------------------------------------------
  // POST /start/:courseId

  /** Unknown course 404, not enrolled 403; otherwise a fresh record is
      created, or the existing one is touched and its streak updated (a
      save the schema may refuse, 500). */
  function Start(db: Db, user: Id, courseId: Id, now: Time): Outcome<ProgressState>
  {
    if courseId !in db.courses then Outcome(db, Error(404))
    else if !IsEnrolled(db.courses[courseId], user) then Outcome(db, Error(403))
    else match ProgressIndex(db.progress, user, courseId)
      case None =>
        var s := NewProgress(user, courseId, now).(currentLesson := FirstLesson(db.courses[courseId]));
        Outcome(db.(progress := db.progress + [s]), Success(200, s))
      case Some(i) =>
        var s := StreakUpdated(db.progress[i].(lastAccessed := now), now);
        if ProgressValid(s) then Outcome(db.(progress := db.progress[i := s]), Success(200, s))
        else Outcome(db, Error(500))
  }

  /** The id of the course's first lesson, None for a course without lessons. */
  function FirstLesson(c: Course): Option<Id>
  {
    if |c.lessons| > 0 then Some(c.lessons[0].id) else None
  }

  lemma StartProperties(db: Db, user: Id, courseId: Id, now: Time)
    ensures courseId !in db.courses ==> Start(db, user, courseId, now) == Outcome(db, Error(404))
    ensures courseId in db.courses && !IsEnrolled(db.courses[courseId], user) ==>
      Start(db, user, courseId, now) == Outcome(db, Error(403))
    ensures var o := Start(db, user, courseId, now);
      o.response.Success? ==>
        courseId in db.courses && IsEnrolled(db.courses[courseId], user) &&
        o.response.body.user == user && o.response.body.course == courseId &&
        o.response.body.lastAccessed == now && o.response.body in o.db.progress &&
        |o.db.progress| >= |db.progress|
    ensures var o := Start(db, user, courseId, now);
      courseId in db.courses && IsEnrolled(db.courses[courseId], user) &&
      ProgressIndex(db.progress, user, courseId).None? ==>
        o.db.progress == db.progress + [o.response.body] &&
        o.response.body.completedLessons == [] && o.response.body.progressPercentage == 0 &&
        o.response.body.startedAt == now && !o.response.body.isCompleted &&
        (|db.courses[courseId].lessons| == 0 ==> o.response.body.currentLesson.None?) &&
        (|db.courses[courseId].lessons| > 0 ==>
          o.response.body.currentLesson == Some(db.courses[courseId].lessons[0].id))
    ensures var o := Start(db, user, courseId, now);
      o.response.Success? && ProgressIndex(db.progress, user, courseId).Some? ==>
        var prior := db.progress[ProgressIndex(db.progress, user, courseId).value];
        o.response.body.completedLessons == prior.completedLessons &&
        o.response.body.currentLesson == prior.currentLesson &&
        o.response.body.startedAt == prior.startedAt
    ensures UniquePerUserCourse(db.progress) ==> UniquePerUserCourse(Start(db, user, courseId, now).db.progress)
  {
    var o := Start(db, user, courseId, now);
    if courseId in db.courses && IsEnrolled(db.courses[courseId], user) {
      match ProgressIndex(db.progress, user, courseId)
      case None =>
        assert o.db.progress[|db.progress|] == o.response.body;
      case Some(i) =>
        if o.response.Success? {
          assert o.db.progress[i] == o.response.body;
        }
        if UniquePerUserCourse(db.progress) {
          assert forall j :: 0 <= j < |db.progress| ==>
            (o.db.progress[j].user, o.db.progress[j].course) == (db.progress[j].user, db.progress[j].course);
        }
    }
  }

  // ---------------------------------------------------------------------
  // POST /complete-lesson

  datatype LessonDone = LessonDone(progress: int, isCompleted: bool, streak: int)

  /** The lesson count calculateProgress reads: None when the course is gone. */
  function LessonTotal(db: Db, courseId: Id): (r: Option<nat>)
    ensures r.Some? <==> courseId in db.courses
    ensures r.Some? ==> r.value == |db.courses[courseId].lessons|
  {
    if courseId in db.courses then Some(|db.courses[courseId].lessons|) else None
  }

  /** The two `$inc` updates on the learner: learning time always, completed
      courses when the record is complete.  A missing user is left alone. */
  function Credited(users: map<Id, User>, user: Id, timeSpent: int, completed: bool): (r: map<Id, User>)
    ensures r.Keys == users.Keys
    ensures forall u :: u in users && u != user ==> r[u] == users[u]
  {
    if user !in users then users
    else
      var u := users[user];
      users[user := u.(totalLearningTime := u.totalLearningTime + timeSpent,
                       coursesCompleted := u.coursesCompleted + if completed then 1 else 0)]
  }

  /** Missing ids 400.  The record is created when absent (and stays created
      whatever follows); the lesson is completed against the course's lesson
      count and the streak updated; when the schema refuses the result, 500;
      otherwise the learner is credited. */
  function CompleteLesson(db: Db, user: Id, courseId: Option<Id>, lessonId: Option<Id>,
                          timeSpent: int, quizScore: Option<int>, now: Time): Outcome<LessonDone>
  {
    if courseId.None? || lessonId.None? then Outcome(db, Error(400))
    else
      var c := courseId.value;
      var records := RecordsWith(db, user, c, now);
      var i := ProgressIndex(records, user, c).value;
      var s1 := LessonCompleted(records[i], lessonId.value, timeSpent, quizScore, LessonTotal(db, c), now);
      if !ProgressValid(s1) then Outcome(db.(progress := records), Error(500))
      else
        var s2 := StreakUpdated(s1, now);
        Outcome(db.(progress := records[i := s2], users := Credited(db.users, user, timeSpent, s2.isCompleted)),
                Success(200, LessonDone(s2.progressPercentage, s2.isCompleted, s2.streakDays)))
  }

  /** Only the ids are checked up front; once both are given the caller has
      a record for the course, whether or not the save succeeds. */
  lemma CompleteLessonRefusals(db: Db, user: Id, courseId: Option<Id>, lessonId: Option<Id>,
                               timeSpent: int, quizScore: Option<int>, now: Time)
    ensures var o := CompleteLesson(db, user, courseId, lessonId, timeSpent, quizScore, now);
      (o.response == Error(400) <==> courseId.None? || lessonId.None?) &&
      (o.response.Error? ==> o.response.status == 400 || o.response.status == 500)
    ensures var o := CompleteLesson(db, user, courseId, lessonId, timeSpent, quizScore, now);
      courseId.Some? && lessonId.Some? ==> ProgressIndex(o.db.progress, user, courseId.value).Some?
  {
    if courseId.Some? && lessonId.Some? {
      var c := courseId.value;
      var records := RecordsWith(db, user, c, now);
      var i := ProgressIndex(records, user, c).value;
      var o := CompleteLesson(db, user, courseId, lessonId, timeSpent, quizScore, now);
      assert o.db.progress[i].user == user && o.db.progress[i].course == c;
    }
  }

  /** A completion the schema accepts credits exactly `timeSpent` of learning
      time to the learner and touches no other user; the record holds the
      lesson and its streak is updated. */
  lemma CompleteLessonEffects(db: Db, user: Id, c: Id, lesson: Id, timeSpent: int, quizScore: Option<int>, now: Time)
    requires CompleteLesson(db, user, Some(c), Some(lesson), timeSpent, quizScore, now).response.Success?
    ensures var o := CompleteLesson(db, user, Some(c), Some(lesson), timeSpent, quizScore, now);
      o.db.users.Keys == db.users.Keys &&
      (user in db.users ==> o.db.users[user].totalLearningTime == db.users[user].totalLearningTime + timeSpent) &&
      (forall u :: u in db.users && u != user ==> o.db.users[u] == db.users[u])
    ensures var o := CompleteLesson(db, user, Some(c), Some(lesson), timeSpent, quizScore, now);
      exists i :: 0 <= i < |o.db.progress| && o.db.progress[i].user == user && o.db.progress[i].course == c &&
        HasCompleted(o.db.progress[i].completedLessons, lesson) && o.db.progress[i].lastActiveDate == now &&
        ProgressValid(o.db.progress[i])
    ensures var o := CompleteLesson(db, user, Some(c), Some(lesson), timeSpent, quizScore, now);
      o.db.courses == db.courses && o.db.certificates == db.certificates
  {
    var records := RecordsWith(db, user, c, now);
    var i := ProgressIndex(records, user, c).value;
    var s0 := records[i];
    var s1 := LessonCompleted(s0, lesson, timeSpent, quizScore, LessonTotal(db, c), now);
    var o := CompleteLesson(db, user, Some(c), Some(lesson), timeSpent, quizScore, now);
    if !HasCompleted(s0.completedLessons, lesson) {
      assert s1.completedLessons[|s0.completedLessons|].lesson == lesson;
    }
    assert o.db.progress[i] == StreakUpdated(s1, now);
  }

  /** Completing an already completed lesson of a completed course changes
      no lesson, yet counts the course as completed once more. */
  lemma CompleteLessonRepeatCountsAgain(db: Db, user: Id, c: Id, lesson: Id, timeSpent: int,
                                        quizScore: Option<int>, now: Time)
    requires ProgressIndex(db.progress, user, c).Some?
    requires var s := db.progress[ProgressIndex(db.progress, user, c).value];
      HasCompleted(s.completedLessons, lesson) && s.isCompleted && ProgressValid(s)
    requires user in db.users
    ensures var o := CompleteLesson(db, user, Some(c), Some(lesson), timeSpent, quizScore, now);
      o.response.Success? && o.response.body.isCompleted &&
      o.db.users[user].coursesCompleted == db.users[user].coursesCompleted + 1 &&
      |o.db.progress| == |db.progress| &&
      forall j :: 0 <= j < |db.progress| ==> o.db.progress[j].completedLessons == db.progress[j].completedLessons
  {
  }

  /** `a * b <= a * c` for a positive `a` and `b <= c`. */
  lemma MulMonotone(a: int, b: int, c: int)
    requires a > 0 && b <= c
    ensures a * b <= a * c
  {
    MulSign(a, c - b + 1);
  }

  /** Lessons are not checked against the course: a new lesson beyond the
      course's count (of at most 200 lessons) lifts the percentage over 100,
      which the schema refuses, so the call fails with 500. */
  lemma CompleteLessonBeyondCourse(db: Db, user: Id, c: Id, lesson: Id, timeSpent: int,
                                   quizScore: Option<int>, now: Time)
    requires c in db.courses && 0 < |db.courses[c].lessons| <= 200
    requires ProgressIndex(db.progress, user, c).Some?
    requires var s := db.progress[ProgressIndex(db.progress, user, c).value];
      |s.completedLessons| >= |db.courses[c].lessons| && !HasCompleted(s.completedLessons, lesson)
    ensures CompleteLesson(db, user, Some(c), Some(lesson), timeSpent, quizScore, now).response == Error(500)
  {
    var n := |db.courses[c].lessons|;
    var s := db.progress[ProgressIndex(db.progress, user, c).value];
    var m := |s.completedLessons| + 1;
    var s1 := LessonCompleted(s, lesson, timeSpent, quizScore, Some(n), now);
    var r := Percent(m, n);
    assert s1.progressPercentage == r;
    if r <= 100 {
      MulMonotone(2 * n, r, 100);
      assert false;
    }
  }

  /** `Progress.findOne`, or `Progress.create` when there is none: the
      document the handler goes on with, and its position. */
  method OpenRecord(db: Database, user: Id, c: Id, now: Time) returns (progress: Progress, i: nat)
    modifies db
    ensures fresh(progress)
    ensures db.State() == old(db.State()).(progress := RecordsWith(old(db.State()), user, c, now))
    ensures ProgressIndex(db.progress, user, c) == Some(i)
    ensures progress.State() == db.progress[i]
  {
    var found := ProgressIndex(db.progress, user, c);
    if found.None? {
      progress := new Progress(user, c, now);
      db.progress := db.progress + [progress.State()];
      assert db.progress[|db.progress| - 1].user == user && db.progress[|db.progress| - 1].course == c;
    } else {
      progress := new Progress.Load(db.progress[found.value]);
    }
    i := ProgressIndex(db.progress, user, c).value;
  }

  /** The two `User.findByIdAndUpdate` calls with `$inc`. */
  method Credit(db: Database, user: Id, timeSpent: int, completed: bool)
    modifies db
    ensures db.State() == old(db.State()).(users := Credited(old(db.users), user, timeSpent, completed))
  {
    if user in db.users {
      var u := db.users[user];
      db.users := db.users[user := u.(totalLearningTime := u.totalLearningTime + timeSpent)];
      if completed {
        u := db.users[user];
        db.users := db.users[user := u.(coursesCompleted := u.coursesCompleted + 1)];
      }
    }
  }

  /** complete-lesson driven through the Progress document, as the handler
      does: load or create, completeLesson, updateStreak, then credit. */
  method CompleteLessonOn(db: Database, user: Id, courseId: Option<Id>, lessonId: Option<Id>,
                          timeSpent: int, quizScore: Option<int>, now: Time) returns (r: Response<LessonDone>)
    modifies db
    ensures Outcome(db.State(), r) ==
      CompleteLesson(old(db.State()), user, courseId, lessonId, timeSpent, quizScore, now)
  {
    if courseId.None? || lessonId.None? {
      return Error(400);
    }
    var c := courseId.value;
    ghost var d0 := db.State();
    var progress, i := OpenRecord(db, user, c, now);
    ghost var d1 := db.State();
    var total := if c in db.courses then Some(|db.courses[c].lessons|) else None;
    assert total == LessonTotal(d0, c);
    ghost var s1 := LessonCompleted(progress.State(), lessonId.value, timeSpent, quizScore, total, now);
    progress.CompleteLesson(lessonId.value, timeSpent, quizScore, total, now);
    assert progress.State() == s1;
    if !ProgressValid(progress.State()) {
      assert db.State() == d1;
      return Error(500);
    }
    progress.UpdateStreak(now);
    ghost var s2 := progress.State();
    assert s2 == StreakUpdated(s1, now);
    db.progress := db.progress[i := progress.State()];
    Credit(db, user, timeSpent, progress.isCompleted);
    assert db.State() == d1.(progress := d1.progress[i := s2], users := Credited(d1.users, user, timeSpent, s2.isCompleted));
    r := Success(200, LessonDone(progress.progressPercentage, progress.isCompleted, progress.streakDays));
  }

  // ---------------------------------------------------------------------
  // POST /complete-course

  datatype CertificateLink = CertificateLink(certificateId: string, downloadUrl: string)

  datatype CourseDone = CourseDone(isCompleted: bool, certificate: Option<CertificateLink>, progress: int)

  /** Missing id 400, no record 404; otherwise the record is marked complete
      at 100% and saved, and the learner's completed-course count goes up.
      The certificate attempt refers to a model the file never imports, so
      it always throws inside its own try block: the certificate is null. */
  function CompleteCourse(db: Db, user: Id, courseId: Option<Id>, now: Time): Outcome<CourseDone>
  {
    if courseId.None? then Outcome(db, Error(400))
    else match ProgressIndex(db.progress, user, courseId.value)
      case None => Outcome(db, Error(404))
      case Some(i) =>
        var s := db.progress[i].(isCompleted := true, completedAt := Some(now), progressPercentage := 100);
        if !ProgressValid(s) then Outcome(db, Error(500))
        else
          Outcome(db.(progress := db.progress[i := s], users := Credited(db.users, user, 0, true)),
                  Success(200, CourseDone(true, None, 100)))
  }

  lemma CompleteCourseProperties(db: Db, user: Id, courseId: Option<Id>, now: Time)
    ensures courseId.None? ==> CompleteCourse(db, user, courseId, now) == Outcome(db, Error(400))
    ensures courseId.Some? && ProgressIndex(db.progress, user, courseId.value).None? ==>
      CompleteCourse(db, user, courseId, now) == Outcome(db, Error(404))
    ensures var o := CompleteCourse(db, user, courseId, now);
      o.response.Success? ==>
        courseId.Some? && o.response.body.certificate.None? && o.response.body.progress == 100 &&
        o.db.certificates == db.certificates && |o.db.progress| == |db.progress| &&
        exists i :: 0 <= i < |o.db.progress| && o.db.progress[i].user == user &&
          o.db.progress[i].course == courseId.value && o.db.progress[i].isCompleted &&
          o.db.progress[i].progressPercentage == 100 && o.db.progress[i].completedAt == Some(now)
    ensures var o := CompleteCourse(db, user, courseId, now);
      o.response.Success? && user in db.users ==>
        o.db.users[user].coursesCompleted == db.users[user].coursesCompleted + 1 &&
        o.db.users[user].totalLearningTime == db.users[user].totalLearningTime
  {
    var o := CompleteCourse(db, user, courseId, now);
    if o.response.Success? {
      var i := ProgressIndex(db.progress, user, courseId.value).value;
      assert o.db.progress[i].user == user && o.db.progress[i].course == courseId.value;
    }
  }

  /** Calling complete-course again on a completed record succeeds again and
      counts the course a second time. */
  lemma CompleteCourseCountsEveryCall(db: Db, user: Id, c: Id, now: Time, later: Time)
    requires user in db.users
    requires CompleteCourse(db, user, Some(c), now).response.Success?
    ensures var o1 := CompleteCourse(db, user, Some(c), now);
      var o2 := CompleteCourse(o1.db, user, Some(c), later);
      o2.response.Success? && o2.db.users[user].coursesCompleted == db.users[user].coursesCompleted + 2
  {
    var o1 := CompleteCourse(db, user, Some(c), now);
    var i := ProgressIndex(db.progress, user, c).value;
    assert o1.db.progress[i].user == user && o1.db.progress[i].course == c;
  }

  /** complete-course on the Progress document: the three field assignments
      and the save, then the counter. */
  method CompleteCourseOn(db: Database, user: Id, courseId: Option<Id>, now: Time) returns (r: Response<CourseDone>)
    modifies db
    ensures Outcome(db.State(), r) == CompleteCourse(old(db.State()), user, courseId, now)
  {
    if courseId.None? {
      return Error(400);
    }
    var found := ProgressIndex(db.progress, user, courseId.value);
    if found.None? {
      return Error(404);
    }
    var i := found.value;
    var progress := new Progress.Load(db.progress[i]);
    progress.isCompleted := true;
    progress.completedAt := Some(now);
    progress.progressPercentage := 100;
    if !ProgressValid(progress.State()) {
      return Error(500);
    }
    db.progress := db.progress[i := progress.State()];
    Credit(db, user, 0, true);
    r := Success(200, CourseDone(true, None, 100));
  }

  // ---------------------------------------------------------------------
  // PUT /current-lesson

  /** Missing ids 400, no record 404.  The update of lastAccessed is written
      before the streak save, so it stays even when that save is refused. */
  function CurrentLesson(db: Db, user: Id, courseId: Option<Id>, lessonId: Option<Id>, now: Time): Outcome<ProgressState>
  {
    if courseId.None? || lessonId.None? then Outcome(db, Error(400))
    else match ProgressIndex(db.progress, user, courseId.value)
      case None => Outcome(db, Error(404))
      case Some(i) =>
        var touched := db.progress[i].(lastAccessed := now, currentLesson := lessonId);
        var s := StreakUpdated(touched, now);
        if ProgressValid(s) then Outcome(db.(progress := db.progress[i := s]), Success(200, s))
        else Outcome(db.(progress := db.progress[i := touched]), Error(500))
  }

  lemma CurrentLessonProperties(db: Db, user: Id, courseId: Option<Id>, lessonId: Option<Id>, now: Time)
    ensures var o := CurrentLesson(db, user, courseId, lessonId, now);
      (o.response == Error(400) <==> courseId.None? || lessonId.None?) &&
      (o.response == Error(404) <==>
        courseId.Some? && lessonId.Some? && ProgressIndex(db.progress, user, courseId.value).None?)
    ensures var o := CurrentLesson(db, user, courseId, lessonId, now);
      |o.db.progress| == |db.progress| &&
      forall j :: 0 <= j < |db.progress| ==>
        o.db.progress[j] == db.progress[j] ||
        (db.progress[j].user == user && db.progress[j].course == courseId.value &&
         o.db.progress[j].lastAccessed == now && o.db.progress[j].currentLesson == lessonId &&
         o.db.progress[j].completedLessons == db.progress[j].completedLessons)
    ensures var o := CurrentLesson(db, user, courseId, lessonId, now);
      o.response.Success? ==> o.response.body.currentLesson == lessonId && o.response.body in o.db.progress
  {
  }

  // ---------------------------------------------------------------------
  // GET /analytics/user

  /** `Progress.find({ user })`, in stored order. */
  function UserRecords(db: Db, user: Id): (r: seq<ProgressState>)
    ensures forall p :: p in r <==> p in db.progress && p.user == user
    ensures |r| <= |db.progress|
  {
    Filter(db.progress, (p: ProgressState) => p.user == user)
  }

  datatype CategoryStat = CategoryStat(total: nat, completed: nat, timeSpent: int)

  /** One step of the forEach: count the record under its category. */
  function Tally(stats: map<string, CategoryStat>, category: string, p: ProgressState): map<string, CategoryStat>
  {
    var st := if category in stats then stats[category] else CategoryStat(0, 0, 0);
    stats[category := CategoryStat(st.total + 1, st.completed + (if p.isCompleted then 1 else 0),
                                   st.timeSpent + p.totalTimeSpent)]
  }

  predicate CoursesPresent(db: Db, records: seq<ProgressState>)
  {
    forall j :: 0 <= j < |records| ==> records[j].course in db.courses
  }

  /** The forEach over the records, as a fold. */
  function CategoryStats(db: Db, records: seq<ProgressState>): map<string, CategoryStat>
    requires CoursesPresent(db, records)
  {
    if records == [] then map[]
    else
      var last := records[|records| - 1];
      Tally(CategoryStats(db, records[..|records| - 1]), db.courses[last.course].category, last)
  }

  /** The reference counts: records in a category, and completed ones. */
  function CountIn(db: Db, records: seq<ProgressState>, category: string): nat
    requires CoursesPresent(db, records)
  {
    if records == [] then 0
    else
      var last := records[|records| - 1];
      CountIn(db, records[..|records| - 1], category) + if db.courses[last.course].category == category then 1 else 0
  }

  function CompletedIn(db: Db, records: seq<ProgressState>, category: string): nat
    requires CoursesPresent(db, records)
  {
    if records == [] then 0
    else
      var last := records[|records| - 1];
      CompletedIn(db, records[..|records| - 1], category) +
        if db.courses[last.course].category == category && last.isCompleted then 1 else 0
  }

  /** Every category of the tally is one that some record has; its counts
      are the number of records in it and of completed ones among them. */
  lemma {:induction false} CategoryStatsCounts(db: Db, records: seq<ProgressState>)
    requires CoursesPresent(db, records)
    ensures forall c :: CompletedIn(db, records, c) <= CountIn(db, records, c)
    ensures forall c :: c in CategoryStats(db, records) <==> CountIn(db, records, c) > 0
    ensures forall c :: c in CategoryStats(db, records) ==>
      CategoryStats(db, records)[c].total == CountIn(db, records, c) &&
      CategoryStats(db, records)[c].completed == CompletedIn(db, records, c) &&
      CategoryStats(db, records)[c].completed <= CategoryStats(db, records)[c].total
  {
    if records != [] {
      var init := records[..|records| - 1];
      var last := records[|records| - 1];
      CategoryStatsCounts(db, init);
      var prev := CategoryStats(db, init);
      var cat := db.courses[last.course].category;
      forall c | c in CategoryStats(db, records)
        ensures CategoryStats(db, records)[c].total == CountIn(db, records, c)
        ensures CategoryStats(db, records)[c].completed == CompletedIn(db, records, c)
        ensures CategoryStats(db, records)[c].completed <= CategoryStats(db, records)[c].total
      {
        if c != cat {
          assert CategoryStats(db, records)[c] == prev[c];
        }
      }
    }
  }

  /** The forEach filling `categoryStats`. */
  method FillCategoryStats(db: Db, records: seq<ProgressState>) returns (stats: map<string, CategoryStat>)
    requires CoursesPresent(db, records)
    ensures stats == CategoryStats(db, records)
  {
    stats := map[];
    var i := 0;
    while i < |records|
      invariant 0 <= i <= |records|
      invariant stats == CategoryStats(db, records[..i])
    {
      var p := records[i];
      var category := db.courses[p.course].category;
      if category !in stats {
        stats := stats[category := CategoryStat(0, 0, 0)];
      }
      var st := stats[category];
      stats := stats[category := CategoryStat(st.total + 1, st.completed + (if p.isCompleted then 1 else 0),
                                              st.timeSpent + p.totalTimeSpent)];
      assert records[..i + 1][..i] == records[..i];
      i := i + 1;
    }
    assert records[..i] == records;
  }

  /** `Math.max(...streaks)` over a non-empty list. */
  function MaxStreak(records: seq<ProgressState>): (r: int)
    requires records != []
    ensures forall j :: 0 <= j < |records| ==> records[j].streakDays <= r
    ensures exists j :: 0 <= j < |records| && records[j].streakDays == r
  {
    if |records| == 1 then records[0].streakDays
    else
      var m := MaxStreak(records[1..]);
      assert forall j :: 1 <= j < |records| ==> records[1..][j - 1] == records[j];
      if records[0].streakDays >= m then records[0].streakDays else m
  }

  datatype Overview = Overview(totalCourses: nat, completedCourses: nat, inProgressCourses: int,
                               totalLearningTime: int, averageProgress: int, currentStreak: int,
                               recentActivity: nat)

  datatype LearningAnalytics = LearningAnalytics(overview: Overview, categoryStats: map<string, CategoryStat>,
                                                 recentProgress: seq<ProgressState>)

  /** Accessed at or after `since`. */
  function AccessedSince(since: Time): ProgressState -> bool
  {
    (p: ProgressState) => p.lastAccessed >= since
  }

  /** Started at or after `since`. */
  function StartedSince(since: Time): ProgressState -> bool
  {
    (p: ProgressState) => p.startedAt >= since
  }

  /** The overview over the records; `since` is seven days before now. */
  function OverviewOf(records: seq<ProgressState>, since: Time): (r: Overview)
    ensures r.totalCourses == |records| && r.completedCourses <= r.totalCourses
    ensures r.inProgressCourses == r.totalCourses - r.completedCourses
    ensures r.completedCourses == |Filter(records, Finished)|
    ensures r.recentActivity <= r.totalCourses
    ensures r.recentActivity == SumOf(records, Indicator(AccessedSince(since)))
    ensures records == [] ==> r.averageProgress == 0 && r.currentStreak == 0 && r.totalLearningTime == 0
    ensures records != [] ==>
      2 * |records| * r.averageProgress - |records| <= 2 * SumOf(records, Percentage) < 2 * |records| * r.averageProgress + |records|
    ensures records != [] ==>
      (forall j :: 0 <= j < |records| ==> records[j].streakDays <= r.currentStreak) &&
      exists j :: 0 <= j < |records| && records[j].streakDays == r.currentStreak
    ensures r.totalLearningTime == SumOf(records, TimeSpent)
  {
    var total := |records|;
    var completed := |Filter(records, Finished)|;
    FilterLengthIsCount(records, AccessedSince(since));
    Overview(total, completed, total - completed, SumOf(records, TimeSpent),
             if total > 0 then RoundDiv(SumOf(records, Percentage), total) else 0,
             if total > 0 then MaxStreak(records) else 0,
             |Filter(records, AccessedSince(since))|)
  }

  /** When every record's percentage is valid, so is the average. */
  lemma AverageProgressWithin(records: seq<ProgressState>, since: Time)
    requires forall j :: 0 <= j < |records| ==> ProgressValid(records[j])
    ensures 0 <= OverviewOf(records, since).averageProgress <= 100
  {
    if records != [] {
      SumOfBounds(records, Percentage, 0, 100);
      RoundDivBounds(SumOf(records, Percentage), |records|, 0, 100);
    }
  }

  /** The five most recently accessed records: the first five of the
      records sorted by last access, newest first, so no record left out
      was accessed later than one shown. */
  function RecentProgress(records: seq<ProgressState>): (r: seq<ProgressState>)
    ensures |r| == if |records| < 5 then |records| else 5
    ensures SortedDesc(r, LastAccessed)
    ensures forall p :: p in r ==> p in records
    ensures r == SortDesc(records, LastAccessed)[..|r|]
    ensures forall p, x :: p in r && x in records && x !in r ==> x.lastAccessed <= p.lastAccessed
  {
    var sorted := SortDesc(records, LastAccessed);
    SortDescSorted(records, LastAccessed);
    var r := if |sorted| < 5 then sorted else sorted[..5];
    assert r == sorted[..|r|];
    assert forall j :: 0 <= j < |r| ==> r[j] == sorted[j];
    forall p, x | p in r && x in records && x !in r
      ensures x.lastAccessed <= p.lastAccessed
    {
      SortedPrefixDominates(sorted, LastAccessed, |r|, p, x);
    }
    r
  }

  /** A record whose course is gone makes the category lookup throw: 500. */
  function UserAnalytics(db: Db, user: Id, now: Time): (r: Response<LearningAnalytics>)
    ensures r.Error? <==> exists p :: p in db.progress && p.user == user && p.course !in db.courses
    ensures r.Error? ==> r.status == 500
    ensures r.Success? ==> r.body.overview == OverviewOf(UserRecords(db, user), now - 7 * DayMs)
    ensures r.Success? ==> r.body.categoryStats == CategoryStats(db, UserRecords(db, user))
  {
    var records := UserRecords(db, user);
    if !CoursesPresent(db, records) then
      assert exists j :: 0 <= j < |records| && records[j].course !in db.courses;
      Error(500)
    else
      assert forall p :: p in records ==> p.course in db.courses;
      Success(200, LearningAnalytics(OverviewOf(records, now - 7 * DayMs), CategoryStats(db, records),
                                     RecentProgress(records)))
  }

  // ---------------------------------------------------------------------
  // GET /analytics/course/:courseId

  /** `Progress.find({ course })`, in stored order. */
  function CourseRecords(db: Db, courseId: Id): (r: seq<ProgressState>)
    ensures forall p :: p in r <==> p in db.progress && p.course == courseId
  {
    Filter(db.progress, (p: ProgressState) => p.course == courseId)
  }

  datatype LessonStat = LessonStat(completed: nat, totalTime: int, quizScores: seq<int>)

  /** The completions of all the records, record after record. */
  function Completions(records: seq<ProgressState>): seq<Completion>
  {
    if records == [] then []
    else Completions(records[..|records| - 1]) + records[|records| - 1].completedLessons
  }

  /** One step of the inner forEach. */
  function LessonTally(stats: map<Id, LessonStat>, c: Completion): map<Id, LessonStat>
  {
    var st := if c.lesson in stats then stats[c.lesson] else LessonStat(0, 0, []);
    var scores := if c.quizScore.Some? then st.quizScores + [c.quizScore.value] else st.quizScores;
    stats[c.lesson := LessonStat(st.completed + 1, st.totalTime + c.timeSpent, scores)]
  }

  function LessonStats(cs: seq<Completion>): map<Id, LessonStat>
  {
    if cs == [] then map[] else LessonTally(LessonStats(cs[..|cs| - 1]), cs[|cs| - 1])
  }

  /** The reference count: how many completions name the lesson. */
  function TimesCompleted(cs: seq<Completion>, lesson: Id): nat
  {
    if cs == [] then 0
    else TimesCompleted(cs[..|cs| - 1], lesson) + if cs[|cs| - 1].lesson == lesson then 1 else 0
  }

  /** A lesson appears in the tally exactly when some completion names it,
      with that many completions and no more quiz scores than completions. */
  lemma {:induction false} LessonStatsCounts(cs: seq<Completion>)
    ensures forall l :: l in LessonStats(cs) <==> TimesCompleted(cs, l) > 0
    ensures forall l :: l in LessonStats(cs) ==>
      LessonStats(cs)[l].completed == TimesCompleted(cs, l) &&
      |LessonStats(cs)[l].quizScores| <= LessonStats(cs)[l].completed
  {
    if cs != [] {
      LessonStatsCounts(cs[..|cs| - 1]);
    }
  }

  lemma LessonStatsStep(cs: seq<Completion>, c: Completion)
    ensures LessonStats(cs + [c]) == LessonTally(LessonStats(cs), c)
  {
    assert (cs + [c])[..|cs|] == cs;
  }

  lemma CompletionsStep(records: seq<ProgressState>, i: nat)
    requires i < |records|
    ensures Completions(records[..i + 1]) == Completions(records[..i]) + records[i].completedLessons
  {
    assert records[..i + 1][..i] == records[..i];
  }

  /** The inner forEach: one record's completions counted into `stats`,
      which holds the tally of the completions `before` them. */
  method TallyCompletions(stats0: map<Id, LessonStat>, ghost before: seq<Completion>, cs: seq<Completion>)
    returns (stats: map<Id, LessonStat>)
    requires stats0 == LessonStats(before)
    ensures stats == LessonStats(before + cs)
  {
    stats := stats0;
    var j := 0;
    assert before + cs[..0] == before;
    while j < |cs|
      invariant 0 <= j <= |cs|
      invariant stats == LessonStats(before + cs[..j])
    {
      var c := cs[j];
      TallyPrefixStep(before, cs, j);
      stats := LessonTally(stats, c);
      j := j + 1;
    }
    assert cs[..j] == cs;
  }

  lemma TallyPrefixStep(before: seq<Completion>, cs: seq<Completion>, j: nat)
    requires j < |cs|
    ensures LessonStats(before + cs[..j + 1]) == LessonTally(LessonStats(before + cs[..j]), cs[j])
  {
    assert before + cs[..j + 1] == (before + cs[..j]) + [cs[j]];
    LessonStatsStep(before + cs[..j], cs[j]);
  }

  /** The nested forEach filling `lessonStats`. */
  method FillLessonStats(records: seq<ProgressState>) returns (stats: map<Id, LessonStat>)
    ensures stats == LessonStats(Completions(records))
  {
    stats := map[];
    var i := 0;
    while i < |records|
      invariant 0 <= i <= |records|
      invariant stats == LessonStats(Completions(records[..i]))
    {
      stats := TallyCompletions(stats, Completions(records[..i]), records[i].completedLessons);
      CompletionsStep(records, i);
      i := i + 1;
    }
    assert records[..i] == records;
  }

  datatype CourseOverview = CourseOverview(totalStudents: nat, completedStudents: nat, completionRate: real,
                                           averageProgress: int, totalTimeSpent: int,
                                           averageTimePerStudent: int, recentEnrollments: nat)

  datatype CourseReport = CourseReport(overview: CourseOverview, lessonStats: map<Id, LessonStat>,
                                       studentProgress: seq<ProgressState>)

  /** `(completed / total) * 100`, or 0 with no students. */
  function CompletionRate(completed: nat, total: nat): (r: real)
    requires completed <= total
    ensures total == 0 ==> r == 0.0
    ensures 0.0 <= r <= 100.0
    ensures total > 0 ==> (r == 100.0 <==> completed == total)
  {
    if total > 0 then (completed as real / total as real) * 100.0 else 0.0
  }

  /** The overview over the course's records; `since` is thirty days before
      now.  The completion rate is a float in the source, a real here. */
  function CourseOverviewOf(records: seq<ProgressState>, since: Time): (r: CourseOverview)
    ensures r.totalStudents == |records| && r.completedStudents <= r.totalStudents
    ensures r.completedStudents == |Filter(records, Finished)|
    ensures r.recentEnrollments <= r.totalStudents
    ensures r.recentEnrollments == SumOf(records, Indicator(StartedSince(since)))
    ensures records != [] ==>
      2 * |records| * r.averageProgress - |records| <= 2 * SumOf(records, Percentage) < 2 * |records| * r.averageProgress + |records|
    ensures records == [] ==>
      r.completionRate == 0.0 && r.averageTimePerStudent == 0 && r.averageProgress == 0
    ensures r.completionRate == CompletionRate(r.completedStudents, r.totalStudents)
    ensures records != [] ==>
      2 * |records| * r.averageTimePerStudent - |records| <= 2 * r.totalTimeSpent <
        2 * |records| * r.averageTimePerStudent + |records|
    ensures r.totalTimeSpent == SumOf(records, TimeSpent)
  {
    var total := |records|;
    var completed := |Filter(records, Finished)|;
    FilterLengthIsCount(records, StartedSince(since));
    CourseOverview(total, completed, CompletionRate(completed, total),
                   if total > 0 then RoundDiv(SumOf(records, Percentage), total) else 0,
                   SumOf(records, TimeSpent),
                   if total > 0 then RoundDiv(SumOf(records, TimeSpent), total) else 0,
                   |Filter(records, StartedSince(since))|)
  }

  /** The records by percentage, highest first. */
  function StudentProgress(records: seq<ProgressState>): (r: seq<ProgressState>)
    ensures multiset(r) == multiset(records)
    ensures SortedDesc(r, Percentage)
  {
    SortDescSorted(records, Percentage);
    SortDesc(records, Percentage)
  }

  /** Unknown course 404; anyone but the course's instructor or an admin
      403; otherwise the report over the course's records. */
  function CourseAnalytics(db: Db, caller: Id, role: string, courseId: Id, now: Time): (r: Response<CourseReport>)
    ensures r.Error? <==>
      courseId !in db.courses || (db.courses[courseId].instructor != caller && role != "admin")
    ensures r.Error? ==> (r.status == 404 <==> courseId !in db.courses) && (r.status == 404 || r.status == 403)
    ensures r.Success? ==>
      r.body.overview == CourseOverviewOf(CourseRecords(db, courseId), now - 30 * DayMs) &&
      r.body.lessonStats == LessonStats(Completions(CourseRecords(db, courseId))) &&
      multiset(r.body.studentProgress) == multiset(CourseRecords(db, courseId)) &&
      SortedDesc(r.body.studentProgress, Percentage)
  {
    if courseId !in db.courses then Error(404)
    else if db.courses[courseId].instructor != caller && role != "admin" then Error(403)
    else
      var records := CourseRecords(db, courseId);
      Success(200, CourseReport(CourseOverviewOf(records, now - 30 * DayMs), LessonStats(Completions(records)),
                                StudentProgress(records)))
  }

  // ---------------------------------------------------------------------
  // DELETE /:courseId/reset

  /** `findOneAndDelete`: the caller's record for the course goes, or 404. */
  function Reset(db: Db, user: Id, courseId: Id): Outcome<()>
  {
    match ProgressIndex(db.progress, user, courseId)
    case None => Outcome(db, Error(404))
    case Some(i) => Outcome(db.(progress := db.progress[..i] + db.progress[i + 1..]), Success(200, ()))
  }

  lemma RemovalKeepsOthers<T>(s: seq<T>, i: nat)
    requires i < |s|
    ensures forall x :: x in s && x != s[i] ==> x in s[..i] + s[i + 1..]
  {
    forall x | x in s && x != s[i]
      ensures x in s[..i] + s[i + 1..]
    {
      var k :| 0 <= k < |s| && s[k] == x;
      if k < i {
        assert (s[..i] + s[i + 1..])[k] == x;
      } else {
        assert (s[..i] + s[i + 1..])[k - 1] == x;
      }
    }
  }

  /** Under the unique index, a reset leaves no record for the pair, keeps
      every other record, and a second reset finds nothing. */
  lemma ResetRemovesRecord(db: Db, user: Id, courseId: Id)
    requires UniquePerUserCourse(db.progress)
    ensures var o := Reset(db, user, courseId);
      forall j :: 0 <= j < |o.db.progress| ==> !(o.db.progress[j].user == user && o.db.progress[j].course == courseId)
    ensures var o := Reset(db, user, courseId);
      forall p :: p in db.progress && !(p.user == user && p.course == courseId) ==> p in o.db.progress
    ensures var o := Reset(db, user, courseId);
      o.response.Success? ==> |o.db.progress| == |db.progress| - 1 && Reset(o.db, user, courseId).response == Error(404)
    ensures var o := Reset(db, user, courseId);
      o.response.Error? <==> ProgressIndex(db.progress, user, courseId).None?
  {
    var o := Reset(db, user, courseId);
    match ProgressIndex(db.progress, user, courseId)
    case None =>
    case Some(i) =>
      RemovalKeepsOthers(db.progress, i);
      assert forall j :: 0 <= j < |o.db.progress| ==>
        o.db.progress[j] == if j < i then db.progress[j] else db.progress[j + 1];
  }
}
