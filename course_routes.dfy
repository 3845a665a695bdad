// The course catalogue routes (server/routes/courses.js): the public
// listing and course page with their computed fields, creating, updating
// and deleting a course, enrolling, and adding a lesson.  Enrolling and
// adding a lesson push onto an array of the fetched document and save it;
// they are also methods on the `Database` object.
module CourseRoutes {
  import opened Common
  import opened Documents
  import EnrollmentRoutes

  // ---------------------------------------------------------------------
  // Who may change a course

  /** The course's own instructor, or an admin. */
  predicate MayManage(c: Course, caller: Id, role: string)
  {
    c.instructor == caller || role == "admin"
  }

  // ---------------------------------------------------------------------
  // GET /  and  GET /:id

  /** The query-string filters; an empty string is an absent one. */
  datatype CourseQuery = CourseQuery(
    search: string, category: string, level: string, featured: string, instructor: Option<Id>)

  /** The Mongo query the listing builds: published, and each given filter. */
  predicate Matches(c: Course, q: CourseQuery)
  {
    c.isPublished &&
    (q.search == [] ||
     ContainsIgnoreCase(c.title, q.search) || ContainsIgnoreCase(c.description, q.search) ||
     exists t :: t in c.tags && ContainsIgnoreCase(t, q.search)) &&
    (q.category == [] || c.category == q.category) &&
    (q.level == [] || c.level == q.level) &&
    (q.featured != "true" || c.isFeatured) &&
    (q.instructor.None? || c.instructor == q.instructor.value)
  }

  /** The courses the query selects, in the order of the collection. */
  function Selected(cs: seq<Course>, q: CourseQuery): (r: seq<Course>)
    ensures |r| <= |cs|
    ensures forall c :: c in r <==> c in cs && Matches(c, q)
  {
    Filter(cs, (c: Course) => Matches(c, q))
  }

  function LessonDuration(l: Lesson): int { l.duration }

  /** A course as the listing and the course page send it: the document
      with the student count, the summed lesson durations and the lesson
      count in place of the arrays. */
  datatype CourseCard = CourseCard(course: Course, enrolledStudents: nat, totalDuration: int, totalLessons: nat)

  function CardOf(c: Course): (r: CourseCard)
    ensures r.course == c && r.enrolledStudents == |c.enrolledStudents| && r.totalLessons == |c.lessons|
    ensures r.totalDuration == SumOf(c.lessons, LessonDuration)
  {
    CourseCard(c, |c.enrolledStudents|, SumOf(c.lessons, LessonDuration), |c.lessons|)
  }

  /** Lessons of non-negative length give a total at least as long as each. */
  lemma TotalDurationBounds(c: Course, most: int)
    requires forall k :: 0 <= k < |c.lessons| ==> 0 <= c.lessons[k].duration <= most
    ensures 0 <= CardOf(c).totalDuration <= most * |c.lessons|
  {
    SumOfBounds(c.lessons, LessonDuration, 0, most);
  }

  datatype CourseListing = CourseListing(courses: seq<CourseCard>, totalPages: Option<int>, currentPage: int, total: nat)

  /** The listing: the selected courses of `cs` (the collection in the
      requested sort order), one page of them as cards, and the totals.  A
      negative skip makes the query fail (500). */
  function ListCourses(cs: seq<Course>, q: CourseQuery, page: int, limit: int): (r: Response<CourseListing>)
    ensures r.Error? <==> (page - 1) * limit < 0
    ensures r.Success? ==> r.body.total == |Selected(cs, q)| && r.body.currentPage == page
    ensures r.Success? ==> r.body.totalPages == PageCount(|Selected(cs, q)|, limit)
    ensures r.Success? ==> forall k :: 0 <= k < |r.body.courses| ==>
      r.body.courses[k].course in cs && Matches(r.body.courses[k].course, q) &&
      r.body.courses[k] == CardOf(r.body.courses[k].course)
    ensures r.Success? && limit > 0 ==> |r.body.courses| <= limit
    ensures r.Success? ==>
      var window := Paginate(Selected(cs, q), page, limit).body;
      |r.body.courses| == |window| && forall k :: 0 <= k < |window| ==> r.body.courses[k] == CardOf(window[k])
  {
    var selected := Selected(cs, q);
    match Paginate(selected, page, limit)
    case Error(status) => Error(status)
    case Success(_, items) =>
      Success(200, CourseListing(seq(|items|, k requires 0 <= k < |items| => CardOf(items[k])),
                                 PageCount(|selected|, limit), page, |selected|))
  }

  /** The first page with a limit of at least the total lists every
      selected course, in order. */
  lemma FirstPageListsAll(cs: seq<Course>, q: CourseQuery, limit: int)
    requires limit >= |Selected(cs, q)| && limit > 0
    ensures var r := ListCourses(cs, q, 1, limit);
      r.Success? && |r.body.courses| == |Selected(cs, q)| &&
      forall k :: 0 <= k < |r.body.courses| ==> r.body.courses[k].course == Selected(cs, q)[k]
  {
  }

  /** The listing never shows an unpublished course, and a featured
      listing only featured ones. */
  lemma ListingOnlyPublished(cs: seq<Course>, q: CourseQuery, page: int, limit: int)
    requires ListCourses(cs, q, page, limit).Success?
    ensures forall card :: card in ListCourses(cs, q, page, limit).body.courses ==>
      card.course.isPublished && (q.featured == "true" ==> card.course.isFeatured) &&
      (q.category != [] ==> card.course.category == q.category)
  {
    var r := ListCourses(cs, q, page, limit);
    forall card | card in r.body.courses
      ensures card.course.isPublished && (q.featured == "true" ==> card.course.isFeatured)
      ensures q.category != [] ==> card.course.category == q.category
    {
      var k :| 0 <= k < |r.body.courses| && r.body.courses[k] == card;
      assert Matches(card.course, q);
    }
  }

  /** The course page: 404 for an unknown course, otherwise its card. */
  function GetCourse(db: Db, courseId: Id): (r: Response<CourseCard>)
    ensures r.Error? <==> courseId !in db.courses
    ensures r.Error? ==> r.status == 404
    ensures r.Success? ==> r.body.course == db.courses[courseId] && r.body == CardOf(db.courses[courseId])
  {
    if courseId !in db.courses then Error(404) else Success(200, CardOf(db.courses[courseId]))
  }

  // ---------------------------------------------------------------------
  // POST /

  /** The categories and levels the course schema accepts. */
  const Categories: seq<string> := ["Programming", "Design", "Business", "Marketing", "Science", "Language", "Other"]
  const Levels: seq<string> := ["Beginner", "Intermediate", "Advanced"]

  /** The course schema's validation of a new course: a title (trimmed) of
      1 to 100 characters, a description of 1 to 2000, and a listed
      category and level. */
  predicate ValidCourse(title: string, description: string, category: string, level: string)
  {
    0 < |Trim(title)| <= 100 && 0 < |description| <= 2000 && category in Categories && level in Levels
  }

  /** The new course: unpublished, not featured, without lessons,
      students or discussions, with a zero rating. */
  function NewCourse(id: Id, caller: Id, title: string, description: string, category: string, level: string,
                     tags: Option<seq<string>>): (c: Course)
    ensures c.id == id && c.instructor == caller && !c.isPublished && !c.isFeatured
    ensures c.lessons == [] && c.enrolledStudents == [] && c.discussions == [] && c.modules == []
    ensures c.tags == (if tags.Some? then tags.value else [])
    ensures c.rating == Some(0.0)
  {
    Course(id, Trim(title), description, caller, false, false, None, category, level,
           if tags.Some? then tags.value else [], None, Some(0.0), [], [], [], [], Analytics(0, 0))
  }

  /** Create a course: an invalid document makes `Course.create` throw
      (500); otherwise the course is stored under the fresh id and pushed
      onto the caller's created courses; 201. */
  function CreateCourse(db: Db, caller: Id, id: Id, title: string, description: string,
                        category: string, level: string, tags: Option<seq<string>>): (o: Outcome<Course>)
    requires id !in db.courses
    ensures o.response.Error? <==> !ValidCourse(title, description, category, level)
    ensures o.response.Error? ==> o == Outcome(db, Error(500))
    ensures o.response.Success? ==>
      o.response.status == 201 && o.response.body.id == id && o.response.body.instructor == caller &&
      o.db.courses == db.courses[id := o.response.body] && o.db.users.Keys == db.users.Keys
    ensures o.response.Success? && caller in db.users ==>
      caller in o.db.users && o.db.users[caller].createdCourses == db.users[caller].createdCourses + [id]
  {
    if !ValidCourse(title, description, category, level) then Outcome(db, Error(500))
    else
      var c := NewCourse(id, caller, title, description, category, level, tags);
      var users := if caller in db.users
        then db.users[caller := db.users[caller].(createdCourses := db.users[caller].createdCourses + [id])]
        else db.users;
      Outcome(db.(courses := db.courses[id := c], users := users), Success(201, c))
  }

  // ---------------------------------------------------------------------
  // PUT /:id  and  DELETE /:id

  /** `runValidators` on an update checks only the paths the update sets:
      each field the request changes must meet the schema's rule for it. */
  predicate UpdateValid(before: Course, after: Course)
  {
    (after.title != before.title ==> 0 < |Trim(after.title)| <= 100) &&
    (after.description != before.description ==> 0 < |after.description| <= 2000) &&
    (after.category != before.category ==> after.category in Categories) &&
    (after.level != before.level ==> after.level in Levels)
  }

  /** Update a course: 404, 403 unless the caller may manage it; the request
      body's fields overwrite the document's (`patch`), and a changed field
      the schema refuses makes the update throw (500) with nothing written. */
  function UpdateCourse(db: Db, caller: Id, role: string, courseId: Id, patch: Course -> Course): (o: Outcome<Course>)
    ensures o.response.Error? ==> o.db == db
    ensures courseId !in db.courses ==> o.response == Error(404)
    ensures courseId in db.courses && !MayManage(db.courses[courseId], caller, role) ==> o.response == Error(403)
    ensures o.response == Error(500) <==>
      courseId in db.courses && MayManage(db.courses[courseId], caller, role) &&
      !UpdateValid(db.courses[courseId], patch(db.courses[courseId]))
    ensures o.response.Success? <==>
      courseId in db.courses && MayManage(db.courses[courseId], caller, role) &&
      UpdateValid(db.courses[courseId], patch(db.courses[courseId]))
    ensures o.response.Success? ==>
      o.response.body == patch(db.courses[courseId]) && o.db == db.(courses := db.courses[courseId := o.response.body])
  {
    if courseId !in db.courses then Outcome(db, Error(404))
    else
      var c := db.courses[courseId];
      if !MayManage(c, caller, role) then Outcome(db, Error(403))
      else
        var c' := patch(c);
        if !UpdateValid(c, c') then Outcome(db, Error(500))
        else Outcome(db.(courses := db.courses[courseId := c']), Success(200, c'))
  }

  /** Setting a stored course's level to one outside the schema's list is
      refused and leaves the course as it was. */
  lemma UpdateToUnknownLevelRefused(db: Db, caller: Id, role: string, courseId: Id, level: string)
    requires courseId in db.courses && MayManage(db.courses[courseId], caller, role)
    requires db.courses[courseId].level in Levels && level !in Levels
    ensures var o := UpdateCourse(db, caller, role, courseId, (c: Course) => c.(level := level));
      o.response == Error(500) && o.db == db
  {
    var c := db.courses[courseId];
    assert !UpdateValid(c, c.(level := level));
  }

  /** Delete a course: 404, 403 unless the caller may manage it, otherwise
      the course is removed and pulled from its instructor's created
      courses. */
  function DeleteCourse(db: Db, caller: Id, role: string, courseId: Id): (o: Outcome<()>)
    ensures o.response.Error? ==> o.db == db
    ensures o.response.Success? <==> courseId in db.courses && MayManage(db.courses[courseId], caller, role)
    ensures o.response.Success? ==>
      o.db.courses == db.courses - {courseId} && courseId !in o.db.courses &&
      o.db.users.Keys == db.users.Keys &&
      forall u :: u in db.users && u != db.courses[courseId].instructor ==> o.db.users[u] == db.users[u]
    ensures o.response.Success? && db.courses[courseId].instructor in db.users ==>
      var owner := db.courses[courseId].instructor;
      var created := o.db.users[owner].createdCourses;
      o.db.users[owner] == db.users[owner].(createdCourses := created) && courseId !in created &&
      forall other :: other != courseId ==> (other in created <==> other in db.users[owner].createdCourses)
  {
    if courseId !in db.courses then Outcome(db, Error(404))
    else
      var c := db.courses[courseId];
      if !MayManage(c, caller, role) then Outcome(db, Error(403))
      else
        var users := if c.instructor in db.users
          then db.users[c.instructor := db.users[c.instructor].(createdCourses := RemoveAll(db.users[c.instructor].createdCourses, courseId))]
          else db.users;
        Outcome(db.(courses := db.courses - {courseId}, users := users), Success(200, ()))
  }

  // ---------------------------------------------------------------------
  // POST /:id/enroll

  /** Enrol: 404 for an unknown course, 400 when already enrolled;
      otherwise one enrolment is pushed onto the course and one entry onto
      the caller's enrolled courses (a no-op for a vanished caller). */
  function Enroll(db: Db, caller: Id, courseId: Id, now: Time): (o: Outcome<()>)
    ensures o.response.Error? ==> o.db == db
    ensures courseId !in db.courses ==> o.response == Error(404)
    ensures o.response.Success? <==> courseId in db.courses && !IsEnrolled(db.courses[courseId], caller)
  {
    if courseId !in db.courses then Outcome(db, Error(404))
    else
      var c := db.courses[courseId];
      if EnrollmentIndex(c.enrolledStudents, caller).Some? then Outcome(db, Error(400))
      else
        var c' := c.(enrolledStudents := c.enrolledStudents + [EnrollmentRoutes.NewEnrollment(caller, now)]);
        var users := if caller in db.users
          then db.users[caller := db.users[caller].(enrolledCourses := db.users[caller].enrolledCourses + [EnrollmentRoutes.NewEnrolledCourse(courseId, now)])]
          else db.users;
        Outcome(db.(courses := db.courses[courseId := c'], users := users), Success(200, ()))
  }

  /** A successful enrolment appends exactly one enrolment to the course
      and one entry to the caller, and the second attempt is refused with
      400 and changes nothing. */
  lemma EnrollOnce(db: Db, caller: Id, courseId: Id, now: Time, later: Time)
    requires Enroll(db, caller, courseId, now).response.Success?
    ensures var o := Enroll(db, caller, courseId, now);
      o.db.courses == db.courses[courseId := o.db.courses[courseId]] &&
      o.db.courses[courseId].enrolledStudents ==
        db.courses[courseId].enrolledStudents + [EnrollmentRoutes.NewEnrollment(caller, now)] &&
      (caller in db.users ==>
        o.db.users == db.users[caller := o.db.users[caller]] &&
        o.db.users[caller].enrolledCourses ==
          db.users[caller].enrolledCourses + [EnrollmentRoutes.NewEnrolledCourse(courseId, now)])
    ensures var o := Enroll(db, caller, courseId, now);
      Enroll(o.db, caller, courseId, later) == Outcome(o.db, Error(400))
  {
    var o := Enroll(db, caller, courseId, now);
    var es := o.db.courses[courseId].enrolledStudents;
    assert es[|es| - 1].student == caller;
  }

  /** Enrolling keeps every course free of duplicate students. */
  lemma EnrollKeepsStudentsDistinct(db: Db, caller: Id, courseId: Id, now: Time)
    requires forall id :: id in db.courses ==> EnrollmentRoutes.StudentsDistinct(db.courses[id])
    ensures var o := Enroll(db, caller, courseId, now);
      forall id :: id in o.db.courses ==> EnrollmentRoutes.StudentsDistinct(o.db.courses[id])
  {
    var o := Enroll(db, caller, courseId, now);
    if o.response.Success? {
      var es := db.courses[courseId].enrolledStudents;
      var es1 := o.db.courses[courseId].enrolledStudents;
      forall i, j | 0 <= i < j < |es1|
        ensures es1[i].student != es1[j].student
      {
        if j == |es| {
          assert es1[i] == es[i];
        }
      }
    }
  }

  /** The handler on the database object: find, push, save, push. */
  method EnrollOn(db: Database, caller: Id, courseId: Id, now: Time) returns (r: Response<()>)
    modifies db
    ensures Outcome(db.State(), r) == Enroll(old(db.State()), caller, courseId, now)
  {
    if courseId !in db.courses {
      return Error(404);
    }
    var c := db.courses[courseId];
    var i := 0;
    while i < |c.enrolledStudents|
      invariant 0 <= i <= |c.enrolledStudents|
      invariant forall j :: 0 <= j < i ==> c.enrolledStudents[j].student != caller
    {
      if c.enrolledStudents[i].student == caller {
        return Error(400);
      }
      i := i + 1;
    }
    var students := c.enrolledStudents;
    students := students + [EnrollmentRoutes.NewEnrollment(caller, now)];
    db.courses := db.courses[courseId := c.(enrolledStudents := students)];
    if caller in db.users {
      var u := db.users[caller];
      db.users := db.users[caller := u.(enrolledCourses := u.enrolledCourses + [EnrollmentRoutes.NewEnrolledCourse(courseId, now)])];
    }
    r := Success(200, ());
  }

  // ---------------------------------------------------------------------
  // POST /:id/lessons

  /** The lesson fields of the request body; absent ones are None. */
  datatype LessonInput = LessonInput(
    title: string, description: string, videoUrl: string, duration: Option<int>,
    resources: Option<seq<string>>, quiz: Option<Quiz>)

  /** The lesson schema's validation: a title (trimmed) of 1 to 100
      characters, a description of 1 to 1000, a video URL and a duration. */
  predicate ValidLesson(l: LessonInput)
  {
    0 < |Trim(l.title)| <= 100 && 0 < |l.description| <= 1000 && l.videoUrl != [] && l.duration.Some?
  }

  /** The quiz a lesson gets when none is given. */
  const DefaultQuiz := Quiz([], 70)

  /** The new lesson: numbered after the existing ones, with no resources
      and the default quiz unless given. */
  function NewLesson(c: Course, id: Id, l: LessonInput): (r: Lesson)
    requires l.duration.Some?
    ensures r.order == |c.lessons| + 1
    ensures r.quiz == Some(if l.quiz.Some? then l.quiz.value else DefaultQuiz)
    ensures r.resources == (if l.resources.Some? then l.resources.value else [])
    ensures r.id == id && r.duration == l.duration.value
  {
    Lesson(id, Trim(l.title), l.description, l.duration.value, |c.lessons| + 1,
           if l.resources.Some? then l.resources.value else [],
           Some(if l.quiz.Some? then l.quiz.value else DefaultQuiz), None)
  }

  /** Add a lesson: 404, 403 unless the caller may manage the course, 500
      when the save's validation fails; otherwise the lesson is appended;
      201 with it. */
  function AddLesson(db: Db, caller: Id, role: string, courseId: Id, id: Id, l: LessonInput): (o: Outcome<Lesson>)
    ensures o.response.Error? ==> o.db == db
    ensures o.response.Success? <==>
      courseId in db.courses && MayManage(db.courses[courseId], caller, role) && ValidLesson(l)
    ensures o.response.Success? ==>
      var c := db.courses[courseId];
      o.response.status == 201 &&
      o.db == db.(courses := db.courses[courseId := c.(lessons := c.lessons + [o.response.body])])
  {
    if courseId !in db.courses then Outcome(db, Error(404))
    else
      var c := db.courses[courseId];
      if !MayManage(c, caller, role) then Outcome(db, Error(403))
      else if !ValidLesson(l) then Outcome(db, Error(500))
      else
        var lesson := NewLesson(c, id, l);
        Outcome(db.(courses := db.courses[courseId := c.(lessons := c.lessons + [lesson])]), Success(201, lesson))
  }

  /** Lessons numbered 1, 2, ... in list order. */
  predicate Numbered(ls: seq<Lesson>)
  {
    forall k :: 0 <= k < |ls| ==> ls[k].order == k + 1
  }

  /** Adding lessons one by one keeps them numbered 1..n. */
  lemma AddLessonKeepsNumbering(db: Db, caller: Id, role: string, courseId: Id, id: Id, l: LessonInput)
    requires courseId in db.courses && Numbered(db.courses[courseId].lessons)
    ensures var o := AddLesson(db, caller, role, courseId, id, l);
      Numbered(o.db.courses[courseId].lessons)
  {
  }

  /** Only the instructor or an admin changes a course: anyone else gets
      403 from update, delete and add-lesson, and nothing is written. */
  lemma OthersCannotChange(db: Db, caller: Id, role: string, courseId: Id, patch: Course -> Course, id: Id, l: LessonInput)
    requires courseId in db.courses && db.courses[courseId].instructor != caller && role != "admin"
    ensures UpdateCourse(db, caller, role, courseId, patch) == Outcome(db, Error(403))
    ensures DeleteCourse(db, caller, role, courseId) == Outcome(db, Error(403))
    ensures AddLesson(db, caller, role, courseId, id, l) == Outcome(db, Error(403))
  {
  }

  /** The handler on the database object: find, check, push, save. */
  method AddLessonOn(db: Database, caller: Id, role: string, courseId: Id, id: Id, l: LessonInput)
    returns (r: Response<Lesson>)
    modifies db
    ensures Outcome(db.State(), r) == AddLesson(old(db.State()), caller, role, courseId, id, l)
  {
    if courseId !in db.courses {
      return Error(404);
    }
    var c := db.courses[courseId];
    if c.instructor != caller && role != "admin" {
      return Error(403);
    }
    if !ValidLesson(l) {
      return Error(500);
    }
    var lesson := NewLesson(c, id, l);
    var lessons := c.lessons;
    lessons := lessons + [lesson];
    db.courses := db.courses[courseId := c.(lessons := lessons)];
    r := Success(201, lesson);
  }
}
