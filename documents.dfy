// The documents the server routes read and write, as the handlers use
// them: courses with their lessons, modules, enrolments and discussions;
// users with their enrolments, wishlist and counters; comments.  Progress
// records and certificates have modules of their own (ProgressModel,
// CertificateModel).  The whole database is one object whose collections
// the route handlers replace; its value is a `Db`.
module Documents {
  import opened Common
  import opened ProgressModel
  import opened CertificateModel

  // ---------------------------------------------------------------------
  // Courses

  datatype Question = Question(question: string, options: seq<string>, correctAnswer: int, explanation: string)

  datatype Quiz = Quiz(questions: seq<Question>, passingScore: int)

  /** A submission to a lesson's assignment; `grade` is absent until graded. */
  datatype Submission = Submission(
    id: Id, student: Id, content: string, essayText: string,
    grade: Option<int>, feedback: string, status: string,
    submittedAt: Time, gradedAt: Option<Time>)

  datatype Assignment = Assignment(submissions: seq<Submission>)

  datatype Lesson = Lesson(
    id: Id, title: string, description: string, duration: int, order: int,
    resources: seq<string>, quiz: Option<Quiz>, assignment: Option<Assignment>)

  datatype Module = Module(id: Id, title: string, lessons: seq<Lesson>)

  /** An entry of `course.enrolledStudents`. */
  datatype Enrollment = Enrollment(
    student: Id, enrolledAt: Time, progress: int,
    completedLessons: seq<Id>, certificateIssued: bool)

  datatype Reply = Reply(content: string, author: Id, createdAt: Time, updatedAt: Time)

  datatype Discussion = Discussion(
    id: Id, title: string, content: string, category: string, author: Id,
    isPinned: bool, isResolved: bool, likes: seq<Id>, replies: seq<Reply>,
    createdAt: Time, updatedAt: Time)

  /** The counters the enrolment handlers keep on a course. */
  datatype Analytics = Analytics(enrollments: int, completions: int)

  /** A course.  `lessons` is the flat lesson list that some handlers use,
      `modules` the module/lesson tree that others use; `rating` is
      `rating.average`, absent when the course has no rating object. */
  datatype Course = Course(
    id: Id, title: string, description: string, instructor: Id,
    isPublished: bool, isFeatured: bool, status: Option<string>,
    category: string, level: string, tags: seq<string>,
    estimatedDuration: Option<real>, rating: Option<real>,
    lessons: seq<Lesson>, modules: seq<Module>,
    enrolledStudents: seq<Enrollment>, discussions: seq<Discussion>,
    analytics: Analytics)

  /** `course.enrolledStudents.find(e => e.student == userId)`. */
  function EnrollmentIndex(es: seq<Enrollment>, user: Id): (r: Option<nat>)
    ensures r.Some? ==> r.value < |es| && es[r.value].student == user
    ensures r.Some? ==> forall j :: 0 <= j < r.value ==> es[j].student != user
    ensures r.None? <==> forall j :: 0 <= j < |es| ==> es[j].student != user
  {
    FirstIndex(es, (e: Enrollment) => e.student == user)
  }

  predicate IsEnrolled(c: Course, user: Id)
  {
    exists j :: 0 <= j < |c.enrolledStudents| && c.enrolledStudents[j].student == user
  }

  /** `course.lessons.id(lessonId)`. */
  function LessonIndex(ls: seq<Lesson>, lesson: Id): (r: Option<nat>)
    ensures r.Some? ==> r.value < |ls| && ls[r.value].id == lesson
    ensures r.None? <==> forall j :: 0 <= j < |ls| ==> ls[j].id != lesson
  {
    FirstIndex(ls, (l: Lesson) => l.id == lesson)
  }

  /** Lessons summed over all modules. */
  function LessonCount(ms: seq<Module>): nat
  {
    if ms == [] then 0 else LessonCount(ms[..|ms| - 1]) + |ms[|ms| - 1].lessons|
  }

  lemma {:induction false} LessonCountAppend(ms: seq<Module>, more: seq<Module>)
    ensures LessonCount(ms + more) == LessonCount(ms) + LessonCount(more)
    decreases |more|
  {
    if more == [] {
      assert ms + more == ms;
    } else {
      assert (ms + more)[..|ms + more| - 1] == ms + more[..|more| - 1];
      LessonCountAppend(ms, more[..|more| - 1]);
    }
  }

  /** Replacing one module by one with as many lessons keeps the total. */
  lemma LessonCountReplace(ms: seq<Module>, i: nat, m: Module)
    requires i < |ms| && |m.lessons| == |ms[i].lessons|
    ensures LessonCount(ms[i := m]) == LessonCount(ms)
  {
    assert ms == ms[..i] + [ms[i]] + ms[i + 1..];
    assert ms[i := m] == ms[..i] + [m] + ms[i + 1..];
    LessonCountAppend(ms[..i] + [ms[i]], ms[i + 1..]);
    LessonCountAppend(ms[..i] + [m], ms[i + 1..]);
    LessonCountAppend(ms[..i], [ms[i]]);
    LessonCountAppend(ms[..i], [m]);
    assert [ms[i]][..0] == [] && [m][..0] == [];
  }

  /** `course.modules.id(moduleId)`, as an index. */
  function ModuleIndex(ms: seq<Module>, moduleId: Id): (r: Option<nat>)
    ensures r.Some? ==> r.value < |ms| && ms[r.value].id == moduleId
    ensures r.None? <==> forall j :: 0 <= j < |ms| ==> ms[j].id != moduleId
  {
    FirstIndex(ms, (m: Module) => m.id == moduleId)
  }

  /** Where a lesson sits in the module tree: the first module holding a
      lesson with that id, and the lesson's index in it. */
  function LessonLocation(ms: seq<Module>, lesson: Id): (r: Option<(nat, nat)>)
    ensures r.Some? ==> r.value.0 < |ms| && r.value.1 < |ms[r.value.0].lessons| &&
                        ms[r.value.0].lessons[r.value.1].id == lesson
    ensures r.Some? ==> LessonIndex(ms[r.value.0].lessons, lesson) == Some(r.value.1)
    ensures r.Some? ==> forall j :: 0 <= j < r.value.0 ==> LessonIndex(ms[j].lessons, lesson).None?
    ensures r.None? <==> forall j :: 0 <= j < |ms| ==> LessonIndex(ms[j].lessons, lesson).None?
    decreases |ms|
  {
    if ms == [] then None
    else match LessonIndex(ms[0].lessons, lesson)
      case Some(k) => Some((0, k))
      case None =>
        match LessonLocation(ms[1..], lesson)
        case None => None
        case Some(loc) => Some((loc.0 + 1, loc.1))
  }

  // ---------------------------------------------------------------------
  // Users

  /** An entry of `user.enrolledCourses`. */
  datatype EnrolledCourse = EnrolledCourse(course: Id, enrolledAt: Time, progress: int, completedLessons: seq<Id>)

  datatype SocialLinks = SocialLinks(linkedin: string, twitter: string, github: string, website: string)

  datatype Preferences = Preferences(
    emailNotifications: bool, pushNotifications: bool, courseRecommendations: bool,
    theme: string, language: string)

  /** A user.  `password` is the stored hash, absent for an account made by
      Google sign-in. */
  datatype User = User(
    id: Id, name: string, email: string, role: string, isActive: bool,
    googleId: Option<string>, avatar: string, authProvider: string,
    bio: string, location: string, phoneNumber: string, skills: seq<string>,
    wishlist: seq<Id>, enrolledCourses: seq<EnrolledCourse>, createdCourses: seq<Id>,
    totalLearningTime: int, certificatesEarned: int, coursesCompleted: int,
    password: Option<string>, createdAt: Time, dateOfBirth: Option<Time>,
    socialLinks: Option<SocialLinks>, preferences: Preferences)

  /** The roles the user schema accepts. */
  const Roles: seq<string> := ["student", "instructor", "admin"]

  /** The user schema's rule for a name: 1 to 50 characters once trimmed. */
  predicate NameAcceptable(name: string)
  {
    0 < |Trim(name)| <= 50
  }

  /** The schema's defaults for the preferences. */
  const DefaultPreferences := Preferences(true, true, true, "auto", "en")

  /** Some user has this e-mail address. */
  predicate EmailTaken(users: map<Id, User>, email: string)
  {
    exists u :: u in users && users[u].email == email
  }

  /** The user `User.findOne({email})` returns: one with that address, or
      None when there is none. */
  predicate FoundByEmail(users: map<Id, User>, email: string, found: Option<Id>)
  {
    (found.Some? ==> found.value in users && users[found.value].email == email) &&
    (found.None? ==> !EmailTaken(users, email))
  }

  /** `user.enrolledCourses.find(ec => ec.course == courseId)`. */
  function EnrolledCourseIndex(ecs: seq<EnrolledCourse>, course: Id): (r: Option<nat>)
    ensures r.Some? ==> r.value < |ecs| && ecs[r.value].course == course
    ensures r.None? <==> forall j :: 0 <= j < |ecs| ==> ecs[j].course != course
  {
    FirstIndex(ecs, (ec: EnrolledCourse) => ec.course == course)
  }

  // ---------------------------------------------------------------------
  // Comments

  datatype Comment = Comment(
    id: Id, content: string, course: Id, lesson: Option<Id>, parentComment: Option<Id>,
    author: Id, isDeleted: bool, isEdited: bool, editedAt: Option<Time>,
    likes: seq<Id>, replies: seq<Id>, createdAt: Time)

  // ---------------------------------------------------------------------
  // The database

  /** The collections: courses and users by id; progress records,
      certificates and comments in insertion order (the order a query
      returns them in before any sort). */
  datatype Db = Db(
    courses: map<Id, Course>,
    users: map<Id, User>,
    progress: seq<ProgressState>,
    certificates: seq<Certificate>,
    comments: seq<Comment>)

  /** What a handler leaves behind: the database after its writes, and the
      response it sends. */
  datatype Outcome<T> = Outcome(db: Db, response: Response<T>)

  /** The values a certificate's creation draws from the clock and from
      Math.random: its document id, the current year and the random digits
      of its certificate id and verification code. */
  datatype CertSeed = CertSeed(id: Id, year: nat, randomId: string, randomCode: string)

  /** `Progress.findOne({user, course})`. */
  function ProgressIndex(records: seq<ProgressState>, user: Id, course: Id): (r: Option<nat>)
    ensures r.Some? ==> r.value < |records| && records[r.value].user == user && records[r.value].course == course
    ensures r.None? <==> forall j :: 0 <= j < |records| ==> !(records[j].user == user && records[j].course == course)
  {
    FirstIndex(records, (p: ProgressState) => p.user == user && p.course == course)
  }

  /** Replacing records other than the found one, and the found one by a
      record of the same owner and course, keeps the lookup's answer. */
  lemma ProgressIndexKept(a: seq<ProgressState>, b: seq<ProgressState>, i: nat, user: Id, course: Id)
    requires ProgressIndex(a, user, course) == Some(i)
    requires |b| == |a| && b[i].user == a[i].user && b[i].course == a[i].course
    requires forall j :: 0 <= j < |a| && j != i ==> b[j] == a[j]
    ensures ProgressIndex(b, user, course) == Some(i)
  {
    var p := (r: ProgressState) => r.user == user && r.course == course;
    assert forall j :: 0 <= j < i ==> !p(b[j]) by {
      forall j | 0 <= j < i
        ensures !p(b[j])
      {
        assert b[j] == a[j];
      }
    }
  }

  class Database {
    var courses: map<Id, Course>
    var users: map<Id, User>
    var progress: seq<ProgressState>
    var certificates: seq<Certificate>
    var comments: seq<Comment>

    function State(): Db
      reads this
    {
      Db(courses, users, progress, certificates, comments)
    }

    constructor (db: Db)
      ensures State() == db
    {
      courses, users, progress := db.courses, db.users, db.progress;
      certificates, comments := db.certificates, db.comments;
    }
  }
}
