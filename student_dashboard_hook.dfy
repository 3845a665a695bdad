// The student dashboard's data hook (client/src/hooks/useStudentDashboard.js):
// the refresh that loads the enrolled courses (with their defaults), the
// catalogue less the enrolled courses, the certificates and the
// notifications one request after another, and the actions that call the
// backend and then refresh or update the list in place.  The hook's state
// is a class; the outcome of each request is a parameter.
module StudentDashboardHook {
  import opened Common
  import NotificationCenter

  type Notification = NotificationCenter.Notification

  /** The progress record the backend attaches to an enrolled course. */
  datatype RawProgress = RawProgress(percentage: Option<int>, completedLessons: Option<int>, timeLeft: Option<string>, nextLesson: Option<string>)

  datatype RawEnrollment = RawEnrollment(enrolledAt: Option<Time>, lastAccessed: Option<Time>)

  /** An enrolled course as the backend sends it; absent fields are `None`
      and a flag is `None` or `Some(false)` when falsy. */
  datatype RawCourse = RawCourse(
    id: Id, progress: Option<RawProgress>, totalLessons: Option<int>,
    enrollment: Option<RawEnrollment>, enrolledAt: Option<Time>, lastAccessed: Option<Time>,
    hasQuizzes: Option<bool>, hasAssignments: Option<bool>, hasDiscussions: Option<bool>)

  /** An enrolled course with the dashboard's defaults filled in. */
  datatype Course = Course(
    id: Id, progress: int, completedLessons: int, totalLessons: int,
    estimatedTimeLeft: string, enrolledAt: Option<Time>, lastAccessed: Option<Time>,
    nextLesson: string, hasQuizzes: bool, hasAssignments: bool, hasDiscussions: bool,
    upcomingDeadlines: seq<Time>)

  /** A catalogue course; only its id matters here. */
  datatype CatalogCourse = CatalogCourse(id: Id, title: string)

  datatype Certificate = Certificate(id: string)

  /** `x || fallback` on a number. */
  function IntOr(x: Option<int>, fallback: int): (r: int)
    ensures x.Some? && x.value != 0 ==> r == x.value
    ensures x.None? || x.value == 0 ==> r == fallback
  {
    if x.Some? && x.value != 0 then x.value else fallback
  }

  /** `x || fallback` on a text. */
  function TextOr(x: Option<string>, fallback: string): (r: string)
    ensures x.Some? && x.value != "" ==> r == x.value
    ensures x.None? || x.value == "" ==> r == fallback
  {
    if x.Some? && x.value != "" then x.value else fallback
  }

  /** `a || b` on two optional times. */
  function TimeOr(a: Option<Time>, b: Option<Time>): Option<Time>
  {
    if a.Some? then a else b
  }

  /** The enrolled-course normalisation: progress, completed and total
      lessons default to 0, the time left to 'N/A', the next lesson to
      'Start Course'; the dates come from the enrolment record first; the
      flags become booleans; and the deadlines are empty. */
  function Normalise(c: RawCourse): (r: Course)
    ensures r.id == c.id && r.upcomingDeadlines == []
    ensures c.progress.None? ==>
      r.progress == 0 && r.completedLessons == 0 && r.estimatedTimeLeft == "N/A" && r.nextLesson == "Start Course"
    ensures c.progress.Some? ==>
      r.progress == IntOr(c.progress.value.percentage, 0) &&
      r.completedLessons == IntOr(c.progress.value.completedLessons, 0) &&
      r.estimatedTimeLeft == TextOr(c.progress.value.timeLeft, "N/A") &&
      r.nextLesson == TextOr(c.progress.value.nextLesson, "Start Course")
    ensures r.totalLessons == IntOr(c.totalLessons, 0)
    ensures r.enrolledAt == (if c.enrollment.Some? then TimeOr(c.enrollment.value.enrolledAt, c.enrolledAt) else c.enrolledAt)
    ensures r.lastAccessed == (if c.enrollment.Some? then TimeOr(c.enrollment.value.lastAccessed, c.lastAccessed) else c.lastAccessed)
    ensures r.hasQuizzes == (c.hasQuizzes == Some(true))
    ensures r.hasAssignments == (c.hasAssignments == Some(true))
    ensures r.hasDiscussions == (c.hasDiscussions == Some(true))
  {
    var p := if c.progress.Some? then c.progress.value else RawProgress(None, None, None, None);
    var e := if c.enrollment.Some? then c.enrollment.value else RawEnrollment(None, None);
    Course(
      c.id, IntOr(p.percentage, 0), IntOr(p.completedLessons, 0), IntOr(c.totalLessons, 0),
      TextOr(p.timeLeft, "N/A"), TimeOr(e.enrolledAt, c.enrolledAt), TimeOr(e.lastAccessed, c.lastAccessed),
      TextOr(p.nextLesson, "Start Course"),
      c.hasQuizzes == Some(true), c.hasAssignments == Some(true), c.hasDiscussions == Some(true),
      [])
  }

  function NormaliseAll(raw: seq<RawCourse>): (r: seq<Course>)
    ensures |r| == |raw|
    ensures forall i :: 0 <= i < |raw| ==> r[i] == Normalise(raw[i])
  {
    seq(|raw|, i requires 0 <= i < |raw| => Normalise(raw[i]))
  }

  /** A normalised course never shows a blank next lesson or time left,
      and keeps the raw course's id. */
  lemma NormalisedNeverBlank(c: RawCourse)
    ensures Normalise(c).nextLesson != "" && Normalise(c).estimatedTimeLeft != ""
    ensures Normalise(c).id == c.id
  {
  }

  /** The id is among the enrolled courses' ids. */
  predicate Enrolled(id: Id, enrolled: seq<Course>)
  {
    exists i :: 0 <= i < |enrolled| && enrolled[i].id == id
  }

  /** The catalogue less every course whose id is enrolled, in order. */
  function Available(all: seq<CatalogCourse>, enrolled: seq<Course>): (r: seq<CatalogCourse>)
    ensures forall c :: c in r <==> c in all && !Enrolled(c.id, enrolled)
  {
    Filter(all, (c: CatalogCourse) => !Enrolled(c.id, enrolled))
  }

  /** No available course shares an id with an enrolled one, and every
      catalogue course is either available or enrolled. */
  lemma AvailableDisjoint(all: seq<CatalogCourse>, enrolled: seq<Course>)
    ensures forall c, i :: c in Available(all, enrolled) && 0 <= i < |enrolled| ==> c.id != enrolled[i].id
    ensures forall c :: c in all ==> c in Available(all, enrolled) || Enrolled(c.id, enrolled)
  {
  }

  // ---------------------------------------------------------------------
  // The refresh

  /** The outcome of one request: its value, or a failure with the
      server's message if it sent one. */
  datatype Fetched<T> = Got(value: T) | Failed(message: Option<string>)

  /** The enrolled-courses answer: `data || courses || []`. */
  datatype EnrolledAnswer = EnrolledAnswer(data: Option<seq<RawCourse>>, courses: Option<seq<RawCourse>>)

  function EnrolledList(a: EnrolledAnswer): seq<RawCourse>
  {
    if a.data.Some? then a.data.value else if a.courses.Some? then a.courses.value else []
  }

  /** `list || []`. */
  function ListOr<T>(x: Option<seq<T>>): seq<T>
  {
    if x.Some? then x.value else []
  }

  /** The requests, in order: enrolled courses, catalogue, certificates,
      notifications. */
  datatype Answers = Answers(
    enrolled: Fetched<EnrolledAnswer>, catalog: Fetched<Option<seq<CatalogCourse>>>,
    certificates: Fetched<Option<seq<Certificate>>>, notifications: Fetched<Option<seq<Notification>>>)

  /** How many requests succeeded before the first failure (4: none failed). */
  function Reached(a: Answers): (k: nat)
    ensures k <= 4
    ensures k >= 1 <==> a.enrolled.Got?
    ensures k >= 2 <==> a.enrolled.Got? && a.catalog.Got?
    ensures k >= 3 <==> a.enrolled.Got? && a.catalog.Got? && a.certificates.Got?
    ensures k == 4 <==> a.enrolled.Got? && a.catalog.Got? && a.certificates.Got? && a.notifications.Got?
  {
    if a.enrolled.Failed? then 0
    else if a.catalog.Failed? then 1
    else if a.certificates.Failed? then 2
    else if a.notifications.Failed? then 3
    else 4
  }

  /** The message of the first failure, or the default text. */
  function FailureText(a: Answers): string
  {
    var m :=
      if a.enrolled.Failed? then a.enrolled.message
      else if a.catalog.Failed? then a.catalog.message
      else if a.certificates.Failed? then a.certificates.message
      else if a.notifications.Failed? then a.notifications.message
      else None;
    TextOr(m, "Failed to load dashboard data")
  }

  /** The lists and the error the hook exposes. */
  datatype Snapshot = Snapshot(
    enrolledCourses: seq<Course>, availableCourses: seq<CatalogCourse>,
    notifications: seq<Notification>, certificates: seq<Certificate>, error: Option<string>)

  /** fetchDashboardData on values: each list is replaced once its request
      has succeeded, so a failure keeps the lists of the later requests as
      they were; the error is the first failure's message. */
  function Refreshed(s: Snapshot, a: Answers): (r: Snapshot)
    ensures Reached(a) == 4 <==> r.error.None?
    ensures Reached(a) < 4 ==> r.error == Some(FailureText(a)) && r.error.value != ""
    ensures Reached(a) >= 1 ==> r.enrolledCourses == NormaliseAll(EnrolledList(a.enrolled.value))
    ensures Reached(a) < 1 ==> r.enrolledCourses == s.enrolledCourses
    ensures Reached(a) >= 2 ==> r.availableCourses == Available(ListOr(a.catalog.value), r.enrolledCourses)
    ensures Reached(a) < 2 ==> r.availableCourses == s.availableCourses
    ensures Reached(a) >= 3 ==> r.certificates == ListOr(a.certificates.value)
    ensures Reached(a) < 3 ==> r.certificates == s.certificates
    ensures Reached(a) == 4 ==> r.notifications == ListOr(a.notifications.value)
    ensures Reached(a) < 4 ==> r.notifications == s.notifications
  {
    var k := Reached(a);
    var enrolled := if k >= 1 then NormaliseAll(EnrolledList(a.enrolled.value)) else s.enrolledCourses;
    Snapshot(
      enrolled,
      if k >= 2 then Available(ListOr(a.catalog.value), enrolled) else s.availableCourses,
      if k == 4 then ListOr(a.notifications.value) else s.notifications,
      if k >= 3 then ListOr(a.certificates.value) else s.certificates,
      if k == 4 then None else Some(FailureText(a)))
  }

  /** When the catalogue loads after the enrolled courses, the refreshed
      lists never offer a course the student is enrolled in; when the
      catalogue fails, the old available list is kept beside the new
      enrolled list, which may then overlap. */
  lemma RefreshKeepsApart(s: Snapshot, a: Answers)
    ensures Reached(a) >= 2 ==>
      var r := Refreshed(s, a);
      forall c, i :: c in r.availableCourses && 0 <= i < |r.enrolledCourses| ==> c.id != r.enrolledCourses[i].id
  {
    if Reached(a) >= 2 {
      var r := Refreshed(s, a);
      AvailableDisjoint(ListOr(a.catalog.value), r.enrolledCourses);
    }
  }

  /** A refresh with every request answered depends on the answers only. */
  lemma RefreshForgetsOldState(s: Snapshot, t: Snapshot, a: Answers)
    requires Reached(a) == 4
    ensures Refreshed(s, a) == Refreshed(t, a)
  {
  }

  // ---------------------------------------------------------------------
  // The hook's state and actions

  /** What `completeLesson` sends: the time spent defaults to 0 and the
      quiz score to null (`None`). */
  datatype CompletionRequest = CompletionRequest(courseId: Id, lessonId: Id, timeSpent: int, quizScore: Option<int>)

  function CompletionRequestOf(courseId: Id, lessonId: Id, timeSpent: Option<int>, quizScore: Option<int>): (r: CompletionRequest)
    ensures timeSpent.None? ==> r.timeSpent == 0
    ensures timeSpent.Some? ==> r.timeSpent == timeSpent.value
    ensures r.courseId == courseId && r.lessonId == lessonId && r.quizScore == quizScore
  {
    CompletionRequest(courseId, lessonId, if timeSpent.Some? then timeSpent.value else 0, quizScore)
  }

  class Dashboard {
    var enrolledCourses: seq<Course>
    var availableCourses: seq<CatalogCourse>
    var notifications: seq<Notification>
    var certificates: seq<Certificate>
    var loading: bool
    var error: Option<string>

    constructor ()
      ensures State() == Snapshot([], [], [], [], None) && loading
    {
      enrolledCourses, availableCourses, notifications, certificates := [], [], [], [];
      loading, error := true, None;
    }

    function State(): Snapshot
      reads this
    {
      Snapshot(enrolledCourses, availableCourses, notifications, certificates, error)
    }

    /** fetchDashboardData: the error is cleared, the requests are made one
        after another, each list is set as its answer comes, the first
        failure stops the rest and sets the error, and loading ends. */
    method Refresh(a: Answers)
      modifies this
      ensures State() == Refreshed(old(State()), a)
      ensures !loading
    {
      loading := true;
      error := None;
      match a.enrolled {
        case Failed(m) =>
          error := Some(TextOr(m, "Failed to load dashboard data"));
        case Got(e) =>
          enrolledCourses := NormaliseAll(EnrolledList(e));
          match a.catalog {
            case Failed(m) =>
              error := Some(TextOr(m, "Failed to load dashboard data"));
            case Got(all) =>
              availableCourses := Available(ListOr(all), enrolledCourses);
              match a.certificates {
                case Failed(m) =>
                  error := Some(TextOr(m, "Failed to load dashboard data"));
                case Got(certs) =>
                  certificates := ListOr(certs);
                  match a.notifications {
                    case Failed(m) =>
                      error := Some(TextOr(m, "Failed to load dashboard data"));
                    case Got(notes) =>
                      notifications := ListOr(notes);
                  }
              }
          }
      }
      loading := false;
    }

    /** enrollInCourse: on success the dashboard is refreshed and the
        result is true, whatever the refresh meets (it handles its own
        failures); on failure nothing changes and the result is false. */
    method EnrollInCourse(courseId: Id, enrolled: bool, a: Answers) returns (ok: bool)
      modifies this
      ensures ok == enrolled
      ensures enrolled ==> State() == Refreshed(old(State()), a) && !loading
      ensures !enrolled ==> State() == old(State()) && loading == old(loading)
    {
      if !enrolled {
        return false;
      }
      Refresh(a);
      ok := true;
    }

    /** completeLesson: the request sent, then as for enrolling. */
    method CompleteLesson(courseId: Id, lessonId: Id, timeSpent: Option<int>, quizScore: Option<int>, completed: bool, a: Answers)
      returns (request: CompletionRequest, ok: bool)
      modifies this
      ensures request == CompletionRequestOf(courseId, lessonId, timeSpent, quizScore)
      ensures ok == completed
      ensures completed ==> State() == Refreshed(old(State()), a) && !loading
      ensures !completed ==> State() == old(State()) && loading == old(loading)
    {
      request := CompletionRequestOf(courseId, lessonId, timeSpent, quizScore);
      ok := completed;
      if completed {
        Refresh(a);
      }
    }

    /** continueLearning: the last-accessed update is sent only for an
        enrolled course; the result is false only when that update fails. */
    method ContinueLearning(courseId: Id, updated: bool) returns (sent: bool, ok: bool)
      ensures sent <==> Enrolled(courseId, enrolledCourses)
      ensures ok <==> !sent || updated
    {
      sent := FirstIndex(enrolledCourses, (c: Course) => c.id == courseId).Some?;
      ok := !sent || updated;
    }

    /** markNotificationAsRead: on success only the notifications with
        that id change, to read at `now`. */
    method MarkNotificationAsRead(id: string, now: Time, succeeded: bool) returns (ok: bool)
      modifies this
      ensures ok == succeeded
      ensures State() == if succeeded then old(State()).(notifications := NotificationCenter.MarkRead(old(notifications), id, now)) else old(State())
      ensures loading == old(loading)
    {
      ok := succeeded;
      if succeeded {
        notifications := NotificationCenter.MarkRead(notifications, id, now);
      }
    }

    /** markAllNotificationsAsRead: on success every notification is read. */
    method MarkAllNotificationsAsRead(now: Time, succeeded: bool) returns (ok: bool)
      modifies this
      ensures ok == succeeded
      ensures State() == if succeeded then old(State()).(notifications := NotificationCenter.MarkAllRead(old(notifications), now)) else old(State())
      ensures loading == old(loading)
    {
      ok := succeeded;
      if succeeded {
        notifications := NotificationCenter.MarkAllRead(notifications, now);
      }
    }

    /** deleteNotification: on success the notifications with that id go. */
    method DeleteNotification(id: string, succeeded: bool) returns (ok: bool)
      modifies this
      ensures ok == succeeded
      ensures State() == if succeeded then old(State()).(notifications := NotificationCenter.Without(old(notifications), id)) else old(State())
      ensures loading == old(loading)
    {
      ok := succeeded;
      if succeeded {
        notifications := NotificationCenter.Without(notifications, id);
      }
    }
  }

  /** downloadCertificate's file name. */
  function CertificateFileName(id: string): (r: string)
    ensures |r| == |id| + 16
    ensures r[..12] == "certificate-" && r[|r| - 4..] == ".pdf" && r[12..|r| - 4] == id
  {
    "certificate-" + id + ".pdf"
  }
}
