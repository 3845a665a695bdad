// The administrator's dashboard (client/src/pages/AdminDashboard.jsx): the
// course status each moderation button asks for, the account status each
// user button asks for, the user and course filters, and the shares shown
// on the overview.  The requests themselves go to the backend; here each
// handler is the request it sends.
module AdminDashboard {
  import opened Common

  // ---------------------------------------------------------------------
  // Course moderation

  /** A course as the dashboard lists it; a missing title or status is
      `None`, and a missing `isPublished` reads as false. */
  datatype Course = Course(id: Id, title: Option<string>, isPublished: bool, status: Option<string>)

  /** handleCourseStatusChange's map from button action to course status:
      publish, unpublish and archive are translated, and anything else is
      sent as the status itself. */
  function StatusFor(action: string): (r: string)
    ensures action == "publish" ==> r == "published"
    ensures action == "unpublish" ==> r == "draft"
    ensures action == "archive" ==> r == "archived"
    ensures action != "publish" && action != "unpublish" && action != "archive" ==> r == action
  {
    match action
    case "publish" => "published"
    case "unpublish" => "draft"
    case "archive" => "archived"
    case _ => action
  }

  /** The status sent is never a bare action word, and sending a status
      through the map again leaves it as it is. */
  lemma StatusForSettles(action: string)
    ensures StatusFor(action) !in {"publish", "unpublish", "archive"}
    ensures StatusFor(StatusFor(action)) == StatusFor(action)
  {
  }

  /** The request `updateCourseStatus(courseId, status)`. */
  datatype StatusRequest = StatusRequest(courseId: Id, status: string)

  function CourseStatusRequest(courseId: Id, action: string): (r: StatusRequest)
    ensures r.courseId == courseId && r.status == StatusFor(action)
  {
    StatusRequest(courseId, StatusFor(action))
  }

  /** The card's button: Unpublish on a published course, else Publish. */
  function ToggleAction(c: Course): string
  {
    if c.isPublished then "unpublish" else "publish"
  }

  /** The review buttons.  Reject passes a reason as a third argument, which
      the two-parameter handler never sees. */
  function ApproveRequest(courseId: Id): StatusRequest
  {
    CourseStatusRequest(courseId, "published")
  }

  function RejectRequest(courseId: Id, reason: string): StatusRequest
  {
    CourseStatusRequest(courseId, "draft")
  }

  /** The card's button asks for the opposite of the course's published
      state; Approve asks for published and Reject for draft; and the
      reason given to Reject makes no difference to the request. */
  lemma ModerationRequests(c: Course, r1: string, r2: string)
    ensures CourseStatusRequest(c.id, ToggleAction(c)).status == (if c.isPublished then "draft" else "published")
    ensures ApproveRequest(c.id) == StatusRequest(c.id, "published")
    ensures RejectRequest(c.id, r1) == StatusRequest(c.id, "draft")
    ensures RejectRequest(c.id, r1) == RejectRequest(c.id, r2)
  {
  }

  /** The badge of a course card: Published, else its status, else Draft. */
  function CourseBadge(c: Course): (r: string)
    ensures c.isPublished ==> r == "Published"
    ensures !c.isPublished && c.status.Some? && c.status.value != "" ==> r == c.status.value
    ensures !c.isPublished && (c.status.None? || c.status.value == "") ==> r == "Draft"
  {
    if c.isPublished then "Published"
    else if c.status.Some? && c.status.value != "" then c.status.value
    else "Draft"
  }

  // ---------------------------------------------------------------------
  // Users

  /** A user as the dashboard lists it; `isActive` is `None` when absent. */
  datatype User = User(id: Id, name: Option<string>, email: Option<string>, role: string, isActive: Option<bool>)

  /** Shown as active unless `isActive` is exactly false. */
  predicate ShownActive(u: User)
  {
    u.isActive != Some(false)
  }

  /** The status button's action: deactivate an active user, else activate. */
  function StatusAction(u: User): string
  {
    if ShownActive(u) then "deactivate" else "activate"
  }

  /** handleUserStatusChange sends `isActive: action === 'activate'`. */
  function IsActiveSent(action: string): bool
  {
    action == "activate"
  }

  /** The button flips what the table shows: once the value sent is stored,
      the user is shown with the other status. */
  lemma StatusButtonFlips(u: User)
    ensures IsActiveSent(StatusAction(u)) == !ShownActive(u)
    ensures ShownActive(u.(isActive := Some(IsActiveSent(StatusAction(u))))) == !ShownActive(u)
  {
  }

  /** `field?.toLowerCase().includes(term.toLowerCase())`: a missing field
      matches nothing. */
  predicate FieldMatches(field: Option<string>, term: string)
  {
    field.Some? && ContainsIgnoreCase(field.value, term)
  }

  /** filteredUsers' test: the name or the email matches the term, and the
      role is the one selected unless 'all' is. */
  predicate KeepUser(u: User, term: string, role: string)
  {
    (FieldMatches(u.name, term) || FieldMatches(u.email, term)) && (role == "all" || u.role == role)
  }

  function FilteredUsers(users: seq<User>, term: string, role: string): (r: seq<User>)
    ensures forall u :: u in r <==> u in users && KeepUser(u, term, role)
  {
    Filter(users, (u: User) => KeepUser(u, term, role))
  }

  /** With no term and 'all' roles, the table keeps exactly the users that
      have a name or an email; a role filter keeps only that role. */
  lemma UserFilterFacts(users: seq<User>, term: string, role: string)
    ensures forall u :: u in FilteredUsers(users, "", "all") <==> u in users && (u.name.Some? || u.email.Some?)
    ensures role != "all" ==> forall u :: u in FilteredUsers(users, term, role) ==> u.role == role
  {
    forall u: User
      ensures FieldMatches(u.name, "") <==> u.name.Some?
      ensures FieldMatches(u.email, "") <==> u.email.Some?
    {
      if u.name.Some? {
        ContainsEmpty(ToLower(u.name.value));
      }
      if u.email.Some? {
        ContainsEmpty(ToLower(u.email.value));
      }
    }
  }

  // ---------------------------------------------------------------------
  // Courses

  /** filteredCourses' status test.  The tests are joined by `||`, so a
      course whose status equals the selection is kept under 'published'
      and 'unpublished' too. */
  predicate StatusMatches(c: Course, selected: string)
  {
    selected == "all" ||
    (selected == "published" && c.isPublished) ||
    (selected == "unpublished" && !c.isPublished) ||
    c.status == Some(selected)
  }

  predicate KeepCourse(c: Course, term: string, selected: string)
  {
    FieldMatches(c.title, term) && StatusMatches(c, selected)
  }

  function FilteredCourses(courses: seq<Course>, term: string, selected: string): (r: seq<Course>)
    ensures forall c :: c in r <==> c in courses && KeepCourse(c, term, selected)
  {
    Filter(courses, (c: Course) => KeepCourse(c, term, selected))
  }

  /** What each selection keeps, among the courses whose title matches:
      'all' keeps them all, 'published' the published ones and those whose
      status reads "published", 'unpublished' the unpublished ones and
      those whose status reads "unpublished", and any other selection the
      courses with that status.  A course without a title is never kept. */
  lemma CourseFilterFacts(courses: seq<Course>, term: string, selected: string)
    ensures forall c :: c in courses && FieldMatches(c.title, term) ==>
      (c in FilteredCourses(courses, term, "all")) &&
      (c in FilteredCourses(courses, term, "published") <==> c.isPublished || c.status == Some("published")) &&
      (c in FilteredCourses(courses, term, "unpublished") <==> !c.isPublished || c.status == Some("unpublished"))
    ensures selected !in {"all", "published", "unpublished"} ==>
      forall c :: c in FilteredCourses(courses, term, selected) <==>
        c in courses && FieldMatches(c.title, term) && c.status == Some(selected)
    ensures forall c :: c in FilteredCourses(courses, term, selected) ==> c.title.Some?
  {
  }

  // ---------------------------------------------------------------------
  // The overview

  /** `Math.round(((part || 0) / (total || 1)) * 100)`: a missing or zero
      total divides by one. */
  function Share(part: Option<nat>, total: Option<nat>): (r: int)
    ensures var p := if part.Some? then part.value else 0;
      var t := if total.Some? && total.value > 0 then total.value else 1;
      2 * t * r - t <= 200 * p < 2 * t * r + t
  {
    var p := if part.Some? then part.value else 0;
    var t := if total.Some? && total.value > 0 then total.value else 1;
    Percent(p, t)
  }

  /** A part of the users shows between 0% and 100% of them, all of them
      show 100%, and with the total missing or zero the share reads as a
      hundred times the part. */
  lemma ShareRange(part: nat, total: Option<nat>)
    ensures total.Some? && part <= total.value && total.value > 0 ==>
      0 <= Share(Some(part), total) <= 100 && Share(total, total) == 100
    ensures total.None? || total.value == 0 ==> Share(Some(part), total) == 100 * part
  {
    if total.Some? && total.value > 0 {
      if part <= total.value {
        PercentBounds(part, total.value);
        PercentOfWhole(total.value);
      }
    } else {
      RoundDivUnique(100 * part, 1, 100 * part);
    }
  }

  /** Students and instructors are disjoint parts of the users, so their
      rounded shares add up to at most 101: each rounding can add half a
      percent. */
  lemma {:induction false} SharesAddUp(students: nat, instructors: nat, total: nat)
    requires students + instructors <= total && total > 0
    ensures Share(Some(students), Some(total)) + Share(Some(instructors), Some(total)) <= 101
  {
    var a := Share(Some(students), Some(total));
    var b := Share(Some(instructors), Some(total));
    assert a == Percent(students, total) && b == Percent(instructors, total);
    assert 2 * total * (a + b) - 2 * total <= 200 * (students + instructors);
    assert 2 * total * (a + b - 102) < 0;
    MulSign(2 * total, a + b - 102);
  }

  /** The recent-activity list: the first five notifications, each by its
      message or "System activity". */
  function RecentActivity(messages: seq<Option<string>>): (r: seq<string>)
    ensures |r| == Min(5, |messages|)
    ensures forall i :: 0 <= i < |r| ==>
      r[i] == (if messages[i].Some? && messages[i].value != "" then messages[i].value else "System activity")
  {
    var shown := if |messages| > 5 then messages[..5] else messages;
    seq(|shown|, i requires 0 <= i < |shown| =>
      if shown[i].Some? && shown[i].value != "" then shown[i].value else "System activity")
  }
}
