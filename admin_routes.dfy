// The admin routes (server/routes/admin.js): every route is restricted to
// admins; user listing, inspection, editing and deletion; the course
// listing over published and unpublished courses, deletion and the
// featured toggle; and the dashboard statistics.
module AdminRoutes {
  import opened Common
  import opened Documents
  import CourseRoutes

  // ---------------------------------------------------------------------
  // The guard

  /** `restrictTo('admin')` on the router: only an admin gets past it. */
  predicate IsAdmin(role: string)
  {
    role == "admin"
  }

  /** What a route answers for a caller whose role is `role`: the refusal
      (403) before the handler runs, or the handler's own outcome. */
  function Guarded<T>(role: string, db: Db, handler: Outcome<T>): (o: Outcome<T>)
    ensures !IsAdmin(role) ==> o == Outcome(db, Error(403))
    ensures IsAdmin(role) ==> o == handler
  {
    if IsAdmin(role) then handler else Outcome(db, Error(403))
  }

  /** A user as the routes send it: `.select('-password')`. */
  function Public(u: User): (r: User)
    ensures r.password.None?
    ensures r.(password := u.password) == u
  {
    u.(password := None)
  }

  // ---------------------------------------------------------------------
  // GET /users

  /** The query the listing builds: the role if one is given, and a
      case-insensitive match of the search text on the name or the e-mail
      address if one is given. */
  predicate UserMatches(u: User, role: string, search: string)
  {
    (role == [] || u.role == role) &&
    (search == [] || ContainsIgnoreCase(u.name, search) || ContainsIgnoreCase(u.email, search))
  }

  function UsersMatching(us: seq<User>, role: string, search: string): (r: seq<User>)
    ensures |r| <= |us|
    ensures forall u :: u in r <==> u in us && UserMatches(u, role, search)
  {
    Filter(us, (u: User) => UserMatches(u, role, search))
  }

  datatype UserListing = UserListing(users: seq<User>, totalPages: Option<int>, currentPage: int, total: nat)

  /** One page of the matching users of `us` (the collection in the
      requested sort order), without their passwords; a negative skip makes
      the query fail (500). */
  function ListUsers(callerRole: string, us: seq<User>, role: string, search: string, page: int, limit: int): (r: Response<UserListing>)
    ensures !IsAdmin(callerRole) ==> r == Error(403)
    ensures r.Success? <==> IsAdmin(callerRole) && (page - 1) * limit >= 0
    ensures r.Success? ==>
      r.body.total == |UsersMatching(us, role, search)| && r.body.currentPage == page &&
      r.body.totalPages == PageCount(|UsersMatching(us, role, search)|, limit)
    ensures r.Success? ==> forall k :: 0 <= k < |r.body.users| ==>
      r.body.users[k].password.None? &&
      exists u :: u in us && UserMatches(u, role, search) && r.body.users[k] == Public(u)
    ensures r.Success? && limit > 0 ==> |r.body.users| <= limit
    ensures r.Success? ==>
      var window := Paginate(UsersMatching(us, role, search), page, limit).body;
      |r.body.users| == |window| && forall k :: 0 <= k < |window| ==> r.body.users[k] == Public(window[k])
  {
    if !IsAdmin(callerRole) then Error(403)
    else
      var matching := UsersMatching(us, role, search);
      match Paginate(matching, page, limit)
      case Error(status) => Error(status)
      case Success(_, items) =>
        Success(200, UserListing(seq(|items|, k requires 0 <= k < |items| => Public(items[k])),
                                 PageCount(|matching|, limit), page, |matching|))
  }

  /** Without a role or a search text every user is listed. */
  lemma NoFilterListsEveryone(us: seq<User>)
    ensures UsersMatching(us, [], []) == us
  {
    FilterKeepsAll(us, (u: User) => UserMatches(u, [], []));
  }

  // ---------------------------------------------------------------------
  // GET /users/:id

  function GetUser(callerRole: string, db: Db, id: Id): (r: Response<User>)
    ensures !IsAdmin(callerRole) ==> r == Error(403)
    ensures IsAdmin(callerRole) && id !in db.users ==> r == Error(404)
    ensures r.Success? ==> id in db.users && r.body == Public(db.users[id])
  {
    if !IsAdmin(callerRole) then Error(403)
    else if id !in db.users then Error(404)
    else Success(200, Public(db.users[id]))
  }

  // ---------------------------------------------------------------------
  // PUT /users/:id

  /** The request body; `isActive` is absent when the body leaves it out. */
  datatype UserEdit = UserEdit(name: string, email: string, role: string, isActive: Option<bool>)

  /** The update: a non-empty name, e-mail address or role replaces the
      stored one (the name trimmed by the schema); `isActive` is set
      whenever it is given, false included. */
  function Edited(u: User, e: UserEdit): (r: User)
    ensures r.name == (if e.name != [] then Trim(e.name) else u.name)
    ensures r.email == (if e.email != [] then e.email else u.email)
    ensures r.role == (if e.role != [] then e.role else u.role)
    ensures r.isActive == (if e.isActive.Some? then e.isActive.value else u.isActive)
    ensures r.(name := u.name, email := u.email, role := u.role, isActive := u.isActive) == u
  {
    var u1 := if e.name != [] then u.(name := Trim(e.name)) else u;
    var u2 := if e.email != [] then u1.(email := e.email) else u1;
    var u3 := if e.role != [] then u2.(role := e.role) else u2;
    if e.isActive.Some? then u3.(isActive := e.isActive.value) else u3
  }

  /** What `user.save()` checks of the edited fields: the name rule, a
      non-empty address no other user has, and a role of the enumeration. */
  predicate SaveValid(users: map<Id, User>, id: Id, u: User)
  {
    NameAcceptable(u.name) && u.email != [] && u.role in Roles &&
    forall other :: other in users && other != id ==> users[other].email != u.email
  }

  datatype UserBrief = UserBrief(id: Id, name: string, email: string, role: string, isActive: bool)

  /** 404 for an unknown user; a save that fails validation (500) changes
      nothing; otherwise the edited user is stored and summarised. */
  function UpdateUser(callerRole: string, db: Db, id: Id, e: UserEdit): (o: Outcome<UserBrief>)
    ensures o.response.Error? ==> o.db == db
    ensures !IsAdmin(callerRole) ==> o.response == Error(403)
    ensures IsAdmin(callerRole) && id !in db.users ==> o.response == Error(404)
    ensures o.response.Success? <==>
      IsAdmin(callerRole) && id in db.users && SaveValid(db.users, id, Edited(db.users[id], e))
    ensures o.response.Success? ==>
      var u := Edited(db.users[id], e);
      o.db == db.(users := db.users[id := u]) &&
      o.response.body == UserBrief(id, u.name, u.email, u.role, u.isActive)
  {
    Guarded(callerRole, db,
      if id !in db.users then Outcome(db, Error(404))
      else
        var u := Edited(db.users[id], e);
        if !SaveValid(db.users, id, u) then Outcome(db, Error(500))
        else Outcome(db.(users := db.users[id := u]), Success(200, UserBrief(id, u.name, u.email, u.role, u.isActive))))
  }

  /** Deactivating takes effect: `isActive: false` is applied, and empty
      strings keep the other fields. */
  lemma DeactivationApplies(callerRole: string, db: Db, id: Id)
    requires IsAdmin(callerRole) && id in db.users
    requires SaveValid(db.users, id, db.users[id].(isActive := false))
    ensures var o := UpdateUser(callerRole, db, id, UserEdit([], [], [], Some(false)));
      o.response.Success? && id in o.db.users && !o.db.users[id].isActive &&
      o.db.users[id] == db.users[id].(isActive := false)
  {
  }

  /** Sending the same edit twice leaves the database as after once. */
  lemma UpdateUserIdempotent(callerRole: string, db: Db, id: Id, e: UserEdit)
    requires UpdateUser(callerRole, db, id, e).response.Success?
    ensures var d1 := UpdateUser(callerRole, db, id, e).db;
      UpdateUser(callerRole, d1, id, e).response.Success? && UpdateUser(callerRole, d1, id, e).db == d1
  {
    var u := Edited(db.users[id], e);
    var d1 := db.(users := db.users[id := u]);
    assert UpdateUser(callerRole, db, id, e).db == d1;
    EditedIdempotent(db.users[id], e);
    SaveValidAfterSave(db.users, id, u);
    assert d1.users[id := u] == d1.users;
  }

  lemma EditedIdempotent(u: User, e: UserEdit)
    ensures Edited(Edited(u, e), e) == Edited(u, e)
  {
  }

  /** Storing a user that passed validation keeps it valid. */
  lemma SaveValidAfterSave(users: map<Id, User>, id: Id, u: User)
    requires SaveValid(users, id, u)
    ensures SaveValid(users[id := u], id, u)
  {
  }

  /** The handler's assignments, one field at a time. */
  method UpdateUserOn(db: Database, callerRole: string, id: Id, e: UserEdit) returns (r: Response<UserBrief>)
    modifies db
    ensures Outcome(db.State(), r) == UpdateUser(callerRole, old(db.State()), id, e)
  {
    if !IsAdmin(callerRole) {
      return Error(403);
    }
    if id !in db.users {
      return Error(404);
    }
    var user := db.users[id];
    if e.name != [] {
      user := user.(name := Trim(e.name));
    }
    if e.email != [] {
      user := user.(email := e.email);
    }
    if e.role != [] {
      user := user.(role := e.role);
    }
    if e.isActive.Some? {
      user := user.(isActive := e.isActive.value);
    }
    assert user == Edited(db.users[id], e);
    if !SaveValid(db.users, id, user) {
      return Error(500);
    }
    db.users := db.users[id := user];
    r := Success(200, UserBrief(id, user.name, user.email, user.role, user.isActive));
  }

  // ---------------------------------------------------------------------
  // DELETE /users/:id

  /** 404 for an unknown user, otherwise the user document is removed and
      nothing else: the courses it created or is enrolled in keep their
      references. */
  function DeleteUser(callerRole: string, db: Db, id: Id): (o: Outcome<()>)
    ensures o.response.Error? ==> o.db == db
    ensures !IsAdmin(callerRole) ==> o.response == Error(403)
    ensures o.response.Success? <==> IsAdmin(callerRole) && id in db.users
    ensures o.response.Success? ==> o.db == db.(users := db.users - {id}) && id !in o.db.users
  {
    Guarded(callerRole, db,
      if id !in db.users then Outcome(db, Error(404))
      else Outcome(db.(users := db.users - {id}), Success(200, ())))
  }

  // ---------------------------------------------------------------------
  // GET /courses

  /** The query: a case-insensitive match on the title or description, the
      category if one is given, and `isPublished`, when the parameter is
      present at all, equal to whether it is the text "true". */
  predicate CourseMatches(c: Course, search: string, category: string, isPublished: Option<string>)
  {
    (search == [] || ContainsIgnoreCase(c.title, search) || ContainsIgnoreCase(c.description, search)) &&
    (category == [] || c.category == category) &&
    (isPublished.Some? ==> c.isPublished == (isPublished.value == "true"))
  }

  function CoursesMatching(cs: seq<Course>, search: string, category: string, isPublished: Option<string>): (r: seq<Course>)
    ensures |r| <= |cs|
    ensures forall c :: c in r <==> c in cs && CourseMatches(c, search, category, isPublished)
  {
    Filter(cs, (c: Course) => CourseMatches(c, search, category, isPublished))
  }

  datatype CourseListing = CourseListing(courses: seq<Course>, totalPages: Option<int>, currentPage: int, total: nat)

  function ListCourses(callerRole: string, cs: seq<Course>, search: string, category: string,
                       isPublished: Option<string>, page: int, limit: int): (r: Response<CourseListing>)
    ensures !IsAdmin(callerRole) ==> r == Error(403)
    ensures r.Success? <==> IsAdmin(callerRole) && (page - 1) * limit >= 0
    ensures r.Success? ==>
      r.body.total == |CoursesMatching(cs, search, category, isPublished)| && r.body.currentPage == page &&
      r.body.totalPages == PageCount(|CoursesMatching(cs, search, category, isPublished)|, limit)
    ensures r.Success? ==> forall c :: c in r.body.courses ==> c in cs && CourseMatches(c, search, category, isPublished)
    ensures r.Success? && limit > 0 ==> |r.body.courses| <= limit
    ensures r.Success? ==> r.body.courses == Paginate(CoursesMatching(cs, search, category, isPublished), page, limit).body
  {
    if !IsAdmin(callerRole) then Error(403)
    else
      var matching := CoursesMatching(cs, search, category, isPublished);
      match Paginate(matching, page, limit)
      case Error(status) => Error(status)
      case Success(_, items) => Success(200, CourseListing(items, PageCount(|matching|, limit), page, |matching|))
  }

  /** Any value of `isPublished` other than "true" ("false", "yes", "")
      selects the unpublished courses, and "true" the published ones; the
      two listings split the courses between them. */
  lemma PublishedFilterSplits(cs: seq<Course>, other: string)
    requires other != "true"
    ensures forall c :: c in CoursesMatching(cs, [], [], Some("true")) <==> c in cs && c.isPublished
    ensures forall c :: c in CoursesMatching(cs, [], [], Some(other)) <==> c in cs && !c.isPublished
  {
  }

  // ---------------------------------------------------------------------
  // DELETE /courses/:id

  /** 404 for an unknown course; otherwise, whoever its instructor is, the
      course is removed and pulled from its instructor's created courses. */
  function DeleteCourse(callerRole: string, db: Db, courseId: Id): (o: Outcome<()>)
    ensures !IsAdmin(callerRole) ==> o == Outcome(db, Error(403))
    ensures IsAdmin(callerRole) && courseId !in db.courses ==> o == Outcome(db, Error(404))
    ensures o.response.Success? ==> courseId in db.courses && courseId !in o.db.courses
  {
    Guarded(callerRole, db,
      if courseId !in db.courses then Outcome(db, Error(404))
      else
        var c := db.courses[courseId];
        var users := if c.instructor in db.users
          then db.users[c.instructor := db.users[c.instructor].(createdCourses := RemoveAll(db.users[c.instructor].createdCourses, courseId))]
          else db.users;
        Outcome(db.(courses := db.courses - {courseId}, users := users), Success(200, ())))
  }

  /** The admin deletion is the owner's deletion in the course routes,
      without the ownership check: it succeeds for every existing course. */
  lemma AdminDeleteIsOwnerDelete(db: Db, caller: Id, courseId: Id)
    ensures DeleteCourse("admin", db, courseId) == CourseRoutes.DeleteCourse(db, caller, "admin", courseId)
    ensures DeleteCourse("admin", db, courseId).response.Success? <==> courseId in db.courses
  {
  }

  // ---------------------------------------------------------------------
  // PUT /courses/:id/featured

  datatype FeaturedReply = FeaturedReply(message: string, isFeatured: bool)

  /** The reply's message for the new state. */
  function FeaturedMessage(featured: bool): string
  {
    "Course " + (if featured then "featured" else "unfeatured") + " successfully"
  }

  /** 404 for an unknown course; otherwise `isFeatured` is negated and the
      reply names the new state. */
  function ToggleFeatured(callerRole: string, db: Db, courseId: Id): (o: Outcome<FeaturedReply>)
    ensures o.response.Error? ==> o.db == db
    ensures !IsAdmin(callerRole) ==> o.response == Error(403)
    ensures o.response.Success? <==> IsAdmin(callerRole) && courseId in db.courses
    ensures o.response.Success? ==>
      var c := db.courses[courseId];
      o.db == db.(courses := db.courses[courseId := c.(isFeatured := !c.isFeatured)]) &&
      o.response.body == FeaturedReply(FeaturedMessage(!c.isFeatured), !c.isFeatured)
  {
    Guarded(callerRole, db,
      if courseId !in db.courses then Outcome(db, Error(404))
      else
        var c := db.courses[courseId].(isFeatured := !db.courses[courseId].isFeatured);
        Outcome(db.(courses := db.courses[courseId := c]), Success(200, FeaturedReply(FeaturedMessage(c.isFeatured), c.isFeatured))))
  }

  /** Toggling twice restores the database. */
  lemma ToggleTwiceRestores(callerRole: string, db: Db, courseId: Id)
    requires IsAdmin(callerRole) && courseId in db.courses
    ensures ToggleFeatured(callerRole, ToggleFeatured(callerRole, db, courseId).db, courseId).db == db
  {
    var c := db.courses[courseId];
    assert c.(isFeatured := !c.isFeatured).(isFeatured := c.isFeatured) == c;
    assert db.courses[courseId := c] == db.courses;
  }

  method ToggleFeaturedOn(db: Database, callerRole: string, courseId: Id) returns (r: Response<FeaturedReply>)
    modifies db
    ensures Outcome(db.State(), r) == ToggleFeatured(callerRole, old(db.State()), courseId)
  {
    if !IsAdmin(callerRole) {
      return Error(403);
    }
    if courseId !in db.courses {
      return Error(404);
    }
    var course := db.courses[courseId];
    course := course.(isFeatured := !course.isFeatured);
    db.courses := db.courses[courseId := course];
    r := Success(200, FeaturedReply(FeaturedMessage(course.isFeatured), course.isFeatured));
  }

  /** A caller who is not an admin changes nothing through any route. */
  lemma OnlyAdminsWrite(callerRole: string, db: Db, id: Id, e: UserEdit)
    requires !IsAdmin(callerRole)
    ensures UpdateUser(callerRole, db, id, e) == Outcome(db, Error(403))
    ensures DeleteUser(callerRole, db, id) == Outcome(db, Error(403))
    ensures DeleteCourse(callerRole, db, id) == Outcome(db, Error(403))
    ensures ToggleFeatured(callerRole, db, id) == Outcome(db, Error(403))
  {
  }

  // ---------------------------------------------------------------------
  // GET /stats

  /** The number of documents of `us` with the given role. */
  function CountRole(us: seq<User>, role: string): (r: nat)
    ensures r <= |us|
  {
    if us == [] then 0 else CountRole(us[..|us| - 1], role) + if us[|us| - 1].role == role then 1 else 0
  }

  /** Students and instructors together are at most all the users. */
  lemma {:induction false} RoleCountsBounded(us: seq<User>)
    ensures CountRole(us, "student") + CountRole(us, "instructor") <= |us|
  {
    if us != [] {
      RoleCountsBounded(us[..|us| - 1]);
    }
  }

  /** `$unwind: '$enrolledStudents'`: one entry per enrolment of each
      course, courses in order. */
  function Unwound(cs: seq<Course>): seq<(Id, Enrollment)>
  {
    if cs == [] then []
    else Unwound(cs[..|cs| - 1]) + seq(|cs[|cs| - 1].enrolledStudents|, k requires 0 <= k < |cs[|cs| - 1].enrolledStudents| =>
                                          (cs[|cs| - 1].id, cs[|cs| - 1].enrolledStudents[k]))
  }

  function Enrolments(c: Course): int
  {
    |c.enrolledStudents|
  }

  /** The unwound list has one entry per enrolment. */
  lemma {:induction false} UnwoundLength(cs: seq<Course>)
    ensures |Unwound(cs)| == SumOf(cs, Enrolments)
  {
    if cs != [] {
      UnwoundLength(cs[..|cs| - 1]);
      SumOfAppend(cs[..|cs| - 1], [cs[|cs| - 1]], Enrolments);
      assert cs[..|cs| - 1] + [cs[|cs| - 1]] == cs;
    }
  }

  /** `enrollmentStats[0]?.totalEnrollments || 0`: the `$group` stage
      yields no document when nothing was unwound, so the total is 0
      then. */
  function TotalEnrollments(cs: seq<Course>): (r: nat)
    ensures r == SumOf(cs, Enrolments)
  {
    var unwound := Unwound(cs);
    var groups := if unwound == [] then [] else [|unwound|];
    UnwoundLength(cs);
    if groups == [] then 0 else groups[0]
  }

  /** The distinct categories of `cs`, in the order they first appear: the
      groups of the `$group` stage. */
  function Categories(cs: seq<Course>): (r: seq<string>)
    ensures NoDuplicates(r)
    ensures forall cat :: cat in r <==> exists i :: 0 <= i < |cs| && cs[i].category == cat
  {
    if cs == [] then []
    else
      var before := Categories(cs[..|cs| - 1]);
      AddToSetKeepsDistinct(before, cs[|cs| - 1].category);
      var r := AddToSet(before, cs[|cs| - 1].category);
      assert forall i :: 0 <= i < |cs| - 1 ==> cs[..|cs| - 1][i] == cs[i];
      r
  }

  /** The number of courses of `cs` in the category: a group's count. */
  function CoursesIn(cs: seq<Course>, cat: string): nat
  {
    if cs == [] then 0 else CoursesIn(cs[..|cs| - 1], cat) + if cs[|cs| - 1].category == cat then 1 else 0
  }

  /** A category has courses exactly when some course is in it. */
  lemma {:induction false} CoursesInPositive(cs: seq<Course>, cat: string)
    ensures CoursesIn(cs, cat) > 0 <==> exists i :: 0 <= i < |cs| && cs[i].category == cat
  {
    if cs != [] {
      CoursesInPositive(cs[..|cs| - 1], cat);
      assert forall i :: 0 <= i < |cs| - 1 ==> cs[..|cs| - 1][i] == cs[i];
    }
  }

  datatype CategoryGroup = CategoryGroup(category: string, count: nat)

  /** The categories ranked by their count, largest first; equal counts
      keep the order of first appearance. */
  function Ranked(cs: seq<Course>): (r: seq<string>)
    ensures |r| == |Categories(cs)| && NoDuplicates(r)
    ensures forall cat :: cat in r <==> cat in Categories(cs)
    ensures forall i, j :: 0 <= i < j < |r| ==> CoursesIn(cs, r[i]) >= CoursesIn(cs, r[j])
  {
    var key := (cat: string) => CoursesIn(cs, cat);
    var r := SortDesc(Categories(cs), key);
    SortDescSorted(Categories(cs), key);
    PermutationKeepsDistinct(Categories(cs), r);
    assert forall i, j :: 0 <= i < j < |r| ==> key(r[i]) >= key(r[j]);
    r
  }

  /** `$limit: 5` on the ranked categories. */
  function Top(cs: seq<Course>): (r: seq<string>)
    ensures |r| == Min(5, |Categories(cs)|) && r == Ranked(cs)[..|r|]
  {
    var ranked := Ranked(cs);
    if |ranked| <= 5 then ranked else ranked[..5]
  }

  /** `$sort: {count: -1}` then `$limit: 5`, each group with its count. */
  function TopCategories(cs: seq<Course>): (r: seq<CategoryGroup>)
    ensures |r| == |Top(cs)|
    ensures forall k :: 0 <= k < |r| ==> r[k] == CategoryGroup(Top(cs)[k], CoursesIn(cs, Top(cs)[k]))
  {
    var top := Top(cs);
    seq(|top|, k requires 0 <= k < |top| => CategoryGroup(top[k], CoursesIn(cs, top[k])))
  }

  /** The top categories: at most five, each a category of some course
      listed once with its number of courses, largest first. */
  lemma TopCategoriesRanked(cs: seq<Course>)
    ensures var top := TopCategories(cs);
      |top| == Min(5, |Categories(cs)|) &&
      (forall k :: 0 <= k < |top| ==>
        top[k].count == CoursesIn(cs, top[k].category) && top[k].count > 0 &&
        exists i :: 0 <= i < |cs| && cs[i].category == top[k].category) &&
      (forall k, l :: 0 <= k < l < |top| ==> top[k].count >= top[l].count && top[k].category != top[l].category)
  {
    var ranked := Ranked(cs);
    var top := TopCategories(cs);
    forall k | 0 <= k < |top|
      ensures top[k].count > 0 && exists i :: 0 <= i < |cs| && cs[i].category == top[k].category
    {
      assert ranked[k] in ranked;
      CoursesInPositive(cs, top[k].category);
    }
    forall k, l | 0 <= k < l < |top|
      ensures top[k].count >= top[l].count && top[k].category != top[l].category
    {
      assert top[k].category == ranked[k] && top[l].category == ranked[l];
    }
  }

  /** No category is passed over for one with fewer courses: when a
      category of some course is not listed, five are, and none of them has
      fewer courses than it. */
  lemma TopCategoriesComplete(cs: seq<Course>, i: int)
    requires 0 <= i < |cs|
    requires forall g :: g in TopCategories(cs) ==> g.category != cs[i].category
    ensures |TopCategories(cs)| == 5
    ensures forall g :: g in TopCategories(cs) ==> CoursesIn(cs, cs[i].category) <= g.count
  {
    var ranked := Ranked(cs);
    var top := TopCategories(cs);
    var cat := cs[i].category;
    assert cat in Categories(cs);
    var j :| 0 <= j < |ranked| && ranked[j] == cat;
    forall k | 0 <= k < |top|
      ensures ranked[k] != cat
    {
      assert top[k] in top;
    }
    assert j >= |top|;
    forall g | g in top
      ensures CoursesIn(cs, cat) <= g.count
    {
      var k :| 0 <= k < |top| && top[k] == g;
      assert ranked[k] == g.category;
    }
  }

  datatype Overview = Overview(
    totalUsers: nat, totalCourses: nat, totalStudents: nat, totalInstructors: nat,
    publishedCourses: nat, totalEnrollments: nat, recentUsers: nat)

  datatype AdminStats = AdminStats(overview: Overview, topCategories: seq<CategoryGroup>)

  function Published(cs: seq<Course>): (r: seq<Course>)
    ensures |r| <= |cs|
    ensures forall c :: c in r <==> c in cs && c.isPublished
  {
    Filter(cs, (c: Course) => c.isPublished)
  }

  /** Users registered at or after `since`. */
  function RegisteredSince(us: seq<User>, since: Time): (r: seq<User>)
    ensures |r| <= |us|
    ensures forall u :: u in r <==> u in us && u.createdAt >= since
  {
    Filter(us, (u: User) => u.createdAt >= since)
  }

  /** The dashboard over `us` and `cs`, the two collections, at time `now`:
      the counts, the users registered in the last thirty days, the
      enrolments and the top categories. */
  function Stats(callerRole: string, us: seq<User>, cs: seq<Course>, now: Time): (r: Response<AdminStats>)
    ensures r.Error? <==> !IsAdmin(callerRole)
    ensures r.Error? ==> r.status == 403
    ensures r.Success? ==>
      var o := r.body.overview;
      o.totalUsers == |us| && o.totalCourses == |cs| &&
      o.totalStudents == CountRole(us, "student") && o.totalInstructors == CountRole(us, "instructor") &&
      o.totalStudents + o.totalInstructors <= o.totalUsers &&
      o.publishedCourses <= o.totalCourses && o.recentUsers <= o.totalUsers &&
      o.publishedCourses == |Published(cs)| && o.recentUsers == |RegisteredSince(us, now - 30 * DayMs)| &&
      o.totalEnrollments == SumOf(cs, Enrolments) &&
      r.body.topCategories == TopCategories(cs)
  {
    if !IsAdmin(callerRole) then Error(403)
    else
      RoleCountsBounded(us);
      var overview := Overview(
        |us|, |cs|, CountRole(us, "student"), CountRole(us, "instructor"), |Published(cs)|,
        TotalEnrollments(cs), |RegisteredSince(us, now - 30 * DayMs)|);
      Success(200, AdminStats(overview, TopCategories(cs)))
  }

  /** Without enrolments the total is 0, not missing. */
  lemma NoEnrolmentsCountZero(callerRole: string, us: seq<User>, cs: seq<Course>, now: Time)
    requires IsAdmin(callerRole)
    requires forall i :: 0 <= i < |cs| ==> cs[i].enrolledStudents == []
    ensures Stats(callerRole, us, cs, now).Success? && Stats(callerRole, us, cs, now).body.overview.totalEnrollments == 0
  {
    SumOfBounds(cs, Enrolments, 0, 0);
  }
}
