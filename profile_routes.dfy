// The profile routes (server/routes/profile.js): the partial profile
// update, avatar and preferences, the password change, the public profile,
// user search, the statistics with their per-category enrolment counts,
// and deactivation.  Password hashing and comparison are the parameters
// `hash` and `matches`, as in AuthRoutes.
module ProfileRoutes {
  import opened Common
  import opened Documents

  // ---------------------------------------------------------------------
  // PUT /

  /** The body's fields; None is `undefined`.  A given name or date of
      birth counts only when non-empty (truthy); a given skills list or
      links object always counts, even when empty. */
  datatype ProfileInput = ProfileInput(
    name: string, bio: Option<string>, skills: Option<seq<string>>, location: Option<string>,
    phoneNumber: Option<string>, dateOfBirth: Option<Time>, socialLinks: Option<SocialLinks>)

  /** The `updateFields` object: None for a field left out of it. */
  datatype UserUpdate = UserUpdate(
    name: Option<string>, bio: Option<string>, skills: Option<seq<string>>, location: Option<string>,
    phoneNumber: Option<string>, dateOfBirth: Option<Time>, socialLinks: Option<SocialLinks>)

  /** Which fields the update carries: name only when non-empty, bio,
      location and phone number whenever given, so that they can be
      cleared. */
  function UpdateFields(p: ProfileInput): (f: UserUpdate)
    ensures f.name.Some? <==> p.name != []
    ensures f.name.Some? ==> f.name.value == p.name
    ensures f.bio == p.bio && f.location == p.location && f.phoneNumber == p.phoneNumber
    ensures f.skills == p.skills && f.dateOfBirth == p.dateOfBirth && f.socialLinks == p.socialLinks
  {
    UserUpdate(if p.name != [] then Some(p.name) else None, p.bio, p.skills, p.location,
               p.phoneNumber, p.dateOfBirth, p.socialLinks)
  }

  /** The handler's conditional assignments that build `updateFields`. */
  method BuildUpdateFields(p: ProfileInput) returns (f: UserUpdate)
    ensures f == UpdateFields(p)
  {
    f := UserUpdate(None, None, None, None, None, None, None);
    if p.name != [] {
      f := f.(name := Some(p.name));
    }
    if p.bio.Some? {
      f := f.(bio := p.bio);
    }
    if p.skills.Some? {
      f := f.(skills := p.skills);
    }
    if p.location.Some? {
      f := f.(location := p.location);
    }
    if p.phoneNumber.Some? {
      f := f.(phoneNumber := p.phoneNumber);
    }
    if p.dateOfBirth.Some? {
      f := f.(dateOfBirth := p.dateOfBirth);
    }
    if p.socialLinks.Some? {
      f := f.(socialLinks := p.socialLinks);
    }
  }

  /** `findByIdAndUpdate` with the fields: each carried field replaces the
      document's (the name trimmed by the schema). */
  function Applied(u: User, f: UserUpdate): User
  {
    u.(name := if f.name.Some? then Trim(f.name.value) else u.name,
       bio := if f.bio.Some? then f.bio.value else u.bio,
       skills := if f.skills.Some? then f.skills.value else u.skills,
       location := if f.location.Some? then f.location.value else u.location,
       phoneNumber := if f.phoneNumber.Some? then f.phoneNumber.value else u.phoneNumber,
       dateOfBirth := if f.dateOfBirth.Some? then f.dateOfBirth else u.dateOfBirth,
       socialLinks := if f.socialLinks.Some? then f.socialLinks else u.socialLinks)
  }

  /** `runValidators` checks only the fields being set. */
  predicate UpdateValid(f: UserUpdate)
  {
    (f.name.Some? ==> NameAcceptable(f.name.value)) && (f.bio.Some? ==> |f.bio.value| <= 500)
  }

  /** The profile update: a name or bio the validators refuse makes the
      update throw (500); for a caller that has gone the update finds
      nothing and the response carries null (None); otherwise the carried
      fields are written and nothing else. */
  function UpdateProfile(db: Db, caller: Id, p: ProfileInput): (o: Outcome<Option<User>>)
    ensures o.response.Error? <==> !UpdateValid(UpdateFields(p))
    ensures o.response.Error? ==> o == Outcome(db, Error(500))
    ensures o.response.Success? && caller !in db.users ==> o == Outcome(db, Success(200, None))
    ensures o.response.Success? && caller in db.users ==>
      var u := db.users[caller];
      var u' := Applied(u, UpdateFields(p));
      o.db == db.(users := db.users[caller := u']) && o.response.body == Some(u') &&
      u'.bio == (if p.bio.Some? then p.bio.value else u.bio) &&
      u'.name == (if p.name != [] then Trim(p.name) else u.name) &&
      u' == u.(name := u'.name, bio := u'.bio, skills := u'.skills, location := u'.location,
               phoneNumber := u'.phoneNumber, dateOfBirth := u'.dateOfBirth, socialLinks := u'.socialLinks)
  {
    var f := UpdateFields(p);
    if !UpdateValid(f) then Outcome(db, Error(500))
    else if caller !in db.users then Outcome(db, Success(200, None))
    else
      var u' := Applied(db.users[caller], f);
      Outcome(db.(users := db.users[caller := u']), Success(200, Some(u')))
  }

  /** Bio, location and phone number can be cleared by sending empty
      strings, while an empty name leaves the name alone. */
  lemma ProfileFieldsCanBeCleared(db: Db, caller: Id)
    requires caller in db.users
    ensures var p := ProfileInput("", Some(""), None, Some(""), Some(""), None, None);
      var o := UpdateProfile(db, caller, p);
      o.response.Success? &&
      o.db.users[caller].bio == [] && o.db.users[caller].location == [] && o.db.users[caller].phoneNumber == [] &&
      o.db.users[caller].name == db.users[caller].name
  {
  }

  /** Sending the same update twice has the effect of sending it once. */
  lemma UpdateProfileIdempotent(db: Db, caller: Id, p: ProfileInput)
    ensures var d := UpdateProfile(db, caller, p).db;
      UpdateProfile(d, caller, p).db == d
  {
    var f := UpdateFields(p);
    if UpdateValid(f) && caller in db.users {
      var u := db.users[caller];
      assert Applied(Applied(u, f), f) == Applied(u, f);
    }
  }

  // ---------------------------------------------------------------------
  // PUT /avatar  and  PUT /preferences

  /** 400 without an avatar URL; for a caller that has gone, reading the
      result's avatar throws (500); otherwise the avatar is replaced. */
  function UpdateAvatar(db: Db, caller: Id, avatar: string): (o: Outcome<string>)
    ensures avatar == [] ==> o == Outcome(db, Error(400))
    ensures o.response.Success? <==> avatar != [] && caller in db.users
    ensures o.response.Success? ==>
      o.response.body == avatar && o.db == db.(users := db.users[caller := db.users[caller].(avatar := avatar)])
  {
    if avatar == [] then Outcome(db, Error(400))
    else if caller !in db.users then Outcome(db, Error(500))
    else Outcome(db.(users := db.users[caller := db.users[caller].(avatar := avatar)]), Success(200, avatar))
  }

  /** 400 without preferences; for a caller that has gone, reading the
      result throws (500); otherwise the preferences are replaced whole. */
  function UpdatePreferences(db: Db, caller: Id, preferences: Option<Preferences>): (o: Outcome<Preferences>)
    ensures preferences.None? ==> o == Outcome(db, Error(400))
    ensures o.response.Success? <==> preferences.Some? && caller in db.users
    ensures o.response.Success? ==>
      o.response.body == preferences.value &&
      o.db == db.(users := db.users[caller := db.users[caller].(preferences := preferences.value)])
  {
    if preferences.None? then Outcome(db, Error(400))
    else if caller !in db.users then Outcome(db, Error(500))
    else
      Outcome(db.(users := db.users[caller := db.users[caller].(preferences := preferences.value)]),
              Success(200, preferences.value))
  }

  // ---------------------------------------------------------------------
  // PUT /password

  /** The password change: 400 unless both passwords are given, 400 for a
      new password under 6 characters, 400 when the current one does not
      match; a caller that has gone, or an account without a password,
      makes the check throw (500); otherwise the new password's hash is
      stored. */
  function ChangePassword(db: Db, caller: Id, current: string, new_: string,
                          matches: (string, string) -> bool, hash: string -> string): (o: Outcome<()>)
    ensures o.response.Error? ==> o.db == db
    ensures current == [] || new_ == [] || |new_| < 6 ==> o.response == Error(400)
    ensures o.response.Success? <==>
      current != [] && |new_| >= 6 && caller in db.users && db.users[caller].password.Some? &&
      matches(current, db.users[caller].password.value)
    ensures o.response.Success? ==>
      o.db == db.(users := db.users[caller := db.users[caller].(password := Some(hash(new_)))])
  {
    if current == [] || new_ == [] then Outcome(db, Error(400))
    else if |new_| < 6 then Outcome(db, Error(400))
    else if caller !in db.users then Outcome(db, Error(500))
    else
      var u := db.users[caller];
      match u.password
      case None => Outcome(db, Error(500))
      case Some(stored) =>
        if !matches(current, stored) then Outcome(db, Error(400))
        else Outcome(db.(users := db.users[caller := u.(password := Some(hash(new_)))]), Success(200, ()))
  }

  /** The handler on the database object: fetch, compare, assign, save. */
  method ChangePasswordOn(db: Database, caller: Id, current: string, new_: string,
                          matches: (string, string) -> bool, hash: string -> string) returns (r: Response<()>)
    modifies db
    ensures Outcome(db.State(), r) == ChangePassword(old(db.State()), caller, current, new_, matches, hash)
  {
    if current == [] || new_ == [] {
      return Error(400);
    }
    if |new_| < 6 {
      return Error(400);
    }
    if caller !in db.users {
      return Error(500);
    }
    var u := db.users[caller];
    if u.password.None? {
      return Error(500);
    }
    if !matches(current, u.password.value) {
      return Error(400);
    }
    u := u.(password := Some(hash(new_)));
    db.users := db.users[caller := u];
    r := Success(200, ());
  }

  // ---------------------------------------------------------------------
  // GET /public/:userId

  datatype PublicProfile = PublicProfile(
    name: string, avatar: string, bio: string, skills: seq<string>, location: string,
    socialLinks: Option<SocialLinks>, role: string, createdCourses: seq<Course>,
    totalLearningTime: int, certificatesEarned: int, coursesCompleted: int, createdAt: Time)

  /** The created courses that still exist, in order (populate drops the
      ids whose course has gone). */
  function ExistingCourses(courses: map<Id, Course>, ids: seq<Id>): (r: seq<Course>)
    ensures |r| <= |ids|
    ensures forall c :: c in r ==> c.id in ids && c.id in courses && courses[c.id] == c
  {
    if ids == [] then []
    else
      var rest := ExistingCourses(courses, ids[1..]);
      if ids[0] in courses && courses[ids[0]].id == ids[0] then [courses[ids[0]]] + rest else rest
  }

  /** 404 for an unknown user; otherwise the selected public fields, with
      no e-mail, password or enrolments. */
  function PublicProfileOf(db: Db, userId: Id): (r: Response<PublicProfile>)
    ensures r.Error? <==> userId !in db.users
    ensures r.Error? ==> r.status == 404
    ensures r.Success? ==> r.body.name == db.users[userId].name && r.body.role == db.users[userId].role
  {
    if userId !in db.users then Error(404)
    else
      var u := db.users[userId];
      Success(200, PublicProfile(u.name, u.avatar, u.bio, u.skills, u.location, u.socialLinks, u.role,
                                 ExistingCourses(db.courses, u.createdCourses), u.totalLearningTime,
                                 u.certificatesEarned, u.coursesCompleted, u.createdAt))
  }

  // ---------------------------------------------------------------------
  // GET /search

  /** The search query: an active user whose name, bio or one of whose
      skills matches, of the given role if one is given. */
  predicate Found(u: User, q: string, role: string)
  {
    u.isActive &&
    (ContainsIgnoreCase(u.name, q) || ContainsIgnoreCase(u.bio, q) || exists s :: s in u.skills && ContainsIgnoreCase(s, q)) &&
    (role == [] || u.role == role)
  }

  function Hits(us: seq<User>, q: string, role: string): (r: seq<User>)
    ensures |r| <= |us|
    ensures forall u :: u in r <==> u in us && Found(u, q, role)
  {
    Filter(us, (u: User) => Found(u, q, role))
  }

  datatype SearchPage = SearchPage(users: seq<User>, current: int, pages: Option<int>, total: nat)

  /** Search over `us`, the users in name order: 400 without a query, a
      negative skip refused (500); otherwise one page of the hits, with
      `pages` = ceil(total / limit). */
  function Search(us: seq<User>, q: string, role: string, page: int, limit: int): (r: Response<SearchPage>)
    ensures q == [] ==> r == Error(400)
    ensures r.Success? <==> q != [] && (page - 1) * limit >= 0
    ensures r.Success? ==>
      r.body.total == |Hits(us, q, role)| && r.body.pages == PageCount(|Hits(us, q, role)|, limit) &&
      r.body.current == page &&
      (forall u :: u in r.body.users ==> u in us && Found(u, q, role)) &&
      (limit > 0 ==> |r.body.users| <= limit)
    ensures r.Success? ==> r.body.users == Paginate(Hits(us, q, role), page, limit).body
  {
    if q == [] then Error(400)
    else
      var hits := Hits(us, q, role);
      match Paginate(hits, page, limit)
      case Error(status) => Error(status)
      case Success(_, items) => Success(200, SearchPage(items, page, PageCount(|hits|, limit), |hits|))
  }

  // ---------------------------------------------------------------------
  // GET /stats

  /** `learningCategories`: how many of the enrolments fall in each
      category, built by the forEach. */
  function CategoryCounts(cats: seq<string>): map<string, nat>
  {
    if cats == [] then map[]
    else
      var m := CategoryCounts(cats[..|cats| - 1]);
      var c := cats[|cats| - 1];
      m[c := (if c in m then m[c] else 0) + 1]
  }

  /** The number of times `c` occurs in `cats`. */
  function Occurrences(cats: seq<string>, c: string): nat
  {
    if cats == [] then 0 else Occurrences(cats[..|cats| - 1], c) + if cats[|cats| - 1] == c then 1 else 0
  }

  /** Each category of some enrolment has an entry, and its entry is the
      number of enrolments in it. */
  lemma {:induction false} CategoryCountsCorrect(cats: seq<string>, c: string)
    ensures c in CategoryCounts(cats) <==> c in cats
    ensures c in CategoryCounts(cats) ==> CategoryCounts(cats)[c] == Occurrences(cats, c)
    ensures c !in CategoryCounts(cats) ==> Occurrences(cats, c) == 0
  {
    if cats != [] {
      var init := cats[..|cats| - 1];
      CategoryCountsCorrect(init, c);
      assert cats == init + [cats[|cats| - 1]];
    }
  }

  /** The forEach itself. */
  method CountCategories(cats: seq<string>) returns (m: map<string, nat>)
    ensures m == CategoryCounts(cats)
  {
    m := map[];
    var i := 0;
    while i < |cats|
      invariant 0 <= i <= |cats|
      invariant m == CategoryCounts(cats[..i])
    {
      var c := cats[i];
      m := m[c := (if c in m then m[c] else 0) + 1];
      assert cats[..i + 1][..i] == cats[..i];
      i := i + 1;
    }
    assert cats[..i] == cats;
  }

  datatype InstructorPart = InstructorPart(averageRatingTenths: int, totalStudentsTaught: int, coursesCreated: nat)

  datatype StudentPart = StudentPart(learningCategories: map<string, nat>, enrolledCourses: nat)

  datatype ProfileStats = ProfileStats(
    totalLearningTime: int, certificatesEarned: int, coursesCompleted: int, memberSince: Time,
    enrolled: nat, created: nat, instructor: Option<InstructorPart>, student: Option<StudentPart>)

  function RatingSum(cs: seq<Course>): real
    requires forall c :: c in cs ==> c.rating.Some?
  {
    if cs == [] then 0.0 else RatingSum(cs[..|cs| - 1]) + cs[|cs| - 1].rating.value
  }

  function StudentCount(c: Course): int { |c.enrolledStudents| }

  /** The categories of the enrolled courses, in enrolment order; None when
      one of the courses has gone (its category is read from null). */
  function EnrolledCategories(courses: map<Id, Course>, ecs: seq<EnrolledCourse>): (r: Option<seq<string>>)
    ensures r.Some? <==> forall k :: 0 <= k < |ecs| ==> ecs[k].course in courses
    ensures r.Some? ==> |r.value| == |ecs|
    ensures r.Some? ==> forall k :: 0 <= k < |ecs| ==> r.value[k] == courses[ecs[k].course].category
  {
    if ecs == [] then Some([])
    else match EnrolledCategories(courses, ecs[..|ecs| - 1])
      case None => None
      case Some(init) =>
        var last := ecs[|ecs| - 1].course;
        if last in courses then Some(init + [courses[last].category]) else None
  }

  /** The instructor part over the existing created courses: a course
      without a rating object makes the sum throw (None); no courses give
      an average of 0. */
  function InstructorPartOf(created: seq<Course>): (r: Option<InstructorPart>)
    ensures r.None? <==> exists c :: c in created && c.rating.None?
    ensures r.Some? ==> r.value.coursesCreated == |created| && r.value.totalStudentsTaught == SumOf(created, StudentCount)
    ensures r.Some? && created == [] ==> r.value.averageRatingTenths == 0
  {
    if created == [] then Some(InstructorPart(0, 0, 0))
    else if exists c :: c in created && c.rating.None? then None
    else Some(InstructorPart(Tenths(RatingSum(created) / |created| as real), SumOf(created, StudentCount), |created|))
  }

  /** The statistics: a caller that has gone, an instructor's created
      course without a rating object, or a student's enrolment whose course
      has gone makes the handler throw (500).  The instructor part is sent
      only to instructors: the average of their existing courses' ratings in
      tenths (0 without courses) and the students over those courses; the
      student part only to students. */
  function StatsOf(db: Db, caller: Id): (r: Response<ProfileStats>)
    ensures caller !in db.users ==> r == Error(500)
    ensures r.Error? ==> r.status == 500
    ensures caller in db.users ==>
      var u := db.users[caller];
      (r.Error? <==>
        (u.role == "instructor" && InstructorPartOf(ExistingCourses(db.courses, u.createdCourses)).None?) ||
        (u.role == "student" && EnrolledCategories(db.courses, u.enrolledCourses).None?))
    ensures r.Success? ==>
      var u := db.users[caller];
      r.body.totalLearningTime == u.totalLearningTime && r.body.certificatesEarned == u.certificatesEarned &&
      r.body.coursesCompleted == u.coursesCompleted && r.body.memberSince == u.createdAt &&
      (r.body.instructor.Some? ==> r.body.instructor == InstructorPartOf(ExistingCourses(db.courses, u.createdCourses))) &&
      (r.body.student.Some? ==> r.body.student.value.enrolledCourses == |u.enrolledCourses|)
    ensures r.Success? ==>
      var u := db.users[caller];
      (r.body.instructor.Some? <==> u.role == "instructor") &&
      (r.body.student.Some? <==> u.role == "student") &&
      r.body.enrolled == |u.enrolledCourses| &&
      r.body.created == |ExistingCourses(db.courses, u.createdCourses)| &&
      (r.body.instructor.Some? && r.body.created == 0 ==> r.body.instructor.value.averageRatingTenths == 0) &&
      (r.body.student.Some? ==>
        EnrolledCategories(db.courses, u.enrolledCourses).Some? &&
        r.body.student.value.learningCategories == CategoryCounts(EnrolledCategories(db.courses, u.enrolledCourses).value))
  {
    if caller !in db.users then Error(500)
    else
      var u := db.users[caller];
      var created := ExistingCourses(db.courses, u.createdCourses);
      var instructor := if u.role == "instructor" then InstructorPartOf(created) else None;
      var categories := EnrolledCategories(db.courses, u.enrolledCourses);
      if u.role == "instructor" && instructor.None? then Error(500)
      else if u.role == "student" && categories.None? then Error(500)
      else
        var student := if u.role == "student" then Some(StudentPart(CategoryCounts(categories.value), |u.enrolledCourses|)) else None;
        Success(200, ProfileStats(u.totalLearningTime, u.certificatesEarned, u.coursesCompleted, u.createdAt,
                                  |u.enrolledCourses|, |created|, instructor, student))
  }

  /** The category counts add up to the number of enrolments. */
  lemma {:induction false} CategoryCountsTotal(cats: seq<string>, c: string)
    ensures Occurrences(cats, c) <= |cats|
  {
    if cats != [] {
      CategoryCountsTotal(cats[..|cats| - 1], c);
    }
  }

  /** With ratings on the 0..5 scale an instructor's average is between 0
      and 5.0. */
  lemma InstructorRatingBounds(db: Db, caller: Id)
    requires StatsOf(db, caller).Success? && StatsOf(db, caller).body.instructor.Some?
    requires forall id :: id in db.courses && db.courses[id].rating.Some? ==> 0.0 <= db.courses[id].rating.value <= 5.0
    ensures 0 <= StatsOf(db, caller).body.instructor.value.averageRatingTenths <= 50
  {
    var created := ExistingCourses(db.courses, db.users[caller].createdCourses);
    if created != [] {
      RatingSumBounds(created);
      MeanTenthsBounds(RatingSum(created), |created|, 5);
    }
  }

  lemma {:induction false} RatingSumBounds(cs: seq<Course>)
    requires forall c :: c in cs ==> c.rating.Some? && 0.0 <= c.rating.value <= 5.0
    ensures 0.0 <= RatingSum(cs) <= (5 * |cs|) as real
  {
    if cs != [] {
      assert forall c :: c in cs[..|cs| - 1] ==> c in cs;
      RatingSumBounds(cs[..|cs| - 1]);
    }
  }

  // ---------------------------------------------------------------------
  // PUT /deactivate

  /** Deactivation: 400 without a password or when it does not match; a
      caller that has gone, or an account without a password, makes the
      check throw (500); otherwise `isActive` becomes false. */
  function Deactivate(db: Db, caller: Id, password: string, matches: (string, string) -> bool): (o: Outcome<()>)
    ensures o.response.Error? ==> o.db == db
    ensures password == [] ==> o.response == Error(400)
    ensures o.response.Success? <==>
      password != [] && caller in db.users && db.users[caller].password.Some? &&
      matches(password, db.users[caller].password.value)
    ensures o.response.Success? ==>
      o.db == db.(users := db.users[caller := db.users[caller].(isActive := false)])
  {
    if password == [] then Outcome(db, Error(400))
    else if caller !in db.users then Outcome(db, Error(500))
    else
      var u := db.users[caller];
      match u.password
      case None => Outcome(db, Error(500))
      case Some(stored) =>
        if !matches(password, stored) then Outcome(db, Error(400))
        else Outcome(db.(users := db.users[caller := u.(isActive := false)]), Success(200, ()))
  }

  /** A deactivated account no longer turns up in any search. */
  lemma DeactivatedNotFound(db: Db, caller: Id, password: string, matches: (string, string) -> bool,
                            us: seq<User>, q: string, role: string, page: int, limit: int)
    requires Deactivate(db, caller, password, matches).response.Success?
    ensures var u := Deactivate(db, caller, password, matches).db.users[caller];
      var r := Search(us, q, role, page, limit);
      r.Success? ==> u !in r.body.users
  {
  }

  /** The handler on the database object: fetch, compare, assign, save. */
  method DeactivateOn(db: Database, caller: Id, password: string, matches: (string, string) -> bool)
    returns (r: Response<()>)
    modifies db
    ensures Outcome(db.State(), r) == Deactivate(old(db.State()), caller, password, matches)
  {
    if password == [] {
      return Error(400);
    }
    if caller !in db.users {
      return Error(500);
    }
    var u := db.users[caller];
    if u.password.None? || !matches(password, u.password.value) {
      return if u.password.None? then Error(500) else Error(400);
    }
    u := u.(isActive := false);
    db.users := db.users[caller := u];
    r := Success(200, ());
  }
}
