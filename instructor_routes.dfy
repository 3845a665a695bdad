// The instructor dashboard routes (server/routes/instructor.js): the
// `/stats` counters over the instructor's courses and the `/students`
// aggregation of every student enrolled in them.  `cs` is the result of
// `Course.find({instructor})`, in the order the database returns it.
module InstructorRoutes {
  import opened Common
  import opened Documents

  // ---------------------------------------------------------------------
  // The enrolments of a list of courses

  /** One enrolment seen while walking the courses: the course's id and
      title with the enrolment entry. */
  datatype Visit = Visit(courseId: Id, courseTitle: string, e: Enrollment)

  function VisitsOf(c: Course): (r: seq<Visit>)
    ensures |r| == |c.enrolledStudents|
    ensures forall k :: 0 <= k < |r| ==> r[k] == Visit(c.id, c.title, c.enrolledStudents[k])
  {
    seq(|c.enrolledStudents|, k requires 0 <= k < |c.enrolledStudents| => Visit(c.id, c.title, c.enrolledStudents[k]))
  }

  /** `courses.flatMap(c => c.enrolledStudents)`, with the course kept. */
  function Visits(cs: seq<Course>): seq<Visit>
  {
    if cs == [] then [] else Visits(cs[..|cs| - 1]) + VisitsOf(cs[|cs| - 1])
  }

  // ---------------------------------------------------------------------
  // GET /stats

  /** `new Set(allEnrollments)`: the distinct students enrolled anywhere. */
  function StudentIds(vs: seq<Visit>): set<Id>
  {
    set v | v in vs :: v.e.student
  }

  /** There are no more distinct students than enrolments. */
  lemma {:induction false} StudentIdsAtMost(vs: seq<Visit>)
    ensures |StudentIds(vs)| <= |vs|
  {
    if vs != [] {
      var init := vs[..|vs| - 1];
      StudentIdsAtMost(init);
      assert StudentIds(vs) == StudentIds(init) + {vs[|vs| - 1].e.student} by {
        assert vs == init + [vs[|vs| - 1]];
      }
    }
  }

  /** `course.rating ? course.rating.average || 0 : 0`. */
  function RatingOf(c: Course): real
  {
    if c.rating.Some? then c.rating.value else 0.0
  }

  function RatingSum(cs: seq<Course>): real
  {
    if cs == [] then 0.0 else RatingSum(cs[..|cs| - 1]) + RatingOf(cs[|cs| - 1])
  }

  lemma {:induction false} RatingSumBounds(cs: seq<Course>)
    requires forall k :: 0 <= k < |cs| ==> 0.0 <= RatingOf(cs[k]) <= 5.0
    ensures 0.0 <= RatingSum(cs) <= 5.0 * |cs| as real
  {
    if cs != [] {
      RatingSumBounds(cs[..|cs| - 1]);
    }
  }

  /** The average rating in tenths: the ratings' sum over `totalCourses || 1`. */
  function AverageRatingTenths(cs: seq<Course>): int
  {
    Tenths(RatingSum(cs) / (if cs == [] then 1 else |cs|) as real)
  }

  /** Ratings on the 0..5 scale give an average between 0.0 and 5.0, and 0
      for an instructor without courses. */
  lemma AverageRatingBounds(cs: seq<Course>)
    requires forall k :: 0 <= k < |cs| ==> 0.0 <= RatingOf(cs[k]) <= 5.0
    ensures 0 <= AverageRatingTenths(cs) <= 50
    ensures cs == [] ==> AverageRatingTenths(cs) == 0
  {
    RatingSumBounds(cs);
    MeanTenthsBounds(RatingSum(cs), if cs == [] then 1 else |cs|, 5);
  }

  function IsPublished(c: Course): bool { c.isPublished }

  function CertificateIssued(v: Visit): bool { v.e.certificateIssued }

  /** The counters of the overview. */
  datatype Stats = Stats(
    totalCourses: nat, publishedCourses: nat, draftCourses: int, totalStudents: nat,
    averageRatingTenths: int, recentEnrollments: nat, certificatesIssued: nat)

  /** The enrolments made in the last 30 days before `now`. */
  function Recent(vs: seq<Visit>, now: Time): (r: seq<Visit>)
    ensures |r| <= |vs|
    ensures forall v :: v in r <==> v in vs && v.e.enrolledAt >= now - 30 * DayMs
  {
    Filter(vs, (v: Visit) => v.e.enrolledAt >= now - 30 * DayMs)
  }

  /** The `/stats` overview: courses, published and draft counts, distinct
      students, the rounded average rating, recent enrolments and issued
      certificates. */
  function InstructorStats(cs: seq<Course>, now: Time): (r: Stats)
    ensures r.totalCourses == |cs|
    ensures r.draftCourses == r.totalCourses - r.publishedCourses >= 0
    ensures r.totalStudents <= |Visits(cs)|
    ensures r.recentEnrollments <= |Visits(cs)| && r.certificatesIssued <= |Visits(cs)|
    ensures r.publishedCourses == |Filter(cs, IsPublished)|
    ensures r.totalStudents == |StudentIds(Visits(cs))|
    ensures r.averageRatingTenths == AverageRatingTenths(cs)
    ensures r.recentEnrollments == |Recent(Visits(cs), now)|
    ensures r.certificatesIssued == |Filter(Visits(cs), CertificateIssued)|
  {
    var vs := Visits(cs);
    var published := |Filter(cs, IsPublished)|;
    StudentIdsAtMost(vs);
    Stats(|cs|, published, |cs| - published, |StudentIds(vs)|, AverageRatingTenths(cs),
          |Recent(vs, now)|, |Filter(vs, CertificateIssued)|)
  }

  /** One line of `coursesBreakdown`. */
  datatype CourseLine = CourseLine(id: Id, title: string, students: nat, rating: real, isPublished: bool, status: string)

  function Breakdown(cs: seq<Course>): (r: seq<CourseLine>)
    ensures |r| == |cs|
    ensures forall k :: 0 <= k < |cs| ==>
      r[k].id == cs[k].id && r[k].students == |cs[k].enrolledStudents| &&
      r[k].status == (if cs[k].status.None? || cs[k].status.value == "" then "draft" else cs[k].status.value)
  {
    seq(|cs|, k requires 0 <= k < |cs| =>
      var c := cs[k];
      CourseLine(c.id, c.title, |c.enrolledStudents|, RatingOf(c), c.isPublished,
                 if c.status.None? || c.status.value == "" then "draft" else c.status.value))
  }

  // ---------------------------------------------------------------------
  // GET /students

  /** One entry of a student's `courses`. */
  datatype CourseEntry = CourseEntry(courseId: Id, courseTitle: string, progress: int, enrolledAt: Time, certificateIssued: bool)

  /** A student's record in the map, with the running totals. */
  datatype StudentRow = StudentRow(
    id: Id, name: string, email: string, enrolledAt: Time, courses: seq<CourseEntry>,
    totalProgress: int, completedCourses: nat, totalCertificates: nat)

  /** The `studentsMap`: rows by student id, and the ids in insertion
      order (the order `Array.from(map.values())` gives). */
  datatype StudentsMap = StudentsMap(rows: map<Id, StudentRow>, order: seq<Id>)

  /** One step of the inner forEach.  An enrolment whose student no longer
      exists is skipped (populate gives null); a student's first enrolment
      opens the row with that enrolment's date. */
  function Visited(st: StudentsMap, v: Visit, users: map<Id, User>): StudentsMap
  {
    var sid := v.e.student;
    if sid !in users then st
    else
      var row := if sid in st.rows then st.rows[sid]
                 else StudentRow(sid, users[sid].name, users[sid].email, v.e.enrolledAt, [], 0, 0, 0);
      var entry := CourseEntry(v.courseId, v.courseTitle, v.e.progress, v.e.enrolledAt, v.e.certificateIssued);
      var row' := row.(courses := row.courses + [entry],
                       totalProgress := row.totalProgress + v.e.progress,
                       completedCourses := row.completedCourses + (if v.e.progress == 100 then 1 else 0),
                       totalCertificates := row.totalCertificates + (if v.e.certificateIssued then 1 else 0));
      StudentsMap(st.rows[sid := row'], if sid in st.rows then st.order else st.order + [sid])
  }

  /** The nested forEach, as a fold over the enrolments. */
  function Collected(vs: seq<Visit>, users: map<Id, User>): StudentsMap
  {
    if vs == [] then StudentsMap(map[], []) else Visited(Collected(vs[..|vs| - 1], users), vs[|vs| - 1], users)
  }

  /** The reference counts: a student's enrolments, their progress sum and
      the ones at exactly 100. */
  function Taken(vs: seq<Visit>, sid: Id): nat
  {
    if vs == [] then 0 else Taken(vs[..|vs| - 1], sid) + if vs[|vs| - 1].e.student == sid then 1 else 0
  }

  function ProgressSum(vs: seq<Visit>, sid: Id): int
  {
    if vs == [] then 0
    else ProgressSum(vs[..|vs| - 1], sid) + if vs[|vs| - 1].e.student == sid then vs[|vs| - 1].e.progress else 0
  }

  function Finished(vs: seq<Visit>, sid: Id): nat
  {
    if vs == [] then 0
    else Finished(vs[..|vs| - 1], sid) + if vs[|vs| - 1].e.student == sid && vs[|vs| - 1].e.progress == 100 then 1 else 0
  }

  lemma {:induction false} TakenIffEnrolled(vs: seq<Visit>, sid: Id)
    ensures Taken(vs, sid) > 0 <==> sid in StudentIds(vs)
    ensures Finished(vs, sid) <= Taken(vs, sid)
  {
    if vs != [] {
      var init := vs[..|vs| - 1];
      TakenIffEnrolled(init, sid);
      assert vs == init + [vs[|vs| - 1]];
      assert StudentIds(vs) == StudentIds(init) + {vs[|vs| - 1].e.student};
    }
  }

  /** The map's shape: `order` lists each key of `rows` exactly once. */
  lemma {:induction false} CollectedShape(vs: seq<Visit>, users: map<Id, User>)
    ensures var st := Collected(vs, users);
      NoDuplicates(st.order) && (forall s :: s in st.order <==> s in st.rows) && |st.order| == |st.rows|
  {
    if vs != [] {
      CollectedShape(vs[..|vs| - 1], users);
      var prev := Collected(vs[..|vs| - 1], users);
      var sid := vs[|vs| - 1].e.student;
      if sid in users && sid !in prev.rows {
        assert Collected(vs, users).rows.Keys == prev.rows.Keys + {sid};
      }
    }
  }

  /** The map has a row for exactly the existing students with an enrolment. */
  lemma {:induction false} CollectedKeys(vs: seq<Visit>, users: map<Id, User>, s: Id)
    ensures s in Collected(vs, users).rows <==> s in users && Taken(vs, s) > 0
  {
    if vs != [] {
      CollectedKeys(vs[..|vs| - 1], users, s);
    }
  }

  /** A row's entries, progress total and completed count are those of the
      student's enrolments. */
  lemma {:induction false} CollectedRow(vs: seq<Visit>, users: map<Id, User>, s: Id)
    requires s in Collected(vs, users).rows
    ensures var row := Collected(vs, users).rows[s];
      row.id == s && |row.courses| == Taken(vs, s) &&
      row.totalProgress == ProgressSum(vs, s) && row.completedCourses == Finished(vs, s)
  {
    var init := vs[..|vs| - 1];
    var v := vs[|vs| - 1];
    if s != v.e.student {
      CollectedRow(init, users, s);
    } else if s in Collected(init, users).rows {
      CollectedRow(init, users, s);
      CollectedKeys(init, users, s);
    } else {
      CollectedKeys(init, users, s);
      assert Taken(init, s) == 0;
      ZeroTakenNothing(init, s);
    }
  }

  lemma {:induction false} ZeroTakenNothing(vs: seq<Visit>, s: Id)
    requires Taken(vs, s) == 0
    ensures ProgressSum(vs, s) == 0 && Finished(vs, s) == 0
  {
    if vs != [] {
      ZeroTakenNothing(vs[..|vs| - 1], s);
    }
  }

  /** The well-formed map a fold produces. */
  lemma CollectedWellFormed(vs: seq<Visit>, users: map<Id, User>)
    ensures var st := Collected(vs, users);
      NoDuplicates(st.order) && (forall s :: s in st.order <==> s in st.rows) &&
      forall s :: s in st.rows ==> st.rows[s].id == s
  {
    CollectedShape(vs, users);
    forall s | s in Collected(vs, users).rows
      ensures Collected(vs, users).rows[s].id == s
    {
      CollectedRow(vs, users, s);
    }
  }

  /** A student as listed: the row and its rounded average progress. */
  datatype StudentSummary = StudentSummary(row: StudentRow, averageProgress: int)

  function EnrolledAt(s: StudentSummary): int { s.row.enrolledAt }

  function AverageActive(s: StudentSummary): bool { s.averageProgress > 0 }

  function HasCompleted(s: StudentSummary): bool { s.row.completedCourses > 0 }

  datatype StudentsReport = StudentsReport(
    students: seq<StudentSummary>, totalStudents: nat, activeStudents: nat, completedStudents: nat)

  /** The map's values in insertion order, each with
      `Math.round(totalProgress / courses.length)` (0 without courses). */
  function Summaries(st: StudentsMap): (r: seq<StudentSummary>)
    requires forall s :: s in st.order ==> s in st.rows
    ensures |r| == |st.order|
    ensures forall k :: 0 <= k < |r| ==> r[k].row == st.rows[st.order[k]]
  {
    seq(|st.order|, k requires 0 <= k < |st.order| =>
      var row := st.rows[st.order[k]];
      StudentSummary(row, if |row.courses| > 0 then RoundDiv(row.totalProgress, |row.courses|) else 0))
  }

  /** The summaries before sorting. */
  function Unsorted(cs: seq<Course>, users: map<Id, User>): (r: seq<StudentSummary>)
    ensures |r| == |Collected(Visits(cs), users).order|
  {
    CollectedWellFormed(Visits(cs), users);
    Summaries(Collected(Visits(cs), users))
  }

  /** `/students`: the summaries sorted by first enrolment date, newest
      first, with the three counts. */
  function StudentsOf(cs: seq<Course>, users: map<Id, User>): (r: StudentsReport)
    ensures r.totalStudents == |r.students| == |Collected(Visits(cs), users).rows|
    ensures multiset(r.students) == multiset(Unsorted(cs, users))
    ensures r.activeStudents <= r.totalStudents && r.completedStudents <= r.totalStudents
    ensures r.activeStudents == |Filter(Unsorted(cs, users), AverageActive)|
    ensures r.completedStudents == |Filter(Unsorted(cs, users), HasCompleted)|
    ensures SortedDesc(r.students, EnrolledAt)
  {
    CollectedShape(Visits(cs), users);
    var sorted := SortDesc(Unsorted(cs, users), EnrolledAt);
    SortDescSorted(Unsorted(cs, users), EnrolledAt);
    FilterLengthSortDesc(Unsorted(cs, users), EnrolledAt, AverageActive);
    FilterLengthSortDesc(Unsorted(cs, users), EnrolledAt, HasCompleted);
    StudentsReport(sorted, |sorted|, |Filter(sorted, AverageActive)|, |Filter(sorted, HasCompleted)|)
  }

  /** The unsorted summaries hold a row for exactly the students the map
      has a row for. */
  lemma UnsortedRows(cs: seq<Course>, users: map<Id, User>, s: Id)
    ensures s in Collected(Visits(cs), users).rows <==> exists x :: x in Unsorted(cs, users) && x.row.id == s
  {
    var st := Collected(Visits(cs), users);
    var sums := Unsorted(cs, users);
    CollectedWellFormed(Visits(cs), users);
    if s in st.rows {
      var i :| 0 <= i < |st.order| && st.order[i] == s;
      assert sums[i].row.id == s;
    }
    if x :| x in sums && x.row.id == s {
      var i :| 0 <= i < |sums| && sums[i] == x;
      assert st.order[i] == s;
    }
  }

  /** Every student listed is an existing user enrolled in one of the
      courses, and each such user is listed. */
  lemma StudentsListed(cs: seq<Course>, users: map<Id, User>, s: Id)
    ensures s in users && s in StudentIds(Visits(cs)) <==>
      exists x :: x in StudentsOf(cs, users).students && x.row.id == s
  {
    var vs := Visits(cs);
    var sums := Unsorted(cs, users);
    var listed := StudentsOf(cs, users).students;
    CollectedKeys(vs, users, s);
    TakenIffEnrolled(vs, s);
    UnsortedRows(cs, users, s);
    forall x
      ensures x in listed <==> x in sums
    {
      assert x in listed <==> x in multiset(listed);
      assert x in sums <==> x in multiset(sums);
    }
  }

  /** A listed student's figures are those of their enrolments, the average
      being the rounded mean of their progress. */
  lemma StudentFigures(cs: seq<Course>, users: map<Id, User>, x: StudentSummary)
    requires x in StudentsOf(cs, users).students
    ensures var vs := Visits(cs);
      var n := Taken(vs, x.row.id);
      n > 0 && |x.row.courses| == n &&
      x.row.totalProgress == ProgressSum(vs, x.row.id) &&
      x.averageProgress == RoundDiv(ProgressSum(vs, x.row.id), n) &&
      x.row.completedCourses == Finished(vs, x.row.id) <= n
  {
    var vs := Visits(cs);
    var st := Collected(vs, users);
    var sums := Unsorted(cs, users);
    CollectedWellFormed(vs, users);
    assert x in multiset(sums);
    var i :| 0 <= i < |sums| && sums[i] == x;
    CollectedRow(vs, users, st.order[i]);
    CollectedKeys(vs, users, st.order[i]);
    TakenIffEnrolled(vs, st.order[i]);
  }

  /** No student is listed twice. */
  lemma StudentsDistinct(cs: seq<Course>, users: map<Id, User>, i: int, j: int)
    requires 0 <= i < j < |StudentsOf(cs, users).students|
    ensures StudentsOf(cs, users).students[i].row.id != StudentsOf(cs, users).students[j].row.id
  {
    CollectedWellFormed(Visits(cs), users);
    DistinctIdsSurviveSorting(Collected(Visits(cs), users), Unsorted(cs, users), StudentsOf(cs, users).students, i, j);
  }

  /** Sorting the summaries of a map whose order lists each id once keeps
      the ids distinct. */
  lemma DistinctIdsSurviveSorting(st: StudentsMap, sums: seq<StudentSummary>, sorted: seq<StudentSummary>, i: int, j: int)
    requires NoDuplicates(st.order) && (forall s :: s in st.order ==> s in st.rows)
    requires forall s :: s in st.rows ==> st.rows[s].id == s
    requires sums == Summaries(st) && multiset(sorted) == multiset(sums)
    requires 0 <= i < j < |sorted|
    ensures sorted[i].row.id != sorted[j].row.id
  {
    assert sorted[i] in multiset(sums) && sorted[j] in multiset(sums);
    var a :| 0 <= a < |sums| && sums[a] == sorted[i];
    var b :| 0 <= b < |sums| && sums[b] == sorted[j];
    if a == b {
      assert multiset(sorted)[sorted[i]] >= 2 by {
        assert sorted == sorted[..j] + sorted[j..];
        assert sorted[i] in sorted[..j];
        assert sorted[j] in sorted[j..];
      }
      OnlyOnce(st, sums, a);
    }
  }

  /** A summary occurs once in the summaries of a map with distinct ids. */
  lemma OnlyOnce(st: StudentsMap, sums: seq<StudentSummary>, a: int)
    requires NoDuplicates(st.order) && (forall s :: s in st.order ==> s in st.rows)
    requires forall s :: s in st.rows ==> st.rows[s].id == s
    requires sums == Summaries(st) && 0 <= a < |sums|
    ensures multiset(sums)[sums[a]] == 1
  {
    assert sums == sums[..a] + [sums[a]] + sums[a + 1..];
    forall b | 0 <= b < |sums| && b != a
      ensures sums[b] != sums[a]
    {
      assert st.rows[st.order[b]].id == st.order[b];
      assert st.rows[st.order[a]].id == st.order[a];
    }
    assert sums[a] !in sums[..a];
    assert sums[a] !in sums[a + 1..];
  }

  /** When every enrolled student still exists, the overview's distinct
      student count and the students list agree. */
  lemma StatsAgreeWithStudents(cs: seq<Course>, users: map<Id, User>, now: Time)
    requires forall s :: s in StudentIds(Visits(cs)) ==> s in users
    ensures InstructorStats(cs, now).totalStudents == StudentsOf(cs, users).totalStudents
  {
    var vs := Visits(cs);
    var st := Collected(vs, users);
    forall s ensures s in st.rows <==> s in StudentIds(vs) {
      CollectedKeys(vs, users, s);
      TakenIffEnrolled(vs, s);
    }
    assert st.rows.Keys == StudentIds(vs);
  }

  /** Progress values in 0..100 give averages in 0..100. */
  lemma AverageProgressBounds(cs: seq<Course>, users: map<Id, User>)
    requires forall v :: v in Visits(cs) ==> 0 <= v.e.progress <= 100
    ensures forall x :: x in StudentsOf(cs, users).students ==> 0 <= x.averageProgress <= 100
  {
    var vs := Visits(cs);
    forall x | x in StudentsOf(cs, users).students
      ensures 0 <= x.averageProgress <= 100
    {
      StudentFigures(cs, users, x);
      ProgressSumBounds(vs, x.row.id);
      RoundDivBounds(ProgressSum(vs, x.row.id), Taken(vs, x.row.id), 0, 100);
    }
  }

  lemma {:induction false} ProgressSumBounds(vs: seq<Visit>, sid: Id)
    requires forall v :: v in vs ==> 0 <= v.e.progress <= 100
    ensures 0 <= ProgressSum(vs, sid) <= 100 * Taken(vs, sid)
  {
    if vs != [] {
      assert forall v :: v in vs[..|vs| - 1] ==> v in vs;
      ProgressSumBounds(vs[..|vs| - 1], sid);
    }
  }

  // ---------------------------------------------------------------------
  // The nested forEach loops

  /** The body of the inner forEach: record one enrolment of course `c`. */
  method Record(st0: StudentsMap, c: Course, e: Enrollment, users: map<Id, User>) returns (st: StudentsMap)
    ensures st == Visited(st0, Visit(c.id, c.title, e), users)
  {
    st := st0;
    var sid := e.student;
    if sid in users {
      if sid !in st.rows {
        st := st.(rows := st.rows[sid := StudentRow(sid, users[sid].name, users[sid].email, e.enrolledAt, [], 0, 0, 0)],
                  order := st.order + [sid]);
      }
      var row := st.rows[sid];
      row := row.(courses := row.courses + [CourseEntry(c.id, c.title, e.progress, e.enrolledAt, e.certificateIssued)]);
      row := row.(totalProgress := row.totalProgress + e.progress);
      if e.progress == 100 {
        row := row.(completedCourses := row.completedCourses + 1);
      }
      if e.certificateIssued {
        row := row.(totalCertificates := row.totalCertificates + 1);
      }
      st := st.(rows := st.rows[sid := row]);
    }
  }

  /** The inner forEach over one course's enrolments. */
  method CollectCourse(st0: StudentsMap, c: Course, users: map<Id, User>, ghost before: seq<Visit>)
    returns (st: StudentsMap)
    requires st0 == Collected(before, users)
    ensures st == Collected(before + VisitsOf(c), users)
  {
    st := st0;
    var j := 0;
    ghost var vs := VisitsOf(c);
    assert before + vs[..0] == before;
    while j < |c.enrolledStudents|
      invariant 0 <= j <= |c.enrolledStudents|
      invariant st == Collected(before + vs[..j], users)
    {
      st := Record(st, c, c.enrolledStudents[j], users);
      ghost var next := before + vs[..j + 1];
      assert next[..|next| - 1] == before + vs[..j];
      j := j + 1;
    }
    assert vs[..j] == vs;
  }

  /** The outer forEach over the courses. */
  method CollectStudents(cs: seq<Course>, users: map<Id, User>) returns (st: StudentsMap)
    ensures st == Collected(Visits(cs), users)
  {
    st := StudentsMap(map[], []);
    var i := 0;
    while i < |cs|
      invariant 0 <= i <= |cs|
      invariant st == Collected(Visits(cs[..i]), users)
    {
      st := CollectCourse(st, cs[i], users, Visits(cs[..i]));
      assert cs[..i + 1][..i] == cs[..i];
      i := i + 1;
    }
    assert cs[..i] == cs;
  }
}
