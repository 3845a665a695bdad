// The student's dashboard (client/src/pages/StudentDashboard.jsx): the
// statistics of the overview and progress tabs, the deadlines list and
// its urgency mark, and the course filters of the browse and my-courses
// tabs.  The lists come in as parameters; the clock is a parameter.
module StudentDashboard {
  import opened Common

  datatype Deadline = Deadline(title: string, dueDate: Option<Time>, kind: string)

  /** A deadline as the overview lists it, tagged with its course's title. */
  datatype TaggedDeadline = TaggedDeadline(deadline: Deadline, courseName: string)

  /** A course as the dashboard shows it.  `hoursLeft` is the parsed
      `estimatedTimeLeft` (`None` when absent or empty), and
      `upcomingDeadlines` is `None` when absent. */
  datatype Course = Course(
    id: Id, title: string, description: string, category: string, level: string,
    progress: int, totalLessons: int, completedLessons: int,
    hoursLeft: Option<int>, upcomingDeadlines: Option<seq<Deadline>>)

  function Progress(c: Course): int { c.progress }
  function LessonsOf(c: Course): int { c.totalLessons }
  function CompletedOf(c: Course): int { c.completedLessons }
  function HoursLeft(c: Course): int { if c.hoursLeft.Some? then c.hoursLeft.value else 0 }

  predicate Completed(c: Course)
  {
    c.progress == 100
  }

  // ---------------------------------------------------------------------
  // The overview

  /** The average progress card: the mean progress, rounded, and 0 with no
      courses (`NaN || 0`). */
  function AverageProgress(courses: seq<Course>): (r: int)
    ensures courses == [] ==> r == 0
    ensures courses != [] ==>
      2 * |courses| * r - |courses| <= 2 * SumOf(courses, Progress) < 2 * |courses| * r + |courses|
  {
    if courses == [] then 0 else RoundDiv(SumOf(courses, Progress), |courses|)
  }

  /** The completed-courses card: the courses at exactly 100, counted one
      by one. */
  function CompletedCount(courses: seq<Course>): (r: nat)
    ensures r <= |courses|
    ensures r == SumOf(courses, Indicator(Completed))
  {
    FilterLengthIsCount(courses, Completed);
    |Filter(courses, Completed)|
  }

  /** With every progress between 0 and 100 the average shows between 0
      and 100, and when every course is complete it shows 100. */
  lemma AverageProgressRange(courses: seq<Course>)
    requires forall i :: 0 <= i < |courses| ==> 0 <= courses[i].progress <= 100
    ensures 0 <= AverageProgress(courses) <= 100
    ensures courses != [] && (forall i :: 0 <= i < |courses| ==> Completed(courses[i])) ==>
      AverageProgress(courses) == 100
  {
    if courses != [] {
      SumOfBounds(courses, Progress, 0, 100);
      RoundDivBounds(SumOf(courses, Progress), |courses|, 0, 100);
      if forall i :: 0 <= i < |courses| ==> Completed(courses[i]) {
        SumOfBounds(courses, Progress, 100, 100);
        RoundDivUnique(SumOf(courses, Progress), |courses|, 100);
      }
    }
  }

  /** The average can read 100 while a course is unfinished: one course at
      100 and one at 99 average 99.5, which rounds to 100, with one course
      completed out of two. */
  lemma AverageRoundsUpToComplete(a: Course, b: Course)
    requires a.progress == 100 && b.progress == 99
    ensures AverageProgress([a, b]) == 100 && CompletedCount([a, b]) == 1
  {
    assert SumOf([b], Progress) == 99 by {
      assert [b][1..] == [];
    }
    assert SumOf([a, b], Progress) == 199 by {
      assert [a, b][1..] == [b];
    }
    RoundDivUnique(199, 2, 100);
    assert Filter([a, b], Completed) == [a] by {
      assert [a, b][1..] == [b];
      assert [b][1..] == [];
    }
  }

  /** `course.upcomingDeadlines?.map(d => ({...d, courseName})) || []`. */
  function TagDeadlines(c: Course): (r: seq<TaggedDeadline>)
    ensures c.upcomingDeadlines.None? ==> r == []
    ensures c.upcomingDeadlines.Some? ==>
      |r| == |c.upcomingDeadlines.value| &&
      forall i :: 0 <= i < |r| ==> r[i] == TaggedDeadline(c.upcomingDeadlines.value[i], c.title)
  {
    if c.upcomingDeadlines.None? then []
    else
      var ds := c.upcomingDeadlines.value;
      seq(|ds|, i requires 0 <= i < |ds| => TaggedDeadline(ds[i], c.title))
  }

  /** upcomingDeadlines: every course's deadlines, course by course. */
  function UpcomingDeadlines(courses: seq<Course>): seq<TaggedDeadline>
  {
    if courses == [] then [] else TagDeadlines(courses[0]) + UpcomingDeadlines(courses[1..])
  }

  /** Every deadline of every course is listed, tagged with that course's
      title, and nothing else is listed. */
  lemma {:induction false} DeadlinesListed(courses: seq<Course>)
    ensures forall k, t :: 0 <= k < |courses| && t in TagDeadlines(courses[k]) ==> t in UpcomingDeadlines(courses)
    ensures forall t :: t in UpcomingDeadlines(courses) ==>
      exists k :: 0 <= k < |courses| && t in TagDeadlines(courses[k])
  {
    if courses != [] {
      var rest := UpcomingDeadlines(courses[1..]);
      DeadlinesListed(courses[1..]);
      forall k, t | 1 <= k < |courses| && t in TagDeadlines(courses[k])
        ensures t in rest
      {
        assert courses[1..][k - 1] == courses[k];
      }
      forall t | t in rest
        ensures exists k :: 0 <= k < |courses| && t in TagDeadlines(courses[k])
      {
        var k :| 0 <= k < |courses[1..]| && t in TagDeadlines(courses[1..][k]);
        assert courses[k + 1] == courses[1..][k];
      }
    }
  }

  /** The number of deadlines listed is the sum of the courses' counts. */
  lemma {:induction false} DeadlineCount(courses: seq<Course>)
    ensures |UpcomingDeadlines(courses)| == SumOf(courses, (c: Course) => |TagDeadlines(c)|)
  {
    if courses != [] {
      DeadlineCount(courses[1..]);
    }
  }

  /** DeadlineCard's mark: urgent when due in under three days.  A due
      date that does not parse (`None`) compares false and is not urgent;
      one already past is urgent. */
  predicate IsUrgent(d: Deadline, now: Time)
  {
    d.dueDate.Some? && d.dueDate.value - now < 3 * DayMs
  }

  /** Overdue deadlines are urgent, one three days or more away is not, and
      once urgent a deadline stays urgent as time passes. */
  lemma UrgencyFacts(d: Deadline, now: Time, later: Time)
    requires d.dueDate.Some?
    ensures d.dueDate.value <= now ==> IsUrgent(d, now)
    ensures d.dueDate.value >= now + 3 * DayMs ==> !IsUrgent(d, now)
    ensures now <= later && IsUrgent(d, now) ==> IsUrgent(d, later)
  {
  }

  // ---------------------------------------------------------------------
  // The progress tab

  /** The total-progress figure: completed over total lessons, as a rounded
      percentage, and 0 with no lessons. */
  function OverallProgress(courses: seq<Course>): (r: int)
    ensures SumOf(courses, LessonsOf) <= 0 ==> r == 0
    ensures SumOf(courses, LessonsOf) > 0 ==>
      var t := SumOf(courses, LessonsOf);
      2 * t * r - t <= 200 * SumOf(courses, CompletedOf) < 2 * t * r + t
  {
    var total := SumOf(courses, LessonsOf);
    if total > 0 then Percent(SumOf(courses, CompletedOf), total) else 0
  }

  lemma {:induction false} SumOfDominated(courses: seq<Course>)
    requires forall i :: 0 <= i < |courses| ==> 0 <= courses[i].completedLessons <= courses[i].totalLessons
    ensures 0 <= SumOf(courses, CompletedOf) <= SumOf(courses, LessonsOf)
  {
    if courses != [] {
      SumOfDominated(courses[1..]);
    }
  }

  /** When no course counts more completed lessons than it has, the
      overall progress lies between 0 and 100, and reads 100 when every
      lesson is completed. */
  lemma OverallProgressRange(courses: seq<Course>)
    requires forall i :: 0 <= i < |courses| ==> 0 <= courses[i].completedLessons <= courses[i].totalLessons
    ensures 0 <= OverallProgress(courses) <= 100
    ensures SumOf(courses, LessonsOf) > 0 && SumOf(courses, CompletedOf) == SumOf(courses, LessonsOf) ==>
      OverallProgress(courses) == 100
  {
    SumOfDominated(courses);
    var total := SumOf(courses, LessonsOf);
    if total > 0 {
      PercentBounds(SumOf(courses, CompletedOf), total);
      if SumOf(courses, CompletedOf) == total {
        PercentOfWhole(total);
      }
    }
  }

  /** The time-remaining figure: the parsed hours left, summed, counting a
      missing value as 0. */
  function TimeRemaining(courses: seq<Course>): int
  {
    SumOf(courses, HoursLeft)
  }

  /** The time remaining is never negative when no parsed value is, and
      it is at least the hours left of any one course. */
  lemma {:induction false} TimeRemainingBounds(courses: seq<Course>)
    requires forall i :: 0 <= i < |courses| ==> HoursLeft(courses[i]) >= 0
    ensures TimeRemaining(courses) >= 0
    ensures forall i :: 0 <= i < |courses| ==> TimeRemaining(courses) >= HoursLeft(courses[i])
  {
    if courses != [] {
      TimeRemainingBounds(courses[1..]);
      forall i | 1 <= i < |courses|
        ensures TimeRemaining(courses[1..]) >= HoursLeft(courses[i])
      {
        assert courses[1..][i - 1] == courses[i];
      }
    }
  }

  // ---------------------------------------------------------------------
  // The course filters

  /** The browse tab's test: the title or description contains the term,
      ignoring case, and level and category match unless 'all'. */
  predicate BrowseKeeps(c: Course, term: string, level: string, category: string)
  {
    (ContainsIgnoreCase(c.title, term) || ContainsIgnoreCase(c.description, term)) &&
    (level == "all" || c.level == level) &&
    (category == "all" || c.category == category)
  }

  function BrowseCourses(courses: seq<Course>, term: string, level: string, category: string): (r: seq<Course>)
    ensures forall c :: c in r <==> c in courses && BrowseKeeps(c, term, level, category)
  {
    Filter(courses, (c: Course) => BrowseKeeps(c, term, level, category))
  }

  /** The my-courses tab's test: the title or category contains the term,
      ignoring case. */
  predicate MineKeeps(c: Course, term: string)
  {
    ContainsIgnoreCase(c.title, term) || ContainsIgnoreCase(c.category, term)
  }

  function MyCourses(courses: seq<Course>, term: string): (r: seq<Course>)
    ensures forall c :: c in r <==> c in courses && MineKeeps(c, term)
  {
    Filter(courses, (c: Course) => MineKeeps(c, term))
  }

  /** The message shown when the my-courses list is empty. */
  function EmptyMessage(term: string): string
  {
    if term != "" then "Try adjusting your search terms" else "Start by enrolling in some courses"
  }

  /** With no term and 'all' selected, both tabs list every course in
      order, so the my-courses tab shows its empty message only when there
      are no courses at all. */
  lemma EmptyTermKeepsAll(courses: seq<Course>)
    ensures BrowseCourses(courses, "", "all", "all") == courses
    ensures MyCourses(courses, "") == courses
  {
    forall i | 0 <= i < |courses|
      ensures BrowseKeeps(courses[i], "", "all", "all") && MineKeeps(courses[i], "")
    {
      ContainsEmpty(ToLower(courses[i].title));
    }
    FilterKeepsAll(courses, (c: Course) => BrowseKeeps(c, "", "all", "all"));
    FilterKeepsAll(courses, (c: Course) => MineKeeps(c, ""));
  }

  /** A notification click marks it read only when it is unread: the id to
      mark, if any. */
  function ClickMarks(id: Id, isRead: bool): (r: Option<Id>)
    ensures r.Some? <==> !isRead
    ensures r.Some? ==> r.value == id
  {
    if !isRead then Some(id) else None
  }
}
