// The learning record kept per (user, course) pair (server/models/Progress.js):
// completed lessons, percentage, quiz average, day streak, bookmarks and notes.
// The Mongoose document is a class whose methods update its fields in place;
// `State()` is its value, and each method is specified by a function on that
// value, about which the properties are proved.
module ProgressModel {
  import opened Common

  /** One entry of `completedLessons`; a null quiz score is None. */
  datatype Completion = Completion(lesson: Id, completedAt: Time, timeSpent: int, quizScore: Option<int>)

  datatype Bookmark = Bookmark(id: Id, lessonId: Id, title: string, timestamp: int, note: string, createdAt: Time)

  datatype Note = Note(
    id: Id, lessonId: Id, title: string, content: string, timestamp: int,
    createdAt: Time, updatedAt: Time)

  datatype ProgressState = ProgressState(
    user: Id,
    course: Id,
    completedLessons: seq<Completion>,
    currentLesson: Option<Id>,
    progressPercentage: int,
    totalTimeSpent: int,
    lastAccessed: Time,
    startedAt: Time,
    completedAt: Option<Time>,
    isCompleted: bool,
    averageQuizScore: int,
    streakDays: int,
    lastActiveDate: Time,
    bookmarks: seq<Bookmark>,
    notes: seq<Note>)

  // ---------------------------------------------------------------------
  // Specification

  predicate HasCompleted(cs: seq<Completion>, lesson: Id)
  {
    exists i :: 0 <= i < |cs| && cs[i].lesson == lesson
  }

  /** `completedLessons.find(c => c.lesson === lessonId)`, as an index. */
  function CompletionOf(cs: seq<Completion>, lesson: Id): (r: Option<nat>)
    ensures r.Some? ==> r.value < |cs| && cs[r.value].lesson == lesson
    ensures r.Some? ==> forall j :: 0 <= j < r.value ==> cs[j].lesson != lesson
    ensures r.None? <==> !HasCompleted(cs, lesson)
  {
    FirstIndex(cs, (c: Completion) => c.lesson == lesson)
  }

  /** The non-null stored quiz scores, in order. */
  function QuizScores(cs: seq<Completion>): (r: seq<int>)
    ensures |r| <= |cs|
  {
    if cs == [] then []
    else
      var last := cs[|cs| - 1];
      QuizScores(cs[..|cs| - 1]) + (if last.quizScore.Some? then [last.quizScore.value] else [])
  }

  lemma QuizScoresAppend(cs: seq<Completion>, c: Completion)
    ensures QuizScores(cs + [c]) ==
      QuizScores(cs) + (if c.quizScore.Some? then [c.quizScore.value] else [])
  {
    assert (cs + [c])[..|cs|] == cs;
  }

  /** Every score in QuizScores comes from a completion's quiz score. */
  lemma {:induction false} QuizScoresWithin(cs: seq<Completion>, lo: int, hi: int)
    requires forall i :: 0 <= i < |cs| && cs[i].quizScore.Some? ==> lo <= cs[i].quizScore.value <= hi
    ensures forall k :: 0 <= k < |QuizScores(cs)| ==> lo <= QuizScores(cs)[k] <= hi
  {
    if cs != [] {
      QuizScoresWithin(cs[..|cs| - 1], lo, hi);
    }
  }

  /** Math.round(sum / count): the integer nearest the mean. */
  function RoundedMean(xs: seq<int>): (r: int)
    requires |xs| > 0
    ensures 2 * |xs| * r - |xs| <= 2 * Sum(xs) < 2 * |xs| * r + |xs|
  {
    RoundDiv(Sum(xs), |xs|)
  }

  lemma RoundedMeanWithin(xs: seq<int>, lo: int, hi: int)
    requires |xs| > 0
    requires forall k :: 0 <= k < |xs| ==> lo <= xs[k] <= hi
    ensures lo <= RoundedMean(xs) <= hi
  {
    SumBounds(xs, lo, hi);
    RoundDivBounds(Sum(xs), |xs|, lo, hi);
  }

  /** calculateProgress's percentage; `totalLessons` is None when the course
      is not found. */
  function CourseProgress(completed: nat, totalLessons: Option<nat>): (r: int)
    ensures totalLessons.None? || totalLessons == Some(0) ==> r == 0
    ensures totalLessons.Some? && totalLessons.value > 0 ==>
      2 * totalLessons.value * r - totalLessons.value <= 200 * completed < 2 * totalLessons.value * r + totalLessons.value
  {
    match totalLessons
    case None => 0
    case Some(n) => if n == 0 then 0 else Percent(completed, n)
  }

  lemma CourseProgressWithin(completed: nat, totalLessons: Option<nat>)
    requires totalLessons.Some? ==> completed <= totalLessons.value
    ensures 0 <= CourseProgress(completed, totalLessons) <= 100
    ensures totalLessons.Some? && 0 < totalLessons.value == completed ==>
      CourseProgress(completed, totalLessons) == 100
  {
    if totalLessons.Some? && totalLessons.value > 0 {
      PercentBounds(completed, totalLessons.value);
      if completed == totalLessons.value {
        PercentOfWhole(completed);
      }
    }
  }

  /** `Math.floor((today - lastActive) / (1000 * 60 * 60 * 24))`. */
  function DaysBetween(lastActive: Time, today: Time): (r: int)
    ensures DayMs * r <= today - lastActive < DayMs * (r + 1)
  {
    (today - lastActive) / DayMs
  }

  /** The streak after activity at `today`. */
  function StreakAfter(streak: int, lastActive: Time, today: Time): int
  {
    var days := DaysBetween(lastActive, today);
    if days == 1 then streak + 1
    else if days > 1 then 1
    else streak
  }

  lemma StreakCases(streak: int, lastActive: Time, today: Time)
    ensures lastActive + DayMs <= today < lastActive + 2 * DayMs ==>
      StreakAfter(streak, lastActive, today) == streak + 1
    ensures today >= lastActive + 2 * DayMs ==> StreakAfter(streak, lastActive, today) == 1
    ensures today < lastActive + DayMs ==> StreakAfter(streak, lastActive, today) == streak
  {
    var d := DaysBetween(lastActive, today);
    if lastActive + DayMs <= today < lastActive + 2 * DayMs {
      assert d == 1 by { DaysExactly(lastActive, today, 1); }
    }
    if today >= lastActive + 2 * DayMs {
      assert DayMs * (d + 1) > DayMs * 2;
    }
    if today < lastActive + DayMs {
      assert DayMs * d < DayMs * 1;
    }
  }

  lemma DaysExactly(lastActive: Time, today: Time, k: int)
    requires lastActive + k * DayMs <= today < lastActive + (k + 1) * DayMs
    ensures DaysBetween(lastActive, today) == k
  {
    var d := DaysBetween(lastActive, today);
    assert DayMs * (d - k - 1) < 0 && DayMs * (k - d - 1) < 0;
    MulSign(DayMs, d - k - 1);
    MulSign(DayMs, k - d - 1);
  }

  /** updateStreak on a value: the streak moves and today becomes the last
      active date. */
  function StreakUpdated(s: ProgressState, today: Time): (r: ProgressState)
    ensures r.completedLessons == s.completedLessons && r.progressPercentage == s.progressPercentage
    ensures r.isCompleted == s.isCompleted && r.lastActiveDate == today
  {
    s.(streakDays := StreakAfter(s.streakDays, s.lastActiveDate, today), lastActiveDate := today)
  }

  /** Two updates at the same moment count once: the second sees no gap. */
  lemma StreakSameMomentIdempotent(streak: int, lastActive: Time, today: Time)
    ensures StreakAfter(StreakAfter(streak, lastActive, today), today, today) ==
      StreakAfter(streak, lastActive, today)
  {
  }

  /** calculateProgress on a value: the percentage, and completion once it
      reaches exactly 100 (completedAt is re-stamped each time). */
  function Recalculated(s: ProgressState, totalLessons: Option<nat>, now: Time): ProgressState
  {
    var pct := CourseProgress(|s.completedLessons|, totalLessons);
    if pct == 100 then s.(progressPercentage := pct, isCompleted := true, completedAt := Some(now))
    else s.(progressPercentage := pct)
  }

  lemma RecalculatedNeverUncompletes(s: ProgressState, totalLessons: Option<nat>, now: Time)
    ensures s.isCompleted ==> Recalculated(s, totalLessons, now).isCompleted
    ensures Recalculated(s, totalLessons, now).isCompleted <==>
      s.isCompleted || CourseProgress(|s.completedLessons|, totalLessons) == 100
    ensures Recalculated(s, totalLessons, now).completedLessons == s.completedLessons
  {
  }

  /** completeLesson on a value. */
  function LessonCompleted(
    s: ProgressState, lesson: Id, timeSpent: int, quizScore: Option<int>,
    totalLessons: Option<nat>, now: Time): ProgressState
  {
    if HasCompleted(s.completedLessons, lesson) then s
    else Recalculated(Recorded(s, lesson, timeSpent, quizScore, now), totalLessons, now)
  }

  /** The record with a new completion pushed, before the percentage is
      recalculated: the time is added, the access time moved and, when the
      completion carries a quiz score, the average recomputed. */
  function Recorded(s: ProgressState, lesson: Id, timeSpent: int, quizScore: Option<int>, now: Time): ProgressState
  {
    var cs := s.completedLessons + [Completion(lesson, now, timeSpent, quizScore)];
    QuizScoresAppend(s.completedLessons, Completion(lesson, now, timeSpent, quizScore));
    var avg := if quizScore.Some? then RoundedMean(QuizScores(cs)) else s.averageQuizScore;
    s.(completedLessons := cs, totalTimeSpent := s.totalTimeSpent + timeSpent,
       lastAccessed := now, averageQuizScore := avg)
  }

  /** A repeat completion of the same lesson changes nothing at all. */
  lemma CompleteLessonIdempotent(
    s: ProgressState, lesson: Id, t1: int, q1: Option<int>, t2: int, q2: Option<int>,
    n1: Option<nat>, n2: Option<nat>, now1: Time, now2: Time)
    ensures var once := LessonCompleted(s, lesson, t1, q1, n1, now1);
      LessonCompleted(once, lesson, t2, q2, n2, now2) == once
  {
    var once := LessonCompleted(s, lesson, t1, q1, n1, now1);
    if !HasCompleted(s.completedLessons, lesson) {
      var k := |s.completedLessons|;
      assert once.completedLessons[k].lesson == lesson;
    }
  }

  /** A new completion appends exactly one entry and adds its time. */
  lemma CompleteLessonAppendsOnce(
    s: ProgressState, lesson: Id, timeSpent: int, quizScore: Option<int>,
    totalLessons: Option<nat>, now: Time)
    requires !HasCompleted(s.completedLessons, lesson)
    ensures var r := LessonCompleted(s, lesson, timeSpent, quizScore, totalLessons, now);
      r.completedLessons == s.completedLessons + [Completion(lesson, now, timeSpent, quizScore)] &&
      r.totalTimeSpent == s.totalTimeSpent + timeSpent &&
      r.lastAccessed == now &&
      r.bookmarks == s.bookmarks && r.notes == s.notes && r.streakDays == s.streakDays
  {
  }

  /** With a quiz score, the average is the rounded mean of all stored
      scores; if every stored score is in [0, 100], so is the average. */
  lemma CompleteLessonAverage(
    s: ProgressState, lesson: Id, timeSpent: int, quizScore: Option<int>,
    totalLessons: Option<nat>, now: Time)
    requires !HasCompleted(s.completedLessons, lesson) && quizScore.Some?
    requires forall i :: 0 <= i < |s.completedLessons| && s.completedLessons[i].quizScore.Some? ==>
      0 <= s.completedLessons[i].quizScore.value <= 100
    requires 0 <= quizScore.value <= 100
    ensures var r := LessonCompleted(s, lesson, timeSpent, quizScore, totalLessons, now);
      |QuizScores(r.completedLessons)| > 0 &&
      r.averageQuizScore == RoundedMean(QuizScores(r.completedLessons)) &&
      0 <= r.averageQuizScore <= 100
  {
    var c := Completion(lesson, now, timeSpent, quizScore);
    var cs := s.completedLessons + [c];
    QuizScoresAppend(s.completedLessons, c);
    QuizScoresWithin(cs, 0, 100);
    RoundedMeanWithin(QuizScores(cs), 0, 100);
  }

  /** `bookmarks.filter(b => b._id !== id)` (likewise for notes). */
  function WithoutBookmark(bs: seq<Bookmark>, id: Id): (r: seq<Bookmark>)
    ensures forall b :: b in r <==> b in bs && b.id != id
  {
    Filter(bs, (b: Bookmark) => b.id != id)
  }

  function WithoutNote(ns: seq<Note>, id: Id): (r: seq<Note>)
    ensures forall n :: n in r <==> n in ns && n.id != id
  {
    Filter(ns, (n: Note) => n.id != id)
  }

  /** Removal with an unknown id keeps the list as it is, and removing twice
      is removing once. */
  lemma RemoveBookmarkProperties(bs: seq<Bookmark>, id: Id)
    ensures (forall i :: 0 <= i < |bs| ==> bs[i].id != id) ==> WithoutBookmark(bs, id) == bs
    ensures WithoutBookmark(WithoutBookmark(bs, id), id) == WithoutBookmark(bs, id)
  {
    if forall i :: 0 <= i < |bs| ==> bs[i].id != id {
      FilterKeepsAll(bs, (b: Bookmark) => b.id != id);
    }
    FilterIdempotent(bs, (b: Bookmark) => b.id != id);
  }

  /** Removal keeps the other entries in their order: removing from a
      concatenation removes from each part. */
  lemma RemoveNoteKeepsOrder(ns: seq<Note>, more: seq<Note>, id: Id)
    ensures WithoutNote(ns + more, id) == WithoutNote(ns, id) + WithoutNote(more, id)
    ensures (forall i :: 0 <= i < |ns| ==> ns[i].id != id) ==> WithoutNote(ns, id) == ns
  {
    FilterAppend(ns, more, (n: Note) => n.id != id);
    if forall i :: 0 <= i < |ns| ==> ns[i].id != id {
      FilterKeepsAll(ns, (n: Note) => n.id != id);
    }
  }

  /** updateNote: `notes.id(noteId)` finds the first note with that id and
      overwrites its title, content and updatedAt; an unknown id changes
      nothing. */
  function NoteUpdated(ns: seq<Note>, id: Id, title: string, content: string, now: Time): (r: seq<Note>)
    ensures |r| == |ns|
    ensures (forall i :: 0 <= i < |ns| ==> ns[i].id != id) ==> r == ns
    ensures forall i :: 0 <= i < |ns| ==>
      (r[i] == ns[i] || (ns[i].id == id && r[i] == ns[i].(title := title, content := content, updatedAt := now)))
  {
    match FirstIndex(ns, (n: Note) => n.id == id)
    case None => ns
    case Some(k) => ns[k := ns[k].(title := title, content := content, updatedAt := now)]
  }

  /** At most one record per (user, course): the unique index. */
  predicate UniquePerUserCourse(records: seq<ProgressState>)
  {
    forall i, j :: 0 <= i < j < |records| ==>
      (records[i].user, records[i].course) != (records[j].user, records[j].course)
  }

  /** Inserting a record: refused (duplicate key) when one exists for the pair. */
  function InsertRecord(records: seq<ProgressState>, r: ProgressState): (res: Option<seq<ProgressState>>)
    ensures res.None? <==> exists i :: 0 <= i < |records| && records[i].user == r.user && records[i].course == r.course
    ensures res.Some? ==> res.value == records + [r]
  {
    if exists i :: 0 <= i < |records| && records[i].user == r.user && records[i].course == r.course then None
    else Some(records + [r])
  }

  lemma InsertKeepsUnique(records: seq<ProgressState>, r: ProgressState)
    requires UniquePerUserCourse(records)
    ensures InsertRecord(records, r).Some? ==> UniquePerUserCourse(InsertRecord(records, r).value)
  {
  }

  /** A fresh record, with the schema defaults. */
  function NewProgress(user: Id, course: Id, now: Time): (s: ProgressState)
    ensures s.completedLessons == [] && s.progressPercentage == 0 && !s.isCompleted
    ensures s.streakDays == 0 && s.totalTimeSpent == 0 && s.averageQuizScore == 0
    ensures s.currentLesson.None?
  {
    ProgressState(user, course, [], None, 0, 0, now, now, None, false, 0, 0, now, [], [])
  }

  // ---------------------------------------------------------------------
  // The document

  class Progress {
    var user: Id
    var course: Id
    var completedLessons: seq<Completion>
    var currentLesson: Option<Id>
    var progressPercentage: int
    var totalTimeSpent: int
    var lastAccessed: Time
    var startedAt: Time
    var completedAt: Option<Time>
    var isCompleted: bool
    var averageQuizScore: int
    var streakDays: int
    var lastActiveDate: Time
    var bookmarks: seq<Bookmark>
    var notes: seq<Note>

    function State(): ProgressState
      reads this
    {
      ProgressState(user, course, completedLessons, currentLesson, progressPercentage, totalTimeSpent,
        lastAccessed, startedAt, completedAt, isCompleted, averageQuizScore, streakDays,
        lastActiveDate, bookmarks, notes)
    }

    constructor (user: Id, course: Id, now: Time)
      ensures State() == NewProgress(user, course, now)
    {
      this.user := user;
      this.course := course;
      completedLessons := [];
      currentLesson := None;
      progressPercentage := 0;
      totalTimeSpent := 0;
      lastAccessed := now;
      startedAt := now;
      completedAt := None;
      isCompleted := false;
      averageQuizScore := 0;
      streakDays := 0;
      lastActiveDate := now;
      bookmarks := [];
      notes := [];
    }

    /** A record fetched from the database (`Progress.findOne`). */
    constructor Load(s: ProgressState)
      ensures State() == s
    {
      user, course, completedLessons := s.user, s.course, s.completedLessons;
      currentLesson := s.currentLesson;
      progressPercentage, totalTimeSpent := s.progressPercentage, s.totalTimeSpent;
      lastAccessed, startedAt, completedAt := s.lastAccessed, s.startedAt, s.completedAt;
      isCompleted, averageQuizScore := s.isCompleted, s.averageQuizScore;
      streakDays, lastActiveDate := s.streakDays, s.lastActiveDate;
      bookmarks, notes := s.bookmarks, s.notes;
    }

    /** `totalLessons` is the looked-up course's lesson count, None when the
        course is missing. */
    method CalculateProgress(totalLessons: Option<nat>, now: Time) returns (pct: int)
      modifies this
      ensures State() == Recalculated(old(State()), totalLessons, now)
      ensures pct == progressPercentage
    {
      var n := |completedLessons|;
      if totalLessons.None? || totalLessons.value == 0 {
        progressPercentage := 0;
        return 0;
      }
      progressPercentage := Percent(n, totalLessons.value);
      if progressPercentage == 100 {
        isCompleted := true;
        completedAt := Some(now);
      }
      pct := progressPercentage;
    }

    method CompleteLesson(lesson: Id, timeSpent: int, quizScore: Option<int>, totalLessons: Option<nat>, now: Time)
      modifies this
      ensures State() == LessonCompleted(old(State()), lesson, timeSpent, quizScore, totalLessons, now)
    {
      var existing := CompletionOf(completedLessons, lesson);
      if existing.None? {
        PushCompletion(lesson, timeSpent, quizScore, now);
        var _ := CalculateProgress(totalLessons, now);
      }
    }

    /** The first half of completeLesson: the completion is pushed, the
        time added, the access time moved and, for a quiz, the average
        recomputed, each field set from the value `Recorded` describes. */
    method PushCompletion(lesson: Id, timeSpent: int, quizScore: Option<int>, now: Time)
      modifies this
      ensures State() == Recorded(old(State()), lesson, timeSpent, quizScore, now)
    {
      var next := Recorded(State(), lesson, timeSpent, quizScore, now);
      completedLessons := next.completedLessons;
      totalTimeSpent := next.totalTimeSpent;
      lastAccessed := next.lastAccessed;
      if quizScore.Some? {
        averageQuizScore := next.averageQuizScore;
      }
    }

    method UpdateStreak(today: Time)
      modifies this
      ensures State() == StreakUpdated(old(State()), today)
    {
      var daysDiff := DaysBetween(lastActiveDate, today);
      if daysDiff == 1 {
        streakDays := streakDays + 1;
      } else if daysDiff > 1 {
        streakDays := 1;
      }
      lastActiveDate := today;
    }

    /** `id` is the id Mongoose assigns to the new entry. */
    method AddBookmark(id: Id, lessonId: Id, title: string, timestamp: int, note: string, now: Time)
      modifies this
      ensures State() == old(State()).(bookmarks := old(bookmarks) + [Bookmark(id, lessonId, title, timestamp, note, now)])
    {
      bookmarks := bookmarks + [Bookmark(id, lessonId, title, timestamp, note, now)];
    }

    method RemoveBookmark(id: Id)
      modifies this
      ensures State() == old(State()).(bookmarks := WithoutBookmark(old(bookmarks), id))
    {
      bookmarks := WithoutBookmark(bookmarks, id);
    }

    method AddNote(id: Id, lessonId: Id, title: string, content: string, timestamp: int, now: Time)
      modifies this
      ensures State() == old(State()).(notes := old(notes) + [Note(id, lessonId, title, content, timestamp, now, now)])
    {
      notes := notes + [Note(id, lessonId, title, content, timestamp, now, now)];
    }

    method UpdateNote(id: Id, title: string, content: string, now: Time)
      modifies this
      ensures State() == old(State()).(notes := NoteUpdated(old(notes), id, title, content, now))
    {
      notes := NoteUpdated(notes, id, title, content, now);
    }

    method RemoveNote(id: Id)
      modifies this
      ensures State() == old(State()).(notes := WithoutNote(old(notes), id))
    {
      notes := WithoutNote(notes, id);
    }
  }
}
