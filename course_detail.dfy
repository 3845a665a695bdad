// The course page (client/src/pages/CourseDetailNew.jsx): the duration
// text, the expanded-module record, the enrol and wishlist buttons, the
// curriculum totals and the lock shown on a lesson.  The course itself is
// a parameter; navigation and toasts are left out, except where the text
// of a toast is what a button reports.
module CourseDetail {
  import opened Common

  // ---------------------------------------------------------------------
  // Durations

  /** formatDuration(seconds): whole minutes, as `Hh Mm` from one hour on
      (the minutes are written even when 0), else `Mm`. */
  function FormatDuration(seconds: nat): (r: string)
    ensures ParseHoursMinutes(r) == Some(seconds / 60)
    ensures 'h' in r <==> seconds >= 3600
  {
    var minutes := seconds / 60;
    var hours := minutes / 60;
    var remaining := minutes % 60;
    if hours > 0 then
      HoursMinutesRoundTrip(hours, remaining);
      var r := NatToString(hours) + "h " + NatToString(remaining) + "m";
      assert r[|NatToString(hours)|] == 'h';
      r
    else
      MinutesRoundTrip(minutes);
      NoLetterInDigits(NatToString(minutes), 'h');
      NatToString(minutes) + "m"
  }

  /** A lesson of a module. */
  datatype Lesson = Lesson(id: string, kind: string, videoDuration: Option<nat>, isPreview: bool)

  datatype Module = Module(id: string, lessons: seq<Lesson>)

  /** `lesson.videoDuration || 0`. */
  function VideoSeconds(l: Lesson): int
  {
    if l.videoDuration.Some? then l.videoDuration.value else 0
  }

  /** The duration beside a lesson: only for a video with a non-zero
      duration. */
  function DurationLabel(l: Lesson): (r: Option<string>)
    ensures r.Some? <==> l.kind == "video" && VideoSeconds(l) > 0
    ensures r.Some? ==> ParseHoursMinutes(r.value) == Some(VideoSeconds(l) / 60)
  {
    if l.kind == "video" && l.videoDuration.Some? && l.videoDuration.value > 0 then
      Some(FormatDuration(l.videoDuration.value))
    else None
  }

  // ---------------------------------------------------------------------
  // The curriculum

  function LessonCount(m: Module): int
  {
    |m.lessons|
  }

  function ModuleSeconds(m: Module): int
  {
    SumOf(m.lessons, VideoSeconds)
  }

  /** The curriculum header's lecture count. */
  function TotalLessons(modules: seq<Module>): int
  {
    SumOf(modules, LessonCount)
  }

  /** The curriculum header's total length, in seconds. */
  function TotalDuration(modules: seq<Module>): int
  {
    SumOf(modules, ModuleSeconds)
  }

  /** Every lesson of the curriculum, module by module. */
  function AllLessons(modules: seq<Module>): seq<Lesson>
  {
    if modules == [] then [] else modules[0].lessons + AllLessons(modules[1..])
  }

  /** The totals count each lesson of each module once: the lecture count
      is the number of lessons and the length is the sum of their video
      durations, a missing one counting as 0. */
  lemma {:induction false} TotalsOverAllLessons(modules: seq<Module>)
    ensures TotalLessons(modules) == |AllLessons(modules)|
    ensures TotalDuration(modules) == SumOf(AllLessons(modules), VideoSeconds)
  {
    if modules != [] {
      TotalsOverAllLessons(modules[1..]);
      SumOfAppend(modules[0].lessons, AllLessons(modules[1..]), VideoSeconds);
    }
  }

  /** A lesson shows a lock exactly when the visitor is not enrolled and
      the lesson is not a preview. */
  predicate ShowsLock(isEnrolled: bool, l: Lesson)
  {
    !isEnrolled && !l.isPreview
  }

  /** The locked lessons of the curriculum: none once enrolled, and before
      that every lesson but the previews. */
  function LockedLessons(modules: seq<Module>, isEnrolled: bool): (r: seq<Lesson>)
    ensures forall l :: l in r <==> l in AllLessons(modules) && ShowsLock(isEnrolled, l)
  {
    Filter(AllLessons(modules), (l: Lesson) => ShowsLock(isEnrolled, l))
  }

  lemma LockFacts(modules: seq<Module>)
    ensures LockedLessons(modules, true) == []
    ensures forall l :: l in LockedLessons(modules, false) <==> l in AllLessons(modules) && !l.isPreview
  {
    FilterKeepsNone(AllLessons(modules), (l: Lesson) => ShowsLock(true, l));
  }

  // ---------------------------------------------------------------------
  // Expanded modules

  /** `expandedModules[id]`, an absent entry reading as collapsed. */
  predicate Expanded(expanded: map<string, bool>, id: string)
  {
    id in expanded && expanded[id]
  }

  /** toggleModule: the module's entry is set to the negation of what it
      read; every other entry stays. */
  function ToggleModule(expanded: map<string, bool>, id: string): (r: map<string, bool>)
    ensures Expanded(r, id) == !Expanded(expanded, id)
    ensures forall k :: k != id ==> (k in r <==> k in expanded) && (k in r ==> r[k] == expanded[k])
    ensures id in r
  {
    expanded[id := !Expanded(expanded, id)]
  }

  /** Toggling a module twice shows every module as before. */
  lemma ToggleTwice(expanded: map<string, bool>, id: string)
    ensures forall k :: Expanded(ToggleModule(ToggleModule(expanded, id), id), k) == Expanded(expanded, k)
  {
  }

  /** Toggling two modules shows the same in either order. */
  lemma ToggleCommutes(expanded: map<string, bool>, id: string, other: string)
    ensures forall k ::
      Expanded(ToggleModule(ToggleModule(expanded, id), other), k) == Expanded(ToggleModule(ToggleModule(expanded, other), id), k)
  {
  }

  // ---------------------------------------------------------------------
  // Enrol and wishlist

  /** The end of handleEnroll: without a user the visitor is told to log
      in and sent to the login page; with one the simulated enrolment ends
      enrolled. */
  datatype EnrollOutcome = LoginRequired(message: string, redirect: string) | Enrolled(message: string)

  function Enroll(signedIn: bool): (r: EnrollOutcome)
    ensures r.Enrolled? <==> signedIn
    ensures r.LoginRequired? ==> r.redirect == "/login"
  {
    if signedIn then Enrolled("Successfully enrolled! Welcome to the course.")
    else LoginRequired("Please login to enroll", "/login")
  }

  /** handleWishlist: the new wishlist flag and the message shown. */
  function Wishlist(signedIn: bool, wishlisted: bool): (r: (bool, string))
    ensures !signedIn ==> r == (wishlisted, "Please login to add to wishlist")
    ensures signedIn ==> r.0 == !wishlisted
  {
    if !signedIn then (wishlisted, "Please login to add to wishlist")
    else (!wishlisted, if wishlisted then "Removed from wishlist" else "Added to wishlist")
  }

  /** For a signed-in user the button toggles, twice gives the flag back,
      and the message reports the new state; without one nothing changes. */
  lemma WishlistToggles(wishlisted: bool)
    ensures Wishlist(true, Wishlist(true, wishlisted).0).0 == wishlisted
    ensures Wishlist(true, wishlisted).1 == "Added to wishlist" <==> Wishlist(true, wishlisted).0
    ensures Wishlist(false, wishlisted).0 == wishlisted
  {
  }
}
