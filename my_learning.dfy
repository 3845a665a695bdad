// The student's "My Learning" page (client/src/pages/MyLearningEnhanced.jsx):
// the course list of each tab with its search, category filter and sort,
// the continue-watching and recommended rows, and the duration and
// progress-colour helpers.  The fetches that fill the three lists are
// left out; the lists are the page's state.
module MyLearning {
  import opened Common

  /** A course as the page lists it; `percentage` is `progress?.percentage`
      and `rating` is `rating?.average`. */
  datatype Course = Course(
    title: string, instructorName: Option<string>, category: string, percentage: Option<int>,
    lastAccessed: Option<Time>, enrolledAt: Time, rating: Option<int>)

  /** `course.progress?.percentage < 100`: a course without progress is not
      below 100. */
  predicate InProgress(c: Course)
  {
    c.percentage.Some? && c.percentage.value < 100
  }

  /** The list a tab starts from; an unknown tab shows every enrolled
      course. */
  function TabCourses(enrolled: seq<Course>, completed: seq<Course>, wishlist: seq<Course>, tab: string): (r: seq<Course>)
    ensures tab == "learning" ==> forall c :: c in r <==> c in enrolled && InProgress(c)
    ensures tab == "completed" ==> r == completed
    ensures tab == "wishlist" ==> r == wishlist
    ensures tab != "learning" && tab != "completed" && tab != "wishlist" ==> r == enrolled
  {
    if tab == "learning" then Filter(enrolled, InProgress)
    else if tab == "completed" then completed
    else if tab == "wishlist" then wishlist
    else enrolled
  }

  /** The title, or the instructor's name when there is one, contains the
      term, ignoring case. */
  predicate MatchesSearch(c: Course, term: string)
  {
    ContainsIgnoreCase(c.title, term) ||
    (c.instructorName.Some? && ContainsIgnoreCase(c.instructorName.value, term))
  }

  /** The search and category tests, as the filters apply them. */
  function SearchTest(term: string): Course -> bool
  {
    c => MatchesSearch(c, term)
  }

  function CategoryTest(category: string): Course -> bool
  {
    (c: Course) => c.category == category
  }

  /** The courses the tab shows before sorting: an empty search term and
      the category 'all' keep everything. */
  function Visible(enrolled: seq<Course>, completed: seq<Course>, wishlist: seq<Course>, tab: string, searchTerm: string, filterBy: string): (r: seq<Course>)
    ensures forall c :: c in r <==>
      c in TabCourses(enrolled, completed, wishlist, tab) &&
      (searchTerm == "" || MatchesSearch(c, searchTerm)) && (filterBy == "all" || c.category == filterBy)
  {
    var courses := TabCourses(enrolled, completed, wishlist, tab);
    var searched := if searchTerm != "" then Filter(courses, SearchTest(searchTerm)) else courses;
    if filterBy != "all" then Filter(searched, CategoryTest(filterBy)) else searched
  }

  /** The sort key of each order, largest first: last access (or the
      enrolment date) for 'recent', progress and rating (missing ones as 0),
      and for 'title' the reverse of the title's place in the locale's
      collation, which `collation` stands for.  Any other order does not
      sort. */
  function SortKey(sortBy: string, collation: string -> int): Option<Course -> int>
  {
    if sortBy == "recent" then Some((c: Course) => if c.lastAccessed.Some? then c.lastAccessed.value else c.enrolledAt)
    else if sortBy == "progress" then Some((c: Course) => if c.percentage.Some? then c.percentage.value else 0)
    else if sortBy == "title" then Some((c: Course) => -collation(c.title))
    else if sortBy == "rating" then Some((c: Course) => if c.rating.Some? then c.rating.value else 0)
    else None
  }

  function SortBy(courses: seq<Course>, sortBy: string, collation: string -> int): seq<Course>
  {
    match SortKey(sortBy, collation)
    case Some(key) => SortDesc(courses, key)
    case None => courses
  }

  /** getFilteredCourses, as a value. */
  function Displayed(enrolled: seq<Course>, completed: seq<Course>, wishlist: seq<Course>, tab: string, searchTerm: string, filterBy: string, sortBy: string, collation: string -> int): seq<Course>
  {
    SortBy(Visible(enrolled, completed, wishlist, tab, searchTerm, filterBy), sortBy, collation)
  }

  /** The list shown is the visible courses, each as often as before, in
      the order chosen. */
  lemma DisplayedIsSortedVisible(enrolled: seq<Course>, completed: seq<Course>, wishlist: seq<Course>, tab: string, searchTerm: string, filterBy: string, sortBy: string, collation: string -> int)
    ensures var v := Visible(enrolled, completed, wishlist, tab, searchTerm, filterBy);
      var d := Displayed(enrolled, completed, wishlist, tab, searchTerm, filterBy, sortBy, collation);
      multiset(d) == multiset(v) &&
      (SortKey(sortBy, collation).Some? ==> SortedDesc(d, SortKey(sortBy, collation).value)) &&
      (SortKey(sortBy, collation).None? ==> d == v)
  {
    var v := Visible(enrolled, completed, wishlist, tab, searchTerm, filterBy);
    if SortKey(sortBy, collation).Some? {
      SortDescSorted(v, SortKey(sortBy, collation).value);
    }
  }

  /** The 'title' order is alphabetical in the collation's sense: earlier
      titles first. */
  lemma TitleOrderAscending(courses: seq<Course>, collation: string -> int, i: int, j: int)
    requires 0 <= i < j < |courses|
    ensures collation(SortBy(courses, "title", collation)[i].title) <= collation(SortBy(courses, "title", collation)[j].title)
  {
    SortDescSorted(courses, SortKey("title", collation).value);
  }

  /** The tabs' counts: the learning tab counts the courses in progress. */
  function LearningCount(enrolled: seq<Course>): (r: nat)
    ensures r <= |enrolled|
    ensures r == |TabCourses(enrolled, [], [], "learning")|
  {
    |Filter(enrolled, InProgress)|
  }

  /** The page: its three lists and the controls above the list. */
  class MyLearningPage {
    var enrolledCourses: seq<Course>
    var completedCourses: seq<Course>
    var wishlistedCourses: seq<Course>
    var activeTab: string
    var searchTerm: string
    var sortBy: string
    var filterBy: string

    constructor (enrolled: seq<Course>, completed: seq<Course>, wishlist: seq<Course>)
      ensures enrolledCourses == enrolled && completedCourses == completed && wishlistedCourses == wishlist
      ensures activeTab == "learning" && searchTerm == "" && sortBy == "recent" && filterBy == "all"
    {
      enrolledCourses, completedCourses, wishlistedCourses := enrolled, completed, wishlist;
      activeTab, searchTerm, sortBy, filterBy := "learning", "", "recent", "all";
    }

    /** getFilteredCourses.  `Array.prototype.sort` sorts in place, so when
        neither the learning tab's filter, nor a search, nor a category has
        made a copy, the list being sorted is the page's own state list,
        which is left reordered. */
    method FilteredCourses(collation: string -> int) returns (r: seq<Course>)
      modifies this
      ensures r == Displayed(old(enrolledCourses), old(completedCourses), old(wishlistedCourses),
                             activeTab, searchTerm, filterBy, sortBy, collation)
      ensures activeTab == old(activeTab) && searchTerm == old(searchTerm) && sortBy == old(sortBy) && filterBy == old(filterBy)
      ensures var inPlace := activeTab != "learning" && searchTerm == "" && filterBy == "all" && SortKey(sortBy, collation).Some?;
        completedCourses == (if inPlace && activeTab == "completed" then r else old(completedCourses)) &&
        wishlistedCourses == (if inPlace && activeTab == "wishlist" then r else old(wishlistedCourses)) &&
        enrolledCourses == (if inPlace && activeTab != "completed" && activeTab != "wishlist" then r else old(enrolledCourses))
    {
      var courses, shared := TabList();
      var key := SortKey(sortBy, collation);
      if key.Some? {
        courses := SortDesc(courses, key.value);
        if shared {
          if activeTab == "completed" {
            completedCourses := courses;
          } else if activeTab == "wishlist" {
            wishlistedCourses := courses;
          } else {
            enrolledCourses := courses;
          }
        }
      }
      r := courses;
    }

    /** The tab's list after the search and category filters, and whether it
        is still the state list itself rather than a copy. */
    method TabList() returns (courses: seq<Course>, shared: bool)
      ensures courses == Visible(enrolledCourses, completedCourses, wishlistedCourses, activeTab, searchTerm, filterBy)
      ensures shared <==> activeTab != "learning" && searchTerm == "" && filterBy == "all"
    {
      shared := true;
      if activeTab == "learning" {
        courses := Filter(enrolledCourses, InProgress);
        shared := false;
      } else if activeTab == "completed" {
        courses := completedCourses;
      } else if activeTab == "wishlist" {
        courses := wishlistedCourses;
      } else {
        courses := enrolledCourses;
      }
      if searchTerm != "" {
        courses := Filter(courses, SearchTest(searchTerm));
        shared := false;
      }
      if filterBy != "all" {
        courses := Filter(courses, CategoryTest(filterBy));
        shared := false;
      }
    }
  }

  // ---------------------------------------------------------------------
  // The rows above the list

  /** Started and not finished: `0 < percentage < 100`. */
  predicate Started(c: Course)
  {
    c.percentage.Some? && 0 < c.percentage.value < 100
  }

  /** The continue-watching key: last access, with a course never accessed
      placed as at time 0. */
  function AccessKey(c: Course): int
  {
    if c.lastAccessed.Some? then c.lastAccessed.value else 0
  }

  /** getContinueWatchingCourses. */
  function ContinueWatching(enrolled: seq<Course>): seq<Course>
  {
    var started := SortDesc(Filter(enrolled, Started), AccessKey);
    started[..Min(4, |started|)]
  }

  /** At most four courses, all started and unfinished, most recently
      accessed first, and no started course left out was accessed more
      recently than one shown. */
  lemma ContinueWatchingShape(enrolled: seq<Course>)
    ensures var r := ContinueWatching(enrolled);
      |r| <= 4 && (forall c :: c in r ==> c in enrolled && Started(c)) && SortedDesc(r, AccessKey)
    ensures var r := ContinueWatching(enrolled);
      forall c, x :: c in r && x in enrolled && Started(x) && x !in r ==> AccessKey(x) <= AccessKey(c)
    ensures |Filter(enrolled, Started)| <= 4 ==> multiset(ContinueWatching(enrolled)) == multiset(Filter(enrolled, Started))
    ensures |ContinueWatching(enrolled)| == Min(4, |Filter(enrolled, Started)|)
  {
    var f := Filter(enrolled, Started);
    var s := SortDesc(f, AccessKey);
    SortDescSorted(f, AccessKey);
    var k := Min(4, |s|);
    var r := s[..k];
    assert r == ContinueWatching(enrolled);
    forall c | c in r ensures c in enrolled && Started(c) {
      assert c in s;
    }
    forall c, x | c in r && x in enrolled && Started(x) && x !in r
      ensures AccessKey(x) <= AccessKey(c)
    {
      SortedPrefixDominates(s, AccessKey, k, c, x);
    }
    if |f| <= 4 {
      assert r == s;
    }
  }

  /** getRecommendedCourses: not yet started courses in a category the
      student has completed a course in, at most three, in order. */
  function Recommended(enrolled: seq<Course>, completed: seq<Course>): seq<Course>
  {
    var categories := seq(|completed|, i requires 0 <= i < |completed| => completed[i].category);
    var unstarted := Filter(enrolled, (c: Course) => c.percentage == Some(0) && c.category in categories);
    unstarted[..Min(3, |unstarted|)]
  }

  /** Not started, in a category of some completed course. */
  function Recommendable(completed: seq<Course>): Course -> bool
  {
    (c: Course) => c.percentage == Some(0) && exists d :: d in completed && d.category == c.category
  }

  /** The recommendations are the first three enrolled courses that are
      recommendable, in enrolment order (all of them when fewer). */
  lemma RecommendedShape(enrolled: seq<Course>, completed: seq<Course>)
    ensures var all := Filter(enrolled, Recommendable(completed));
      Recommended(enrolled, completed) == all[..Min(3, |all|)]
    ensures var r := Recommended(enrolled, completed);
      |r| <= 3 &&
      forall c :: c in r ==> c in enrolled && c.percentage == Some(0) && exists d :: d in completed && d.category == c.category
    ensures completed == [] ==> Recommended(enrolled, completed) == []
  {
    var categories := seq(|completed|, i requires 0 <= i < |completed| => completed[i].category);
    var p := (c: Course) => c.percentage == Some(0) && c.category in categories;
    var unstarted := Filter(enrolled, p);
    var r := unstarted[..Min(3, |unstarted|)];
    forall c | c in r
      ensures c in enrolled && c.percentage == Some(0) && exists d :: d in completed && d.category == c.category
    {
      assert c in unstarted;
      var i :| 0 <= i < |categories| && categories[i] == c.category;
      assert completed[i] in completed;
    }
    forall i | 0 <= i < |enrolled|
      ensures p(enrolled[i]) == Recommendable(completed)(enrolled[i])
    {
      var c := enrolled[i];
      if d :| d in completed && d.category == c.category {
        var j :| 0 <= j < |completed| && completed[j] == d;
        assert categories[j] == c.category;
      }
      if c.category in categories {
        var j :| 0 <= j < |categories| && categories[j] == c.category;
        assert completed[j] in completed;
      }
    }
    FilterAgree(enrolled, p, Recommendable(completed));
    if completed == [] {
      FilterKeepsNone(enrolled, p);
    }
  }

  // ---------------------------------------------------------------------
  // Helpers

  /** formatDuration: `Nm` below an hour, else `Hh`, or `Hh Mm` when
      minutes remain. */
  function FormatDuration(minutes: nat): (r: string)
    ensures ParseHoursMinutes(r) == Some(minutes)
    ensures minutes < 60 <==> 'h' !in r
  {
    if minutes < 60 then
      MinutesRoundTrip(minutes);
      NoLetterInDigits(NatToString(minutes), 'h');
      NatToString(minutes) + "m"
    else
      var hours := minutes / 60;
      var mins := minutes % 60;
      assert NatToString(hours) + "h" == NatToString(hours) + ['h'];
      assert (NatToString(hours) + ['h'])[|NatToString(hours)|] == 'h';
      if mins > 0 then
        HoursMinutesRoundTrip(hours, mins);
        var r := NatToString(hours) + "h " + NatToString(mins) + "m";
        assert r[|NatToString(hours)|] == 'h';
        r
      else
        HoursRoundTrip(hours);
        NatToString(hours) + "h"
  }

  /** getProgressColor. */
  function ProgressColor(percentage: int): string
  {
    if percentage < 25 then "bg-red-500"
    else if percentage < 50 then "bg-yellow-500"
    else if percentage < 75 then "bg-blue-500"
    else "bg-green-500"
  }

  /** The colours are four bands of 25 points each, the last one open. */
  lemma ProgressColorBands(percentage: int)
    requires percentage >= 0
    ensures ProgressColor(percentage) == ["bg-red-500", "bg-yellow-500", "bg-blue-500", "bg-green-500"][Min(percentage / 25, 3)]
  {
  }
}
