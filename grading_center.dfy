// The instructor's grading dialog (client/src/components/GradingCenter.jsx):
// the status of a submission, the submission filter, the percentage and
// letter grade of the grade being entered, and the Complete label of an
// assignment.  The fetches that fill the lists are left out; the lists
// are parameters.
module GradingCenter {
  import opened Common

  /** A submission: its grade when graded, its time of submission, and the
      student's name when the student record carries one. */
  datatype Submission = Submission(grade: Option<int>, submittedAt: Time, studentName: Option<string>)

  datatype Status = Graded | Late | Pending

  /** getStatusText: graded first, then late when submitted after the due
      date, else pending.  A missing or unreadable due date (`None`) makes
      the comparison false, so nothing is late. */
  function StatusOf(s: Submission, dueDate: Option<Time>): (r: Status)
    ensures r == Graded <==> s.grade.Some?
    ensures r == Late <==> s.grade.None? && dueDate.Some? && s.submittedAt > dueDate.value
    ensures dueDate.None? ==> r != Late
  {
    if s.grade.Some? then Graded
    else if dueDate.Some? && s.submittedAt > dueDate.value then Late
    else Pending
  }

  function StatusText(st: Status): string
  {
    match st
    case Graded => "Graded"
    case Late => "Late"
    case Pending => "Pending"
  }

  /** getStatusColor, written out with the same tests as getStatusText. */
  function StatusColor(s: Submission, dueDate: Option<Time>): string
  {
    if s.grade.Some? then "text-green-600 bg-green-100"
    else if dueDate.Some? && s.submittedAt > dueDate.value then "text-red-600 bg-red-100"
    else "text-yellow-600 bg-yellow-100"
  }

  /** The colour shows the status: green for graded, red for late, yellow
      for pending. */
  lemma ColorFollowsStatus(s: Submission, dueDate: Option<Time>)
    ensures StatusColor(s, dueDate) == (match StatusOf(s, dueDate)
      case Graded => "text-green-600 bg-green-100"
      case Late => "text-red-600 bg-red-100"
      case Pending => "text-yellow-600 bg-yellow-100")
  {
  }

  /** The status texts in lower case, as the filter compares them. */
  lemma LowerStatusText(st: Status)
    ensures ToLower(StatusText(st)) == (match st case Graded => "graded" case Late => "late" case Pending => "pending")
  {
    match st
    case Graded =>
      assert ToLower("Graded") == [ToLowerChar('G')] + ToLower("raded");
    case Late =>
      assert ToLower("Late") == [ToLowerChar('L')] + ToLower("ate");
    case Pending =>
      assert ToLower("Pending") == [ToLowerChar('P')] + ToLower("ending");
  }

  /** The filter: the status matches unless the filter is 'all', and the
      student's lower-cased name contains the lower-cased search term
      unless the term is empty. */
  predicate Keep(s: Submission, dueDate: Option<Time>, filterStatus: string, searchTerm: string)
  {
    var status := ToLower(StatusText(StatusOf(s, dueDate)));
    var name := if s.studentName.Some? then ToLower(s.studentName.value) else "";
    (filterStatus == "all" || status == filterStatus) &&
    (searchTerm == "" || Contains(name, ToLower(searchTerm)))
  }

  /** filteredSubmissions: the submissions the filter keeps, in order. */
  function FilteredSubmissions(subs: seq<Submission>, dueDate: Option<Time>, filterStatus: string, searchTerm: string): (r: seq<Submission>)
    ensures forall s :: s in r <==> s in subs && Keep(s, dueDate, filterStatus, searchTerm)
  {
    Filter(subs, s => Keep(s, dueDate, filterStatus, searchTerm))
  }

  /** The 'all' filter with no search term shows every submission; the
      'graded' filter shows exactly the graded ones; and the 'ungraded'
      option of the menu shows nothing at all, since no status reads
      "ungraded" in lower case. */
  lemma FilterOptions(subs: seq<Submission>, dueDate: Option<Time>, searchTerm: string)
    ensures FilteredSubmissions(subs, dueDate, "all", "") == subs
    ensures forall s :: s in FilteredSubmissions(subs, dueDate, "graded", "") <==> s in subs && s.grade.Some?
    ensures FilteredSubmissions(subs, dueDate, "ungraded", searchTerm) == []
  {
    FilterKeepsAll(subs, s => Keep(s, dueDate, "all", ""));
    forall s | s in subs
      ensures Keep(s, dueDate, "graded", "") <==> s.grade.Some?
      ensures !Keep(s, dueDate, "ungraded", searchTerm)
    {
      LowerStatusText(StatusOf(s, dueDate));
    }
    FilterKeepsNone(subs, s => Keep(s, dueDate, "ungraded", searchTerm));
  }

  // ---------------------------------------------------------------------
  // The grade being entered

  /** calculatePercentage: 0 with no grade entered or no maximum score,
      otherwise the grade as a rounded percentage of the maximum. */
  function Percentage(grade: Option<int>, maxScore: nat): (r: int)
    ensures grade.None? || maxScore == 0 ==> r == 0
    ensures grade.Some? && maxScore > 0 ==> 200 * grade.value - maxScore < 2 * maxScore * r <= 200 * grade.value + maxScore
  {
    if grade.None? || maxScore == 0 then 0 else Percent(grade.value, maxScore)
  }

  /** A grade between 0 and the maximum shows between 0% and 100%, and the
      full maximum shows 100%. */
  lemma PercentageRange(grade: int, maxScore: nat)
    requires 0 <= grade <= maxScore
    ensures 0 <= Percentage(Some(grade), maxScore) <= 100
    ensures maxScore > 0 ==> Percentage(Some(maxScore), maxScore) == 100
  {
    if maxScore > 0 {
      PercentBounds(grade, maxScore);
      PercentOfWhole(maxScore);
    }
  }

  /** The letter grade shown beside the percentage. */
  function LetterGrade(percentage: int): string
  {
    if percentage >= 90 then "A"
    else if percentage >= 80 then "B"
    else if percentage >= 70 then "C"
    else if percentage >= 60 then "D"
    else "F"
  }

  /** getGradeColor, on the same thresholds as the letter. */
  function GradeColor(percentage: int): string
  {
    if percentage >= 90 then "text-green-600"
    else if percentage >= 80 then "text-blue-600"
    else if percentage >= 70 then "text-yellow-600"
    else if percentage >= 60 then "text-orange-600"
    else "text-red-600"
  }

  /** Each letter comes with its own colour. */
  lemma ColorFollowsLetter(percentage: int)
    ensures GradeColor(percentage) == (match LetterGrade(percentage)
      case "A" => "text-green-600"
      case "B" => "text-blue-600"
      case "C" => "text-yellow-600"
      case "D" => "text-orange-600"
      case _ => "text-red-600")
  {
  }

  /** A grade earns an A exactly when it is at least 89.5% of the maximum
      (rounding lifts 89.5 to 90), and an F exactly when it is below 59.5%. */
  lemma {:induction false} LetterThresholds(grade: int, maxScore: nat)
    requires maxScore > 0
    ensures LetterGrade(Percentage(Some(grade), maxScore)) == "A" <==> 200 * grade >= 179 * maxScore
    ensures LetterGrade(Percentage(Some(grade), maxScore)) == "F" <==> 200 * grade < 119 * maxScore
  {
    PercentAtLeastIff(grade, maxScore, 90);
    PercentAtLeastIff(grade, maxScore, 60);
  }

  /** A higher grade never earns a lower letter. */
  lemma {:induction false} LetterMonotone(g1: int, g2: int, maxScore: nat)
    requires maxScore > 0 && g1 <= g2
    ensures LetterRank(LetterGrade(Percentage(Some(g1), maxScore))) <= LetterRank(LetterGrade(Percentage(Some(g2), maxScore)))
  {
    PercentMonotone(g1, g2, maxScore);
  }

  /** The letters in order, F lowest. */
  function LetterRank(letter: string): int
  {
    match letter
    case "A" => 4
    case "B" => 3
    case "C" => 2
    case "D" => 1
    case _ => 0
  }

  // ---------------------------------------------------------------------
  // The assignment list

  /** The label of an assignment: Complete when every submission is graded,
      which holds when there are none; an assignment without a submissions
      list (`None`) reads Pending, since `undefined` is falsy. */
  function CompletionLabel(submissions: Option<seq<Submission>>): (r: string)
    ensures r == "Complete" <==> submissions.Some? && forall i :: 0 <= i < |submissions.value| ==> submissions.value[i].grade.Some?
    ensures r == "Complete" || r == "Pending"
  {
    if submissions.Some? && forall i :: 0 <= i < |submissions.value| ==> submissions.value[i].grade.Some? then "Complete"
    else "Pending"
  }

  /** The count beside an assignment (`submissions?.length || 0`). */
  function SubmissionCount(submissions: Option<seq<Submission>>): (r: nat)
    ensures submissions.None? ==> r == 0
    ensures submissions.Some? ==> r == |submissions.value|
  {
    if submissions.Some? then |submissions.value| else 0
  }

  /** With no submissions yet an assignment reads Complete, while one with
      no submissions list reads Pending; grading the one ungraded
      submission turns the label to Complete. */
  lemma CompletionEdgeCases(subs: seq<Submission>, i: int, grade: int)
    requires 0 <= i < |subs| && subs[i].grade.None?
    requires forall k :: 0 <= k < |subs| && k != i ==> subs[k].grade.Some?
    ensures CompletionLabel(Some([])) == "Complete" && CompletionLabel(None) == "Pending"
    ensures CompletionLabel(Some(subs)) == "Pending"
    ensures CompletionLabel(Some(subs[i := subs[i].(grade := Some(grade))])) == "Complete"
  {
    var graded := subs[i := subs[i].(grade := Some(grade))];
    assert forall k :: 0 <= k < |graded| ==> graded[k].grade.Some?;
  }
}
