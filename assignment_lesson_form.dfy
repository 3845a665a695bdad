// The assignment editor of a lesson (client/src/components/AssignmentLessonForm.jsx):
// the grading rubric, the attached files and the numeric settings.  Each
// handler hands `onUpdate` a copy of the lesson whose assignment has one
// field replaced; here each is a function from lesson to lesson.
module AssignmentLessonForm {
  import opened Common

  /** One line of the grading rubric. */
  datatype Criterion = Criterion(id: int, criteria: string, maxPoints: int, description: string)

  /** An attached file; `url` is the object URL the browser made for it. */
  datatype FileResource = FileResource(id: int, name: string, url: string, kind: string, size: int)

  /** The file picked in the browser, when there is one. */
  datatype PickedFile = PickedFile(name: string, kind: string, size: int)

  /** The assignment; a list that is absent reads as empty, and a setting
      that is absent is `None`. */
  datatype Assignment = Assignment(
    instructions: Option<string>, dueDays: Option<int>, maxPoints: Option<int>,
    rubric: seq<Criterion>, resources: seq<FileResource>)

  datatype LessonData = LessonData(title: string, kind: string, assignment: Option<Assignment>)

  /** `lessonData.assignment`, an absent one read as an object with no
      fields. */
  function AssignmentOf(l: LessonData): Assignment
  {
    if l.assignment.Some? then l.assignment.value else Assignment(None, None, None, [], [])
  }

  /** `{...lessonData, assignment: {...lessonData.assignment, <field>}}`. */
  function WithAssignment(l: LessonData, a: Assignment): (r: LessonData)
    ensures AssignmentOf(r) == a && r.title == l.title && r.kind == l.kind
  {
    l.(assignment := Some(a))
  }

  // ---------------------------------------------------------------------
  // The rubric

  /** addRubricCriteria: a criterion with no name, 10 points and no
      description joins the end. */
  function AddCriterion(l: LessonData, now: int): (r: LessonData)
    ensures var before := AssignmentOf(l).rubric; var after := AssignmentOf(r).rubric;
      |after| == |before| + 1 && after[..|before|] == before &&
      after[|before|] == Criterion(now, "", 10, "")
    ensures AssignmentOf(r) == AssignmentOf(l).(rubric := AssignmentOf(r).rubric)
  {
    var a := AssignmentOf(l);
    WithAssignment(l, a.(rubric := a.rubric + [Criterion(now, "", 10, "")]))
  }

  /** The fields of a criterion the rubric editor changes. */
  datatype CriterionEdit = Name(text: string) | Points(parsed: Option<int>) | Description(text: string)

  /** The points field stores `parseInt(value) || 10`. */
  function Apply(c: Criterion, e: CriterionEdit): (r: Criterion)
    ensures r.id == c.id
    ensures e.Points? ==> r == c.(maxPoints := r.maxPoints) && r.maxPoints != 0
    ensures e.Points? && e.parsed.Some? && e.parsed.value != 0 ==> r.maxPoints == e.parsed.value
    ensures e.Points? && (e.parsed.None? || e.parsed.value == 0) ==> r.maxPoints == 10
    ensures e.Name? ==> r == c.(criteria := e.text)
    ensures e.Description? ==> r == c.(description := e.text)
  {
    match e
    case Name(t) => c.(criteria := t)
    case Points(p) => c.(maxPoints := ParsedOr(p, 10))
    case Description(t) => c.(description := t)
  }

  /** updateRubricCriteria: one field of one criterion changes. */
  function UpdateCriterion(l: LessonData, index: int, e: CriterionEdit): (r: LessonData)
    requires 0 <= index < |AssignmentOf(l).rubric|
    ensures var before := AssignmentOf(l).rubric; var after := AssignmentOf(r).rubric;
      |after| == |before| &&
      (forall k :: 0 <= k < |before| && k != index ==> after[k] == before[k]) &&
      after[index] == Apply(before[index], e)
    ensures AssignmentOf(r) == AssignmentOf(l).(rubric := AssignmentOf(r).rubric)
  {
    var a := AssignmentOf(l);
    WithAssignment(l, a.(rubric := a.rubric[index := Apply(a.rubric[index], e)]))
  }

  /** removeCriteria: the criterion at that index goes. */
  function RemoveCriterion(l: LessonData, index: int): (r: LessonData)
    ensures AssignmentOf(r).rubric == DropIndex(AssignmentOf(l).rubric, index)
    ensures AssignmentOf(r) == AssignmentOf(l).(rubric := AssignmentOf(r).rubric)
  {
    var a := AssignmentOf(l);
    WithAssignment(l, a.(rubric := DropIndex(a.rubric, index)))
  }

  // ---------------------------------------------------------------------
  // Attached files

  /** handleResourceUpload: without a file nothing happens; otherwise the
      file's name, type and size join the end of the list. */
  function UploadResource(l: LessonData, file: Option<PickedFile>, url: string, now: int): (r: LessonData)
    ensures file.None? ==> r == l
    ensures file.Some? ==>
      var before := AssignmentOf(l).resources; var after := AssignmentOf(r).resources;
      |after| == |before| + 1 && after[..|before|] == before &&
      after[|before|] == FileResource(now, file.value.name, url, file.value.kind, file.value.size) &&
      AssignmentOf(r) == AssignmentOf(l).(resources := after)
  {
    if file.None? then l
    else
      var a := AssignmentOf(l);
      WithAssignment(l, a.(resources := a.resources + [FileResource(now, file.value.name, url, file.value.kind, file.value.size)]))
  }

  /** removeResource: the file at that index goes. */
  function RemoveResource(l: LessonData, index: int): (r: LessonData)
    ensures AssignmentOf(r).resources == DropIndex(AssignmentOf(l).resources, index)
    ensures AssignmentOf(r) == AssignmentOf(l).(resources := AssignmentOf(r).resources)
  {
    var a := AssignmentOf(l);
    WithAssignment(l, a.(resources := DropIndex(a.resources, index)))
  }

  /** Removing the criterion or file just added gives back the assignment
      as it was. */
  lemma AddThenRemove(l: LessonData, now: int, file: PickedFile, url: string)
    ensures AssignmentOf(RemoveCriterion(AddCriterion(l, now), |AssignmentOf(l).rubric|)) == AssignmentOf(l)
    ensures AssignmentOf(RemoveResource(UploadResource(l, Some(file), url, now), |AssignmentOf(l).resources|)) == AssignmentOf(l)
  {
    var a := AssignmentOf(l);
    AppendThenDrop(a.rubric, Criterion(now, "", 10, ""));
    AppendThenDrop(a.resources, FileResource(now, file.name, url, file.kind, file.size));
  }

  /** The points of the whole rubric. */
  function RubricPoints(rubric: seq<Criterion>): int
  {
    if rubric == [] then 0 else RubricPoints(rubric[..|rubric| - 1]) + rubric[|rubric| - 1].maxPoints
  }

  /** A new criterion adds its 10 points to the rubric's total, and a
      points edit changes the total by the change to that criterion. */
  lemma {:induction false} RubricPointsAfterEdits(l: LessonData, now: int, index: int, parsed: Option<int>)
    requires 0 <= index < |AssignmentOf(l).rubric|
    ensures RubricPoints(AssignmentOf(AddCriterion(l, now)).rubric) == RubricPoints(AssignmentOf(l).rubric) + 10
    ensures var before := AssignmentOf(l).rubric;
      RubricPoints(AssignmentOf(UpdateCriterion(l, index, Points(parsed))).rubric) ==
      RubricPoints(before) - before[index].maxPoints + ParsedOr(parsed, 10)
  {
    var before := AssignmentOf(l).rubric;
    var added := AssignmentOf(AddCriterion(l, now)).rubric;
    assert added[..|added| - 1] == before;
    ReplacePoints(before, index, Apply(before[index], Points(parsed)));
  }

  lemma {:induction false} ReplacePoints(rubric: seq<Criterion>, index: int, c: Criterion)
    requires 0 <= index < |rubric|
    ensures RubricPoints(rubric[index := c]) == RubricPoints(rubric) - rubric[index].maxPoints + c.maxPoints
    decreases |rubric|
  {
    var n := |rubric| - 1;
    var updated := rubric[index := c];
    if index < n {
      assert updated[..n] == rubric[..n][index := c];
      ReplacePoints(rubric[..n], index, c);
    } else {
      assert updated[..n] == rubric[..n];
    }
  }

  // ---------------------------------------------------------------------
  // Numeric settings

  /** The due-date field shows `dueDays || 7`. */
  function DueDaysShown(l: LessonData): int
  {
    var d := AssignmentOf(l).dueDays;
    if d.Some? && d.value != 0 then d.value else 7
  }

  /** The max-points field shows `maxPoints || 100`. */
  function MaxPointsShown(l: LessonData): int
  {
    var p := AssignmentOf(l).maxPoints;
    if p.Some? && p.value != 0 then p.value else 100
  }

  /** Typing into the due-date field stores `parseInt(value) || 7`. */
  function SetDueDays(l: LessonData, parsed: Option<int>): (r: LessonData)
    ensures AssignmentOf(r) == AssignmentOf(l).(dueDays := Some(ParsedOr(parsed, 7)))
  {
    WithAssignment(l, AssignmentOf(l).(dueDays := Some(ParsedOr(parsed, 7))))
  }

  /** Typing into the max-points field stores `parseInt(value) || 100`. */
  function SetMaxPoints(l: LessonData, parsed: Option<int>): (r: LessonData)
    ensures AssignmentOf(r) == AssignmentOf(l).(maxPoints := Some(ParsedOr(parsed, 100)))
  {
    WithAssignment(l, AssignmentOf(l).(maxPoints := Some(ParsedOr(parsed, 100))))
  }

  /** A number that does not parse, or zero, falls back to 7 days and 100
      points, both in what is stored and in what the field then shows; any
      other number is stored and shown as typed. */
  lemma SettingsFallBack(l: LessonData, parsed: Option<int>)
    ensures parsed.None? || parsed.value == 0 ==>
      AssignmentOf(SetDueDays(l, parsed)).dueDays == Some(7) &&
      AssignmentOf(SetMaxPoints(l, parsed)).maxPoints == Some(100)
    ensures parsed.Some? && parsed.value != 0 ==>
      AssignmentOf(SetDueDays(l, parsed)).dueDays == parsed &&
      AssignmentOf(SetMaxPoints(l, parsed)).maxPoints == parsed
    ensures DueDaysShown(SetDueDays(l, parsed)) == ParsedOr(parsed, 7)
    ensures MaxPointsShown(SetMaxPoints(l, parsed)) == ParsedOr(parsed, 100)
  {
  }
}
