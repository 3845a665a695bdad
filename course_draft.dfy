// The course being written in the course-creation pages
// (client/src/pages/CourseCreateStreamlined.jsx, client/src/pages/CourseCreate_new.jsx)
// and the basics form (client/src/components/CourseBasicsForm.jsx): its
// shape, and the edits the three share word for word — the outcome,
// requirement and audience lists, the tags, and removing modules and
// lessons.
module CourseDraft {
  import opened Common

  datatype DraftQuestion = DraftQuestion(
    id: Option<int>, question: string, options: seq<string>, correctAnswer: int, explanation: string)

  datatype DraftQuiz = DraftQuiz(questions: seq<DraftQuestion>, timeLimit: int, passingScore: int, instructions: string)

  datatype DraftAssignment = DraftAssignment(
    title: string, description: string, instructions: seq<string>, dueDate: string,
    maxScore: int, submissionType: string)

  /** A lesson as the pages build it; a field a page does not set is
      absent. */
  datatype DraftLesson = DraftLesson(
    id: string, title: string, description: string, kind: string, order: int, isCompleted: bool,
    resources: Option<seq<string>>, videoUrl: Option<string>, videoDuration: Option<int>,
    transcript: Option<string>, notes: Option<string>, quiz: Option<DraftQuiz>,
    assignment: Option<DraftAssignment>, content: Option<string>)

  datatype DraftModule = DraftModule(
    id: string, title: string, description: string, order: int, duration: Option<real>,
    lessons: seq<DraftLesson>)

  datatype CourseForm = CourseForm(
    title: string, description: string, level: string, category: string, tags: seq<string>,
    thumbnail: string, previewVideo: string, instructorName: string,
    learningOutcomes: seq<string>, requirements: seq<string>, targetAudience: seq<string>,
    modules: seq<DraftModule>)

  /** The form as a page opens it. */
  function InitialForm(instructorName: string): (r: CourseForm)
    ensures ListsNonEmpty(r) && r.modules == [] && r.tags == []
  {
    CourseForm("", "", "Beginner", "Programming", [], "", "", instructorName, [""], [""], [""], [])
  }

  // ---------------------------------------------------------------------
  // The three lists of lines

  datatype ListField = Outcomes | Requirements | Audience

  function ListOf(c: CourseForm, f: ListField): seq<string>
  {
    match f
    case Outcomes => c.learningOutcomes
    case Requirements => c.requirements
    case Audience => c.targetAudience
  }

  /** `{...prev, [field]: xs}`. */
  function WithList(c: CourseForm, f: ListField, xs: seq<string>): (r: CourseForm)
    ensures ListOf(r, f) == xs
    ensures forall g :: g != f ==> ListOf(r, g) == ListOf(c, g)
    ensures r.(learningOutcomes := c.learningOutcomes, requirements := c.requirements,
               targetAudience := c.targetAudience) == c
  {
    match f
    case Outcomes => c.(learningOutcomes := xs)
    case Requirements => c.(requirements := xs)
    case Audience => c.(targetAudience := xs)
  }

  /** handleArrayInputChange: line `index` of the list becomes `value`. */
  function ChangeItem(c: CourseForm, f: ListField, index: int, value: string): (r: CourseForm)
    ensures |ListOf(r, f)| == |ListOf(c, f)|
    ensures forall k :: 0 <= k < |ListOf(c, f)| ==> ListOf(r, f)[k] == (if k == index then value else ListOf(c, f)[k])
    ensures forall g :: g != f ==> ListOf(r, g) == ListOf(c, g)
  {
    WithList(c, f, ReplaceAt(ListOf(c, f), index, value))
  }

  /** addArrayItem: a blank line at the end. */
  function AddItem(c: CourseForm, f: ListField): (r: CourseForm)
    ensures |ListOf(r, f)| == |ListOf(c, f)| + 1 && ListOf(r, f)[|ListOf(c, f)|] == ""
    ensures ListOf(r, f)[..|ListOf(c, f)|] == ListOf(c, f)
    ensures forall g :: g != f ==> ListOf(r, g) == ListOf(c, g)
  {
    WithList(c, f, ListOf(c, f) + [""])
  }

  /** removeArrayItem: the line goes only when another remains. */
  function RemoveItem(c: CourseForm, f: ListField, index: int): (r: CourseForm)
    ensures |ListOf(c, f)| <= 1 ==> r == c
    ensures |ListOf(c, f)| > 1 ==> ListOf(r, f) == DropIndex(ListOf(c, f), index)
    ensures forall g :: g != f ==> ListOf(r, g) == ListOf(c, g)
  {
    if |ListOf(c, f)| > 1 then WithList(c, f, DropIndex(ListOf(c, f), index)) else c
  }

  predicate ListsNonEmpty(c: CourseForm)
  {
    c.learningOutcomes != [] && c.requirements != [] && c.targetAudience != []
  }

  /** None of the list edits can empty a list, so a page that opens with
      one line in each always shows at least one. */
  lemma ListEditsKeepNonEmpty(c: CourseForm, f: ListField, index: int, value: string)
    requires ListsNonEmpty(c)
    ensures ListsNonEmpty(ChangeItem(c, f, index, value))
    ensures ListsNonEmpty(AddItem(c, f))
    ensures ListsNonEmpty(RemoveItem(c, f, index))
  {
    var r := RemoveItem(c, f, index);
    assert ListOf(c, Outcomes) != [] && ListOf(c, Requirements) != [] && ListOf(c, Audience) != [];
    assert ListOf(r, Outcomes) != [] && ListOf(r, Requirements) != [] && ListOf(r, Audience) != [];
  }

  // ---------------------------------------------------------------------
  // Tags

  /** addTag: the trimmed input joins the tags when it is not blank and not
      already there; otherwise nothing happens (`None`, the input is kept). */
  function AddTag(tags: seq<string>, input: string): (r: Option<seq<string>>)
    ensures r.Some? <==> Trim(input) != [] && Trim(input) !in tags
    ensures r.Some? ==> |r.value| == |tags| + 1 && r.value[..|tags|] == tags && r.value[|tags|] == Trim(input)
    ensures r.Some? && NoDuplicates(tags) ==> NoDuplicates(r.value)
  {
    var tag := Trim(input);
    if tag != [] && tag !in tags then Some(tags + [tag]) else None
  }

  /** removeTag: every copy of the tag goes. */
  function RemoveTag(tags: seq<string>, tag: string): (r: seq<string>)
    ensures tag !in r
    ensures forall t :: t != tag ==> (t in r <==> t in tags)
    ensures NoDuplicates(tags) ==> NoDuplicates(r)
  {
    RemoveAllKeepsDistinctIf(tags, tag);
    RemoveAll(tags, tag)
  }

  lemma RemoveAllKeepsDistinctIf(tags: seq<string>, tag: string)
    ensures NoDuplicates(tags) ==> NoDuplicates(RemoveAll(tags, tag))
  {
    if NoDuplicates(tags) {
      RemoveAllKeepsDistinct(tags, tag);
    }
  }

  /** Removing a tag just added gives back the tags as they were, and
      removing keeps the remaining tags in their order. */
  lemma TagRoundTrip(tags: seq<string>, input: string, before: seq<string>, after: seq<string>, tag: string)
    requires AddTag(tags, input).Some?
    ensures RemoveTag(AddTag(tags, input).value, Trim(input)) == tags
    ensures RemoveTag(before + after, tag) == RemoveTag(before, tag) + RemoveTag(after, tag)
  {
    RemoveAllAppended(tags, Trim(input));
    RemoveAllConcat(before, after, tag);
  }

  // ---------------------------------------------------------------------
  // Modules and lessons

  /** Some module has a lesson (`modules.some(m => m.lessons.length > 0)`). */
  predicate HasLessons(modules: seq<DraftModule>)
  {
    exists m :: m in modules && m.lessons != []
  }

  /** removeModule: `modules.filter(m => m._id !== id)`. */
  function RemoveModule(modules: seq<DraftModule>, id: string): (r: seq<DraftModule>)
    ensures forall m :: m in r <==> m in modules && m.id != id
    ensures forall k :: 0 <= k < |r| ==> r[k].id != id
  {
    if modules == [] then []
    else
      var rest := RemoveModule(modules[1..], id);
      assert forall m :: m in modules <==> m == modules[0] || m in modules[1..];
      if modules[0].id != id then [modules[0]] + rest else rest
  }

  /** Removing a module whose id is not there changes nothing. */
  lemma {:induction false} RemoveAbsentModule(modules: seq<DraftModule>, id: string)
    requires forall k :: 0 <= k < |modules| ==> modules[k].id != id
    ensures RemoveModule(modules, id) == modules
  {
    if modules != [] {
      RemoveAbsentModule(modules[1..], id);
    }
  }

  /** `lessons.filter(l => l._id !== id)`. */
  function LessonsWithout(lessons: seq<DraftLesson>, id: string): (r: seq<DraftLesson>)
    ensures forall l :: l in r <==> l in lessons && l.id != id
  {
    if lessons == [] then []
    else
      var rest := LessonsWithout(lessons[1..], id);
      assert forall l :: l in lessons <==> l == lessons[0] || l in lessons[1..];
      if lessons[0].id != id then [lessons[0]] + rest else rest
  }

  lemma {:induction false} LessonsWithoutAppended(lessons: seq<DraftLesson>, lesson: DraftLesson)
    requires forall k :: 0 <= k < |lessons| ==> lessons[k].id != lesson.id
    ensures LessonsWithout(lessons + [lesson], lesson.id) == lessons
  {
    if lessons == [] {
      assert LessonsWithout([lesson], lesson.id) == LessonsWithout([], lesson.id);
    } else {
      assert (lessons + [lesson])[1..] == lessons[1..] + [lesson];
      LessonsWithoutAppended(lessons[1..], lesson);
    }
  }

  /** The module list with module `index` given one more lesson at the end
      (`modules.map((m, i) => i === index ? {...m, lessons: [...m.lessons, lesson]} : m)`). */
  function AppendLesson(modules: seq<DraftModule>, index: int, lesson: DraftLesson): (r: seq<DraftModule>)
    requires 0 <= index < |modules|
    ensures |r| == |modules|
    ensures forall k :: 0 <= k < |r| && k != index ==> r[k] == modules[k]
    ensures r[index] == modules[index].(lessons := modules[index].lessons + [lesson])
  {
    modules[index := modules[index].(lessons := modules[index].lessons + [lesson])]
  }

  /** removeLesson: module `index` loses the lessons with that id; the
      other modules are untouched. */
  function RemoveLesson(modules: seq<DraftModule>, index: int, lessonId: string): (r: seq<DraftModule>)
    ensures |r| == |modules|
    ensures forall k :: 0 <= k < |r| ==>
      r[k] == (if k == index then modules[k].(lessons := LessonsWithout(modules[k].lessons, lessonId)) else modules[k])
  {
    if 0 <= index < |modules|
    then modules[index := modules[index].(lessons := LessonsWithout(modules[index].lessons, lessonId))]
    else modules
  }

  /** Removing a lesson just added, under a fresh id, gives back the
      modules as they were. */
  lemma AppendThenRemoveLesson(modules: seq<DraftModule>, index: int, lesson: DraftLesson)
    requires 0 <= index < |modules|
    requires forall k :: 0 <= k < |modules[index].lessons| ==> modules[index].lessons[k].id != lesson.id
    ensures RemoveLesson(AppendLesson(modules, index, lesson), index, lesson.id) == modules
  {
    LessonsWithoutAppended(modules[index].lessons, lesson);
    var r := RemoveLesson(AppendLesson(modules, index, lesson), index, lesson.id);
    assert r[index] == modules[index];
  }
}
