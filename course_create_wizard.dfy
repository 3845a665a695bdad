// The five-step course wizard (client/src/pages/CourseCreate_new.jsx): which
// step may be left, moving between steps, and the module and lesson
// dialogs.  The list and tag editors are those of `CourseDraft`.
module CourseCreateWizard {
  import opened Common
  import opened CourseDraft

  /** The wizard's steps are numbered 1 to 5. */
  const StepCount := 5

  /** Some line of the list is not blank (`lines.some(l => l.trim())`). */
  predicate AnyLine(lines: seq<string>)
  {
    exists s :: s in lines && !IsBlank(s)
  }

  /** isStepValid: what each step needs before the wizard moves on. */
  predicate StepValid(c: CourseForm, step: int)
  {
    if step == 1 then !IsBlank(c.title) && !IsBlank(c.description)
    else if step == 2 then AnyLine(c.learningOutcomes) && AnyLine(c.requirements) && AnyLine(c.targetAudience)
    else if step == 3 then c.thumbnail != ""
    else if step == 4 then c.modules != [] && HasLessons(c.modules)
    else step == 5
  }

  /** A fresh form passes only the last step, and no step outside 1 to 5
      ever passes. */
  lemma FreshFormBlocksEarlySteps(name: string, step: int)
    ensures StepValid(InitialForm(name), step) <==> step == 5
  {
    var c := InitialForm(name);
    if step == 2 {
      assert !IsBlank("") ==> false;
      assert !AnyLine(c.learningOutcomes);
    }
  }

  /** Where goNext leaves the wizard. */
  function NextStep(c: CourseForm, step: int): int
  {
    if StepValid(c, step) && step < StepCount then step + 1 else step
  }

  /** Where goPrevious leaves the wizard. */
  function PreviousStep(step: int): int
  {
    if step > 1 then step - 1 else step
  }

  /** Going back undoes a move forward, and going forward again after going
      back returns to the step when the step before it still passes. */
  lemma StepRoundTrip(c: CourseForm, step: int)
    requires 1 <= step <= StepCount
    ensures 1 <= NextStep(c, step) <= StepCount && 1 <= PreviousStep(step) <= StepCount
    ensures NextStep(c, step) != step ==> PreviousStep(NextStep(c, step)) == step
    ensures step > 1 && StepValid(c, step - 1) ==> NextStep(c, PreviousStep(step)) == step
    ensures NextStep(c, step) == step + 1 <==> step < StepCount && StepValid(c, step)
  {
  }

  /** The step indicator shows a step completed when it lies before the
      current one. */
  predicate StepCompleted(id: int, currentStep: int)
  {
    id < currentStep
  }

  /** The wizard's page state: the step shown and the course written so
      far. */
  class CourseWizard {
    var currentStep: int
    var course: CourseForm

    predicate Valid()
      reads this
    {
      1 <= currentStep <= StepCount
    }

    constructor (instructorName: string)
      ensures Valid() && currentStep == 1 && course == InitialForm(instructorName)
    {
      currentStep := 1;
      course := InitialForm(instructorName);
    }

    /** goNext: one step on when the current step passes and is not the
        last. */
    method GoNext()
      requires Valid()
      modifies this
      ensures Valid() && course == old(course)
      ensures currentStep == NextStep(course, old(currentStep))
    {
      if StepValid(course, currentStep) && currentStep < StepCount {
        currentStep := currentStep + 1;
      }
    }

    /** goPrevious: one step back unless on the first. */
    method GoPrevious()
      requires Valid()
      modifies this
      ensures Valid() && course == old(course)
      ensures currentStep == PreviousStep(old(currentStep))
    {
      if currentStep > 1 {
        currentStep := currentStep - 1;
      }
    }
  }

  /** A wizard on step `s` shows exactly the steps before it as completed,
      and it reaches step `s + 1` only when step `s` passed. */
  lemma CompletedSteps(c: CourseForm, s: int)
    requires 1 <= s <= StepCount
    ensures forall id :: 1 <= id <= StepCount ==> (StepCompleted(id, NextStep(c, s)) <==> id < s || (id == s && StepValid(c, s) && s < StepCount))
  {
  }

  // ---------------------------------------------------------------------
  // The module and lesson dialogs

  /** addModule: with a non-blank title, a module numbered after the last,
      with no lessons; otherwise nothing happens. */
  function AddModule(c: CourseForm, title: string, description: string, now: string): (r: Option<CourseForm>)
    ensures r.None? <==> IsBlank(title)
    ensures r.Some? ==>
      r.value == c.(modules := r.value.modules) &&
      |r.value.modules| == |c.modules| + 1 && r.value.modules[..|c.modules|] == c.modules &&
      var m := r.value.modules[|c.modules|];
      m.order == |c.modules| + 1 && m.lessons == [] && m.title == title && m.description == description
  {
    if IsBlank(title) then None
    else Some(c.(modules := c.modules + [DraftModule(now, title, description, |c.modules| + 1, None, [])]))
  }

  /** The lesson dialog. */
  datatype LessonForm = LessonForm(title: string, description: string, kind: string, videoDuration: int, content: string)

  /** The lesson addLesson builds: a video lesson carries its duration, a
      text lesson its content, any other kind neither. */
  function BuildLesson(form: LessonForm, order: int, now: string): DraftLesson
  {
    DraftLesson(
      now, form.title, form.description, form.kind, order, false, None, None,
      if form.kind == "video" then Some(form.videoDuration) else None, None, None, None, None,
      if form.kind == "text" then Some(form.content) else None)
  }

  /** addLesson: with a non-blank title and a module chosen, the lesson goes
      at the end of that module; otherwise nothing happens. */
  function AddLesson(c: CourseForm, form: LessonForm, moduleIndex: Option<int>, now: string): (r: Option<CourseForm>)
    requires moduleIndex.Some? ==> 0 <= moduleIndex.value < |c.modules|
    ensures r.None? <==> IsBlank(form.title) || moduleIndex.None?
    ensures r.Some? ==> r.value == c.(modules := r.value.modules) && |r.value.modules| == |c.modules|
  {
    if IsBlank(form.title) || moduleIndex.None? then None
    else
      var i := moduleIndex.value;
      Some(c.(modules := AppendLesson(c.modules, i, BuildLesson(form, |c.modules[i].lessons| + 1, now))))
  }

  /** The added lesson is numbered after the module's lessons and has the
      fields of its kind only; the other modules are untouched; and once a
      lesson is added the content step passes. */
  lemma AddedLessonShape(c: CourseForm, form: LessonForm, moduleIndex: int, now: string)
    requires 0 <= moduleIndex < |c.modules| && !IsBlank(form.title)
    ensures var r := AddLesson(c, form, Some(moduleIndex), now).value;
      var before := c.modules[moduleIndex].lessons;
      (forall k :: 0 <= k < |c.modules| && k != moduleIndex ==> r.modules[k] == c.modules[k]) &&
      |r.modules[moduleIndex].lessons| == |before| + 1 &&
      r.modules[moduleIndex].lessons[..|before|] == before &&
      var l := r.modules[moduleIndex].lessons[|before|];
      l.order == |before| + 1 && !l.isCompleted &&
      (l.videoDuration.Some? <==> form.kind == "video") &&
      (l.content.Some? <==> form.kind == "text") &&
      !(l.videoDuration.Some? && l.content.Some?)
    ensures StepValid(AddLesson(c, form, Some(moduleIndex), now).value, 4)
  {
    var r := AddLesson(c, form, Some(moduleIndex), now).value;
    var l := BuildLesson(form, |c.modules[moduleIndex].lessons| + 1, now);
    assert r.modules[moduleIndex].lessons == c.modules[moduleIndex].lessons + [l];
    assert r.modules[moduleIndex] in r.modules;
  }
}
