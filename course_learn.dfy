// The learning page (client/src/pages/CourseLearnEnhanced.jsx): moving
// between lessons, marking lessons complete, the progress effect, the
// completion flags on the course outline, and scoring a quiz.  The page's
// React state is the class `LearnPage`; each handler or effect is a method
// over it.  Toasts, timers and the calls to the progress API are not
// modelled: a backend answer is a parameter where the page branches on it.
module CourseLearn {
  import opened Common
  import Documents

  // ---------------------------------------------------------------------
  // The course outline as the page holds it

  datatype LessonView = LessonView(
    id: Id, kind: string, videoDuration: Option<int>, isCompleted: bool, quiz: Option<Documents.Quiz>)

  datatype ModuleView = ModuleView(id: Id, lessons: seq<LessonView>)

  /** `modules.reduce((t, m) => t + m.lessons.length, 0)`. */
  function TotalLessons(modules: seq<ModuleView>): (r: nat)
  {
    if modules == [] then 0 else |modules[0].lessons| + TotalLessons(modules[1..])
  }

  /** The progress percentage: `Math.round(done / total * 100)`.  With no
      lessons at all the quotient is not finite; `None` stands for it. */
  function ProgressOf(done: nat, total: nat): Option<int>
  {
    if total > 0 then Some(Percent(done, total)) else None
  }

  /** `progress >= 100`; an infinite quotient passes the comparison. */
  predicate Reached(progress: Option<int>)
  {
    progress.None? || progress.value >= 100
  }

  /** The course counts as reached once at least 99.5% of its lessons are
      done: rounding, not the last lesson, decides. */
  lemma ReachedIff(done: nat, total: nat)
    requires total > 0
    ensures Reached(ProgressOf(done, total)) <==> 200 * done >= 199 * total
  {
    var r := Percent(done, total);
    if r >= 100 {
      MulSign(total, r - 100);
    } else {
      MulSign(total, 99 - r);
    }
  }

  /** 199 of 200 lessons rounds up to 100%. */
  lemma NearlyDoneCountsAsDone()
    ensures ProgressOf(199, 200) == Some(100)
  {
    ReachedIff(199, 200);
    PercentBounds(199, 200);
  }

  // ---------------------------------------------------------------------
  // Positions in the outline

  /** `lessons.findIndex(l => l._id === id)`. */
  function LessonIndex(lessons: seq<LessonView>, id: Id): (r: int)
    ensures -1 <= r < |lessons|
    ensures r >= 0 ==> lessons[r].id == id && forall k :: 0 <= k < r ==> lessons[k].id != id
    ensures r == -1 ==> forall k :: 0 <= k < |lessons| ==> lessons[k].id != id
  {
    match FirstIndex(lessons, (l: LessonView) => l.id == id)
    case Some(k) => k
    case None => -1
  }

  /** `modules.findIndex(m => m._id === id)`. */
  function ModuleIndex(modules: seq<ModuleView>, id: Id): (r: int)
    ensures -1 <= r < |modules|
    ensures r >= 0 ==> modules[r].id == id && forall k :: 0 <= k < r ==> modules[k].id != id
    ensures r == -1 ==> forall k :: 0 <= k < |modules| ==> modules[k].id != id
  {
    match FirstIndex(modules, (m: ModuleView) => m.id == id)
    case Some(k) => k
    case None => -1
  }

  /** `lessons[0]`, undefined for an empty module. */
  function FirstLesson(m: ModuleView): Option<LessonView>
  {
    if m.lessons == [] then None else Some(m.lessons[0])
  }

  /** `lessons[lessons.length - 1]`, undefined for an empty module. */
  function LastLesson(m: ModuleView): Option<LessonView>
  {
    if m.lessons == [] then None else Some(m.lessons[|m.lessons| - 1])
  }

  /** Where goToNextLesson leaves the page: the next lesson of the module,
      else the first lesson of the next module, else where it was. */
  function Next(modules: seq<ModuleView>, cm: ModuleView, cl: LessonView): (ModuleView, Option<LessonView>)
  {
    var li := LessonIndex(cm.lessons, cl.id);
    if li < |cm.lessons| - 1 then (cm, Some(cm.lessons[li + 1]))
    else
      var mi := ModuleIndex(modules, cm.id);
      if mi < |modules| - 1 then (modules[mi + 1], FirstLesson(modules[mi + 1]))
      else (cm, Some(cl))
  }

  /** Where goToPreviousLesson leaves the page: the previous lesson of the
      module, else the last lesson of the previous module, else where it
      was. */
  function Previous(modules: seq<ModuleView>, cm: ModuleView, cl: LessonView): (ModuleView, Option<LessonView>)
  {
    var li := LessonIndex(cm.lessons, cl.id);
    if li > 0 then (cm, Some(cm.lessons[li - 1]))
    else
      var mi := ModuleIndex(modules, cm.id);
      if mi > 0 then (modules[mi - 1], LastLesson(modules[mi - 1]))
      else (cm, Some(cl))
  }

  /** Module ids are distinct, lesson ids are distinct within a module, and
      every module has a lesson. */
  predicate WellFormed(modules: seq<ModuleView>)
  {
    (forall a, b :: 0 <= a < b < |modules| ==> modules[a].id != modules[b].id) &&
    (forall j :: 0 <= j < |modules| ==> modules[j].lessons != []) &&
    (forall j, a, b :: 0 <= j < |modules| && 0 <= a < b < |modules[j].lessons| ==>
      modules[j].lessons[a].id != modules[j].lessons[b].id)
  }

  /** Lesson `i` of module `j`. */
  predicate At(modules: seq<ModuleView>, j: int, i: int)
  {
    0 <= j < |modules| && 0 <= i < |modules[j].lessons|
  }

  function Position(modules: seq<ModuleView>, j: int, i: int): (ModuleView, Option<LessonView>)
    requires At(modules, j, i)
  {
    (modules[j], Some(modules[j].lessons[i]))
  }

  lemma IndicesOf(modules: seq<ModuleView>, j: int, i: int)
    requires WellFormed(modules) && At(modules, j, i)
    ensures ModuleIndex(modules, modules[j].id) == j
    ensures LessonIndex(modules[j].lessons, modules[j].lessons[i].id) == i
  {
    var ls := modules[j].lessons;
    var li := LessonIndex(ls, ls[i].id);
    assert 0 <= li;
    var mi := ModuleIndex(modules, modules[j].id);
    assert 0 <= mi;
  }

  /** goToNextLesson moves one lesson on within the module, from the last
      lesson of a module to the first of the next, and stays put at the
      last lesson of the course. */
  lemma NextSteps(modules: seq<ModuleView>, j: int, i: int)
    requires WellFormed(modules) && At(modules, j, i)
    ensures i + 1 < |modules[j].lessons| ==> Next(modules, modules[j], modules[j].lessons[i]) == Position(modules, j, i + 1)
    ensures i + 1 == |modules[j].lessons| && j + 1 < |modules| ==>
      Next(modules, modules[j], modules[j].lessons[i]) == Position(modules, j + 1, 0)
    ensures i + 1 == |modules[j].lessons| && j + 1 == |modules| ==>
      Next(modules, modules[j], modules[j].lessons[i]) == Position(modules, j, i)
  {
    IndicesOf(modules, j, i);
  }

  /** goToPreviousLesson moves one lesson back within the module, from the
      first lesson of a module to the last of the previous one, and stays
      put at the first lesson of the course. */
  lemma PreviousSteps(modules: seq<ModuleView>, j: int, i: int)
    requires WellFormed(modules) && At(modules, j, i)
    ensures i > 0 ==> Previous(modules, modules[j], modules[j].lessons[i]) == Position(modules, j, i - 1)
    ensures i == 0 && j > 0 ==>
      Previous(modules, modules[j], modules[j].lessons[i]) == Position(modules, j - 1, |modules[j - 1].lessons| - 1)
    ensures i == 0 && j == 0 ==> Previous(modules, modules[j], modules[j].lessons[i]) == Position(modules, j, i)
  {
    IndicesOf(modules, j, i);
  }

  /** Going back undoes going forward everywhere but at the last lesson of
      the course. */
  lemma NextThenPrevious(modules: seq<ModuleView>, j: int, i: int)
    requires WellFormed(modules) && At(modules, j, i)
    requires !(j + 1 == |modules| && i + 1 == |modules[j].lessons|)
    ensures var (m, l) := Next(modules, modules[j], modules[j].lessons[i]);
      l.Some? && Previous(modules, m, l.value) == Position(modules, j, i)
  {
    NextSteps(modules, j, i);
    if i + 1 < |modules[j].lessons| {
      assert Next(modules, modules[j], modules[j].lessons[i]) == Position(modules, j, i + 1);
      PreviousSteps(modules, j, i + 1);
    } else {
      assert Next(modules, modules[j], modules[j].lessons[i]) == Position(modules, j + 1, 0);
      PreviousSteps(modules, j + 1, 0);
    }
  }

  /** Going forward undoes going back everywhere but at the first lesson of
      the course. */
  lemma PreviousThenNext(modules: seq<ModuleView>, j: int, i: int)
    requires WellFormed(modules) && At(modules, j, i)
    requires !(j == 0 && i == 0)
    ensures var (m, l) := Previous(modules, modules[j], modules[j].lessons[i]);
      l.Some? && Next(modules, m, l.value) == Position(modules, j, i)
  {
    PreviousSteps(modules, j, i);
    if i > 0 {
      assert Previous(modules, modules[j], modules[j].lessons[i]) == Position(modules, j, i - 1);
      NextSteps(modules, j, i - 1);
    } else {
      assert Previous(modules, modules[j], modules[j].lessons[i]) == Position(modules, j - 1, |modules[j - 1].lessons| - 1);
      NextSteps(modules, j - 1, |modules[j - 1].lessons| - 1);
    }
  }

  // ---------------------------------------------------------------------
  // Completion flags on the outline

  /** Each lesson's `isCompleted` set to whether its id is in `done`. */
  function FlagLessons(lessons: seq<LessonView>, done: seq<Id>): (r: seq<LessonView>)
    ensures |r| == |lessons|
    ensures forall i :: 0 <= i < |r| ==>
      r[i] == lessons[i].(isCompleted := lessons[i].id in done)
  {
    if lessons == [] then []
    else [lessons[0].(isCompleted := lessons[0].id in done)] + FlagLessons(lessons[1..], done)
  }

  /** `modules.map(m => ({...m, lessons: m.lessons.map(...)}))`. */
  function FlagModules(modules: seq<ModuleView>, done: seq<Id>): (r: seq<ModuleView>)
    ensures |r| == |modules|
    ensures forall j :: 0 <= j < |r| ==> r[j] == modules[j].(lessons := FlagLessons(modules[j].lessons, done))
  {
    if modules == [] then []
    else [modules[0].(lessons := FlagLessons(modules[0].lessons, done))] + FlagModules(modules[1..], done)
  }

  /** After flagging, a lesson is marked completed exactly when its id is
      in the list, the outline keeps its shape, and flagging again with the
      same list changes nothing. */
  lemma FlagsMatchCompleted(modules: seq<ModuleView>, done: seq<Id>, j: int, i: int)
    requires At(modules, j, i)
    ensures At(FlagModules(modules, done), j, i)
    ensures FlagModules(modules, done)[j].lessons[i].isCompleted <==> modules[j].lessons[i].id in done
    ensures FlagModules(modules, done)[j].lessons[i].id == modules[j].lessons[i].id
    ensures FlagModules(modules, done)[j].id == modules[j].id
    ensures TotalLessons(FlagModules(modules, done)) == TotalLessons(modules)
  {
    FlaggedTotal(modules, done);
  }

  lemma {:induction false} FlaggedTotal(modules: seq<ModuleView>, done: seq<Id>)
    ensures TotalLessons(FlagModules(modules, done)) == TotalLessons(modules)
  {
    if modules != [] {
      FlaggedTotal(modules[1..], done);
      assert FlagModules(modules, done)[1..] == FlagModules(modules[1..], done);
    }
  }

  lemma FlagIdempotent(modules: seq<ModuleView>, done: seq<Id>)
    ensures FlagModules(FlagModules(modules, done), done) == FlagModules(modules, done)
  {
    var once := FlagModules(modules, done);
    forall j | 0 <= j < |once|
      ensures FlagLessons(once[j].lessons, done) == once[j].lessons
    {
      assert FlagLessons(once[j].lessons, done) == once[j].lessons;
    }
  }

  // ---------------------------------------------------------------------
  // Quiz scoring

  function Answered(answers: map<int, int>, i: int, q: Documents.Question): nat
  {
    if i in answers && answers[i] == q.correctAnswer then 1 else 0
  }

  /** The number of the first `n` questions whose answer equals the correct
      one; an unanswered question never counts. */
  function CorrectUpTo(questions: seq<Documents.Question>, answers: map<int, int>, n: nat): (r: nat)
    requires n <= |questions|
    ensures r <= n
  {
    if n == 0 then 0 else CorrectUpTo(questions, answers, n - 1) + Answered(answers, n - 1, questions[n - 1])
  }

  /** Every question counts exactly when every question is answered
      correctly. */
  lemma {:induction false} AllCorrectIff(questions: seq<Documents.Question>, answers: map<int, int>, n: nat)
    requires n <= |questions|
    ensures CorrectUpTo(questions, answers, n) == n <==>
      forall i :: 0 <= i < n ==> i in answers && answers[i] == questions[i].correctAnswer
  {
    if n > 0 {
      AllCorrectIff(questions, answers, n - 1);
    }
  }

  /** `percentage >= passingScore` with `percentage = score / n * 100`; a
      quiz with no questions gives NaN, which passes no comparison. */
  predicate Passes(score: nat, n: nat, passingScore: int)
  {
    n > 0 && 100 * score >= passingScore * n
  }

  /** A perfect score passes any pass mark up to 100; no correct answer
      passes only a mark of at most 0. */
  lemma PassMarks(n: nat, passingScore: int)
    requires n > 0
    ensures passingScore <= 100 ==> Passes(n, n, passingScore)
    ensures Passes(0, n, passingScore) <==> passingScore <= 0
  {
    if passingScore > 0 {
      MulSign(n, passingScore);
    }
  }

  /** The `forEach` that counts correct answers. */
  method Score(quiz: Documents.Quiz, answers: map<int, int>) returns (score: nat)
    ensures score == CorrectUpTo(quiz.questions, answers, |quiz.questions|)
  {
    score := 0;
    for index := 0 to |quiz.questions|
      invariant score == CorrectUpTo(quiz.questions, answers, index)
    {
      if index in answers && answers[index] == quiz.questions[index].correctAnswer {
        score := score + 1;
      }
    }
  }

  /** What submitting a quiz shows. */
  datatype QuizResult = NoQuiz | Failed(score: nat) | Passed(score: nat)

  // ---------------------------------------------------------------------
  // The page

  class LearnPage {
    var modules: seq<ModuleView>
    var currentModule: Option<ModuleView>
    var currentLesson: Option<LessonView>
    var completedLessons: seq<Id>
    var courseProgress: Option<int>
    var courseCompleted: bool
    var showCompletionModal: bool
    var quizData: Option<Documents.Quiz>
    var quizAnswers: map<int, int>
    var quizSubmitted: bool

    /** The completed list never holds an id twice. */
    predicate Valid()
      reads this
    {
      NoDuplicates(completedLessons)
    }

    /** The page once the course has loaded: on the first lesson of the
        first module when that module has one, and on nothing otherwise. */
    constructor (modules: seq<ModuleView>)
      ensures Valid()
      ensures this.modules == modules && completedLessons == []
      ensures currentModule.Some? <==> modules != [] && modules[0].lessons != []
      ensures currentModule.Some? ==> currentModule == Some(modules[0]) && currentLesson == Some(modules[0].lessons[0])
      ensures currentModule.None? ==> currentLesson.None?
      ensures courseProgress == Some(0) && !courseCompleted && !showCompletionModal
      ensures quizData.None? && quizAnswers == map[] && !quizSubmitted
    {
      this.modules := modules;
      if modules != [] && modules[0].lessons != [] {
        currentModule := Some(modules[0]);
        currentLesson := Some(modules[0].lessons[0]);
      } else {
        currentModule := None;
        currentLesson := None;
      }
      completedLessons := [];
      courseProgress := Some(0);
      courseCompleted := false;
      showCompletionModal := false;
      quizData := None;
      quizAnswers := map[];
      quizSubmitted := false;
    }

    method GoToNextLesson()
      modifies this
      ensures old(currentModule).None? || old(currentLesson).None? ==> unchanged(this)
      ensures old(currentModule).Some? && old(currentLesson).Some? ==>
        currentModule.Some? &&
        (currentModule.value, currentLesson) == Next(modules, old(currentModule).value, old(currentLesson).value)
      ensures modules == old(modules) && completedLessons == old(completedLessons)
      ensures courseProgress == old(courseProgress) && courseCompleted == old(courseCompleted)
      ensures showCompletionModal == old(showCompletionModal) && quizData == old(quizData)
      ensures quizAnswers == old(quizAnswers) && quizSubmitted == old(quizSubmitted)
    {
      if currentModule.None? || currentLesson.None? {
        return;
      }
      var cm := currentModule.value;
      var li := LessonIndex(cm.lessons, currentLesson.value.id);
      if li < |cm.lessons| - 1 {
        currentLesson := Some(cm.lessons[li + 1]);
      } else {
        var mi := ModuleIndex(modules, cm.id);
        if mi < |modules| - 1 {
          var nextModule := modules[mi + 1];
          currentModule := Some(nextModule);
          currentLesson := FirstLesson(nextModule);
        }
      }
    }

    method GoToPreviousLesson()
      modifies this
      ensures old(currentModule).None? || old(currentLesson).None? ==> unchanged(this)
      ensures old(currentModule).Some? && old(currentLesson).Some? ==>
        currentModule.Some? &&
        (currentModule.value, currentLesson) == Previous(modules, old(currentModule).value, old(currentLesson).value)
      ensures modules == old(modules) && completedLessons == old(completedLessons)
      ensures courseProgress == old(courseProgress) && courseCompleted == old(courseCompleted)
      ensures showCompletionModal == old(showCompletionModal) && quizData == old(quizData)
      ensures quizAnswers == old(quizAnswers) && quizSubmitted == old(quizSubmitted)
    {
      if currentModule.None? || currentLesson.None? {
        return;
      }
      var cm := currentModule.value;
      var li := LessonIndex(cm.lessons, currentLesson.value.id);
      if li > 0 {
        currentLesson := Some(cm.lessons[li - 1]);
      } else {
        var mi := ModuleIndex(modules, cm.id);
        if mi > 0 {
          var prevModule := modules[mi - 1];
          currentModule := Some(prevModule);
          currentLesson := LastLesson(prevModule);
        }
      }
    }

    /** markLessonComplete: with a current lesson not yet completed, record
        it, recompute the progress, and declare the course complete when
        every lesson is done. */
    method MarkLessonComplete()
      requires Valid()
      modifies this
      ensures Valid()
      ensures old(currentLesson).None? || old(currentLesson).value.id in old(completedLessons) ==> unchanged(this)
      ensures old(currentLesson).Some? && old(currentLesson).value.id !in old(completedLessons) ==>
        completedLessons == old(completedLessons) + [old(currentLesson).value.id] &&
        courseProgress == ProgressOf(|completedLessons|, TotalLessons(modules)) &&
        courseCompleted == (old(courseCompleted) || |completedLessons| == TotalLessons(modules)) &&
        showCompletionModal == (old(showCompletionModal) || |completedLessons| == TotalLessons(modules))
      ensures modules == old(modules) && currentModule == old(currentModule) && currentLesson == old(currentLesson)
      ensures quizData == old(quizData) && quizAnswers == old(quizAnswers) && quizSubmitted == old(quizSubmitted)
    {
      if currentLesson.None? || currentLesson.value.id in completedLessons {
        return;
      }
      AppendFreshKeepsDistinct(completedLessons, currentLesson.value.id);
      completedLessons := completedLessons + [currentLesson.value.id];
      var total := TotalLessons(modules);
      courseProgress := ProgressOf(|completedLessons|, total);
      if |completedLessons| == total {
        courseCompleted := true;
        showCompletionModal := true;
      }
    }

    /** The effect on `completedLessons`: with at least one lesson done,
        recompute the progress and set `courseCompleted` once it reaches
        100. */
    method ProgressEffect()
      modifies this
      ensures completedLessons == [] ==> unchanged(this)
      ensures completedLessons != [] ==>
        courseProgress == ProgressOf(|completedLessons|, TotalLessons(modules)) &&
        courseCompleted == (old(courseCompleted) || Reached(courseProgress))
      ensures modules == old(modules) && completedLessons == old(completedLessons)
      ensures currentModule == old(currentModule) && currentLesson == old(currentLesson)
      ensures showCompletionModal == old(showCompletionModal) && quizData == old(quizData)
      ensures quizAnswers == old(quizAnswers) && quizSubmitted == old(quizSubmitted)
    {
      if completedLessons != [] {
        courseProgress := ProgressOf(|completedLessons|, TotalLessons(modules));
        if Reached(courseProgress) && !courseCompleted {
          courseCompleted := true;
        }
      }
    }

    /** updateLessonCompletionStatus: with at least one lesson done, flag
        every lesson of the outline by membership in the completed list. */
    method UpdateLessonCompletionStatus()
      modifies this
      ensures completedLessons == [] ==> unchanged(this)
      ensures completedLessons != [] ==> modules == FlagModules(old(modules), completedLessons)
      ensures completedLessons == old(completedLessons) && currentModule == old(currentModule)
      ensures currentLesson == old(currentLesson) && courseProgress == old(courseProgress)
      ensures courseCompleted == old(courseCompleted) && showCompletionModal == old(showCompletionModal)
      ensures quizData == old(quizData) && quizAnswers == old(quizAnswers) && quizSubmitted == old(quizSubmitted)
    {
      if completedLessons != [] {
        modules := FlagModules(modules, completedLessons);
      }
    }

    /** The effect on `currentLesson`: a quiz lesson loads its quiz with no
        answers, any other lesson clears the quiz. */
    method LessonChangedEffect()
      modifies this
      ensures currentLesson.None? ==> unchanged(this)
      ensures currentLesson.Some? && currentLesson.value.kind == "quiz" && currentLesson.value.quiz.Some? ==>
        quizData == currentLesson.value.quiz && quizAnswers == map[] && !quizSubmitted
      ensures currentLesson.Some? && !(currentLesson.value.kind == "quiz" && currentLesson.value.quiz.Some?) ==>
        quizData.None? && quizAnswers == old(quizAnswers) && quizSubmitted == old(quizSubmitted)
      ensures modules == old(modules) && completedLessons == old(completedLessons)
      ensures currentModule == old(currentModule) && currentLesson == old(currentLesson)
      ensures courseProgress == old(courseProgress) && courseCompleted == old(courseCompleted)
      ensures showCompletionModal == old(showCompletionModal)
    {
      if currentLesson.Some? {
        if currentLesson.value.kind == "quiz" && currentLesson.value.quiz.Some? {
          quizData := currentLesson.value.quiz;
          quizAnswers := map[];
          quizSubmitted := false;
        } else {
          quizData := None;
        }
      }
    }

    /** submitQuiz: score the answers, and on a pass record the lesson as
        completed when the backend accepted the result (`saved`). */
    method SubmitQuiz(saved: bool) returns (result: QuizResult)
      requires Valid()
      modifies this
      ensures Valid()
      ensures quizData.None? ==> result == NoQuiz && unchanged(this)
      ensures quizData.Some? ==>
        quizSubmitted &&
        var q := quizData.value;
        var score := CorrectUpTo(q.questions, quizAnswers, |q.questions|);
        result == (if Passes(score, |q.questions|, q.passingScore) then Passed(score) else Failed(score))
      ensures result.Passed? && saved && old(currentLesson).Some? && old(currentLesson).value.id !in old(completedLessons) ==>
        completedLessons == old(completedLessons) + [old(currentLesson).value.id]
      ensures !(result.Passed? && saved && old(currentLesson).Some? && old(currentLesson).value.id !in old(completedLessons)) ==>
        completedLessons == old(completedLessons)
      ensures modules == old(modules) && currentModule == old(currentModule) && currentLesson == old(currentLesson)
      ensures courseProgress == old(courseProgress) && courseCompleted == old(courseCompleted)
      ensures showCompletionModal == old(showCompletionModal) && quizData == old(quizData)
      ensures quizAnswers == old(quizAnswers)
    {
      if quizData.None? {
        return NoQuiz;
      }
      var q := quizData.value;
      var score := Score(q, quizAnswers);
      quizSubmitted := true;
      if Passes(score, |q.questions|, q.passingScore) {
        result := Passed(score);
        if currentLesson.Some? && currentLesson.value.id !in completedLessons && saved {
          AppendFreshKeepsDistinct(completedLessons, currentLesson.value.id);
          completedLessons := completedLessons + [currentLesson.value.id];
        }
      } else {
        result := Failed(score);
      }
    }
  }

  lemma AppendFreshKeepsDistinct(s: seq<Id>, x: Id)
    requires NoDuplicates(s) && x !in s
    ensures NoDuplicates(s + [x])
  {
  }

  /** Marking the last outstanding lesson complete always reads as 100%. */
  lemma CompletionIsFullProgress(done: nat, total: nat)
    requires done == total && total > 0
    ensures ProgressOf(done, total) == Some(100) && Reached(ProgressOf(done, total))
  {
    PercentOfWhole(total);
  }

  // ---------------------------------------------------------------------
  // formatTime

  /** formatTime: `m:ss` from a non-negative number of seconds, fractions
      dropped. */
  function FormatTime(seconds: real): (r: string)
    requires seconds >= 0.0
    ensures ParseClock(r) == Some(seconds.Floor)
  {
    var mins := (seconds / 60.0).Floor;
    var secs := (seconds - 60.0 * mins as real).Floor;
    FloorSplit(seconds);
    ClockRoundTrip(seconds.Floor);
    NatToString(mins) + ":" + TwoDigits(secs)
  }

  /** For non-negative `s`, floor(s / 60) and floor(s mod 60) are the
      minutes and seconds of floor(s). */
  lemma FloorSplit(s: real)
    requires s >= 0.0
    ensures (s / 60.0).Floor == s.Floor / 60
    ensures (s - 60.0 * (s / 60.0).Floor as real).Floor == s.Floor % 60
  {
    var n := s.Floor;
    var q := n / 60;
    assert 60 * q <= n < 60 * q + 60;
    assert (60 * q) as real <= s < (60 * q + 60) as real;
    assert q as real <= s / 60.0 < (q + 1) as real;
  }
}
