// The basics step of the course wizard (client/src/components/CourseBasicsForm.jsx):
// the text fields are handed up to the page one by one, and the tag
// input adds and removes tags with the rules of `CourseDraft`.
module CourseBasicsForm {
  import opened Common
  import opened CourseDraft

  datatype BasicsField = Title | Description | Category | Level

  /** `onCourseDataChange(field, value)`: the page sets that one field. */
  function Forward(c: CourseForm, f: BasicsField, value: string): CourseForm
  {
    match f
    case Title => c.(title := value)
    case Description => c.(description := value)
    case Category => c.(category := value)
    case Level => c.(level := value)
  }

  /** What the form sees: the course and the text in the tag input. */
  datatype FormState = FormState(course: CourseForm, newTag: string)

  /** The Add button: the tag joins and the input clears, or nothing
      happens. */
  function AddTagClicked(s: FormState): (r: FormState)
    ensures AddTag(s.course.tags, s.newTag).None? ==> r == s
    ensures AddTag(s.course.tags, s.newTag).Some? ==>
      r == FormState(s.course.(tags := AddTag(s.course.tags, s.newTag).value), "")
  {
    match AddTag(s.course.tags, s.newTag)
    case Some(tags) => FormState(s.course.(tags := tags), "")
    case None => s
  }

  function RemoveTagClicked(s: FormState, tag: string): (r: FormState)
    ensures r.newTag == s.newTag && r.course == s.course.(tags := RemoveTag(s.course.tags, tag))
  {
    FormState(s.course.(tags := RemoveTag(s.course.tags, tag)), s.newTag)
  }

  /** handleTagKeyPress: Enter adds the tag, other keys do nothing here. */
  function KeyPressed(s: FormState, key: string): FormState
  {
    if key == "Enter" then AddTagClicked(s) else s
  }

  /** Pressing Enter is clicking Add; any other key leaves the form as it
      was. */
  lemma EnterIsAdd(s: FormState, key: string)
    ensures KeyPressed(s, "Enter") == AddTagClicked(s)
    ensures key != "Enter" ==> KeyPressed(s, key) == s
  {
  }

  /** Adding and removing tags keeps them free of duplicates, and a tag
      that was added can be clicked away again. */
  lemma TagsStayDistinct(s: FormState, tag: string)
    requires NoDuplicates(s.course.tags)
    ensures NoDuplicates(AddTagClicked(s).course.tags)
    ensures NoDuplicates(RemoveTagClicked(s, tag).course.tags)
    ensures AddTag(s.course.tags, s.newTag).Some? ==>
      RemoveTagClicked(AddTagClicked(s), Trim(s.newTag)).course == s.course
  {
    if AddTag(s.course.tags, s.newTag).Some? {
      TagRoundTrip(s.course.tags, s.newTag, [], [], "");
    }
  }

  /** A forwarded field takes the value typed and leaves every other field
      of the course alone. */
  lemma ForwardTouchesOneField(c: CourseForm, f: BasicsField, value: string)
    ensures var r := Forward(c, f, value);
      r.tags == c.tags && r.modules == c.modules && r.thumbnail == c.thumbnail &&
      r.learningOutcomes == c.learningOutcomes && r.instructorName == c.instructorName
    ensures var r := Forward(c, f, value);
      (f == Title ==> r.title == value) && (f == Description ==> r.description == value) &&
      (f == Category ==> r.category == value) && (f == Level ==> r.level == value) &&
      (f != Title ==> r.title == c.title) && (f != Description ==> r.description == c.description) &&
      (f != Category ==> r.category == c.category) && (f != Level ==> r.level == c.level)
  {
  }
}
