/**
 * The chapter table screen: one dialog for creating (under a course picked
 * in a select box) or editing a chapter, and a confirmation for deleting one.
 */
module ChapterManagement {
  import opened Base
  import opened Text
  import opened Types
  import opened QueryKeys
  import opened LmsApi
  import opened ManagerCommon
  import CourseManagement

  const InitialForm := ChapterRequest("", "", Some(0))

  /** The keys refetched after a chapter is created, updated or deleted. */
  const InvalidatedKeys: set<QueryKey> := {Chapters, Courses}

  /** The refetch refreshes this screen's chapter list and the course tree, and is narrower than the course screen's. */
  lemma InvalidationScope()
    ensures Chapters in InvalidatedKeys && Courses in InvalidatedKeys
    ensures Lessons !in InvalidatedKeys && Sections(None) !in InvalidatedKeys
    ensures InvalidatedKeys < CourseManagement.InvalidateAllKeys
  {
    KeysDistinct(None);
    assert Lessons in CourseManagement.InvalidateAllKeys;
  }

  /** The course column of a chapter row. */
  function CourseColumn(courses: seq<Course>, chapter: Chapter): string {
    Label(NameMap(Entries(courses, (x: Course) => x.id, (x: Course) => x.name)), chapter.courseId)
  }

  /** The column names the last listed course with the chapter's course id, or shows `#<id>` when none is listed. */
  lemma CourseColumnNamesParent(courses: seq<Course>, chapter: Chapter)
    ensures forall i :: 0 <= i < |courses| && courses[i].id == chapter.courseId
                        && (forall j :: i < j < |courses| ==> courses[j].id != chapter.courseId)
                        ==> CourseColumn(courses, chapter) == courses[i].name
    ensures (forall i :: 0 <= i < |courses| ==> courses[i].id != chapter.courseId)
            ==> CourseColumn(courses, chapter) == "#" + IntToDecimal(chapter.courseId)
  {
    var e := Entries(courses, (x: Course) => x.id, (x: Course) => x.name);
    LabelOfParent(e, chapter.courseId);
    forall i | 0 <= i < |courses| && courses[i].id == chapter.courseId
               && (forall j :: i < j < |courses| ==> courses[j].id != chapter.courseId)
      ensures CourseColumn(courses, chapter) == courses[i].name
    {
      assert LastWithKey(e, i);
    }
  }

  class ChapterManager {
    var dialogOpen: bool
    var editing: Option<Chapter>
    /** The course select: `""` until a course is picked. */
    var courseId: IdChoice
    var form: ChapterRequest
    var deleteTarget: Option<Chapter>

    constructor()
      ensures !dialogOpen && editing.None? && courseId == Unchosen && form == InitialForm && deleteTarget.None?
    {
      dialogOpen, editing, courseId, form, deleteTarget := false, None, Unchosen, InitialForm, None;
    }

    /** `onOpenCreate`: a fresh form; the course picked before is kept. */
    method OnOpenCreate()
      modifies this`editing, this`form, this`dialogOpen
      ensures editing.None? && form == InitialForm && dialogOpen
    {
      editing := None;
      form := InitialForm;
      dialogOpen := true;
    }

    method OnOpenEdit(chapter: Chapter)
      modifies this`editing, this`form, this`dialogOpen
      ensures editing == Some(chapter) && form == CourseManagement.ChapterEditForm(chapter) && dialogOpen
    {
      editing := Some(chapter);
      form := CourseManagement.ChapterEditForm(chapter);
      dialogOpen := true;
    }

    /** Picking a course in the select box (shown only while creating). */
    method SelectCourse(id: int)
      modifies this`courseId
      ensures courseId == Chosen(id)
    {
      courseId := Chosen(id);
    }

    /** The title and description fields. */
    method EditForm(title: string, description: string)
      modifies this`form
      ensures form == old(form).(title := title, description := description)
    {
      form := form.(title := title, description := description);
    }

    /** The order field. */
    method EditOrder(order: int)
      modifies this`form
      ensures form == old(form).(chapterOrder := Some(order))
    {
      form := form.(chapterOrder := Some(order));
    }

    /**
     * `onSubmit`: nothing for a blank title; the chapter being edited is
     * updated whatever its id; otherwise a chapter is created under the
     * picked course, unless none (or the falsy 0) is picked. The form is sent as it is.
     */
    function Submit(): (call: Option<Call>)
      reads this
      ensures call.None? <==> IsBlank(form.title) || (editing.None? && !IsTruthy(courseId))
      ensures call.Some? && editing.Some? ==> call.value == UpdateChapter(editing.value.id, form)
      ensures call.Some? && editing.None? ==> call.value == CreateChapter(courseId.id, form)
    {
      var editingId := if editing.Some? then Some(editing.value.id) else None;
      var route := SubmitRoute(form.title, editingId, TruthyId(courseId));
      if route.Skip? then None
      else if route.UpdateOf? then Some(UpdateChapter(route.id, form))
      else Some(CreateChapter(route.parentId, form))
    }

    method OnCreated() returns (invalidated: set<QueryKey>)
      modifies this`dialogOpen, this`form, this`courseId
      ensures !dialogOpen && form == InitialForm && courseId == Unchosen
      ensures invalidated == InvalidatedKeys
    {
      dialogOpen, form, courseId := false, InitialForm, Unchosen;
      invalidated := InvalidatedKeys;
    }

    method OnUpdated() returns (invalidated: set<QueryKey>)
      modifies this`dialogOpen, this`editing, this`form
      ensures !dialogOpen && editing.None? && form == InitialForm
      ensures invalidated == InvalidatedKeys
    {
      dialogOpen, editing, form := false, None, InitialForm;
      invalidated := InvalidatedKeys;
    }

    /** The dialog's `onClose` only hides it. */
    method OnCloseDialog()
      modifies this`dialogOpen
      ensures !dialogOpen
    {
      dialogOpen := false;
    }

    method OnRequestDelete(chapter: Chapter)
      modifies this`deleteTarget
      ensures deleteTarget == Some(chapter)
    {
      deleteTarget := Some(chapter);
    }

    /** `onConfirm`: `deleteTarget && deleteMutation.mutate(deleteTarget.id)`. */
    function ConfirmDelete(): (call: Option<Call>)
      reads this
      ensures call.Some? <==> deleteTarget.Some?
      ensures call.Some? ==> call.value == DeleteChapter(deleteTarget.value.id)
                             && RequestFor(call.value).path == EntityPath("chapters", deleteTarget.value.id)
    {
      if deleteTarget.Some? then Some(DeleteChapter(deleteTarget.value.id)) else None
    }

    method OnDeleted() returns (invalidated: set<QueryKey>)
      modifies this`deleteTarget
      ensures deleteTarget.None? && invalidated == InvalidatedKeys
    {
      deleteTarget := None;
      invalidated := InvalidatedKeys;
    }

    method OnCancelDelete()
      modifies this`deleteTarget
      ensures deleteTarget.None?
    {
      deleteTarget := None;
    }
  }

  /**
   * Creating a chapter here sends the order typed in the form, 0 when left
   * alone: unlike the course screen, nothing computes the next free order.
   */
  method CreateFlow(courseId: int, title: string, description: string) returns (call: Option<Call>)
    requires courseId != 0 && !IsBlank(title)
    ensures call == Some(CreateChapter(courseId, ChapterRequest(title, description, Some(0))))
  {
    var m := new ChapterManager();
    m.OnOpenCreate();
    assert m.editing.None? && m.form == InitialForm;
    m.SelectCourse(courseId);
    assert m.editing.None? && m.form == InitialForm && m.courseId == Chosen(courseId);
    m.EditForm(title, description);
    assert m.editing.None? && m.form == ChapterRequest(title, description, Some(0)) && IsTruthy(m.courseId);
    call := m.Submit();
  }

  /** Without a course picked, submitting a new chapter sends nothing. */
  method CreateWithoutCourseFlow(title: string) returns (call: Option<Call>)
    ensures call.None?
  {
    var m := new ChapterManager();
    m.OnOpenCreate();
    assert m.editing.None? && m.courseId == Unchosen;
    m.EditForm(title, "");
    assert m.editing.None? && !IsTruthy(m.courseId);
    call := m.Submit();
  }

  /** Editing a chapter and saving it unchanged updates it with its own fields, whatever its id. */
  method EditFlow(chapter: Chapter) returns (call: Option<Call>)
    requires !IsBlank(chapter.title)
    ensures call == Some(UpdateChapter(chapter.id, CourseManagement.ChapterEditForm(chapter)))
  {
    var m := new ChapterManager();
    m.OnOpenEdit(chapter);
    call := m.Submit();
  }
}
