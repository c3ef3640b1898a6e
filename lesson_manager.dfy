/**
 * The lesson table screen: create a lesson under a section picked in a
 * select box, edit or delete one.
 */
module LessonManagement {
  import opened Base
  import opened Text
  import opened Types
  import opened QueryKeys
  import opened LmsApi
  import opened ManagerCommon
  import CourseManagement

  const InitialForm := LessonRequest("", "", "", Some(0))

  /** The keys refetched after a lesson is created, updated or deleted. */
  const InvalidatedKeys: set<QueryKey> := {Lessons, Courses, Sections(None)}

  /** The refetch covers this screen's list, the course tree and the untyped section list, and no chapter list. */
  lemma InvalidationScope(t: SectionType)
    ensures Lessons in InvalidatedKeys && Courses in InvalidatedKeys && Sections(None) in InvalidatedKeys
    ensures Chapters !in InvalidatedKeys && SectionsOf(t) !in InvalidatedKeys
    ensures InvalidatedKeys < CourseManagement.InvalidateAllKeys
  {
    KeysDistinct(None);
    KeysDistinct(Some(SectionTypeName(t)));
    CourseManagement.InvalidateAllCoversContent(t);
  }

  /** The section column of a lesson row. */
  function SectionColumn(sections: seq<Section>, lesson: Lesson): string {
    Label(NameMap(Entries(sections, (x: Section) => x.id, (x: Section) => x.title)), lesson.sectionId)
  }

  /** The column names the last listed section with the lesson's section id, or shows `#<id>` when none is listed. */
  lemma SectionColumnNamesParent(sections: seq<Section>, lesson: Lesson)
    ensures forall i :: 0 <= i < |sections| && sections[i].id == lesson.sectionId
                        && (forall j :: i < j < |sections| ==> sections[j].id != lesson.sectionId)
                        ==> SectionColumn(sections, lesson) == sections[i].title
    ensures (forall i :: 0 <= i < |sections| ==> sections[i].id != lesson.sectionId)
            ==> SectionColumn(sections, lesson) == "#" + IntToDecimal(lesson.sectionId)
  {
    var e := Entries(sections, (x: Section) => x.id, (x: Section) => x.title);
    LabelOfParent(e, lesson.sectionId);
    forall i | 0 <= i < |sections| && sections[i].id == lesson.sectionId
               && (forall j :: i < j < |sections| ==> sections[j].id != lesson.sectionId)
      ensures SectionColumn(sections, lesson) == sections[i].title
    {
      assert LastWithKey(e, i);
    }
  }

  class LessonManager {
    var dialogOpen: bool
    var editing: Option<Lesson>
    /** The section select: `""` until a section is picked. */
    var sectionId: IdChoice
    var form: LessonRequest
    var deleteTarget: Option<Lesson>

    constructor()
      ensures !dialogOpen && editing.None? && sectionId == Unchosen && form == InitialForm && deleteTarget.None?
    {
      dialogOpen, editing, sectionId, form, deleteTarget := false, None, Unchosen, InitialForm, None;
    }

    method OnOpenCreate()
      modifies this`editing, this`form, this`dialogOpen
      ensures editing.None? && form == InitialForm && dialogOpen
    {
      editing := None;
      form := InitialForm;
      dialogOpen := true;
    }

    method OnOpenEdit(lesson: Lesson)
      modifies this`editing, this`form, this`dialogOpen
      ensures editing == Some(lesson) && form == CourseManagement.LessonEditForm(lesson) && dialogOpen
    {
      editing := Some(lesson);
      form := CourseManagement.LessonEditForm(lesson);
      dialogOpen := true;
    }

    method SelectSection(id: int)
      modifies this`sectionId
      ensures sectionId == Chosen(id)
    {
      sectionId := Chosen(id);
    }

    /** The title, video and PDF fields. */
    method EditForm(title: string, videoUrl: string, pdfUrl: string)
      modifies this`form
      ensures form == old(form).(title := title, videoUrl := videoUrl, pdfUrl := pdfUrl)
    {
      form := form.(title := title, videoUrl := videoUrl, pdfUrl := pdfUrl);
    }

    method EditOrder(order: int)
      modifies this`form
      ensures form == old(form).(lessonOrder := Some(order))
    {
      form := form.(lessonOrder := Some(order));
    }

    /** `onSubmit`: the chapter screen's rule, with lessons under a picked section. */
    function Submit(): (call: Option<Call>)
      reads this
      ensures call.None? <==> IsBlank(form.title) || (editing.None? && !IsTruthy(sectionId))
      ensures call.Some? && editing.Some? ==> call.value == UpdateLesson(editing.value.id, form)
      ensures call.Some? && editing.None? ==> call.value == CreateLesson(sectionId.id, form)
    {
      var editingId := if editing.Some? then Some(editing.value.id) else None;
      var route := SubmitRoute(form.title, editingId, TruthyId(sectionId));
      if route.Skip? then None
      else if route.UpdateOf? then Some(UpdateLesson(route.id, form))
      else Some(CreateLesson(route.parentId, form))
    }

    method OnCreated() returns (invalidated: set<QueryKey>)
      modifies this`dialogOpen, this`form, this`sectionId
      ensures !dialogOpen && form == InitialForm && sectionId == Unchosen
      ensures invalidated == InvalidatedKeys
    {
      dialogOpen, form, sectionId := false, InitialForm, Unchosen;
      invalidated := InvalidatedKeys;
    }

    method OnUpdated() returns (invalidated: set<QueryKey>)
      modifies this`dialogOpen, this`editing, this`form
      ensures !dialogOpen && editing.None? && form == InitialForm
      ensures invalidated == InvalidatedKeys
    {
      dialogOpen, editing, form := false, None, InitialForm;
      invalidated := InvalidatedKeys;
    }

    method OnCloseDialog()
      modifies this`dialogOpen
      ensures !dialogOpen
    {
      dialogOpen := false;
    }

    method OnRequestDelete(lesson: Lesson)
      modifies this`deleteTarget
      ensures deleteTarget == Some(lesson)
    {
      deleteTarget := Some(lesson);
    }

    function ConfirmDelete(): (call: Option<Call>)
      reads this
      ensures call.Some? <==> deleteTarget.Some?
      ensures call.Some? ==> call.value == DeleteLesson(deleteTarget.value.id)
                             && RequestFor(call.value).path == EntityPath("lessons", deleteTarget.value.id)
    {
      if deleteTarget.Some? then Some(DeleteLesson(deleteTarget.value.id)) else None
    }

    method OnDeleted() returns (invalidated: set<QueryKey>)
      modifies this`deleteTarget
      ensures deleteTarget.None? && invalidated == InvalidatedKeys
    {
      deleteTarget := None;
      invalidated := InvalidatedKeys;
    }

    method OnCancelDelete()
      modifies this`deleteTarget
      ensures deleteTarget.None?
    {
      deleteTarget := None;
    }
  }

  /** Creating a lesson here sends the typed order, 0 when left alone. */
  method CreateFlow(sectionId: int, title: string, videoUrl: string, pdfUrl: string) returns (call: Option<Call>)
    requires sectionId != 0 && !IsBlank(title)
    ensures call == Some(CreateLesson(sectionId, LessonRequest(title, videoUrl, pdfUrl, Some(0))))
  {
    var m := new LessonManager();
    m.OnOpenCreate();
    m.SelectSection(sectionId);
    m.EditForm(title, videoUrl, pdfUrl);
    assert m.form == LessonRequest(title, videoUrl, pdfUrl, Some(0)) && m.editing.None? && m.sectionId == Chosen(sectionId);
    call := m.Submit();
  }
}
