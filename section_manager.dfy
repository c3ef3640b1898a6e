/**
 * The section table screen of one section type (grammar, vocabulary or
 * kanji): create a section under a chapter picked in a select box, edit
 * or delete one.
 */
module SectionManagement {
  import opened Base
  import opened Text
  import opened Types
  import opened QueryKeys
  import opened LmsApi
  import opened ManagerCommon
  import CourseManagement

  /** The statuses the status select offers, in its order. */
  const StatusOptions: seq<SectionStatus> := [Active, Draft, UnderDevelopment]

  /** The empty form of a screen: vocabulary sections start as under development, the others as active. */
  function InitialForm(t: SectionType): (f: SectionRequest)
    ensures f.sectionType == t && f.title == "" && f.level == "" && f.topic == "" && f.sectionOrder == Some(0)
    ensures f.status == UnderDevelopment <==> t == Vocabulary
    ensures f.status != UnderDevelopment ==> f.status == Active
  {
    SectionRequest(t, "", "", "", if t == Vocabulary then UnderDevelopment else Active, Some(0))
  }

  /** The keys refetched after a section of type `t` is created, updated or deleted. */
  function InvalidatedKeys(t: SectionType): set<QueryKey> {
    {SectionsOf(t), Sections(None), Courses}
  }

  /**
   * The refetch covers this screen's list, the untyped section list the
   * lesson screen reads and the course tree, but not the other types' lists.
   */
  lemma InvalidationScope(t: SectionType, u: SectionType)
    ensures SectionsOf(t) in InvalidatedKeys(t) && Sections(None) in InvalidatedKeys(t) && Courses in InvalidatedKeys(t)
    ensures u != t ==> SectionsOf(u) !in InvalidatedKeys(t)
    ensures |InvalidatedKeys(t)| == 3
    ensures InvalidatedKeys(t) < CourseManagement.InvalidateAllKeys
  {
    KeysDistinct(None);
    KeysDistinct(Some(SectionTypeName(t)));
    KeysDistinct(Some(SectionTypeName(u)));
    if u != t {
      assert SectionsOf(u)[1] != SectionsOf(t)[1];
    }
    CourseManagement.InvalidateAllCoversContent(t);
  }

  /** The form a section is edited in: its own type, nullable text fields as `""`, its order. */
  function SectionEditForm(section: Section): (f: SectionRequest)
    ensures f.sectionType == section.sectionType && f.title == section.title && f.status == section.status
    ensures f.sectionOrder == Some(section.sectionOrder)
    ensures f.level == if section.level.Some? then section.level.value else ""
    ensures f.topic == if section.topic.Some? then section.topic.value else ""
  {
    SectionRequest(section.sectionType, section.title, section.level.GetOr(""), section.topic.GetOr(""),
                   section.status, Some(section.sectionOrder))
  }

  /** The chapter column of a section row. */
  function ChapterColumn(chapters: seq<Chapter>, section: Section): string {
    Label(NameMap(Entries(chapters, (x: Chapter) => x.id, (x: Chapter) => x.title)), section.chapterId)
  }

  /** The column names the last listed chapter with the section's chapter id, or shows `#<id>` when none is listed. */
  lemma ChapterColumnNamesParent(chapters: seq<Chapter>, section: Section)
    ensures forall i :: 0 <= i < |chapters| && chapters[i].id == section.chapterId
                        && (forall j :: i < j < |chapters| ==> chapters[j].id != section.chapterId)
                        ==> ChapterColumn(chapters, section) == chapters[i].title
    ensures (forall i :: 0 <= i < |chapters| ==> chapters[i].id != section.chapterId)
            ==> ChapterColumn(chapters, section) == "#" + IntToDecimal(section.chapterId)
  {
    var e := Entries(chapters, (x: Chapter) => x.id, (x: Chapter) => x.title);
    LabelOfParent(e, section.chapterId);
    forall i | 0 <= i < |chapters| && chapters[i].id == section.chapterId
               && (forall j :: i < j < |chapters| ==> chapters[j].id != section.chapterId)
      ensures ChapterColumn(chapters, section) == chapters[i].title
    {
      assert LastWithKey(e, i);
    }
  }

  class SectionManager {
    /** The section type the screen is for. */
    const sectionType: SectionType
    var dialogOpen: bool
    var editing: Option<Section>
    /** The chapter select: `""` until a chapter is picked. */
    var chapterId: IdChoice
    var form: SectionRequest
    var deleteTarget: Option<Section>

    constructor(t: SectionType)
      ensures sectionType == t
      ensures !dialogOpen && editing.None? && chapterId == Unchosen && form == InitialForm(t) && deleteTarget.None?
    {
      sectionType := t;
      dialogOpen, editing, chapterId, form, deleteTarget := false, None, Unchosen, InitialForm(t), None;
    }

    method OnOpenCreate()
      modifies this`editing, this`form, this`dialogOpen
      ensures editing.None? && form == InitialForm(sectionType) && dialogOpen
    {
      editing := None;
      form := InitialForm(sectionType);
      dialogOpen := true;
    }

    method OnOpenEdit(section: Section)
      modifies this`editing, this`form, this`dialogOpen
      ensures editing == Some(section) && form == SectionEditForm(section) && dialogOpen
    {
      editing := Some(section);
      form := SectionEditForm(section);
      dialogOpen := true;
    }

    method SelectChapter(id: int)
      modifies this`chapterId
      ensures chapterId == Chosen(id)
    {
      chapterId := Chosen(id);
    }

    /** The title, level, topic and status fields; the type is not editable. */
    method EditForm(title: string, level: string, topic: string, status: SectionStatus)
      modifies this`form
      ensures form == old(form).(title := title, level := level, topic := topic, status := status)
    {
      form := form.(title := title, level := level, topic := topic, status := status);
    }

    method EditOrder(order: int)
      modifies this`form
      ensures form == old(form).(sectionOrder := Some(order))
    {
      form := form.(sectionOrder := Some(order));
    }

    /** `onSubmit`: the chapter screen's rule, with sections under a picked chapter. */
    function Submit(): (call: Option<Call>)
      reads this
      ensures call.None? <==> IsBlank(form.title) || (editing.None? && !IsTruthy(chapterId))
      ensures call.Some? && editing.Some? ==> call.value == UpdateSection(editing.value.id, form)
      ensures call.Some? && editing.None? ==> call.value == CreateSection(chapterId.id, form)
    {
      var editingId := if editing.Some? then Some(editing.value.id) else None;
      var route := SubmitRoute(form.title, editingId, TruthyId(chapterId));
      if route.Skip? then None
      else if route.UpdateOf? then Some(UpdateSection(route.id, form))
      else Some(CreateSection(route.parentId, form))
    }

    method OnCreated() returns (invalidated: set<QueryKey>)
      modifies this`dialogOpen, this`form, this`chapterId
      ensures !dialogOpen && form == InitialForm(sectionType) && chapterId == Unchosen
      ensures invalidated == InvalidatedKeys(sectionType)
    {
      dialogOpen, form, chapterId := false, InitialForm(sectionType), Unchosen;
      invalidated := InvalidatedKeys(sectionType);
    }

    method OnUpdated() returns (invalidated: set<QueryKey>)
      modifies this`dialogOpen, this`editing, this`form
      ensures !dialogOpen && editing.None? && form == InitialForm(sectionType)
      ensures invalidated == InvalidatedKeys(sectionType)
    {
      dialogOpen, editing, form := false, None, InitialForm(sectionType);
      invalidated := InvalidatedKeys(sectionType);
    }

    method OnCloseDialog()
      modifies this`dialogOpen
      ensures !dialogOpen
    {
      dialogOpen := false;
    }

    method OnRequestDelete(section: Section)
      modifies this`deleteTarget
      ensures deleteTarget == Some(section)
    {
      deleteTarget := Some(section);
    }

    function ConfirmDelete(): (call: Option<Call>)
      reads this
      ensures call.Some? <==> deleteTarget.Some?
      ensures call.Some? ==> call.value == DeleteSection(deleteTarget.value.id)
                             && RequestFor(call.value).path == EntityPath("sections", deleteTarget.value.id)
    {
      if deleteTarget.Some? then Some(DeleteSection(deleteTarget.value.id)) else None
    }

    method OnDeleted() returns (invalidated: set<QueryKey>)
      modifies this`deleteTarget
      ensures deleteTarget.None? && invalidated == InvalidatedKeys(sectionType)
    {
      deleteTarget := None;
      invalidated := InvalidatedKeys(sectionType);
    }

    method OnCancelDelete()
      modifies this`deleteTarget
      ensures deleteTarget.None?
    {
      deleteTarget := None;
    }
  }

  /**
   * Creating a section on the screen of type `t` sends a section of type
   * `t`, under development exactly on the vocabulary screen unless the
   * status is changed, with order 0 unless the order is changed.
   */
  method CreateFlow(t: SectionType, chapterId: int, title: string, level: string, topic: string)
    returns (call: Option<Call>)
    requires chapterId != 0 && !IsBlank(title)
    ensures call.Some? && call.value.CreateSection? && call.value.chapterId == chapterId
    ensures call.value.section.sectionType == t && call.value.section.sectionOrder == Some(0)
    ensures call.value.section.status == UnderDevelopment <==> t == Vocabulary
  {
    var m := new SectionManager(t);
    m.OnOpenCreate();
    m.SelectChapter(chapterId);
    var status := m.form.status;
    m.EditForm(title, level, topic, status);
    var form := InitialForm(t).(title := title, level := level, topic := topic);
    assert m.form == form && m.editing.None? && m.chapterId == Chosen(chapterId);
    call := m.Submit();
    assert call == Some(CreateSection(chapterId, form));
  }

  /** Editing keeps the section's own type even on another type's screen. */
  method EditFlow(t: SectionType, section: Section) returns (call: Option<Call>)
    requires !IsBlank(section.title)
    ensures call == Some(UpdateSection(section.id, SectionEditForm(section)))
    ensures call.value.section.sectionType == section.sectionType
  {
    var m := new SectionManager(t);
    m.OnOpenEdit(section);
    call := m.Submit();
  }
}
