/**
 * The course tree screen: its state (three dialogs, what is being edited,
 * the parent a new chapter or lesson goes under, three forms, the pending
 * deletion) and its handlers. The pure parts it reads (finding, counting,
 * paths, next orders) are in `CourseTree`.
 */
module CourseManagement {
  import opened Base
  import opened Text
  import opened Types
  import opened QueryKeys
  import opened CourseTree
  import opened ApiClient
  import opened LmsApi
  import opened ManagerCommon

  datatype DeleteKind = CourseKind | ChapterKind | LessonKind

  /** The entity the confirmation dialog asks about. */
  datatype DeleteTarget = DeleteTarget(kind: DeleteKind, id: int, labelText: string)

  const InitialCourseForm := CourseRequest("", "", "")
  const InitialChapterForm := ChapterRequest("", "", Some(0))
  const InitialLessonForm := LessonRequest("", "", "", Some(0))

  /** Every key the screen invalidates after a successful change. */
  const InvalidateAllKeys: set<QueryKey> :=
    {Courses, Chapters, Lessons, Sections(None), SectionsOf(Grammar), SectionsOf(Vocabulary), SectionsOf(Kanji)}

  /** The course and section lists, in every variant, are refetched; the user list is not. */
  lemma InvalidateAllCoversContent(t: SectionType)
    ensures Courses in InvalidateAllKeys && Chapters in InvalidateAllKeys && Lessons in InvalidateAllKeys
    ensures Sections(None) in InvalidateAllKeys && SectionsOf(t) in InvalidateAllKeys
    ensures Users !in InvalidateAllKeys
    ensures |InvalidateAllKeys| == 7
  {
    KeysDistinct(None);
    KeysDistinct(Some("GRAMMAR"));
    KeysDistinct(Some("VOCABULARY"));
    KeysDistinct(Some("KANJI"));
    assert SectionsOf(Grammar)[1] != SectionsOf(Vocabulary)[1];
    assert SectionsOf(Grammar)[1] != SectionsOf(Kanji)[1];
    assert SectionsOf(Vocabulary)[1] != SectionsOf(Kanji)[1];
    assert SectionsOf(t) in {SectionsOf(Grammar), SectionsOf(Vocabulary), SectionsOf(Kanji)} by {
      match t
      case Grammar =>
      case Vocabulary =>
      case Kanji =>
    }
  }

  function KindNoun(kind: DeleteKind): string {
    match kind
    case CourseKind => "course"
    case ChapterKind => "chapter"
    case LessonKind => "lesson"
  }

  /** The collection a kind of entity is stored under. */
  function Collection(kind: DeleteKind): string {
    match kind
    case CourseKind => "courses"
    case ChapterKind => "chapters"
    case LessonKind => "lessons"
  }

  /** `course "Name"`, `chapter "Title"`, `lesson "Title"`. */
  function DeleteLabel(kind: DeleteKind, name: string): (r: string)
    ensures StartsWith(r, KindNoun(kind) + " \"")
    ensures |r| == |KindNoun(kind)| + |name| + 3 && r[|r| - 1] == '"'
    ensures r[|KindNoun(kind)| + 2 .. |r| - 1] == name
  {
    KindNoun(kind) + " \"" + name + "\""
  }

  /** `actionMap[deleteTarget.kind].mutate(deleteTarget.id)`: the delete endpoint of the target's kind. */
  function DeleteCall(t: DeleteTarget): (c: Call)
    ensures RequestFor(c).init.httpMethod == Delete && RequestFor(c).authRequired
    ensures RequestFor(c).path == EntityPath(Collection(t.kind), t.id)
  {
    match t.kind
    case CourseKind => DeleteCourse(t.id)
    case ChapterKind => DeleteChapter(t.id)
    case LessonKind => DeleteLesson(t.id)
  }

  /** The form a course is edited in: nullable fields become `""`. */
  function CourseEditForm(course: Course): (f: CourseRequest)
    ensures f.name == course.name
    ensures f.description == if course.description.Some? then course.description.value else ""
    ensures f.thumbnailUrl == if course.thumbnailUrl.Some? then course.thumbnailUrl.value else ""
  {
    CourseRequest(course.thumbnailUrl.GetOr(""), course.name, course.description.GetOr(""))
  }

  /** The form a chapter is edited in: it keeps the chapter's order. */
  function ChapterEditForm(chapter: Chapter): (f: ChapterRequest)
    ensures f.title == chapter.title && f.chapterOrder == Some(chapter.chapterOrder)
    ensures f.description == if chapter.description.Some? then chapter.description.value else ""
  {
    ChapterRequest(chapter.title, chapter.description.GetOr(""), Some(chapter.chapterOrder))
  }

  /** The form a lesson is edited in: it keeps the lesson's order. */
  function LessonEditForm(lesson: Lesson): (f: LessonRequest)
    ensures f.title == lesson.title && f.lessonOrder == Some(lesson.lessonOrder)
    ensures f.videoUrl == if lesson.videoUrl.Some? then lesson.videoUrl.value else ""
    ensures f.pdfUrl == if lesson.pdfUrl.Some? then lesson.pdfUrl.value else ""
  {
    LessonRequest(lesson.title, lesson.videoUrl.GetOr(""), lesson.pdfUrl.GetOr(""), Some(lesson.lessonOrder))
  }

  /** Once the first `j` chapters hold no match, the inner search stops at chapter `j` if it holds one. */
  lemma {:induction false} FirstChapterWithSection(chapters: seq<Chapter>, sectionId: int, j: int)
    requires 0 <= j < |chapters|
    requires SectionInChapters(chapters[..j], sectionId).None?
    requires Find(chapters[j].sections, SectionIdIs(sectionId)).Some?
    ensures SectionInChapters(chapters, sectionId) == Find(chapters[j].sections, SectionIdIs(sectionId))
    decreases j
  {
    if j > 0 {
      assert chapters[..j][0] == chapters[0];
      var first := chapters[0].sections;
      assert Find(first, SectionIdIs(sectionId)).None? by {
        forall k | 0 <= k < |first|
          ensures first[k].id != sectionId
        {
          assert chapters[..j][0].sections[k].id != sectionId;
        }
      }
      var rest := chapters[1..];
      var restPrefix := rest[..j - 1];
      assert restPrefix == chapters[..j][1..];
      assert SectionInChapters(restPrefix, sectionId).None? by {
        forall a, k | 0 <= a < |restPrefix| && 0 <= k < |restPrefix[a].sections|
          ensures restPrefix[a].sections[k].id != sectionId
        {
          assert restPrefix[a] == chapters[..j][a + 1];
        }
      }
      assert rest[j - 1] == chapters[j];
      FirstChapterWithSection(rest, sectionId, j - 1);
    }
  }

  /** A chapter without a match extends the matchless prefix. */
  lemma NoSectionInChapter(chapters: seq<Chapter>, sectionId: int, j: int)
    requires 0 <= j < |chapters|
    requires SectionInChapters(chapters[..j], sectionId).None?
    requires Find(chapters[j].sections, SectionIdIs(sectionId)).None?
    ensures SectionInChapters(chapters[..j + 1], sectionId).None?
  {
    var prefix := chapters[..j + 1];
    forall a, k | 0 <= a < |prefix| && 0 <= k < |prefix[a].sections|
      ensures prefix[a].sections[k].id != sectionId
    {
      if a < j {
        assert prefix[a] == chapters[..j][a];
      } else {
        assert !SectionIdIs(sectionId)(chapters[j].sections[k]);
      }
    }
  }

  /** One more course searched: its match, if any, replaces the earlier one. */
  lemma LocateSectionStep(courses: seq<Course>, sectionId: int, i: int)
    requires 0 <= i < |courses|
    ensures LocateSection(courses[..i + 1], sectionId) ==
            (var r := SectionInChapters(courses[i].chapters, sectionId);
             if r.Some? then r else LocateSection(courses[..i], sectionId))
  {
    assert courses[..i + 1][..i] == courses[..i];
    assert courses[..i + 1][i] == courses[i];
  }

  /**
   * `getNextLessonOrder`: search every course's chapters for the section
   * (the inner loop stops at the first chapter that has it, the outer loop
   * does not stop), then one more than the largest lesson order in it.
   */
  method NextLessonOrder(courses: seq<Course>, sectionId: int) returns (order: int)
    ensures order == NextLessonOrderSpec(courses, sectionId)
  {
    var section: Option<Section> := None;
    for i := 0 to |courses|
      invariant section == LocateSection(courses[..i], sectionId)
    {
      var chapters := courses[i].chapters;
      var matched := false;
      for j := 0 to |chapters|
        invariant !matched ==> SectionInChapters(chapters[..j], sectionId).None?
        invariant !matched ==> section == LocateSection(courses[..i], sectionId)
        invariant matched ==> section == SectionInChapters(chapters, sectionId) && section.Some?
      {
        var found := Find(chapters[j].sections, SectionIdIs(sectionId));
        if found.Some? {
          FirstChapterWithSection(chapters, sectionId, j);
          section := found;
          matched := true;
          break;
        }
        NoSectionInChapter(chapters, sectionId, j);
      }
      if !matched {
        assert chapters[..|chapters|] == chapters;
      }
      LocateSectionStep(courses, sectionId, i);
    }
    assert courses[..|courses|] == courses;
    order := NextOrderIn(section);
  }

  /** The course tree screen. */
  class CourseManager {
    /** `coursesQuery.data ?? []`. */
    var courses: seq<Course>
    var routeCourse: RouteId
    var routeChapter: RouteId
    var routeSection: RouteId
    var courseDialogOpen: bool
    var chapterDialogOpen: bool
    var lessonDialogOpen: bool
    var editingCourse: Option<Course>
    var editingChapterId: Option<int>
    var editingLessonId: Option<int>
    var courseContextId: Option<int>
    var sectionContextId: Option<int>
    var courseForm: CourseRequest
    var chapterForm: ChapterRequest
    var lessonForm: LessonRequest
    var deleteTarget: Option<DeleteTarget>

    /** The order fields always hold a number, so the `??` fallbacks at submit never fire. */
    predicate Valid()
      reads this
    {
      chapterForm.chapterOrder.Some? && lessonForm.lessonOrder.Some?
    }

    constructor(data: Option<seq<Course>>, routeCourse: RouteId, routeChapter: RouteId, routeSection: RouteId)
      ensures Valid()
      ensures courses == data.GetOr([])
      ensures this.routeCourse == routeCourse && this.routeChapter == routeChapter && this.routeSection == routeSection
      ensures !courseDialogOpen && !chapterDialogOpen && !lessonDialogOpen
      ensures editingCourse.None? && editingChapterId.None? && editingLessonId.None?
      ensures courseContextId.None? && sectionContextId.None?
      ensures courseForm == InitialCourseForm && chapterForm == InitialChapterForm && lessonForm == InitialLessonForm
      ensures deleteTarget.None?
    {
      courses := data.GetOr([]);
      this.routeCourse := routeCourse;
      this.routeChapter := routeChapter;
      this.routeSection := routeSection;
      courseDialogOpen, chapterDialogOpen, lessonDialogOpen := false, false, false;
      editingCourse, editingChapterId, editingLessonId := None, None, None;
      courseContextId, sectionContextId := None, None;
      courseForm, chapterForm, lessonForm := InitialCourseForm, InitialChapterForm, InitialLessonForm;
      deleteTarget := None;
    }

    /** A (re)fetch of the course tree. */
    method OnCoursesLoaded(data: Option<seq<Course>>)
      modifies this`courses
      ensures courses == data.GetOr([])
    {
      courses := data.GetOr([]);
    }

    /** What the screen shows for the current route. */
    function Screen(): View
      reads this
    {
      Project(courses, routeCourse, routeChapter, routeSection)
    }

    method OnOpenCreateCourse()
      modifies this`editingCourse, this`courseForm, this`courseDialogOpen
      ensures editingCourse.None? && courseForm == InitialCourseForm && courseDialogOpen
    {
      editingCourse := None;
      courseForm := InitialCourseForm;
      courseDialogOpen := true;
    }

    method OnOpenEditCourse(course: Course)
      modifies this`editingCourse, this`courseForm, this`courseDialogOpen
      ensures editingCourse == Some(course) && courseForm == CourseEditForm(course) && courseDialogOpen
    {
      editingCourse := Some(course);
      courseForm := CourseEditForm(course);
      courseDialogOpen := true;
    }

    /** The course dialog's fields: name, thumbnail URL, description. */
    method EditCourseForm(name: string, thumbnailUrl: string, description: string)
      modifies this`courseForm
      ensures courseForm == CourseRequest(thumbnailUrl, name, description)
    {
      courseForm := CourseRequest(thumbnailUrl, name, description);
    }

    /** `onSubmitCourse`: nothing for a blank name, else update the course being edited or create one. */
    function SubmitCourse(): (call: Option<Call>)
      reads this
      ensures call.None? <==> IsBlank(courseForm.name)
      ensures call.Some? && editingCourse.Some? ==> call.value == UpdateCourse(editingCourse.value.id, courseForm)
      ensures call.Some? && editingCourse.None? ==> call.value == CreateCourse(courseForm)
    {
      if IsBlank(courseForm.name) then None
      else if editingCourse.Some? then Some(UpdateCourse(editingCourse.value.id, courseForm))
      else Some(CreateCourse(courseForm))
    }

    method OnCourseCreated() returns (invalidated: set<QueryKey>)
      modifies this`courseDialogOpen, this`courseForm
      ensures !courseDialogOpen && courseForm == InitialCourseForm
      ensures invalidated == InvalidateAllKeys
    {
      courseDialogOpen := false;
      courseForm := InitialCourseForm;
      invalidated := InvalidateAllKeys;
    }

    method OnCourseUpdated() returns (invalidated: set<QueryKey>)
      modifies this`courseDialogOpen, this`editingCourse, this`courseForm
      ensures !courseDialogOpen && editingCourse.None? && courseForm == InitialCourseForm
      ensures invalidated == InvalidateAllKeys
    {
      courseDialogOpen := false;
      editingCourse := None;
      courseForm := InitialCourseForm;
      invalidated := InvalidateAllKeys;
    }

    /** `onOpenCreateChapter`: the new chapter goes under `courseId`, with the next free order. */
    method OnOpenCreateChapter(courseId: int)
      requires Valid()
      modifies this`editingChapterId, this`courseContextId, this`chapterForm, this`chapterDialogOpen
      ensures Valid()
      ensures editingChapterId.None? && courseContextId == Some(courseId) && chapterDialogOpen
      ensures chapterForm == InitialChapterForm.(chapterOrder := Some(NextChapterOrder(courses, courseId)))
    {
      editingChapterId := None;
      courseContextId := Some(courseId);
      chapterForm := InitialChapterForm.(chapterOrder := Some(NextChapterOrder(courses, courseId)));
      chapterDialogOpen := true;
    }

    /** `onOpenEditChapter`: the parent context is left as it was. */
    method OnOpenEditChapter(chapter: Chapter)
      requires Valid()
      modifies this`editingChapterId, this`chapterForm, this`chapterDialogOpen
      ensures Valid()
      ensures editingChapterId == Some(chapter.id) && chapterForm == ChapterEditForm(chapter) && chapterDialogOpen
    {
      editingChapterId := Some(chapter.id);
      chapterForm := ChapterEditForm(chapter);
      chapterDialogOpen := true;
    }

    /** The chapter dialog has a title and a description field and no order field. */
    method EditChapterForm(title: string, description: string)
      requires Valid()
      modifies this`chapterForm
      ensures Valid()
      ensures chapterForm == old(chapterForm).(title := title, description := description)
    {
      chapterForm := chapterForm.(title := title, description := description);
    }

    /**
     * `onSubmitChapter`: nothing for a blank title; a (truthy) chapter id
     * being edited is updated; otherwise a chapter is created under the
     * (truthy) course context, its order the form's or else the next free one.
     */
    function SubmitChapter(): (call: Option<Call>)
      reads this
      ensures call.None? <==> IsBlank(chapterForm.title) || (!IsSet(editingChapterId) && !IsSet(courseContextId))
      ensures call.Some? ==> call.value.UpdateChapter? || call.value.CreateChapter?
      ensures call.Some? && call.value.UpdateChapter? ==>
                IsSet(editingChapterId) && call.value.id == editingChapterId.value && call.value.chapter == chapterForm
      ensures call.Some? && call.value.CreateChapter? ==>
                !IsSet(editingChapterId) && IsSet(courseContextId) && call.value.courseId == courseContextId.value
                && call.value.chapter == chapterForm.(chapterOrder := Some(chapterForm.chapterOrder.GetOr(
                     NextChapterOrder(courses, courseContextId.value))))
      ensures Valid() && call.Some? && call.value.CreateChapter? ==> call.value.chapter == chapterForm
    {
      match SubmitRoute(chapterForm.title, SetId(editingChapterId), SetId(courseContextId))
      case Skip => None
      case UpdateOf(id) => Some(UpdateChapter(id, chapterForm))
      case CreateUnder(c) =>
        Some(CreateChapter(c, chapterForm.(chapterOrder := Some(chapterForm.chapterOrder.GetOr(NextChapterOrder(courses, c))))))
    }

    method OnChapterSaved() returns (invalidated: set<QueryKey>)
      modifies this`chapterDialogOpen, this`chapterForm, this`editingChapterId
      ensures Valid() <==> lessonForm.lessonOrder.Some?
      ensures !chapterDialogOpen && chapterForm == InitialChapterForm && editingChapterId.None?
      ensures invalidated == InvalidateAllKeys
    {
      chapterDialogOpen := false;
      chapterForm := InitialChapterForm;
      editingChapterId := None;
      invalidated := InvalidateAllKeys;
    }

    /** `onOpenCreateLesson`: the new lesson goes under `sectionId`, with the next free order. */
    method OnOpenCreateLesson(sectionId: int)
      requires Valid()
      modifies this`editingLessonId, this`sectionContextId, this`lessonForm, this`lessonDialogOpen
      ensures Valid()
      ensures editingLessonId.None? && sectionContextId == Some(sectionId) && lessonDialogOpen
      ensures lessonForm == InitialLessonForm.(lessonOrder := Some(NextLessonOrderSpec(courses, sectionId)))
    {
      editingLessonId := None;
      sectionContextId := Some(sectionId);
      var order := NextLessonOrder(courses, sectionId);
      lessonForm := InitialLessonForm.(lessonOrder := Some(order));
      lessonDialogOpen := true;
    }

    method OnOpenEditLesson(lesson: Lesson)
      requires Valid()
      modifies this`editingLessonId, this`lessonForm, this`lessonDialogOpen
      ensures Valid()
      ensures editingLessonId == Some(lesson.id) && lessonForm == LessonEditForm(lesson) && lessonDialogOpen
    {
      editingLessonId := Some(lesson.id);
      lessonForm := LessonEditForm(lesson);
      lessonDialogOpen := true;
    }

    /** The lesson dialog has title, video and PDF fields and no order field. */
    method EditLessonForm(title: string, videoUrl: string, pdfUrl: string)
      requires Valid()
      modifies this`lessonForm
      ensures Valid()
      ensures lessonForm == old(lessonForm).(title := title, videoUrl := videoUrl, pdfUrl := pdfUrl)
    {
      lessonForm := lessonForm.(title := title, videoUrl := videoUrl, pdfUrl := pdfUrl);
    }

    /**
     * `onSubmitLesson`, as `onSubmitChapter` but for lessons; the fallback
     * order runs the section search only when the form holds none.
     */
    method SubmitLesson() returns (call: Option<Call>)
      ensures call.None? <==> IsBlank(lessonForm.title) || (!IsSet(editingLessonId) && !IsSet(sectionContextId))
      ensures call.Some? ==> call.value.UpdateLesson? || call.value.CreateLesson?
      ensures call.Some? && call.value.UpdateLesson? ==>
                IsSet(editingLessonId) && call.value.id == editingLessonId.value && call.value.lesson == lessonForm
      ensures call.Some? && call.value.CreateLesson? ==>
                !IsSet(editingLessonId) && IsSet(sectionContextId) && call.value.sectionId == sectionContextId.value
                && call.value.lesson == lessonForm.(lessonOrder := Some(lessonForm.lessonOrder.GetOr(
                     NextLessonOrderSpec(courses, sectionContextId.value))))
      ensures Valid() && call.Some? && call.value.CreateLesson? ==> call.value.lesson == lessonForm
    {
      match SubmitRoute(lessonForm.title, SetId(editingLessonId), SetId(sectionContextId))
      case Skip =>
        call := None;
      case UpdateOf(id) =>
        call := Some(UpdateLesson(id, lessonForm));
      case CreateUnder(s) =>
        var order: int;
        if lessonForm.lessonOrder.Some? {
          order := lessonForm.lessonOrder.value;
        } else {
          order := NextLessonOrder(courses, s);
        }
        call := Some(CreateLesson(s, lessonForm.(lessonOrder := Some(order))));
    }

    method OnLessonSaved() returns (invalidated: set<QueryKey>)
      modifies this`lessonDialogOpen, this`lessonForm, this`editingLessonId
      ensures Valid() <==> chapterForm.chapterOrder.Some?
      ensures !lessonDialogOpen && lessonForm == InitialLessonForm && editingLessonId.None?
      ensures invalidated == InvalidateAllKeys
    {
      lessonDialogOpen := false;
      lessonForm := InitialLessonForm;
      editingLessonId := None;
      invalidated := InvalidateAllKeys;
    }

    /** Each dialog's `onClose` only hides it: the form and what is being edited stay. */
    method OnCloseCourseDialog()
      modifies this`courseDialogOpen
      ensures !courseDialogOpen
    {
      courseDialogOpen := false;
    }

    method OnCloseChapterDialog()
      modifies this`chapterDialogOpen
      ensures !chapterDialogOpen
    {
      chapterDialogOpen := false;
    }

    method OnCloseLessonDialog()
      modifies this`lessonDialogOpen
      ensures !lessonDialogOpen
    {
      lessonDialogOpen := false;
    }

    /** `handleEditCourse`: open the course with this id for editing, if it is listed. */
    method HandleEditCourse(courseId: int)
      modifies this`editingCourse, this`courseForm, this`courseDialogOpen
      ensures var c := FindCourse(courses, Some(courseId));
              if c.Some? then editingCourse == c && courseForm == CourseEditForm(c.value) && courseDialogOpen
              else editingCourse == old(editingCourse) && courseForm == old(courseForm) && courseDialogOpen == old(courseDialogOpen)
    {
      var c := FindCourse(courses, Some(courseId));
      if c.Some? {
        OnOpenEditCourse(c.value);
      }
    }

    /** `handleEditChapter`: open a chapter of the selected course for editing, if it has one with this id. */
    method HandleEditChapter(chapterId: int)
      requires Valid()
      modifies this`editingChapterId, this`chapterForm, this`chapterDialogOpen
      ensures Valid()
      ensures var h := FindChapter(Screen().course, Some(chapterId));
              if h.Some? then editingChapterId == Some(chapterId) && chapterForm == ChapterEditForm(h.value) && chapterDialogOpen
              else editingChapterId == old(editingChapterId) && chapterForm == old(chapterForm) && chapterDialogOpen == old(chapterDialogOpen)
    {
      var h := FindChapter(Screen().course, Some(chapterId));
      if h.Some? {
        OnOpenEditChapter(h.value);
      }
    }

    /** `handleEditLesson`: open a lesson of the selected section for editing, if it has one with this id. */
    method HandleEditLesson(lessonId: int)
      requires Valid()
      modifies this`editingLessonId, this`lessonForm, this`lessonDialogOpen
      ensures Valid()
      ensures var section := Screen().section;
              var l := if section.None? then None else Find(section.value.lessons, (x: Lesson) => x.id == lessonId);
              if l.Some? then editingLessonId == Some(lessonId) && lessonForm == LessonEditForm(l.value) && lessonDialogOpen
              else editingLessonId == old(editingLessonId) && lessonForm == old(lessonForm) && lessonDialogOpen == old(lessonDialogOpen)
    {
      var section := Screen().section;
      var l := if section.None? then None else Find(section.value.lessons, (x: Lesson) => x.id == lessonId);
      if l.Some? {
        OnOpenEditLesson(l.value);
      }
    }

    /** `handleSelectChapter`: the chapter page under the selected course; nowhere without one. */
    function SelectChapterTarget(chapterId: int): (r: Option<string>)
      reads this
      ensures r.Some? <==> Screen().course.Some?
      ensures r.Some? ==> r.value == ChapterPath(Screen().course.value.id, chapterId)
    {
      var v := Screen();
      if v.course.None? then None else Some(ChapterPath(v.course.value.id, chapterId))
    }

    /** `handleSelectSection`: the section page under the selected chapter; nowhere without one. */
    function SelectSectionTarget(sectionId: int): (r: Option<string>)
      reads this
      ensures r.Some? <==> Screen().course.Some? && Screen().chapter.Some?
      ensures r.Some? ==> r.value == SectionPath(Screen().course.value.id, Screen().chapter.value.id, sectionId)
    {
      var v := Screen();
      if v.course.None? || v.chapter.None? then None
      else Some(SectionPath(v.course.value.id, v.chapter.value.id, sectionId))
    }

    method OnRequestDelete(kind: DeleteKind, id: int, name: string)
      modifies this`deleteTarget
      ensures deleteTarget == Some(DeleteTarget(kind, id, DeleteLabel(kind, name)))
    {
      deleteTarget := Some(DeleteTarget(kind, id, DeleteLabel(kind, name)));
    }

    /** `onConfirmDelete`: delete exactly the pending target, through the endpoint of its kind. */
    function ConfirmDelete(): (call: Option<Call>)
      reads this
      ensures call.Some? <==> deleteTarget.Some?
      ensures call.Some? ==> RequestFor(call.value).init.httpMethod == Delete
      ensures call.Some? ==> RequestFor(call.value).path == EntityPath(Collection(deleteTarget.value.kind), deleteTarget.value.id)
    {
      if deleteTarget.None? then None else Some(DeleteCall(deleteTarget.value))
    }

    /** A delete succeeded: the dialog closes and everything is refetched. */
    method OnDeleteSucceeded() returns (invalidated: set<QueryKey>)
      modifies this`deleteTarget
      ensures deleteTarget.None? && invalidated == InvalidateAllKeys
    {
      deleteTarget := None;
      invalidated := InvalidateAllKeys;
    }

    method OnCancelDelete()
      modifies this`deleteTarget
      ensures deleteTarget.None?
    {
      deleteTarget := None;
    }
  }

  /**
   * Adding a chapter from a course page: the chapter is created under that
   * course with the typed title and an order above every existing chapter's.
   */
  method CreateChapterFlow(courses: seq<Course>, courseId: int, title: string, description: string)
    returns (call: Option<Call>)
    requires courseId > 0 && !IsBlank(title)
    ensures call == Some(CreateChapter(courseId, ChapterRequest(title, description, Some(NextChapterOrder(courses, courseId)))))
    ensures var c := FindCourse(courses, Some(courseId));
            c.Some? ==> forall h :: h in c.value.chapters ==> h.chapterOrder < call.value.chapter.chapterOrder.value
  {
    var m := new CourseManager(Some(courses), IntVal(courseId), Missing, Missing);
    m.OnOpenCreateChapter(courseId);
    var next := NextChapterOrder(courses, courseId);
    assert m.editingChapterId.None? && m.courseContextId == Some(courseId);
    m.EditChapterForm(title, description);
    assert m.editingChapterId.None? && m.courseContextId == Some(courseId);
    assert m.chapterForm == ChapterRequest(title, description, Some(next));
    call := m.SubmitChapter();
  }

  /**
   * Adding a lesson from a section page: the lesson is created under that
   * section with an order above every lesson of the section the search finds.
   */
  method CreateLessonFlow(courses: seq<Course>, sectionId: int, title: string, videoUrl: string, pdfUrl: string)
    returns (call: Option<Call>)
    requires sectionId > 0 && !IsBlank(title)
    ensures call == Some(CreateLesson(sectionId, LessonRequest(title, videoUrl, pdfUrl, Some(NextLessonOrderSpec(courses, sectionId)))))
    ensures var s := LocateSection(courses, sectionId);
            s.Some? ==> forall l :: l in s.value.lessons ==> l.lessonOrder < call.value.lesson.lessonOrder.value
  {
    var m := new CourseManager(Some(courses), Missing, Missing, Missing);
    m.OnOpenCreateLesson(sectionId);
    m.EditLessonForm(title, videoUrl, pdfUrl);
    call := m.SubmitLesson();
    NextLessonOrderBounds(courses, sectionId);
  }

  /**
   * Editing a chapter and saving it unchanged sends back its own title,
   * description and order, unless its id is the falsy 0.
   */
  method EditChapterFlow(courses: seq<Course>, chapter: Chapter) returns (call: Option<Call>)
    requires !IsBlank(chapter.title)
    ensures chapter.id != 0 ==> call == Some(UpdateChapter(chapter.id, ChapterEditForm(chapter)))
    ensures chapter.id == 0 ==> call.None?
  {
    var m := new CourseManager(Some(courses), Missing, Missing, Missing);
    m.OnOpenEditChapter(chapter);
    assert m.editingChapterId == Some(chapter.id) && !IsSet(m.courseContextId);
    assert !IsBlank(m.chapterForm.title);
    call := m.SubmitChapter();
  }

  /** Confirming a requested deletion deletes that entity and nothing else. */
  method DeleteFlow(kind: DeleteKind, id: int, name: string) returns (call: Option<Call>)
    ensures call == Some(DeleteCall(DeleteTarget(kind, id, DeleteLabel(kind, name))))
    ensures RequestFor(call.value).path == EntityPath(Collection(kind), id)
  {
    var m := new CourseManager(None, Missing, Missing, Missing);
    m.OnRequestDelete(kind, id, name);
    call := m.ConfirmDelete();
  }
}
