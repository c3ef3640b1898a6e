/**
 * The pure projection the course screen computes from the course tree and
 * the three route ids: which ids are usable, which course, chapter and
 * section they select, which list is shown, where "back" leads, the route
 * paths, the lesson total of a course and the order a new chapter or lesson
 * is given.
 */
module CourseTree {
  import opened Base
  import opened Text
  import opened Types

  /** A route id as the page hands it over: absent (null or undefined), an integer, or some other number. */
  datatype RouteId = Missing | IntVal(n: int) | NonInteger

  /** `toNullableId`: only a positive integer survives. */
  function ToNullableId(v: RouteId): (r: Option<int>)
    ensures r.Some? <==> v.IntVal? && v.n > 0
    ensures r.Some? ==> r.value == v.n
  {
    if v.IntVal? && v.n > 0 then Some(v.n) else None
  }

  /** Index `i` holds the first element of `xs` that satisfies `p`. */
  predicate FirstMatchAt<T>(xs: seq<T>, p: T -> bool, i: int) {
    0 <= i < |xs| && p(xs[i]) && forall j :: 0 <= j < i ==> !p(xs[j])
  }

  /** `xs.find(p) ?? null`: the first element that satisfies `p`, if any. */
  function Find<T>(xs: seq<T>, p: T -> bool): (r: Option<T>)
    ensures r.None? <==> forall i :: 0 <= i < |xs| ==> !p(xs[i])
    ensures r.Some? ==> exists i :: FirstMatchAt(xs, p, i) && xs[i] == r.value
  {
    if xs == [] then None
    else if p(xs[0]) then (assert FirstMatchAt(xs, p, 0); Some(xs[0]))
    else
      var r := Find(xs[1..], p);
      assert r.Some? ==> exists i :: FirstMatchAt(xs[1..], p, i) && xs[1..][i] == r.value;
      assert forall i :: FirstMatchAt(xs[1..], p, i) ==> FirstMatchAt(xs, p, i + 1);
      r
  }

  /** `findCourse`: the first course whose id is the key; nothing for a null key. */
  function FindCourse(courses: seq<Course>, courseId: Option<int>): (r: Option<Course>)
    ensures r.Some? ==> courseId == Some(r.value.id) && r.value in courses
    ensures r.None? <==> courseId.None? || forall i :: 0 <= i < |courses| ==> courses[i].id != courseId.value
    ensures r.Some? ==> exists i :: 0 <= i < |courses| && courses[i] == r.value
                                   && forall j :: 0 <= j < i ==> courses[j].id != r.value.id
  {
    Find(courses, (c: Course) => courseId == Some(c.id))
  }

  /** `findChapter`: the first chapter of the course with that id; nothing without a course. */
  function FindChapter(course: Option<Course>, chapterId: Option<int>): (r: Option<Chapter>)
    ensures r.Some? ==> course.Some? && chapterId == Some(r.value.id) && r.value in course.value.chapters
    ensures r.None? <==> course.None? || chapterId.None?
                         || forall i :: 0 <= i < |course.value.chapters| ==> course.value.chapters[i].id != chapterId.value
    ensures r.Some? ==> exists i :: 0 <= i < |course.value.chapters| && course.value.chapters[i] == r.value
                                   && forall j :: 0 <= j < i ==> course.value.chapters[j].id != r.value.id
  {
    if course.None? then None else Find(course.value.chapters, (ch: Chapter) => chapterId == Some(ch.id))
  }

  /** `findSection`: the first section of the chapter with that id; nothing without a chapter. */
  function FindSection(chapter: Option<Chapter>, sectionId: Option<int>): (r: Option<Section>)
    ensures r.Some? ==> chapter.Some? && sectionId == Some(r.value.id) && r.value in chapter.value.sections
    ensures r.None? <==> chapter.None? || sectionId.None?
                         || forall i :: 0 <= i < |chapter.value.sections| ==> chapter.value.sections[i].id != sectionId.value
    ensures r.Some? ==> exists i :: 0 <= i < |chapter.value.sections| && chapter.value.sections[i] == r.value
                                   && forall j :: 0 <= j < i ==> chapter.value.sections[j].id != r.value.id
  {
    if chapter.None? then None else Find(chapter.value.sections, (s: Section) => sectionId == Some(s.id))
  }

  // ---------------------------------------------------------------- lesson count

  /** The inner `reduce`: adds the lesson count of each section to the accumulator, left to right. */
  function SumSectionLessons(acc: int, sections: seq<Section>): int
    decreases |sections|
  {
    if sections == [] then acc else SumSectionLessons(acc + |sections[0].lessons|, sections[1..])
  }

  /** The outer `reduce`: adds each chapter's section total to the accumulator, left to right. */
  function SumChapterLessons(acc: int, chapters: seq<Chapter>): int
    decreases |chapters|
  {
    if chapters == [] then acc
    else SumChapterLessons(acc + SumSectionLessons(0, chapters[0].sections), chapters[1..])
  }

  /** `lessonCountByCourse`. */
  function LessonCountByCourse(course: Course): int {
    SumChapterLessons(0, course.chapters)
  }

  /** Reference definition: every lesson of the sections, in tree order. */
  function SectionLessons(sections: seq<Section>): seq<Lesson> {
    if sections == [] then [] else sections[0].lessons + SectionLessons(sections[1..])
  }

  /** Reference definition: every lesson of the chapters, in tree order. */
  function ChapterLessons(chapters: seq<Chapter>): seq<Lesson> {
    if chapters == [] then [] else SectionLessons(chapters[0].sections) + ChapterLessons(chapters[1..])
  }

  /** Every lesson of the course, chapter by chapter and section by section. */
  function AllLessons(course: Course): seq<Lesson> {
    ChapterLessons(course.chapters)
  }

  lemma {:induction false} SumSectionLessonsIsTotal(acc: int, sections: seq<Section>)
    ensures SumSectionLessons(acc, sections) == acc + |SectionLessons(sections)|
    decreases |sections|
  {
    if sections != [] {
      SumSectionLessonsIsTotal(acc + |sections[0].lessons|, sections[1..]);
    }
  }

  lemma {:induction false} SumChapterLessonsIsTotal(acc: int, chapters: seq<Chapter>)
    ensures SumChapterLessons(acc, chapters) == acc + |ChapterLessons(chapters)|
    decreases |chapters|
  {
    if chapters != [] {
      SumSectionLessonsIsTotal(0, chapters[0].sections);
      SumChapterLessonsIsTotal(acc + SumSectionLessons(0, chapters[0].sections), chapters[1..]);
    }
  }

  /** The count the course card shows is the number of lessons in the whole course; 0 without chapters. */
  lemma LessonCountIsTotal(course: Course)
    ensures LessonCountByCourse(course) == |AllLessons(course)|
    ensures course.chapters == [] ==> LessonCountByCourse(course) == 0
  {
    SumChapterLessonsIsTotal(0, course.chapters);
  }

  /** The reference list holds exactly the lessons of the sections. */
  lemma {:induction false} SectionLessonsMembers(sections: seq<Section>, l: Lesson)
    ensures l in SectionLessons(sections) <==> exists k :: 0 <= k < |sections| && l in sections[k].lessons
  {
    if sections != [] {
      SectionLessonsMembers(sections[1..], l);
      assert forall k :: 1 <= k < |sections| ==> sections[k] == sections[1..][k - 1];
    }
  }

  /** The reference list holds exactly the lessons found in some section of some chapter. */
  lemma {:induction false} ChapterLessonsMembers(chapters: seq<Chapter>, l: Lesson)
    ensures l in ChapterLessons(chapters) <==>
            exists j :: 0 <= j < |chapters| && l in SectionLessons(chapters[j].sections)
  {
    if chapters != [] {
      ChapterLessonsMembers(chapters[1..], l);
      assert forall j :: 1 <= j < |chapters| ==> chapters[j] == chapters[1..][j - 1];
    }
  }

  // ---------------------------------------------------------------- view mode

  predicate ShowCourses(courseId: Option<int>) {
    courseId.None?
  }

  predicate ShowChapters(courseId: Option<int>, chapterId: Option<int>) {
    courseId.Some? && chapterId.None?
  }

  predicate ShowSections(courseId: Option<int>, chapterId: Option<int>, sectionId: Option<int>) {
    courseId.Some? && chapterId.Some? && sectionId.None?
  }

  predicate ShowLessons(courseId: Option<int>, chapterId: Option<int>, sectionId: Option<int>) {
    courseId.Some? && chapterId.Some? && sectionId.Some?
  }

  function Count(b: bool): nat {
    if b then 1 else 0
  }

  /** Exactly one list is shown for any ids; without a course id it is the course list, whatever the others. */
  lemma ExactlyOneMode(courseId: Option<int>, chapterId: Option<int>, sectionId: Option<int>)
    ensures Count(ShowCourses(courseId)) + Count(ShowChapters(courseId, chapterId))
            + Count(ShowSections(courseId, chapterId, sectionId))
            + Count(ShowLessons(courseId, chapterId, sectionId)) == 1
    ensures courseId.None? ==> ShowCourses(courseId)
  {
  }

  // ---------------------------------------------------------------- paths

  function CoursePath(courseId: int): string {
    "/courses/" + IntToDecimal(courseId)
  }

  /** `/courses/<c>/chapters/<h>`: the course's path followed by the chapter segment. */
  function ChapterPath(courseId: int, chapterId: int): string {
    CoursePath(courseId) + "/chapters/" + IntToDecimal(chapterId)
  }

  /** `/courses/<c>/chapters/<h>/sections/<s>`. */
  function SectionPath(courseId: int, chapterId: int, sectionId: int): string {
    ChapterPath(courseId, chapterId) + "/sections/" + IntToDecimal(sectionId)
  }

  lemma Extends(parent: string, sep: string, id: string)
    requires sep != [] && id != []
    ensures StartsWith(parent + sep + id, parent) && |parent| < |parent + sep + id|
  {
    assert (parent + sep + id)[..|parent|] == parent;
  }

  /** Each deeper path extends the path of its parent. */
  lemma PathPrefixes(courseId: int, chapterId: int, sectionId: int)
    ensures StartsWith(CoursePath(courseId), "/courses")
    ensures StartsWith(ChapterPath(courseId, chapterId), CoursePath(courseId))
    ensures |CoursePath(courseId)| < |ChapterPath(courseId, chapterId)|
    ensures StartsWith(SectionPath(courseId, chapterId, sectionId), ChapterPath(courseId, chapterId))
    ensures |ChapterPath(courseId, chapterId)| < |SectionPath(courseId, chapterId, sectionId)|
  {
    var c := IntToDecimal(courseId);
    assert CoursePath(courseId)[..8] == "/courses/"[..8] == "/courses";
    Extends(CoursePath(courseId), "/chapters/", IntToDecimal(chapterId));
    Extends(ChapterPath(courseId, chapterId), "/sections/", IntToDecimal(sectionId));
  }

  lemma NoSlashInDecimal(n: int)
    ensures forall i :: 0 <= i < |IntToDecimal(n)| ==> IntToDecimal(n)[i] != '/'
  {
    IntToDecimalChars(n);
  }

  /** Distinct course ids give distinct course paths. */
  lemma CoursePathInjective(c: int, c': int)
    requires CoursePath(c) == CoursePath(c')
    ensures c == c'
  {
    assert IntToDecimal(c) == CoursePath(c)[9..] == IntToDecimal(c');
    IntToDecimalInjective(c, c');
  }

  /** `parent + sep + <id>`, with `sep` ending in a slash, splits back into `parent` and the id. */
  lemma SplitBeforeId(parent: string, sep: string, a: int, parent': string, a': int)
    requires sep != [] && sep[|sep| - 1] == '/'
    requires parent + sep + IntToDecimal(a) == parent' + sep + IntToDecimal(a')
    ensures parent == parent' && a == a'
  {
    NoSlashInDecimal(a);
    NoSlashInDecimal(a');
    SplitAtLastSeparator(parent, IntToDecimal(a), parent', IntToDecimal(a'), sep);
    IntToDecimalInjective(a, a');
  }

  /** Distinct (course, chapter) pairs give distinct chapter paths. */
  lemma ChapterPathInjective(c: int, h: int, c': int, h': int)
    requires ChapterPath(c, h) == ChapterPath(c', h')
    ensures c == c' && h == h'
  {
    SplitBeforeId(CoursePath(c), "/chapters/", h, CoursePath(c'), h');
    CoursePathInjective(c, c');
  }

  /** Distinct (course, chapter, section) triples give distinct section paths. */
  lemma SectionPathInjective(c: int, h: int, s: int, c': int, h': int, s': int)
    requires SectionPath(c, h, s) == SectionPath(c', h', s')
    ensures c == c' && h == h' && s == s'
  {
    SplitBeforeId(ChapterPath(c, h), "/sections/", s, ChapterPath(c', h'), s');
    ChapterPathInjective(c, h, c', h');
  }

  // ---------------------------------------------------------------- projection

  /** What the course screen derives from the tree and the route ids. */
  datatype View = View(
    courseId: Option<int>,
    chapterId: Option<int>,
    sectionId: Option<int>,
    course: Option<Course>,
    chapter: Option<Chapter>,
    section: Option<Section>)

  /** The sanitised ids and the entities they select, each looked up inside its parent. */
  function Project(courses: seq<Course>, routeCourse: RouteId, routeChapter: RouteId, routeSection: RouteId): (v: View)
    ensures v.course.Some? ==> v.courseId == Some(v.course.value.id) && v.course.value in courses
    ensures v.chapter.Some? ==> v.course.Some? && v.chapterId == Some(v.chapter.value.id)
                                && v.chapter.value in v.course.value.chapters
    ensures v.section.Some? ==> v.chapter.Some? && v.sectionId == Some(v.section.value.id)
                                && v.section.value in v.chapter.value.sections
  {
    var courseId := ToNullableId(routeCourse);
    var chapterId := ToNullableId(routeChapter);
    var sectionId := ToNullableId(routeSection);
    var course := FindCourse(courses, courseId);
    var chapter := FindChapter(course, chapterId);
    View(courseId, chapterId, sectionId, course, chapter, FindSection(chapter, sectionId))
  }

  /** `backPath`: one level up from the chapter, section or lesson list, when that level was found. */
  function BackPath(v: View): (r: Option<string>)
    ensures ShowCourses(v.courseId) ==> r.None?
    ensures r.Some? ==> StartsWith(r.value, "/courses")
  {
    if ShowChapters(v.courseId, v.chapterId) then Some("/courses")
    else if ShowSections(v.courseId, v.chapterId, v.sectionId) && v.course.Some? then
      PathPrefixes(v.course.value.id, 0, 0);
      Some(CoursePath(v.course.value.id))
    else if ShowLessons(v.courseId, v.chapterId, v.sectionId) && v.course.Some? && v.chapter.Some? then
      PathPrefixes(v.course.value.id, v.chapter.value.id, 0);
      Some(ChapterPath(v.course.value.id, v.chapter.value.id))
    else None
  }

  /** The route of the screen showing the view: the list's own page. */
  function CurrentPath(v: View): Option<string> {
    if ShowCourses(v.courseId) then Some("/courses")
    else if ShowChapters(v.courseId, v.chapterId) then Some(CoursePath(v.courseId.value))
    else if ShowSections(v.courseId, v.chapterId, v.sectionId) then Some(ChapterPath(v.courseId.value, v.chapterId.value))
    else Some(SectionPath(v.courseId.value, v.chapterId.value, v.sectionId.value))
  }

  /**
   * "Back" from a projected view leads exactly one level up: to the course
   * list from a course, to the course from a chapter, to the chapter from a
   * section; and it is offered in those last two cases exactly when the
   * route's course (and chapter) exist in the tree.
   */
  lemma BackPathIsParent(courses: seq<Course>, routeCourse: RouteId, routeChapter: RouteId, routeSection: RouteId)
    ensures var v := Project(courses, routeCourse, routeChapter, routeSection);
            && (ShowChapters(v.courseId, v.chapterId) ==> BackPath(v) == Some("/courses"))
            && (ShowSections(v.courseId, v.chapterId, v.sectionId) ==>
                  BackPath(v) == (if v.course.Some? then Some(CoursePath(v.courseId.value)) else None))
            && (ShowLessons(v.courseId, v.chapterId, v.sectionId) ==>
                  BackPath(v) == (if v.chapter.Some? then Some(ChapterPath(v.courseId.value, v.chapterId.value)) else None))
            && (BackPath(v).Some? ==> StartsWith(CurrentPath(v).value, BackPath(v).value)
                                      && |BackPath(v).value| < |CurrentPath(v).value|)
  {
    var v := Project(courses, routeCourse, routeChapter, routeSection);
    if v.courseId.Some? {
      PathPrefixes(v.courseId.value, if v.chapterId.Some? then v.chapterId.value else 0,
                   if v.sectionId.Some? then v.sectionId.value else 0);
    }
  }

  // ---------------------------------------------------------------- next order

  /** `orders.reduce((max, o) => Math.max(max, o), acc)`. */
  function MaxFrom(acc: int, orders: seq<int>): (m: int)
    ensures m >= acc
    ensures forall i :: 0 <= i < |orders| ==> orders[i] <= m
    ensures m == acc || exists i :: 0 <= i < |orders| && orders[i] == m
    decreases |orders|
  {
    if orders == [] then acc
    else
      var m := MaxFrom(if orders[0] > acc then orders[0] else acc, orders[1..]);
      assert forall i :: 1 <= i < |orders| ==> orders[i] == orders[1..][i - 1];
      m
  }

  function ChapterOrders(chapters: seq<Chapter>): (r: seq<int>)
    ensures |r| == |chapters| && forall i :: 0 <= i < |chapters| ==> r[i] == chapters[i].chapterOrder
  {
    seq(|chapters|, i requires 0 <= i < |chapters| => chapters[i].chapterOrder)
  }

  function LessonOrders(lessons: seq<Lesson>): (r: seq<int>)
    ensures |r| == |lessons| && forall i :: 0 <= i < |lessons| ==> r[i] == lessons[i].lessonOrder
  {
    seq(|lessons|, i requires 0 <= i < |lessons| => lessons[i].lessonOrder)
  }

  /**
   * `getNextChapterOrder`: one more than the largest chapter order of the
   * course (taking 0 as the floor), so 1 for a missing course or an empty one.
   */
  function NextChapterOrder(courses: seq<Course>, courseId: int): (r: int)
    ensures r >= 1
    ensures var c := FindCourse(courses, Some(courseId));
            && (c.None? || c.value.chapters == [] ==> r == 1)
            && (c.Some? ==> forall i :: 0 <= i < |c.value.chapters| ==> c.value.chapters[i].chapterOrder < r)
            && (r == 1 || (c.Some? && exists i :: 0 <= i < |c.value.chapters| && c.value.chapters[i].chapterOrder == r - 1))
  {
    var course := FindCourse(courses, Some(courseId));
    var maxOrder := if course.None? then 0 else MaxFrom(0, ChapterOrders(course.value.chapters));
    maxOrder + 1
  }

  /** One more than the largest lesson order of the section (floor 0), and 1 when there is no section. */
  function NextOrderIn(section: Option<Section>): (r: int)
    ensures r >= 1
    ensures section.None? || section.value.lessons == [] ==> r == 1
    ensures section.Some? ==> forall i :: 0 <= i < |section.value.lessons| ==> section.value.lessons[i].lessonOrder < r
    ensures r == 1 || (section.Some? && exists i :: 0 <= i < |section.value.lessons| && section.value.lessons[i].lessonOrder == r - 1)
  {
    var maxOrder := if section.None? then 0 else MaxFrom(0, LessonOrders(section.value.lessons));
    maxOrder + 1
  }

  /** Some chapter of the course holds a section with this id. */
  predicate HasSection(course: Course, sectionId: int) {
    exists j, k :: 0 <= j < |course.chapters| && 0 <= k < |course.chapters[j].sections|
                   && course.chapters[j].sections[k].id == sectionId
  }

  /** The predicate `item.id === sectionId` handed to `find`. */
  function SectionIdIs(sectionId: int): Section -> bool {
    (s: Section) => s.id == sectionId
  }

  /** The inner loop: the section found in the first chapter that has one with this id. */
  function SectionInChapters(chapters: seq<Chapter>, sectionId: int): (r: Option<Section>)
    ensures r.Some? ==> r.value.id == sectionId
    ensures r.None? <==> forall j, k :: 0 <= j < |chapters| && 0 <= k < |chapters[j].sections|
                                      ==> chapters[j].sections[k].id != sectionId
  {
    if chapters == [] then None
    else
      var found := Find(chapters[0].sections, SectionIdIs(sectionId));
      if found.Some? then found
      else
        var r := SectionInChapters(chapters[1..], sectionId);
        assert forall j :: 1 <= j < |chapters| ==> chapters[j] == chapters[1..][j - 1];
        r
  }

  /**
   * The outer loop: every course is searched and a later match replaces an
   * earlier one, so the section comes from the LAST course that has one.
   */
  function LocateSection(courses: seq<Course>, sectionId: int): (r: Option<Section>)
    ensures r.Some? ==> r.value.id == sectionId
    ensures r.None? <==> forall i :: 0 <= i < |courses| ==> !HasSection(courses[i], sectionId)
  {
    if courses == [] then None
    else
      var last := SectionInChapters(courses[|courses| - 1].chapters, sectionId);
      if last.Some? then last else LocateSection(courses[..|courses| - 1], sectionId)
  }

  /** The specification of `getNextLessonOrder`. */
  function NextLessonOrderSpec(courses: seq<Course>, sectionId: int): int {
    NextOrderIn(LocateSection(courses, sectionId))
  }

  /** The course that supplies the section is the last one that has it; earlier matches are overridden. */
  lemma {:induction false} LaterCourseWins(courses: seq<Course>, sectionId: int, i: int)
    requires 0 <= i < |courses| && HasSection(courses[i], sectionId)
    requires forall k :: i < k < |courses| ==> !HasSection(courses[k], sectionId)
    ensures LocateSection(courses, sectionId) == SectionInChapters(courses[i].chapters, sectionId)
    decreases |courses|
  {
    if i < |courses| - 1 {
      LaterCourseWins(courses[..|courses| - 1], sectionId, i);
    }
  }

  /** The next lesson order exceeds every lesson order of the located section, and is 1 when no section has the id. */
  lemma NextLessonOrderBounds(courses: seq<Course>, sectionId: int)
    ensures NextLessonOrderSpec(courses, sectionId) >= 1
    ensures (forall i :: 0 <= i < |courses| ==> !HasSection(courses[i], sectionId))
            ==> NextLessonOrderSpec(courses, sectionId) == 1
    ensures var s := LocateSection(courses, sectionId);
            s.Some? ==> s.value.id == sectionId
                        && forall l :: l in s.value.lessons ==> l.lessonOrder < NextLessonOrderSpec(courses, sectionId)
  {
  }
}
