/**
 * The entities of the content tree (Course -> Chapter -> Section -> Lesson),
 * the user account, and the request payloads the forms build. Values that may
 * be `null` or missing are `Option`s; the form payloads keep `string` where
 * every form in the console fills the field in, and `Option<int>` for the
 * order fields, which the submit guards test with `??`.
 */
module Types {
  import opened Base

  datatype SectionType = Vocabulary | Grammar | Kanji

  /** The wire name of a section type. */
  function SectionTypeName(t: SectionType): string {
    match t
    case Vocabulary => "VOCABULARY"
    case Grammar => "GRAMMAR"
    case Kanji => "KANJI"
  }

  /** The section statuses the section screen offers. */
  datatype SectionStatus = Active | Draft | UnderDevelopment

  datatype Lesson = Lesson(
    id: int,
    sectionId: int,
    title: string,
    videoUrl: Option<string>,
    pdfUrl: Option<string>,
    lessonOrder: int)

  /**
   * A section. `level`, `topic` and `status` are the fields the section
   * screen reads; the shared type declaration does not list them.
   */
  datatype Section = Section(
    id: int,
    chapterId: int,
    sectionType: SectionType,
    title: string,
    sectionOrder: int,
    lessons: seq<Lesson>,
    level: Option<string>,
    topic: Option<string>,
    status: SectionStatus)

  datatype Chapter = Chapter(
    id: int,
    courseId: int,
    title: string,
    description: Option<string>,
    chapterOrder: int,
    sections: seq<Section>)

  datatype Course = Course(
    id: int,
    thumbnailUrl: Option<string>,
    name: string,
    description: Option<string>,
    createdAt: string,
    updatedAt: string,
    chapters: seq<Chapter>)

  datatype CourseRequest = CourseRequest(thumbnailUrl: string, name: string, description: string)

  datatype ChapterRequest = ChapterRequest(title: string, description: string, chapterOrder: Option<int>)

  /** The section payload as the section screen builds it. */
  datatype SectionRequest = SectionRequest(
    sectionType: SectionType,
    title: string,
    level: string,
    topic: string,
    status: SectionStatus,
    sectionOrder: Option<int>)

  datatype LessonRequest = LessonRequest(title: string, videoUrl: string, pdfUrl: string, lessonOrder: Option<int>)

  datatype AdminLoginRequest = AdminLoginRequest(username: string, password: string)

  datatype Role = UserRole | AdminRole

  datatype UserAccount = UserAccount(
    id: int,
    username: string,
    email: string,
    role: Role,
    createdAt: string,
    updatedAt: string)

  datatype CreateUserRequest = CreateUserRequest(username: string, email: string, password: string, role: Option<Role>)
}
