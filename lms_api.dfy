/**
 * The backend endpoints, each as the request it hands to `apiRequest`:
 * method, path, whether it needs authentication, and the JSON payload.
 * `JSON.stringify` is not modelled: the body is the payload value itself.
 */
module LmsApi {
  import opened Base
  import opened Text
  import opened Types
  import opened ApiClient

  /** The body a request serialises. */
  datatype Payload =
    | LoginPayload(login: AdminLoginRequest)
    | CoursePayload(course: CourseRequest)
    | ChapterPayload(chapter: ChapterRequest)
    | SectionPayload(section: SectionRequest)
    | LessonPayload(lesson: LessonRequest)

  /** One call of an exported endpoint function, with its arguments. */
  datatype Call =
    | LoginAdmin(login: AdminLoginRequest)
    | GetCourses(tree: Option<bool>)
    | CreateCourse(course: CourseRequest)
    | UpdateCourse(id: int, course: CourseRequest)
    | DeleteCourse(id: int)
    | GetChapters
    | CreateChapter(courseId: int, chapter: ChapterRequest)
    | UpdateChapter(id: int, chapter: ChapterRequest)
    | DeleteChapter(id: int)
    | GetSections(sectionType: Option<SectionType>)
    | CreateSection(chapterId: int, section: SectionRequest)
    | UpdateSection(id: int, section: SectionRequest)
    | DeleteSection(id: int)
    | GetLessons
    | CreateLesson(sectionId: int, lesson: LessonRequest)
    | UpdateLesson(id: int, lesson: LessonRequest)
    | DeleteLesson(id: int)

  const Api := "/api/v1"

  /** `<collection>/<id>`: where one stored entity lives below the API root. */
  function EntityTail(collection: string, id: int): string {
    collection + "/" + IntToDecimal(id)
  }

  /** `/api/v1/<collection>/<id>`: the path of one stored entity. */
  function EntityPath(collection: string, id: int): string {
    Api + "/" + EntityTail(collection, id)
  }

  function BoolText(b: bool): string {
    if b then "true" else "false"
  }

  /** The path of each endpoint below `/api/v1/`. */
  function Endpoint(call: Call): string {
    match call
    case LoginAdmin(_) => "auth/authenticate"
    case GetCourses(tree) => "courses?tree=" + BoolText(tree.GetOr(true))
    case CreateCourse(_) => "courses"
    case UpdateCourse(id, _) => EntityTail("courses", id)
    case DeleteCourse(id) => EntityTail("courses", id)
    case GetChapters => "chapters"
    case CreateChapter(courseId, _) => EntityTail("courses", courseId) + "/" + "chapters"
    case UpdateChapter(id, _) => EntityTail("chapters", id)
    case DeleteChapter(id) => EntityTail("chapters", id)
    case GetSections(t) => "sections" + (if t.Some? then "?type=" + SectionTypeName(t.value) else "")
    case CreateSection(chapterId, _) => EntityTail("chapters", chapterId) + "/" + "sections"
    case UpdateSection(id, _) => EntityTail("sections", id)
    case DeleteSection(id) => EntityTail("sections", id)
    case GetLessons => "lessons"
    case CreateLesson(sectionId, _) => EntityTail("sections", sectionId) + "/" + "lessons"
    case UpdateLesson(id, _) => EntityTail("lessons", id)
    case DeleteLesson(id) => EntityTail("lessons", id)
  }

  /** The HTTP method of each endpoint; `apiRequest` itself defaults to GET. */
  function MethodOf(call: Call): Method {
    match call
    case LoginAdmin(_) => Post
    case CreateCourse(_) => Post
    case CreateChapter(_, _) => Post
    case CreateSection(_, _) => Post
    case CreateLesson(_, _) => Post
    case UpdateCourse(_, _) => Put
    case UpdateChapter(_, _) => Put
    case UpdateSection(_, _) => Put
    case UpdateLesson(_, _) => Put
    case DeleteCourse(_) => Delete
    case DeleteChapter(_) => Delete
    case DeleteSection(_) => Delete
    case DeleteLesson(_) => Delete
    case _ => Get
  }

  /** The payload a call carries, if it carries one. */
  function PayloadOf(call: Call): Option<Payload> {
    match call
    case LoginAdmin(p) => Some(LoginPayload(p))
    case CreateCourse(p) => Some(CoursePayload(p))
    case UpdateCourse(_, p) => Some(CoursePayload(p))
    case CreateChapter(_, p) => Some(ChapterPayload(p))
    case UpdateChapter(_, p) => Some(ChapterPayload(p))
    case CreateSection(_, p) => Some(SectionPayload(p))
    case UpdateSection(_, p) => Some(SectionPayload(p))
    case CreateLesson(_, p) => Some(LessonPayload(p))
    case UpdateLesson(_, p) => Some(LessonPayload(p))
    case _ => None
  }

  /**
   * The request each endpoint function makes: every one but the login is
   * authenticated and none adds headers of its own.
   */
  function RequestFor(call: Call): (r: Request<Payload>)
    ensures r.path == Api + "/" + Endpoint(call)
    ensures r.authRequired <==> !call.LoginAdmin?
    ensures r.init.httpMethod == MethodOf(call) && r.init.body == PayloadOf(call) && r.init.headers == map[]
  {
    Request(Api + "/" + Endpoint(call), RequestInit(MethodOf(call), map[], PayloadOf(call)), !call.LoginAdmin?)
  }

  /** A body is sent exactly with POST and PUT: reads and deletes carry none. */
  lemma BodyOnlyWhenWriting(call: Call)
    ensures RequestFor(call).init.body.Some? <==> RequestFor(call).init.httpMethod in {Post, Put}
  {
  }

  lemma ChildPath(parent: string, child: string)
    ensures StartsWith(parent + "/" + child, parent + "/")
  {
    assert (parent + "/" + child)[..|parent + "/"|] == parent + "/";
  }

  /** Every endpoint lies below the versioned API root `/api/v1/`. */
  lemma UnderApiRoot(call: Call)
    ensures StartsWith(RequestFor(call).path, Api + "/")
  {
    ChildPath(Api, Endpoint(call));
  }

  /** A course is updated with PUT and deleted with DELETE at the same path. */
  lemma CourseUpdateAndDeleteShareAPath(id: int, c: CourseRequest)
    ensures RequestFor(UpdateCourse(id, c)).path == RequestFor(DeleteCourse(id)).path == EntityPath("courses", id)
    ensures RequestFor(UpdateCourse(id, c)).init.httpMethod == Put && RequestFor(DeleteCourse(id)).init.httpMethod == Delete
  {
  }

  /** The URL of a path under the API root starts with the base URL and the API root. */
  lemma ChildUrl(configuredBase: Option<string>, endpoint: string)
    ensures Url(configuredBase, Api + "/" + endpoint) == configuredBase.GetOr(DefaultBaseUrl) + Api + "/" + endpoint
    ensures StartsWith(Url(configuredBase, Api + "/" + endpoint), configuredBase.GetOr(DefaultBaseUrl) + Api + "/")
  {
    var b, root := configuredBase.GetOr(DefaultBaseUrl), Api + "/";
    assert b + (root + endpoint) == b + root + endpoint;
    assert (b + root + endpoint)[..|b + root|] == b + root;
  }

  /**
   * What `apiRequest` fetches for an endpoint: the base URL (the configured
   * one, or the local default when none is set) followed by `/api/v1/` and
   * the endpoint's path, with the endpoint's method and payload.
   */
  lemma FetchedUnderApiRoot(configuredBase: Option<string>, call: Call)
    ensures var r := RequestFor(call);
            var f := FetchCall(Url(configuredBase, r.path), r.init.httpMethod, r.init.body);
            && f.url == configuredBase.GetOr(DefaultBaseUrl) + Api + "/" + Endpoint(call)
            && StartsWith(f.url, configuredBase.GetOr(DefaultBaseUrl) + Api + "/")
            && f.httpMethod == MethodOf(call) && f.body == PayloadOf(call)
  {
    ChildUrl(configuredBase, Endpoint(call));
  }

  /** A chapter is updated with PUT and deleted with DELETE at the same path. */
  lemma ChapterUpdateAndDeleteShareAPath(id: int, h: ChapterRequest)
    ensures RequestFor(UpdateChapter(id, h)).path == RequestFor(DeleteChapter(id)).path == EntityPath("chapters", id)
    ensures RequestFor(UpdateChapter(id, h)).init.httpMethod == Put && RequestFor(DeleteChapter(id)).init.httpMethod == Delete
  {
  }

  /** A section is updated with PUT and deleted with DELETE at the same path. */
  lemma SectionUpdateAndDeleteShareAPath(id: int, s: SectionRequest)
    ensures RequestFor(UpdateSection(id, s)).path == RequestFor(DeleteSection(id)).path == EntityPath("sections", id)
    ensures RequestFor(UpdateSection(id, s)).init.httpMethod == Put && RequestFor(DeleteSection(id)).init.httpMethod == Delete
  {
  }

  /** A lesson is updated with PUT and deleted with DELETE at the same path. */
  lemma LessonUpdateAndDeleteShareAPath(id: int, l: LessonRequest)
    ensures RequestFor(UpdateLesson(id, l)).path == RequestFor(DeleteLesson(id)).path == EntityPath("lessons", id)
    ensures RequestFor(UpdateLesson(id, l)).init.httpMethod == Put && RequestFor(DeleteLesson(id)).init.httpMethod == Delete
  {
  }

  /** A child path `<parent path>/<child collection>`, whatever the grouping of its parts. */
  lemma NestedPath(collection: string, id: int, child: string)
    ensures Api + "/" + (EntityTail(collection, id) + "/" + child) == EntityPath(collection, id) + "/" + child
    ensures StartsWith(Api + "/" + (EntityTail(collection, id) + "/" + child), EntityPath(collection, id) + "/")
  {
    Regroup(Api + "/", EntityTail(collection, id), "/", child);
    ChildPath(EntityPath(collection, id), child);
  }

  lemma Regroup(a: string, b: string, c: string, d: string)
    ensures a + (b + c + d) == a + b + c + d
  {
  }

  /** A chapter is created by a POST below its course's own path. */
  lemma ChapterCreatedUnderCourse(courseId: int, h: ChapterRequest)
    ensures RequestFor(CreateChapter(courseId, h)).init.httpMethod == Post
    ensures StartsWith(RequestFor(CreateChapter(courseId, h)).path, RequestFor(DeleteCourse(courseId)).path + "/")
  {
    NestedPath("courses", courseId, "chapters");
  }

  /** A section is created by a POST below its chapter's own path. */
  lemma SectionCreatedUnderChapter(chapterId: int, s: SectionRequest)
    ensures RequestFor(CreateSection(chapterId, s)).init.httpMethod == Post
    ensures StartsWith(RequestFor(CreateSection(chapterId, s)).path, RequestFor(DeleteChapter(chapterId)).path + "/")
  {
    NestedPath("chapters", chapterId, "sections");
  }

  /** A lesson is created by a POST below its section's own path. */
  lemma LessonCreatedUnderSection(sectionId: int, l: LessonRequest)
    ensures RequestFor(CreateLesson(sectionId, l)).init.httpMethod == Post
    ensures StartsWith(RequestFor(CreateLesson(sectionId, l)).path, RequestFor(DeleteSection(sectionId)).path + "/")
  {
    NestedPath("sections", sectionId, "lessons");
  }

  /** `getCourses()` asks for the tree: the default argument is `true`. */
  lemma CoursesDefaultToTree()
    ensures RequestFor(GetCourses(None)) == RequestFor(GetCourses(Some(true)))
    ensures RequestFor(GetCourses(None)).path == Api + "/" + "courses?tree=" + "true"
    ensures RequestFor(GetCourses(Some(false))).path == Api + "/" + "courses?tree=" + "false"
  {
    assert Api + "/" + ("courses?tree=" + "true") == Api + "/" + "courses?tree=" + "true";
    assert Api + "/" + ("courses?tree=" + "false") == Api + "/" + "courses?tree=" + "false";
  }

  /** `getSections()` has no query string; `getSections(T)` asks for `?type=T`. */
  lemma SectionsQuery(t: SectionType)
    ensures RequestFor(GetSections(None)).path == Api + "/" + "sections"
    ensures RequestFor(GetSections(Some(t))).path == Api + "/" + "sections" + "?type=" + SectionTypeName(t)
  {
    assert "sections" + "" == "sections";
    var name := SectionTypeName(t);
    assert Api + "/" + ("sections" + ("?type=" + name)) == Api + "/" + "sections" + "?type=" + name;
  }
}
