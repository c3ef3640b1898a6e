# Nihongo LMS admin console — a Dafny model

The admin console is a Next.js front end for a Japanese-learning LMS. It
manages a content tree, Course → Chapter → Section → Lesson, and user
accounts, through a REST backend under `/api/v1`. This project models the
rules the console itself implements:

- **the course tree screen** (`course-manager.tsx`):
  - route-id sanitising;
  - lookup of the selected course, chapter and section;
  - the choice of exactly one list to show;
  - the route paths and the "back" path;
  - the lesson count of a course;
  - the next free chapter and lesson order (including the nested search
    loop, which is a verified `method`);
  - the three dialogs and the delete confirmation, as a `class` whose
    fields are the screen's `useState` variables;
- **the chapter, section, lesson and user screens**: each is a `class`
  holding the dialog state, with its handlers, its submit guard, the keys
  each success invalidates, and the `#<id>` fallback of its parent column;
- **`apiRequest`**: header construction (the `Headers` object is mutated
  in place), response classification into data or a `RequestError`, and
  the clearing of the stored token;
- **every endpoint of `lms-api.ts`**, as the request it hands to
  `apiRequest`: method, path, authentication flag and payload;
- **the small pure helpers**: the query-cache keys, the boolean
  environment switch, and the sidebar's active-link rule.

The JavaScript primitives the rules rest on are written out in `Text`:
- `trim()`, with the ECMAScript WhiteSpace and LineTerminator set;
- `toLowerCase()`;
- `startsWith`;
- `${n}` for an integer, with a proof that it can be read back.

Elsewhere, `??` is `Option.GetOr`, `Array.find` returns the first match,
`reduce` is a left fold, and `new Map(entries)` lets a later entry win.

Where the code differs from what one might read into the screens'
descriptions, the model follows the code:

- A 401 clears the stored token only when the call required
  authentication (`api-client.ts:40`). A 401 from the login call leaves the
  token alone.
- Each screen invalidates its own set of keys. The course screen
  invalidates all seven content keys. The chapter screen invalidates
  chapters and courses. The section screen invalidates its own type's
  sections, the untyped sections and courses. The lesson screen
  invalidates lessons, courses and the untyped sections. The user screen
  invalidates users only.
- The standalone chapter, section and lesson screens send the order typed
  into the form, 0 by default. Only the course screen computes the next
  free order. The course screen's dialogs have no order field, so the
  computed order is always the one sent.
- Ids are tested for JavaScript truthiness. On the course screen, a chapter
  or lesson being edited whose id is 0 is not treated as being edited
  (`CourseManagement.EditChapterFlow` shows that nothing is sent). On the
  standalone screens, a picked parent id of 0 blocks creation.
- The section screen reads and writes `level`, `topic` and `status` on
  sections. The shared type declarations (`src/lib/types.ts:19-26`,
  `59-62`) do not list them. The model's `Section` and `SectionRequest`
  follow the section screen.
- `toLowerCase()` is modelled on the ASCII letters only. No other
  character lower-cases to a letter of "1", "true", "yes" or "on", so
  `Env.ReadBooleanEnv` gives the source's answer for every input.

## Model

| member | source | states |
|---|---|---|
| Text.TrimShape | src/components/modules/user-manager.tsx:77-79 | `trim()` returns the infix of the string left once whitespace is removed at both ends: only whitespace surrounds it, and it neither starts nor ends with whitespace |
| Text.BlankIffAllWhitespace | src/components/modules/chapter-manager.tsx:101 | `!s.trim()` holds exactly when every character of `s` is whitespace |
| Text.TrimIdempotent | src/components/modules/user-manager.tsx:70-71 | trimming an already trimmed string changes nothing |
| Text.ToLower | src/lib/env.ts:5 | `toLowerCase()` keeps the length and lowers each character on its own |
| Text.ToLowerIdempotent | src/lib/env.ts:5 | lower-casing twice is lower-casing once |
| Text.NatToDecimal | src/components/modules/course-manager.tsx:94-97 | the decimal text of a natural number is non-empty, all digits, and has no leading zero |
| Text.IntToDecimalChars | src/components/modules/course-manager.tsx:94-97 | `${id}` contains only a minus sign and decimal digits |
| Text.ParseIntDecimal | src/components/modules/course-manager.tsx:94-97 | reading back `${id}` gives `id` (round trip) |
| Text.IntToDecimalInjective | src/components/modules/course-manager.tsx:94-97 | distinct ids render to distinct text |
| QueryKeys.Sections | src/lib/query-keys.ts:4 | `sections(type?)` is `["sections", type]`, and `["sections", "all"]` without a type |
| QueryKeys.SectionsOf | src/lib/query-keys.ts:4 | the key of one section type carries its wire name and differs from the untyped key |
| QueryKeys.SectionsAllIsDefault | src/lib/query-keys.ts:4 | `sections("all")` and `sections()` are the same key |
| QueryKeys.SectionsInjective | src/lib/query-keys.ts:4 | equal section keys come from the same type, where "all" and no type count as the same |
| QueryKeys.KeysDistinct | src/lib/query-keys.ts:2-6 | courses, chapters, lessons and users are four distinct keys, and no sections key equals any of them |
| Env.ReadBooleanEnv | src/lib/env.ts:1-6 | absent or empty is false; otherwise true exactly when the lower-cased value is one of "1", "true", "yes", "on" |
| Env.CaseInsensitive | src/lib/env.ts:5 | the answer ignores case |
| Env.TrueMeansNoWhitespace | src/lib/env.ts:1-5 | a value read as true has 1 to 4 characters and no whitespace, because nothing is trimmed |
| Env.Examples | src/lib/env.ts:3-6 | "TRUE", "On" and "1" are true; " true", "true ", "0", "false" and an absent value are false |
| AdminSidebar.ActiveFlags | src/components/layout/admin-sidebar.tsx:48-49 | a link is highlighted exactly when the pathname starts with its target |
| AdminSidebar.SecondCharactersDistinct | src/components/layout/admin-sidebar.tsx:18-24 | the five link targets differ in the first character after the slash |
| AdminSidebar.TargetsPrefixFree | src/components/layout/admin-sidebar.tsx:18-24 | no link target is a prefix of another |
| AdminSidebar.AtMostOneActive | src/components/layout/admin-sidebar.tsx:48-49 | at most one link is highlighted, whatever the pathname |
| AdminSidebar.CoursePagesHighlightCourses | src/components/layout/admin-sidebar.tsx:48-49 | every course, chapter and section page of the course tree highlights the Courses link and no other |
| AdminSidebar.OnlyCourses | src/components/layout/admin-sidebar.tsx:49 | any pathname starting with "/courses" highlights Courses alone |
| AdminSidebar.PrefixNotSegment | src/components/layout/admin-sidebar.tsx:49 | the test compares characters, not path segments: "/coursesX" highlights Courses, and "/" highlights nothing |
| ApiClient.Url | src/lib/api-client.ts:31 | the URL fetched is the configured base URL, or "http://localhost:8080" when none is set (line 4), followed by the path |
| ApiClient.EmptyBaseKept | src/lib/api-client.ts:4 | the base is chosen with `??`: a configured empty base is kept (the URL is the bare path), and only an unset base gets the local default |
| ApiClient.ErrorMessage | src/lib/api-client.ts:39 | the error message is the first non-empty one of the body's message, the status text and "Request failed" |
| ApiClient.Classify | src/lib/api-client.ts:38-50 | a non-ok status gives an error carrying that status; an ok status with no body gives ("Invalid empty response", 500); otherwise the result is the body's `data` |
| ApiClient.ClearOnlyOnUnauthorized | src/lib/api-client.ts:40-42 | the token is cleared exactly when an authenticated call fails with 401; a successful call never clears it |
| ApiClient.ErrorsAreInformative | src/lib/api-client.ts:38-48 | every error has a non-empty message, and its status is the response's status, or 500 for an empty ok response |
| ApiClient.OutgoingHeaders | src/lib/api-client.ts:21-29 | the content type is always JSON, overriding the caller's; `authorization` is "Bearer <token>" exactly for an authenticated call with a stored token (section 2.1 of RFC 6750); the caller's other headers pass through unchanged |
| ApiClient.Headers.constructor | src/lib/api-client.ts:21 | `new Headers(init)` holds exactly the caller's headers |
| ApiClient.Headers.Set | src/lib/api-client.ts:22 | `set` stores the value under the lower-cased name, replacing any previous value, and changes no other entry |
| ApiClient.TokenStore.constructor | src/lib/api-client.ts:25 | the store holds the stored token ("" when there is none) |
| ApiClient.TokenStore.Clear | src/lib/api-client.ts:41 | `clearToken()` leaves no token |
| ApiClient.HeaderNamesLowered | src/lib/api-client.ts:22-27 | "Content-Type" and "Authorization" are stored as "content-type" and "authorization" |
| ApiClient.BuildHeaders | src/lib/api-client.ts:21-29 | the headers built step by step on the `Headers` object equal `OutgoingHeaders` |
| ApiClient.ApiRequest | src/lib/api-client.ts:16-51 | one call fetches `Url(base, path)` with the request's own method and body, sends `OutgoingHeaders` built with the token held before the call, resolves to `Classify(response)`, and clears the token exactly when `ClearsToken` holds |
| LmsApi.RequestFor | src/lib/lms-api.ts:16-98 | each endpoint requests `/api/v1/` plus its path, with its method and payload and no headers of its own; every endpoint except the login requires authentication |
| LmsApi.BodyOnlyWhenWriting | src/lib/lms-api.ts:16-98 | a request carries a body exactly when it is a POST or a PUT |
| LmsApi.UnderApiRoot | src/lib/lms-api.ts:16-98 | every endpoint path starts with `/api/v1/` |
| LmsApi.ChildUrl | src/lib/api-client.ts:31 | the URL of a path under `/api/v1/` is the base URL, then `/api/v1/`, then the rest of the path, and starts with the base URL and the API root |
| LmsApi.FetchedUnderApiRoot | src/lib/api-client.ts:31-34 | the URL fetched for any endpoint is the base URL, then `/api/v1/`, then the endpoint's path, with the endpoint's method and payload |
| LmsApi.CourseUpdateAndDeleteShareAPath | src/lib/lms-api.ts:31-40 | a course is updated with PUT and deleted with DELETE at `/api/v1/courses/<id>` |
| LmsApi.ChapterUpdateAndDeleteShareAPath | src/lib/lms-api.ts:50-59 | a chapter is updated with PUT and deleted with DELETE at `/api/v1/chapters/<id>` |
| LmsApi.SectionUpdateAndDeleteShareAPath | src/lib/lms-api.ts:70-79 | a section is updated with PUT and deleted with DELETE at `/api/v1/sections/<id>` |
| LmsApi.LessonUpdateAndDeleteShareAPath | src/lib/lms-api.ts:89-98 | a lesson is updated with PUT and deleted with DELETE at `/api/v1/lessons/<id>` |
| LmsApi.ChapterCreatedUnderCourse | src/lib/lms-api.ts:44-48 | a chapter is created by a POST below its course's own path |
| LmsApi.SectionCreatedUnderChapter | src/lib/lms-api.ts:64-68 | a section is created by a POST below its chapter's own path |
| LmsApi.LessonCreatedUnderSection | src/lib/lms-api.ts:83-87 | a lesson is created by a POST below its section's own path |
| LmsApi.CoursesDefaultToTree | src/lib/lms-api.ts:22-23 | `getCourses()` is `getCourses(true)` and requests `?tree=true`; `getCourses(false)` requests `?tree=false` |
| LmsApi.SectionsQuery | src/lib/lms-api.ts:61-62 | `getSections()` has no query string; `getSections(T)` appends `?type=T` |
| CourseTree.ToNullableId | src/components/modules/course-manager.tsx:91-92 | a route id survives exactly when it is an integer greater than 0, and then unchanged |
| CourseTree.Find | src/components/modules/course-manager.tsx:64-71 | `find` returns the first element that satisfies the predicate, or nothing when none does |
| CourseTree.FindCourse | src/components/modules/course-manager.tsx:64-65 | the first course with the key id; nothing for a null key or when no course has it |
| CourseTree.FindChapter | src/components/modules/course-manager.tsx:67-68 | the first chapter of the course with the key id; nothing without a course, without a key, or without a match |
| CourseTree.FindSection | src/components/modules/course-manager.tsx:70-71 | the first section of the chapter with the key id; nothing without a chapter, without a key, or without a match |
| CourseTree.SumSectionLessonsIsTotal | src/components/modules/course-manager.tsx:75 | the inner `reduce` adds the number of lessons in the sections to its accumulator |
| CourseTree.SumChapterLessonsIsTotal | src/components/modules/course-manager.tsx:74-77 | the outer `reduce` adds the number of lessons in the chapters to its accumulator |
| CourseTree.LessonCountIsTotal | src/components/modules/course-manager.tsx:73-77 | `lessonCountByCourse` is the number of lessons in the whole course, and 0 for a course without chapters |
| CourseTree.SectionLessonsMembers | src/components/modules/course-manager.tsx:73-77 | the lessons counted are exactly those of the sections |
| CourseTree.ChapterLessonsMembers | src/components/modules/course-manager.tsx:73-77 | the lessons counted are exactly those found in some section of some chapter |
| CourseTree.ExactlyOneMode | src/components/modules/course-manager.tsx:144-149 | exactly one of the four lists is shown; without a course id it is the course list |
| CourseTree.PathPrefixes | src/components/modules/course-manager.tsx:94-97 | the course path starts with "/courses"; each deeper path strictly extends its parent's path |
| CourseTree.CoursePathInjective | src/components/modules/course-manager.tsx:94 | distinct course ids give distinct course paths |
| CourseTree.ChapterPathInjective | src/components/modules/course-manager.tsx:95 | distinct (course, chapter) pairs give distinct chapter paths |
| CourseTree.SectionPathInjective | src/components/modules/course-manager.tsx:96-97 | distinct (course, chapter, section) triples give distinct section paths |
| CourseTree.Project | src/components/modules/course-manager.tsx:129-142 | a selected course belongs to the tree; a selected chapter belongs to the selected course, and a selected section to the selected chapter; each carries the sanitised id |
| CourseTree.BackPath | src/components/modules/course-manager.tsx:151-162 | the course list has no "back"; any back path lies under "/courses" |
| CourseTree.BackPathIsParent | src/components/modules/course-manager.tsx:151-162 | "back" is "/courses" from a course; from a chapter it is the course path if the course exists, and from a section the chapter path if both exist; it is always a strict prefix of the current page's path |
| CourseTree.MaxFrom | src/components/modules/course-manager.tsx:167 | the `reduce` with `Math.max` gives a value at least the start value and every element, and equal to one of them |
| CourseTree.NextChapterOrder | src/components/modules/course-manager.tsx:164-171 | the next chapter order is at least 1 and above every chapter order of the course; it is 1 for a missing or empty course, and otherwise one more than an existing order |
| CourseTree.NextOrderIn | src/components/modules/course-manager.tsx:185-186 | the next lesson order is at least 1 and above every lesson order of the section; it is 1 without a section or lessons |
| CourseTree.SectionInChapters | src/components/modules/course-manager.tsx:177-183 | the inner loop finds a section with the id, and finds nothing exactly when no chapter has one |
| CourseTree.LocateSection | src/components/modules/course-manager.tsx:176-184 | the outer loop finds a section with the id, and finds nothing exactly when no course has one |
| CourseTree.LaterCourseWins | src/components/modules/course-manager.tsx:176-184 | `break` leaves only the chapter loop, so the section comes from the last course that has one |
| CourseTree.NextLessonOrderBounds | src/components/modules/course-manager.tsx:173-189 | `getNextLessonOrder` is at least 1, is 1 when no section has the id, and is above every lesson order of the section found |
| CourseManagement.InvalidateAllCoversContent | src/components/modules/course-manager.tsx:191-201 | the course screen refetches courses, chapters, lessons, and the untyped and every typed section list (seven keys), but not users |
| CourseManagement.DeleteLabel | src/components/modules/course-manager.tsx:409-414 | the confirmation label is the kind noun, a space, and the name between double quotes, exactly |
| CourseManagement.DeleteCall | src/components/modules/course-manager.tsx:370-384 | the delete runs through the endpoint of the target's kind: an authenticated DELETE of `/api/v1/<collection>/<id>` |
| CourseManagement.CourseEditForm | src/components/modules/course-manager.tsx:282-290 | the edit form copies the name; a description or thumbnail that is null becomes "", one that is present is copied |
| CourseManagement.ChapterEditForm | src/components/modules/course-manager.tsx:308-316 | the edit form copies the title and order; a description that is null becomes "", one that is present is copied |
| CourseManagement.LessonEditForm | src/components/modules/course-manager.tsx:342-351 | the edit form copies the title and order; a video or PDF URL that is null becomes "", one that is present is copied |
| CourseManagement.FirstChapterWithSection | src/components/modules/course-manager.tsx:177-182 | the inner loop stops at the first chapter holding the section |
| CourseManagement.NoSectionInChapter | src/components/modules/course-manager.tsx:177-182 | a chapter without the section lets the inner loop continue with nothing found |
| CourseManagement.LocateSectionStep | src/components/modules/course-manager.tsx:176-184 | each course searched replaces the section found so far when it holds one |
| CourseManagement.NextLessonOrder | src/components/modules/course-manager.tsx:173-189 | the nested loops with `break` compute `NextOrderIn(LocateSection(...))` |
| CourseManagement.CourseManager.constructor | src/components/modules/course-manager.tsx:107-133 | all dialogs closed, nothing being edited, no parent context, initial forms, no pending delete, and courses `data ?? []` |
| CourseManagement.CourseManager.OnCoursesLoaded | src/components/modules/course-manager.tsx:133 | the screen's courses are the fetched data, or none |
| CourseManagement.CourseManager.OnOpenCreateCourse | src/components/modules/course-manager.tsx:276-280 | no course is being edited, the form is initial, and the dialog is open |
| CourseManagement.CourseManager.OnOpenEditCourse | src/components/modules/course-manager.tsx:282-290 | the course is being edited in its edit form and the dialog is open |
| CourseManagement.CourseManager.EditCourseForm | src/components/modules/course-manager.tsx:648-659 | the course dialog's fields are its name, thumbnail URL and description |
| CourseManagement.CourseManager.SubmitCourse | src/components/modules/course-manager.tsx:292-299 | a blank name sends nothing; otherwise the course being edited is updated, or a new one is created |
| CourseManagement.CourseManager.OnCourseCreated | src/components/modules/course-manager.tsx:203-210 | the dialog closes, the form resets, and every content key is invalidated |
| CourseManagement.CourseManager.OnCourseUpdated | src/components/modules/course-manager.tsx:212-220 | as on create, and the edited course is cleared |
| CourseManagement.CourseManager.OnOpenCreateChapter | src/components/modules/course-manager.tsx:301-306 | the new chapter goes under the course, the form holds the next free chapter order, and the dialog is open |
| CourseManagement.CourseManager.OnOpenEditChapter | src/components/modules/course-manager.tsx:308-316 | the chapter id is being edited in its edit form; the course context is unchanged |
| CourseManagement.CourseManager.EditChapterForm | src/components/modules/course-manager.tsx:678-684 | the chapter dialog changes only the title and description; the order stays |
| CourseManagement.CourseManager.SubmitChapter | src/components/modules/course-manager.tsx:318-333 | a blank title, or no truthy edited id and no truthy course context, sends nothing; a truthy edited id is updated with the form; otherwise the chapter is created under the context with the form, its order replaced by `NextChapterOrder` of that course when the form has none |
| CourseManagement.CourseManager.OnChapterSaved | src/components/modules/course-manager.tsx:222-241 | the dialog closes, the form resets, the edited id is cleared, and every content key is invalidated |
| CourseManagement.CourseManager.OnOpenCreateLesson | src/components/modules/course-manager.tsx:335-340 | the new lesson goes under the section, the form holds the next free lesson order, and the dialog is open |
| CourseManagement.CourseManager.OnOpenEditLesson | src/components/modules/course-manager.tsx:342-351 | the lesson id is being edited in its edit form |
| CourseManagement.CourseManager.EditLessonForm | src/components/modules/course-manager.tsx:703-715 | the lesson dialog changes only the title, video URL and PDF URL |
| CourseManagement.CourseManager.SubmitLesson | src/components/modules/course-manager.tsx:353-368 | the same rule for lessons under the section context; the fallback order is the next free lesson order |
| CourseManagement.CourseManager.OnLessonSaved | src/components/modules/course-manager.tsx:243-262 | the dialog closes, the form resets, the edited id is cleared, and every content key is invalidated |
| CourseManagement.CourseManager.OnCloseCourseDialog | src/components/modules/course-manager.tsx:639 | closing only hides the dialog |
| CourseManagement.CourseManager.OnCloseChapterDialog | src/components/modules/course-manager.tsx:669 | closing only hides the dialog |
| CourseManagement.CourseManager.OnCloseLessonDialog | src/components/modules/course-manager.tsx:694 | closing only hides the dialog |
| CourseManagement.CourseManager.HandleEditCourse | src/components/modules/course-manager.tsx:399-407 | the listed course with that id opens for editing; with no such course nothing changes |
| CourseManagement.CourseManager.HandleEditChapter | src/components/modules/course-manager.tsx:426-434 | a chapter of the selected course with that id opens for editing; otherwise nothing changes |
| CourseManagement.CourseManager.HandleEditLesson | src/components/modules/course-manager.tsx:460-468 | a lesson of the selected section with that id opens for editing; otherwise nothing changes |
| CourseManagement.CourseManager.SelectChapterTarget | src/components/modules/course-manager.tsx:416-424 | navigates to the chapter page under the selected course, and nowhere without one |
| CourseManagement.CourseManager.SelectSectionTarget | src/components/modules/course-manager.tsx:443-451 | navigates to the section page under the selected course and chapter, and nowhere without both |
| CourseManagement.CourseManager.OnRequestDelete | src/components/modules/course-manager.tsx:409-414 | the pending delete is the entity, with its kind and label |
| CourseManagement.CourseManager.ConfirmDelete | src/components/modules/course-manager.tsx:370-384 | nothing without a pending delete; otherwise a DELETE of exactly the target's path |
| CourseManagement.CourseManager.OnDeleteSucceeded | src/components/modules/course-manager.tsx:379-382 | the pending delete is cleared and every content key is invalidated |
| CourseManagement.CourseManager.OnCancelDelete | src/components/modules/course-manager.tsx:724 | the confirmation closes without deleting |
| CourseManagement.CreateChapterFlow | src/components/modules/course-manager.tsx:301-333 | opening, filling in and submitting the chapter dialog creates the chapter under the course, with an order above every existing chapter's |
| CourseManagement.CreateLessonFlow | src/components/modules/course-manager.tsx:335-368 | creating a lesson from a section gives it an order above every lesson of the section the search finds |
| CourseManagement.EditChapterFlow | src/components/modules/course-manager.tsx:308-324 | saving an opened chapter sends its own fields, and sends nothing when its id is the falsy 0 |
| CourseManagement.DeleteFlow | src/components/modules/course-manager.tsx:370-384 | confirming a requested delete deletes exactly that entity |
| ManagerCommon.TruthyId | src/components/modules/chapter-manager.tsx:108 | a picked parent counts exactly when it is chosen and not 0 |
| ManagerCommon.Entries | src/components/modules/chapter-manager.tsx:45 | one (key, name) entry per item, in the items' order; the course, chapter and section selects and columns are built from it |
| ManagerCommon.SetId | src/components/modules/course-manager.tsx:320-324 | a nullable id counts exactly when it is present and not 0 |
| ManagerCommon.NameMapKeys | src/components/modules/chapter-manager.tsx:44-46 | `new Map(entries)` has exactly the keys of the entries |
| ManagerCommon.NameMapLastWins | src/components/modules/chapter-manager.tsx:44-46 | each key maps to the value of the last entry with that key |
| ManagerCommon.LabelOfParent | src/components/modules/chapter-manager.tsx:151 | a parent cell names the last listed parent with the id, and shows `#<id>` when none is listed |
| ManagerCommon.SubmitRoute | src/components/modules/chapter-manager.tsx:100-110 | a blank title skips; an edited entity is updated; otherwise a create goes under the parent, and without a parent nothing is sent |
| ManagerCommon.WhitespaceTitleSkips | src/components/modules/chapter-manager.tsx:101 | a title of whitespace only never submits |
| ChapterManagement.InvalidationScope | src/components/modules/chapter-manager.tsx:48-53 | the chapter screen refetches chapters and courses, but not lessons or sections, and fewer keys than the course screen |
| ChapterManagement.CourseColumnNamesParent | src/components/modules/chapter-manager.tsx:151 | the course column shows the name of the last course with the chapter's course id, or `#<id>` |
| ChapterManagement.ChapterManager.constructor | src/components/modules/chapter-manager.tsx:35-39 | dialog closed, nothing being edited, no course picked, initial form, no pending delete |
| ChapterManagement.ChapterManager.OnOpenCreate | src/components/modules/chapter-manager.tsx:84-88 | nothing being edited, the form initial, the dialog open; the picked course is kept |
| ChapterManagement.ChapterManager.OnOpenEdit | src/components/modules/chapter-manager.tsx:90-98 | the chapter being edited in its edit form, with the dialog open |
| ChapterManagement.ChapterManager.SelectCourse | src/components/modules/chapter-manager.tsx:186 | the course select holds the picked id |
| ChapterManagement.ChapterManager.EditForm | src/components/modules/chapter-manager.tsx:197-210 | the title and description fields change only themselves |
| ChapterManagement.ChapterManager.EditOrder | src/components/modules/chapter-manager.tsx:212-218 | the order field changes only the order |
| ChapterManagement.ChapterManager.Submit | src/components/modules/chapter-manager.tsx:100-110 | a blank title, or not editing with no truthy course, sends nothing; an edited chapter is updated whatever its id; otherwise the form is created under the picked course |
| ChapterManagement.ChapterManager.OnCreated | src/components/modules/chapter-manager.tsx:55-64 | the dialog closes, the form and the course select reset, and chapters and courses are invalidated |
| ChapterManagement.ChapterManager.OnUpdated | src/components/modules/chapter-manager.tsx:66-74 | the dialog closes, the edited chapter is cleared, the form resets, and chapters and courses are invalidated |
| ChapterManagement.ChapterManager.OnCloseDialog | src/components/modules/chapter-manager.tsx:175 | closing only hides the dialog |
| ChapterManagement.ChapterManager.OnRequestDelete | src/components/modules/chapter-manager.tsx:161 | the chapter is the pending delete |
| ChapterManagement.ChapterManager.ConfirmDelete | src/components/modules/chapter-manager.tsx:230 | nothing without a pending delete; otherwise a delete of that chapter's path |
| ChapterManagement.ChapterManager.OnDeleted | src/components/modules/chapter-manager.tsx:76-82 | the pending delete is cleared, and chapters and courses are invalidated |
| ChapterManagement.ChapterManager.OnCancelDelete | src/components/modules/chapter-manager.tsx:229 | the confirmation closes without deleting |
| ChapterManagement.CreateFlow | src/components/modules/chapter-manager.tsx:84-110 | a chapter created on this screen is sent with order 0 unless the order is typed |
| ChapterManagement.CreateWithoutCourseFlow | src/components/modules/chapter-manager.tsx:100-108 | without a picked course, a new chapter is not sent |
| ChapterManagement.EditFlow | src/components/modules/chapter-manager.tsx:90-106 | saving an opened chapter updates it with its own fields, whatever its id |
| SectionManagement.InitialForm | src/components/modules/section-manager.tsx:35-42 | the empty form has the screen's type, an empty title, level and topic and order 0, and is under development exactly on the vocabulary screen, otherwise active |
| SectionManagement.InvalidationScope | src/components/modules/section-manager.tsx:74-80 | exactly three keys are refetched: this type's sections, the untyped sections, and courses; no other type's list |
| SectionManagement.SectionEditForm | src/components/modules/section-manager.tsx:117-128 | the edit form copies the type, title, status and order; a level or topic that is null becomes "", one that is present is copied |
| SectionManagement.ChapterColumnNamesParent | src/components/modules/section-manager.tsx:190 | the chapter column shows the title of the last chapter with the id, or `#<id>` |
| SectionManagement.SectionManager.constructor | src/components/modules/section-manager.tsx:53-58 | dialog closed, nothing being edited, no chapter picked, the type's initial form, no pending delete |
| SectionManagement.SectionManager.OnOpenCreate | src/components/modules/section-manager.tsx:111-115 | nothing being edited, the type's initial form, the dialog open |
| SectionManagement.SectionManager.OnOpenEdit | src/components/modules/section-manager.tsx:117-128 | the section being edited in its edit form, with the dialog open |
| SectionManagement.SectionManager.SelectChapter | src/components/modules/section-manager.tsx:239 | the chapter select holds the picked id |
| SectionManagement.SectionManager.EditForm | src/components/modules/section-manager.tsx:250-285 | the title, level, topic and status fields change only themselves |
| SectionManagement.SectionManager.EditOrder | src/components/modules/section-manager.tsx:287-293 | the order field changes only the order |
| SectionManagement.SectionManager.Submit | src/components/modules/section-manager.tsx:130-138 | a blank title, or not editing with no truthy chapter, sends nothing; an edited section is updated; otherwise the form is created under the picked chapter |
| SectionManagement.SectionManager.OnCreated | src/components/modules/section-manager.tsx:82-91 | the dialog closes, the form and the chapter select reset, and the screen's keys are invalidated |
| SectionManagement.SectionManager.OnUpdated | src/components/modules/section-manager.tsx:93-101 | the dialog closes, the edited section is cleared, the form resets, and the screen's keys are invalidated |
| SectionManagement.SectionManager.OnCloseDialog | src/components/modules/section-manager.tsx:228 | closing only hides the dialog |
| SectionManagement.SectionManager.OnRequestDelete | src/components/modules/section-manager.tsx:213 | the section is the pending delete |
| SectionManagement.SectionManager.ConfirmDelete | src/components/modules/section-manager.tsx:305 | nothing without a pending delete; otherwise a delete of that section's path |
| SectionManagement.SectionManager.OnDeleted | src/components/modules/section-manager.tsx:103-109 | the pending delete is cleared and the screen's keys are invalidated |
| SectionManagement.SectionManager.OnCancelDelete | src/components/modules/section-manager.tsx:304 | the confirmation closes without deleting |
| SectionManagement.CreateFlow | src/components/modules/section-manager.tsx:111-138 | a section created on a screen has that screen's type and order 0, and is under development exactly on the vocabulary screen |
| SectionManagement.EditFlow | src/components/modules/section-manager.tsx:117-135 | editing keeps the section's own type, even on another type's screen |
| LessonManagement.InvalidationScope | src/components/modules/lesson-manager.tsx:49-55 | lessons, courses and the untyped sections are refetched, but neither chapters nor any typed section list |
| LessonManagement.SectionColumnNamesParent | src/components/modules/lesson-manager.tsx:153 | the section column shows the title of the last section with the id, or `#<id>` |
| LessonManagement.LessonManager.constructor | src/components/modules/lesson-manager.tsx:36-40 | dialog closed, nothing being edited, no section picked, initial form, no pending delete |
| LessonManagement.LessonManager.OnOpenCreate | src/components/modules/lesson-manager.tsx:86-90 | nothing being edited, the form initial, the dialog open; the picked section is kept |
| LessonManagement.LessonManager.OnOpenEdit | src/components/modules/lesson-manager.tsx:92-101 | the lesson being edited in its edit form, with the dialog open |
| LessonManagement.LessonManager.SelectSection | src/components/modules/lesson-manager.tsx:195 | the section select holds the picked id |
| LessonManagement.LessonManager.EditForm | src/components/modules/lesson-manager.tsx:208-222 | the title, video and PDF fields change only themselves |
| LessonManagement.LessonManager.EditOrder | src/components/modules/lesson-manager.tsx:229 | the order field changes only the order |
| LessonManagement.LessonManager.Submit | src/components/modules/lesson-manager.tsx:103-112 | a blank title, or not editing with no truthy section, sends nothing; an edited lesson is updated with the form; otherwise the form is created under the picked section |
| LessonManagement.LessonManager.OnCreated | src/components/modules/lesson-manager.tsx:57-66 | the dialog closes, the form and the section select reset, and the screen's keys are invalidated |
| LessonManagement.LessonManager.OnUpdated | src/components/modules/lesson-manager.tsx:68-76 | the dialog closes, the edited lesson is cleared, the form resets, and the screen's keys are invalidated |
| LessonManagement.LessonManager.OnCloseDialog | src/components/modules/lesson-manager.tsx:184 | closing only hides the dialog |
| LessonManagement.LessonManager.OnRequestDelete | src/components/modules/lesson-manager.tsx:170 | the lesson is the pending delete |
| LessonManagement.LessonManager.ConfirmDelete | src/components/modules/lesson-manager.tsx:239 | nothing without a pending delete; otherwise a delete of that lesson's path |
| LessonManagement.LessonManager.OnDeleted | src/components/modules/lesson-manager.tsx:78-84 | the pending delete is cleared and the screen's keys are invalidated |
| LessonManagement.LessonManager.OnCancelDelete | src/components/modules/lesson-manager.tsx:238 | the confirmation closes without deleting |
| LessonManagement.CreateFlow | src/components/modules/lesson-manager.tsx:86-112 | a lesson created on this screen is sent with order 0 unless the order is typed |
| UserManagement.PayloadIsClean | src/components/modules/user-manager.tsx:65-80 | the account sent passes the checks itself and is already trimmed |
| UserManagement.UnpaddedAccepted | src/components/modules/user-manager.tsx:77-80 | a username of at least 3 characters and a non-empty e-mail, neither with whitespace at its ends, plus a password of at least 6 characters, are accepted |
| UserManagement.TooShortRefused | src/components/modules/user-manager.tsx:77-80 | a two-character username, or a five-character password, is refused |
| UserManagement.TrimNoLonger | src/components/modules/user-manager.tsx:78-79 | trimming never lengthens a field |
| UserManagement.TrimOfUnpadded | src/components/modules/user-manager.tsx:78-79 | a field whose ends are not whitespace is left as it is by trimming |
| UserManagement.UserManager.constructor | src/components/modules/user-manager.tsx:35-37 | dialog closed, target role USER, initial form |
| UserManagement.UserManager.OpenDialog | src/components/modules/user-manager.tsx:53-57 | the target role and the form's role become the role; the typed fields stay; the dialog opens |
| UserManagement.UserManager.CloseDialog | src/components/modules/user-manager.tsx:58-63 | while a create is in flight nothing changes; otherwise the dialog closes and the form resets |
| UserManagement.UserManager.EditForm | src/components/modules/user-manager.tsx:157-172 | the username, e-mail and password fields change only themselves |
| UserManagement.UserManager.HandleSubmit | src/components/modules/user-manager.tsx:65-80 | an account is sent exactly when `canSubmit` holds: username and e-mail trimmed, password as typed, and the dialog's target role rather than the form's |
| UserManagement.UserManager.OnCreated | src/components/modules/user-manager.tsx:44-51 | the dialog closes, the form resets, and only the users key is invalidated |
| UserManagement.CreateFlow | src/components/modules/user-manager.tsx:53-75 | an account created from the dialog opened for a role has that role and trimmed fields |
| UserManagement.CloseWhilePendingFlow | src/components/modules/user-manager.tsx:58-75 | closing while the create is in flight keeps what was typed, and the same account is sent |

## Left out

- `fetch`, `response.json()` and `JSON.stringify`: the response is a parameter of `ApiRequest`, with its body already parsed (`None` when absent or unparseable), and a request body is the payload value itself.
- `window.localStorage` and `src/lib/storage.ts`: the stored token is the `TokenStore` object, where "" means no token. `storage.ts` is not part of this model.
- React Query internals (caching, retries, `Promise.all`, the `isPending` and `busy` flags): invalidation is the set of keys a handler returns, and "a create is in flight" is a parameter of `UserManager.CloseDialog`.
- Next.js routing: `router.push` is modelled as the target path (`SelectChapterTarget`, `SelectSectionTarget`, `BackPath`). `handleBack`, `handleSelectCourse`, the sidebar's logout and the page components only navigate.
- All JSX rendering: cards, tables, alerts, icons, the error and empty-state alerts of the queries, and the `underDevelopment` flag, which only disables buttons.
- `toLocaleDateString` in the user table, because it depends on the locale.
- The user list and the user create request: `user-manager.tsx` imports `getUsers` and `createUser`, which `lms-api.ts` does not define. The account sent is modelled as a payload value; its endpoint is not part of this model.
- JavaScript numbers: route ids are integers, absent or "not an integer" (`RouteId`), and NaN, fractions and floats are not modelled. `Number(event.target.value)` in the order and select fields is taken to give an integer. `${n}` is modelled as plain decimal, without the exponent form JavaScript uses from 1e21 on.
- Header-name normalisation of headers supplied by a caller: callers pass header maps already lower-cased. No endpoint passes headers of its own.
- UserManagement.CanSubmit: it counts the password's length in code points, while JavaScript counts UTF-16 code units. The two differ only for characters outside the Basic Multilingual Plane.
- `Text.ToLower`: lower-cases ASCII letters only. For `readBooleanEnv` this gives the same answer, as stated at the top of this file.
