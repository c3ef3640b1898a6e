/**
 * The cache keys under which the console stores query results. A key is a
 * tuple of strings; invalidating a key discards the result stored under it.
 */
module QueryKeys {
  import opened Base
  import opened Types

  type QueryKey = seq<string>

  const Courses: QueryKey := ["courses"]
  const Chapters: QueryKey := ["chapters"]
  const Lessons: QueryKey := ["lessons"]
  const Users: QueryKey := ["users"]

  /** `sections(type?)`: the type label, or "all" when no type is given. */
  function Sections(t: Option<string>): (k: QueryKey)
    ensures |k| == 2 && k[0] == "sections"
    ensures t.None? ==> k[1] == "all"
    ensures t.Some? ==> k[1] == t.value
  {
    ["sections", t.GetOr("all")]
  }

  /** The key of the section list of one section type. */
  function SectionsOf(t: SectionType): (k: QueryKey)
    ensures |k| == 2 && k[1] == SectionTypeName(t)
    ensures k != Sections(None)
  {
    Sections(Some(SectionTypeName(t)))
  }

  /** Asking for the section type "all" gives the same key as asking for no type. */
  lemma SectionsAllIsDefault()
    ensures Sections(Some("all")) == Sections(None)
  {
  }

  /** Distinct section types give distinct keys, and none of them is the default key. */
  lemma SectionsInjective(a: Option<string>, b: Option<string>)
    requires Sections(a) == Sections(b)
    ensures a.GetOr("all") == b.GetOr("all")
    ensures a.Some? && b.Some? ==> a == b
  {
    assert Sections(a)[1] == Sections(b)[1];
  }

  /** The one-element keys are pairwise distinct and never collide with a sections key. */
  lemma KeysDistinct(t: Option<string>)
    ensures |{Courses, Chapters, Lessons, Users}| == 4
    ensures Sections(t) !in {Courses, Chapters, Lessons, Users}
  {
    assert Courses[0] != Chapters[0] && Courses[0] != Lessons[0] && Courses[0] != Users[0];
    assert Chapters[0] != Lessons[0] && Chapters[0] != Users[0] && Lessons[0] != Users[0];
  }
}
