/**
 * The navigation sidebar: five links, each highlighted while the current
 * pathname starts with its target.
 */
module AdminSidebar {
  import opened Text
  import CourseTree

  datatype NavItem = NavItem(href: string, title: string)

  const NavItems: seq<NavItem> := [
    NavItem("/courses", "Courses"),
    NavItem("/grammar", "Grammar"),
    NavItem("/vocabulary", "Vocabulary"),
    NavItem("/kanji", "Kanji"),
    NavItem("/users", "Users")
  ]

  /** `pathname.startsWith(item.href)`. */
  predicate IsActive(pathname: string, item: NavItem) {
    StartsWith(pathname, item.href)
  }

  /** The highlight of every link, in order. */
  function ActiveFlags(pathname: string): (flags: seq<bool>)
    ensures |flags| == |NavItems|
    ensures forall i :: 0 <= i < |NavItems| ==> (flags[i] <==> IsActive(pathname, NavItems[i]))
  {
    seq(|NavItems|, i requires 0 <= i < |NavItems| => IsActive(pathname, NavItems[i]))
  }

  /** The targets differ in their first letter after the slash. */
  lemma SecondCharactersDistinct()
    ensures forall i :: 0 <= i < |NavItems| ==> |NavItems[i].href| >= 2
    ensures forall i, j :: 0 <= i < |NavItems| && 0 <= j < |NavItems| && i != j ==>
              NavItems[i].href[1] != NavItems[j].href[1]
  {
  }

  /** No target is a prefix of another. */
  lemma TargetsPrefixFree()
    ensures forall i, j :: 0 <= i < |NavItems| && 0 <= j < |NavItems| && i != j ==>
              !StartsWith(NavItems[j].href, NavItems[i].href)
  {
    SecondCharactersDistinct();
  }

  /** At most one link is highlighted for any pathname. */
  lemma AtMostOneActive(pathname: string)
    ensures forall i, j :: 0 <= i < |NavItems| && 0 <= j < |NavItems| && ActiveFlags(pathname)[i] && ActiveFlags(pathname)[j] ==> i == j
  {
    SecondCharactersDistinct();
    forall i, j | 0 <= i < |NavItems| && 0 <= j < |NavItems| && ActiveFlags(pathname)[i] && ActiveFlags(pathname)[j]
      ensures i == j
    {
      assert pathname[1] == NavItems[i].href[1];
      assert pathname[1] == NavItems[j].href[1];
    }
  }

  /** Every page of the course tree highlights the Courses link and only it. */
  lemma CoursePagesHighlightCourses(c: int, h: int, s: int)
    ensures ActiveFlags(CourseTree.CoursePath(c)) == [true, false, false, false, false]
    ensures ActiveFlags(CourseTree.ChapterPath(c, h)) == [true, false, false, false, false]
    ensures ActiveFlags(CourseTree.SectionPath(c, h, s)) == [true, false, false, false, false]
  {
    CourseTree.PathPrefixes(c, h, s);
    OnlyCourses(CourseTree.CoursePath(c));
    OnlyCourses(CourseTree.ChapterPath(c, h));
    OnlyCourses(CourseTree.SectionPath(c, h, s));
  }

  lemma OnlyCourses(p: string)
    requires StartsWith(p, "/courses")
    ensures ActiveFlags(p) == [true, false, false, false, false]
  {
    AtMostOneActive(p);
    assert ActiveFlags(p)[0];
  }

  /** The test is on characters, not path segments: `/coursesX` highlights Courses, `/` highlights nothing. */
  lemma PrefixNotSegment()
    ensures ActiveFlags("/coursesX") == [true, false, false, false, false]
    ensures ActiveFlags("/") == [false, false, false, false, false]
  {
    OnlyCourses("/coursesX");
  }
}
