/** The project document type and the code-highlighting hooks
    (`contentlayer.config.ts`): the `published` default, the computed `slug`
    and `path`, and the three visitors that adjust line and character nodes
    of highlighted code. The file-system source and the plugin chain are not
    modelled. */
module ContentConfig {
  import opened Wrappers
  import opened Strings

  // ---------------------------------------------------------------------
  // Documents

  /** The front matter as written; absent fields are `None`. Dates are
      integer timestamps. */
  datatype FrontMatter = FrontMatter(
    published: Option<bool>,
    title: string,
    description: string,
    date: Option<int>,
    url: Option<string>,
    repository: Option<string>
  )

  /** A `Project` document with its computed fields. */
  datatype Project = Project(
    published: bool,
    title: string,
    description: string,
    date: Option<int>,
    url: Option<string>,
    repository: Option<string>,
    slug: string,
    path: string
  )

  const ProjectsWord: string := "projects"

  /** `flattenedPath.replace(/projects\/?/, '')`: the first `projects`,
      with the `/` right after it if there is one, is cut out. */
  function Slug(flattenedPath: string): (slug: string)
    ensures |slug| <= |flattenedPath|
  {
    var i := IndexOf(flattenedPath, ProjectsWord);
    if i == -1 then flattenedPath
    else
      var j := i + |ProjectsWord|;
      if j < |flattenedPath| && flattenedPath[j] == '/' then flattenedPath[..i] + flattenedPath[j + 1..]
      else flattenedPath[..i] + flattenedPath[j..]
  }

  /** A document built from its front matter and its path. */
  function MakeProject(fm: FrontMatter, flattenedPath: string): (p: Project)
    ensures p.published == (fm.published == Some(true))
    ensures p.path == flattenedPath
  {
    Project(fm.published.GetOr(false), fm.title, fm.description, fm.date, fm.url, fm.repository,
            Slug(flattenedPath), flattenedPath)
  }

  /** Putting the cut back gives the path: the text before the first
      `projects` (which holds no `projects`) is kept, then `projects` and at
      most one `/` are removed, and everything after, later `projects`
      included, is kept. Without `projects` the path is its own slug. */
  lemma SlugCutsFirstOccurrence(p: string)
    ensures IndexOf(p, ProjectsWord) == -1 ==> Slug(p) == p
    ensures IndexOf(p, ProjectsWord) != -1 ==>
      var i := IndexOf(p, ProjectsWord);
      (forall k :: 0 <= k < i ==> !OccursAt(p, ProjectsWord, k))
      && (p == Slug(p)[..i] + ProjectsWord + "/" + Slug(p)[i..]
          || (p == Slug(p)[..i] + ProjectsWord + Slug(p)[i..] && !StartsWith(Slug(p)[i..], "/")))
  {
    var i := IndexOf(p, ProjectsWord);
    IndexOfIsFirst(p, ProjectsWord);
    if i != -1 {
      SlugPieces(p, i);
    }
  }

  lemma SlugPieces(p: string, i: int)
    requires i == IndexOf(p, ProjectsWord) && i != -1
    ensures p == Slug(p)[..i] + ProjectsWord + "/" + Slug(p)[i..]
         || (p == Slug(p)[..i] + ProjectsWord + Slug(p)[i..] && !StartsWith(Slug(p)[i..], "/"))
  {
    var j := i + |ProjectsWord|;
    var s := Slug(p);
    assert p[i..j] == ProjectsWord;
    assert s[..i] == p[..i];
    if j < |p| && p[j] == '/' {
      assert s[i..] == p[j + 1..];
      assert p == p[..i] + p[i..j] + "/" + p[j + 1..];
    } else {
      assert s[i..] == p[j..];
      assert p == p[..i] + p[i..j] + p[j..];
      if |p[j..]| > 0 {
        assert p[j..][0] == p[j];
      }
    }
  }

  /** A file `projects/<name>` gets the slug `<name>`. */
  lemma SlugOfProjectFile(name: string)
    ensures Slug(ProjectsWord + "/" + name) == name
  {
    var p := ProjectsWord + "/" + name;
    assert OccursAt(p, ProjectsWord, 0) by { assert p[0..|ProjectsWord|] == ProjectsWord; }
    IndexOfIsFirst(p, ProjectsWord);
    assert IndexOf(p, ProjectsWord) == 0;
    assert p[|ProjectsWord|] == '/';
    assert p[|ProjectsWord| + 1..] == name;
  }

  /** `published` is false unless the front matter says true. */
  lemma PublishedDefault(fm: FrontMatter, flattenedPath: string)
    ensures fm.published.None? ==> !MakeProject(fm, flattenedPath).published
    ensures MakeProject(fm, flattenedPath).slug == Slug(flattenedPath)
  {
  }

  // ---------------------------------------------------------------------
  // The highlighting visitors

  /** A child of a line node: a text node or another element. */
  datatype HastChild = TextNode(value: string) | ElementNode(tagName: string)

  /** A line's children after `onVisitLine`: an empty line gets one space so
      it keeps its height. */
  function FilledLine(children: seq<HastChild>): (r: seq<HastChild>)
    ensures r != []
    ensures children != [] ==> r == children
  {
    if |children| == 0 then [TextNode(" ")] else children
  }

  /** Visiting a line twice changes nothing more. */
  lemma FilledLineIdempotent(children: seq<HastChild>)
    ensures FilledLine(FilledLine(children)) == FilledLine(children)
    ensures children == [] ==> FilledLine(children) == [TextNode(" ")]
  {
  }

  const LineHighlight: string := "line--highlighted"
  const WordHighlight: string := "word--highlighted"

  /** An element node of the highlighted code, as the visitors see it. */
  class LineNode {
    var children: seq<HastChild>
    var className: seq<string>

    constructor (children: seq<HastChild>, className: seq<string>)
      ensures this.children == children && this.className == className
    {
      this.children := children;
      this.className := className;
    }

    /** `onVisitLine`. */
    method VisitLine()
      modifies this
      ensures children == FilledLine(old(children))
      ensures className == old(className)
    {
      if |children| == 0 {
        children := [TextNode(" ")];
      }
    }

    /** `onVisitHighlightedLine`: the earlier classes stay, in order. */
    method VisitHighlightedLine()
      modifies this
      ensures className == old(className) + [LineHighlight]
      ensures children == old(children)
    {
      className := className + [LineHighlight];
    }

    /** `onVisitHighlightedChars`: exactly one class. */
    method VisitHighlightedChars()
      modifies this
      ensures className == [WordHighlight]
      ensures children == old(children)
    {
      className := [WordHighlight];
    }
  }
}
