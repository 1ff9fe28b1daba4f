/** The repository page (`RepositoryDetails.tsx`): which of its three views
    renders, the component map handed to the markdown renderer, and the
    rewriting of README image sources to raw GitHub URLs. The fetches are
    foreign: their results are parameters. URL resolution is modelled for
    plain relative paths; for any other path the resolver is a parameter
    whose `None` stands for a thrown error. */
module RepositoryDetails {
  import opened Wrappers
  import opened Strings
  import MdxComponents
  import ViewCounter

  const DefaultBranch: string := "main"
  const ImageErrorUrl: string := "#error-constructing-image-url"

  /** `https://raw.githubusercontent.com/{owner}/{repo}/main/`. */
  function RawBase(owner: string, repoName: string): string
  {
    "https://raw.githubusercontent.com/" + owner + "/" + repoName + "/" + DefaultBranch + "/"
  }

  /** A character that URL resolution copies unchanged into a path. */
  predicate SafeChar(c: char)
  {
    ('a' <= c <= 'z') || ('A' <= c <= 'Z') || ('0' <= c <= '9') || c in {'-', '_', '.', '~'}
  }

  /** A path segment made of safe characters that is not `.` or `..`. */
  predicate PlainSegment(seg: string)
  {
    (forall k :: 0 <= k < |seg| ==> SafeChar(seg[k])) && seg != "." && seg != ".."
  }

  /** A relative path that resolves against a directory URL by plain
      concatenation: no leading `/`, no scheme, query, fragment, escape or
      dot segment. */
  predicate PlainPath(p: string)
  {
    var segs := Split(p, "/");
    !StartsWith(p, "/") && forall k :: 0 <= k < |segs| ==> PlainSegment(segs[k])
  }

  /** `src.startsWith('/') ? src.substring(1) : src`. */
  function StripLeadingSlash(src: string): (rel: string)
    ensures rel == src || "/" + rel == src
  {
    if StartsWith(src, "/") then src[1..] else src
  }

  predicate IsAbsolute(src: string)
  {
    StartsWith(src, "http://") || StartsWith(src, "https://")
  }

  /** The guard of the rewrite: a string source, an owner, a repository name,
      and not already an `http://` or `https://` URL. */
  predicate Rewrites(src: Option<string>, owner: string, repoName: string)
  {
    src.Some? && owner != "" && repoName != "" && !IsAbsolute(src.value)
  }

  /** `new URL(relativePath, baseUrl).href`, or `None` where it throws. For
      plain paths under a base whose owner and repository are plain segments
      it is the concatenation; elsewhere the given resolver decides. */
  function Resolve(rel: string, owner: string, repoName: string, resolve: string -> Option<string>): Option<string>
  {
    if PlainPath(rel) && PlainSegment(owner) && PlainSegment(repoName) then Some(RawBase(owner, repoName) + rel)
    else resolve(rel)
  }

  /** The `src` the image is rendered with. */
  function ImageSrc(src: Option<string>, owner: string, repoName: string, resolve: string -> Option<string>)
    : (r: Option<string>)
    ensures !Rewrites(src, owner, repoName) ==> r == src
    ensures Rewrites(src, owner, repoName) ==> r.Some?
  {
    if !Rewrites(src, owner, repoName) then src
    else
      var resolved := Resolve(StripLeadingSlash(src.value), owner, repoName, resolve);
      Some(resolved.GetOr(ImageErrorUrl))
  }

  /** Absolute URLs, a missing owner or repository name, and a missing `src`
      are left alone; the `http` test is case-sensitive. */
  lemma LeftAlone(src: Option<string>, owner: string, repoName: string, resolve: string -> Option<string>)
    ensures src.None? ==> ImageSrc(src, owner, repoName, resolve) == None
    ensures src.Some? && IsAbsolute(src.value) ==> ImageSrc(src, owner, repoName, resolve) == src
    ensures owner == "" || repoName == "" ==> ImageSrc(src, owner, repoName, resolve) == src
    ensures owner != "" && repoName != "" ==> Rewrites(Some("HTTPS://x"), owner, repoName)
  {
    var s := "HTTPS://x";
    assert !StartsWith(s, "http://") by { assert s[..7] != "http://"; }
    assert !StartsWith(s, "https://") by { assert s[..8] != "https://"; }
  }

  /** A relative image under a plain path lands in the repository's `main`
      branch: the base URL followed by the path without its leading `/`. */
  lemma PlainPathUnderBase(p: string, owner: string, repoName: string, resolve: string -> Option<string>)
    requires owner != "" && repoName != "" && PlainSegment(owner) && PlainSegment(repoName)
    requires PlainPath(p)
    ensures ImageSrc(Some(p), owner, repoName, resolve) == Some(RawBase(owner, repoName) + p)
    ensures ImageSrc(Some("/" + p), owner, repoName, resolve) == Some(RawBase(owner, repoName) + p)
  {
    AbsoluteIsNotPlain(p);
    assert !IsAbsolute("/" + p) by { assert ("/" + p)[0] == '/'; }
    assert StartsWith("/" + p, "/");
    assert ("/" + p)[1..] == p;
  }

  /** The first `/`-separated piece of `s` keeps any prefix of `s` free of
      `/`. */
  lemma FirstPieceKeepsPrefix(s: string, n: nat)
    requires n <= |s| && '/' !in s[..n]
    ensures |Split(s, "/")[0]| >= n && Split(s, "/")[0][..n] == s[..n]
  {
    IndexOfChar(s, '/');
    var i := IndexOf(s, "/");
    if i != -1 {
      forall j | 0 <= j < n ensures s[j] != '/' {
        assert s[j] == s[..n][j];
      }
      assert Split(s, "/")[0] == s[..i];
    }
  }

  /** An `http://` or `https://` URL is never a plain path: its first
      segment holds the scheme's `:`. */
  lemma AbsoluteIsNotPlain(p: string)
    ensures IsAbsolute(p) ==> !PlainPath(p)
  {
    var first := Split(p, "/")[0];
    if StartsWith(p, "http://") {
      assert p[..7] == "http://";
      assert p[..5] == "http:";
      FirstPieceKeepsPrefix(p, 5);
      assert first[4] == ':';
    } else if StartsWith(p, "https://") {
      assert p[..8] == "https://";
      assert p[..6] == "https:";
      FirstPieceKeepsPrefix(p, 6);
      assert first[5] == ':';
    }
  }

  /** A path the resolver rejects becomes the error URL. */
  lemma ResolutionFailure(src: string, owner: string, repoName: string, resolve: string -> Option<string>)
    requires Rewrites(Some(src), owner, repoName)
    requires !(PlainPath(StripLeadingSlash(src)) && PlainSegment(owner) && PlainSegment(repoName))
    requires resolve(StripLeadingSlash(src)) == None
    ensures ImageSrc(Some(src), owner, repoName, resolve) == Some(ImageErrorUrl)
  {
  }

  // ---------------------------------------------------------------------
  // The image component and the component map

  /** The attributes `ImageComponent` renders before the caller's props. */
  datatype ImageAttrs = ImageAttrs(src: Option<string>, className: string, alt: string, loading: string)

  function RepositoryImage(src: Option<string>, caller: MdxComponents.ClassArg, alt: Option<string>,
                           owner: string, repoName: string, resolve: string -> Option<string>): (a: ImageAttrs)
    ensures a.loading == "lazy"
    ensures a.alt == "" <==> alt.None? || alt.value == ""
  {
    ImageAttrs(ImageSrc(src, owner, repoName, resolve),
               MdxComponents.ElementClass("img", caller),
               MdxComponents.AltText(alt),
               "lazy")
  }

  /** Apart from its `src` and lazy loading, the repository image looks like
      the generic `img` override: the same classes and the same `alt`. */
  lemma RepositoryImageLooksLikeImg(src: Option<string>, caller: MdxComponents.ClassArg, alt: Option<string>,
                                    owner: string, repoName: string, resolve: string -> Option<string>)
    ensures var a := RepositoryImage(src, caller, alt, owner, repoName, resolve);
      a.className == (if MdxComponents.Truthy(caller)
                      then "rounded-md border border-zinc-700 my-4 max-w-full h-auto " + caller.s
                      else "rounded-md border border-zinc-700 my-4 max-w-full h-auto")
      && a.alt == (if alt.Some? then alt.value else "")
  {
    MdxComponents.ElementClassStartsWithBase("img", caller);
  }

  /** `{...customMdxComponents, img: ImageComponent}`. */
  function ComponentsForRender(): (m: map<string, MdxComponents.ComponentRef>)
  {
    MdxComponents.CustomComponents()["img" := MdxComponents.RepositoryImage]
  }

  /** Only `img` is replaced: the same elements, each other one rendered by
      its generic override. */
  lemma OnlyImageReplaced()
    ensures ComponentsForRender().Keys == MdxComponents.CustomComponents().Keys
    ensures ComponentsForRender()["img"] == MdxComponents.RepositoryImage
    ensures forall t :: t in ComponentsForRender() && t != "img" ==>
      ComponentsForRender()[t] == MdxComponents.CustomComponents()[t]
  {
    assert "img" in MdxComponents.Tags;
  }

  // ---------------------------------------------------------------------
  // Which view renders

  /** The repository as fetched; only what the page reads. */
  datatype Repository = Repository(name: string, htmlUrl: Option<string>, stars: int, description: Option<string>)

  /** The page's three outcomes. `Details` carries the README shown (if any)
      and the view counter's `slug` and `trackView`. */
  datatype Page =
    | ConfigError
    | NotFound(repoName: string)
    | Details(repo: Repository, readme: Option<string>, counterSlug: string, trackView: bool)

  function RenderPage(owner: string, repoName: string, details: Option<Repository>, readme: Option<string>)
    : (p: Page)
  {
    if owner == "" then ConfigError
    else if details.None? then NotFound(repoName)
    else Details(details.value, if readme.Some? && readme.value != "" then readme else None, repoName, true)
  }

  /** A missing owner wins over everything fetched; otherwise a missing
      repository gives the not-found view; an empty README shows the
      no-README message; the counter always tracks the page's repository. */
  lemma PageBranches(owner: string, repoName: string, details: Option<Repository>, readme: Option<string>)
    ensures RenderPage(owner, repoName, details, readme).ConfigError? <==> owner == ""
    ensures RenderPage(owner, repoName, details, readme).NotFound? <==> owner != "" && details.None?
    ensures RenderPage(owner, repoName, details, readme).Details? ==>
      var p := RenderPage(owner, repoName, details, readme);
      p.repo == details.value
      && (p.readme.Some? <==> readme.Some? && readme.value != "")
      && (p.readme.Some? ==> p.readme == readme)
      && (ViewCounter.ShouldTrack(Some(p.trackView), false, p.counterSlug) <==> repoName != "")
  {
  }
}
