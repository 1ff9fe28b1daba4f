/** The projects page (`projects/page.tsx`): the view counts read from the
    `pageviews` collection, the list of other projects (published, without
    the three featured ones, newest first), its split into three columns,
    and which view renders. Firestore is foreign: the fetch outcome is a
    parameter. */
module ProjectsPage {
  import opened Wrappers
  import ContentConfig

  type Project = ContentConfig.Project

  // ---------------------------------------------------------------------
  // View counts

  /** One document of `pageviews`: its id and its `views` field (`None` for
      missing or falsy). */
  datatype ViewDoc = ViewDoc(id: string, views: Option<int>)

  /** `viewsData` after the first `n` documents: each id maps to its `views`,
      or 0; a later document with the same id overwrites an earlier one. */
  function ViewsData(docs: seq<ViewDoc>): map<string, int>
  {
    if docs == [] then map[]
    else
      var last := docs[|docs| - 1];
      ViewsData(docs[..|docs| - 1])[last.id := last.views.GetOr(0)]
  }

  /** The index of the last document with `id`, or -1. */
  function LastWithId(docs: seq<ViewDoc>, id: string): (k: int)
    ensures -1 <= k < |docs|
    ensures k >= 0 ==> docs[k].id == id
    ensures forall j :: k < j < |docs| ==> docs[j].id != id
  {
    if docs == [] then -1
    else if docs[|docs| - 1].id == id then |docs| - 1
    else LastWithId(docs[..|docs| - 1], id)
  }

  /** The map holds exactly the ids of the documents, each with the count of
      the last document carrying it. */
  lemma {:induction false} ViewsDataLastWins(docs: seq<ViewDoc>, id: string)
    ensures id in ViewsData(docs) <==> LastWithId(docs, id) >= 0
    ensures id in ViewsData(docs) ==> ViewsData(docs)[id] == docs[LastWithId(docs, id)].views.GetOr(0)
  {
    if docs != [] {
      ViewsDataLastWins(docs[..|docs| - 1], id);
    }
  }

  /** `snapshot.forEach(doc => viewsData[doc.id] = doc.data().views || 0)`. */
  method BuildViews(docs: seq<ViewDoc>) returns (viewsData: map<string, int>)
    ensures viewsData == ViewsData(docs)
  {
    viewsData := map[];
    var i := 0;
    while i < |docs|
      invariant 0 <= i <= |docs|
      invariant viewsData == ViewsData(docs[..i])
    {
      assert docs[..i + 1][..i] == docs[..i];
      viewsData := viewsData[docs[i].id := docs[i].views.GetOr(0)];
      i := i + 1;
    }
    assert docs[..|docs|] == docs;
  }

  /** `views ? views[slug] ?? 0 : 0`. */
  function DisplayedViews(views: Option<map<string, int>>, slug: string): (n: int)
  {
    if views.Some? && slug in views.value then views.value[slug] else 0
  }

  /** A card shows the count of the last document for its slug, and 0 when
      no document has it or the counts have not arrived. */
  lemma {:induction false} CardViews(docs: seq<ViewDoc>, slug: string)
    ensures DisplayedViews(None, slug) == 0
    ensures var k := LastWithId(docs, slug);
      DisplayedViews(Some(ViewsData(docs)), slug) == if k == -1 then 0 else docs[k].views.GetOr(0)
  {
    ViewsDataLastWins(docs, slug);
  }

  // ---------------------------------------------------------------------
  // The list of other projects

  const FeaturedSlug: string := "airbnb_clone"
  const Top2Slug: string := "printf"
  const Top3Slug: string := "ntp_server"

  /** `allProjects.find(p => p.slug === slug)`: the first project with the
      slug, which matters when two content files share one. */
  function Find(all: seq<Project>, slug: string): (r: Option<Project>)
    ensures r.Some? ==> r.value in all && r.value.slug == slug
    ensures r.Some? ==> exists k :: 0 <= k < |all| && all[k] == r.value
                                   && forall j :: 0 <= j < k ==> all[j].slug != slug
    ensures r.None? ==> forall k :: 0 <= k < |all| ==> all[k].slug != slug
  {
    if all == [] then None
    else if all[0].slug == slug then Some(all[0])
    else
      var r := Find(all[1..], slug);
      if r.Some? then
        var k :| 0 <= k < |all[1..]| && all[1..][k] == r.value
                 && forall j :: 0 <= j < k ==> all[1..][j].slug != slug;
        assert all[k + 1] == r.value;
        assert forall j :: 0 <= j < k + 1 ==> all[j].slug != slug by {
          forall j | 0 < j < k + 1 ensures all[j].slug != slug {
            assert all[j] == all[1..][j - 1];
          }
        }
        r
      else r
  }

  /** `.filter(p => p.published)`. */
  function Published(all: seq<Project>): (r: seq<Project>)
    ensures forall p :: p in r <==> p in all && p.published
  {
    if all == [] then []
    else (if all[0].published then [all[0]] else []) + Published(all[1..])
  }

  /** The second filter's test for one project: `featured.slug`, `top2.slug`
      and `top3.slug` are read in turn, so a missing featured project throws
      (`None`) as soon as the test reaches it. */
  function NotFeatured(p: Project, featured: bool, top2: bool, top3: bool): Option<bool>
  {
    if !featured then None
    else if p.slug == FeaturedSlug then Some(false)
    else if !top2 then None
    else if p.slug == Top2Slug then Some(false)
    else if !top3 then None
    else Some(p.slug != Top3Slug)
  }

  /** The second filter, `None` when a test throws. */
  function WithoutFeatured(ps: seq<Project>, featured: bool, top2: bool, top3: bool): (r: Option<seq<Project>>)
    ensures featured && top2 && top3 ==> r.Some?
    ensures r.Some? ==> forall p :: p in r.value <==>
      p in ps && p.slug != FeaturedSlug && p.slug != Top2Slug && p.slug != Top3Slug
    ensures r.Some? ==> multiset(r.value) <= multiset(ps)
  {
    if ps == [] then Some([])
    else
      var keep := NotFeatured(ps[0], featured, top2, top3);
      var rest := WithoutFeatured(ps[1..], featured, top2, top3);
      if keep.None? || rest.None? then None
      else
        assert ps == [ps[0]] + ps[1..];
        Some((if keep.value then [ps[0]] else []) + rest.value)
  }

  // Ordering. The comparator is `date(b) - date(a)` with a missing date read
  // as `+Infinity`, whose `Date` is invalid, so any comparison with an
  // undated project is `NaN` and counts as equal.

  /** The comparator is positive: `a` goes after `b`. */
  predicate After(a: Project, b: Project)
  {
    a.date.Some? && b.date.Some? && b.date.value > a.date.value
  }

  /** Stable insertion of `x` after every element it does not precede. */
  function Insert(x: Project, s: seq<Project>): (r: seq<Project>)
    ensures multiset(r) == multiset(s) + multiset{x}
  {
    if s == [] then [x]
    else if After(s[0], x) then [x] + s
    else
      assert s == [s[0]] + s[1..];
      [s[0]] + Insert(x, s[1..])
  }

  /** A stable insertion sort with the page's comparator; when every project
      is dated it is the order `Array.prototype.sort` must produce. */
  function SortByDate(s: seq<Project>): (r: seq<Project>)
    ensures multiset(r) == multiset(s)
  {
    if s == [] then []
    else
      assert s == s[..|s| - 1] + [s[|s| - 1]];
      Insert(s[|s| - 1], SortByDate(s[..|s| - 1]))
  }

  predicate AllDated(s: seq<Project>)
  {
    forall k :: 0 <= k < |s| ==> s[k].date.Some?
  }

  /** Newest first. */
  predicate NewestFirst(s: seq<Project>)
    requires AllDated(s)
  {
    forall i, j :: 0 <= i < j < |s| ==> s[i].date.value >= s[j].date.value
  }

  lemma {:induction false} InsertKeepsOrder(x: Project, s: seq<Project>)
    requires x.date.Some? && AllDated(s) && NewestFirst(s)
    ensures AllDated(Insert(x, s)) && NewestFirst(Insert(x, s))
  {
    if s == [] {
    } else if After(s[0], x) {
      var r := [x] + s;
      forall i, j | 0 <= i < j < |r| ensures r[i].date.value >= r[j].date.value {
        if i == 0 {
          assert r[j] == s[j - 1];
          assert s[0].date.value >= s[j - 1].date.value;
        } else {
          assert r[i] == s[i - 1] && r[j] == s[j - 1];
        }
      }
    } else {
      var tail := s[1..];
      assert AllDated(tail) && NewestFirst(tail) by {
        forall i, j | 0 <= i < j < |tail| ensures tail[i].date.value >= tail[j].date.value {
          assert tail[i] == s[i + 1] && tail[j] == s[j + 1];
        }
      }
      InsertKeepsOrder(x, tail);
      var t := Insert(x, tail);
      HeadBoundsTail(s[0], x, tail);
      var r := [s[0]] + t;
      forall i, j | 0 <= i < j < |r| ensures r[i].date.value >= r[j].date.value {
        if i == 0 {
          assert r[j] == t[j - 1];
        } else {
          assert r[i] == t[i - 1] && r[j] == t[j - 1];
        }
      }
    }
  }

  /** An element no later than `h` inserted into a list no later than `h`
      gives a list no later than `h`. */
  lemma HeadBoundsTail(h: Project, x: Project, tail: seq<Project>)
    requires h.date.Some? && x.date.Some? && x.date.value <= h.date.value
    requires forall k :: 0 <= k < |tail| ==> tail[k].date.Some? && tail[k].date.value <= h.date.value
    ensures forall k :: 0 <= k < |Insert(x, tail)| ==>
      Insert(x, tail)[k].date.Some? && Insert(x, tail)[k].date.value <= h.date.value
  {
    var t := Insert(x, tail);
    forall k | 0 <= k < |t| ensures t[k].date.Some? && t[k].date.value <= h.date.value {
      assert t[k] in multiset(t);
      assert t[k] == x || t[k] in multiset(tail);
      if t[k] != x {
        assert t[k] in tail;
      }
    }
  }

  /** When every project is dated the list is newest first. */
  lemma {:induction false} SortedNewestFirst(s: seq<Project>)
    requires AllDated(s)
    ensures AllDated(SortByDate(s)) && NewestFirst(SortByDate(s))
  {
    if s != [] {
      SortedNewestFirst(s[..|s| - 1]);
      InsertKeepsOrder(s[|s| - 1], SortByDate(s[..|s| - 1]));
    }
  }

  /** `sorted`, or `None` when the page throws while computing it. */
  function SortedProjects(all: seq<Project>): Option<seq<Project>>
  {
    var filtered := WithoutFeatured(Published(all), Find(all, FeaturedSlug).Some?,
                                    Find(all, Top2Slug).Some?, Find(all, Top3Slug).Some?);
    if filtered.None? then None else Some(SortByDate(filtered.value))
  }

  predicate Other(all: seq<Project>, p: Project)
  {
    p in all && p.published && p.slug != FeaturedSlug && p.slug != Top2Slug && p.slug != Top3Slug
  }

  /** Sorting keeps the same projects. */
  lemma SortKeepsMembers(xs: seq<Project>)
    ensures forall p :: p in SortByDate(xs) <==> p in xs
    ensures AllDated(SortByDate(xs)) ==> AllDated(xs)
  {
    var s := SortByDate(xs);
    forall p ensures p in s <==> p in xs {
      assert p in s <==> p in multiset(s);
      assert p in xs <==> p in multiset(xs);
    }
    if AllDated(s) {
      forall k | 0 <= k < |xs| ensures xs[k].date.Some? {
        assert xs[k] in s;
      }
    }
  }

  /** With the three featured projects present, `sorted` is a rearrangement
      of exactly the other published projects, newest first when all are
      dated. Without the featured project, any published project makes the
      page throw. */
  lemma SortedContents(all: seq<Project>)
    ensures Find(all, FeaturedSlug).Some? && Find(all, Top2Slug).Some? && Find(all, Top3Slug).Some?
      ==> SortedProjects(all).Some?
    ensures SortedProjects(all).Some? ==>
      (forall p :: p in SortedProjects(all).value <==> Other(all, p))
      && multiset(SortedProjects(all).value) <= multiset(Published(all))
      && (AllDated(SortedProjects(all).value) ==> NewestFirst(SortedProjects(all).value))
    ensures Find(all, FeaturedSlug).None? && Published(all) != [] ==> SortedProjects(all).None?
  {
    var filtered := WithoutFeatured(Published(all), Find(all, FeaturedSlug).Some?,
                                    Find(all, Top2Slug).Some?, Find(all, Top3Slug).Some?);
    if filtered.Some? {
      SortKeepsMembers(filtered.value);
      if AllDated(SortByDate(filtered.value)) {
        SortedNewestFirst(filtered.value);
      }
    }
  }

  // ---------------------------------------------------------------------
  // Three columns

  /** `sorted.filter((_, i) => i % 3 === k)` over the first `n` entries. */
  function ColumnUpTo(s: seq<Project>, k: nat, n: nat): seq<Project>
    requires n <= |s|
  {
    if n == 0 then []
    else ColumnUpTo(s, k, n - 1) + (if (n - 1) % 3 == k then [s[n - 1]] else [])
  }

  function Column(s: seq<Project>, k: nat): seq<Project>
  {
    ColumnUpTo(s, k, |s|)
  }

  /** Column `k` of the first `n` entries holds, in order, the entries at
      `k`, `k + 3`, `k + 6`, ...: `(n - k + 2) / 3` of them. */
  lemma {:induction false} ColumnUpToShape(s: seq<Project>, k: nat, n: nat)
    requires k < 3 && n <= |s|
    ensures |ColumnUpTo(s, k, n)| == (n - k + 2) / 3
    ensures forall j :: 0 <= j < |ColumnUpTo(s, k, n)| ==> 3 * j + k < n && ColumnUpTo(s, k, n)[j] == s[3 * j + k]
  {
    if n > 0 {
      ColumnUpToShape(s, k, n - 1);
      var m := n - 1;
      var q := m / 3;
      assert m == 3 * q + m % 3;
      if m % 3 == k {
        assert (n - k + 2) / 3 == q + 1;
        assert (m - k + 2) / 3 == q;
      } else {
        assert (n - k + 2) / 3 == (m - k + 2) / 3;
      }
    }
  }

  /** Entry `i` of `sorted` is entry `i / 3` of column `i % 3`. */
  lemma ColumnOfIndex(s: seq<Project>, i: nat)
    requires i < |s|
    ensures i / 3 < |Column(s, i % 3)| && Column(s, i % 3)[i / 3] == s[i]
  {
    ColumnUpToShape(s, i % 3, |s|);
    assert i == 3 * (i / 3) + i % 3;
  }

  /** How `n` entries fall into the three columns. */
  lemma ColumnSizes(n: nat)
    ensures (n + 2) / 3 + (n + 1) / 3 + n / 3 == n
    ensures n / 3 <= (n + 1) / 3 <= (n + 2) / 3 <= n / 3 + 1
  {
    var q := n / 3;
    assert n == 3 * q + n % 3;
  }

  /** The columns cover `sorted`: entry `i` is entry `i / 3` of column
      `i % 3`. */
  lemma ColumnsCover(s: seq<Project>)
    ensures forall i :: 0 <= i < |s| ==> i / 3 < |Column(s, i % 3)| && Column(s, i % 3)[i / 3] == s[i]
  {
    forall i | 0 <= i < |s| ensures i / 3 < |Column(s, i % 3)| && Column(s, i % 3)[i / 3] == s[i] {
      ColumnOfIndex(s, i);
    }
  }

  /** Column `k` holds, in order, nothing but the entries at `k`, `k + 3`,
      `k + 6`, ... */
  lemma ColumnEntries(s: seq<Project>, k: nat)
    requires k < 3
    ensures |Column(s, k)| == (|s| - k + 2) / 3
    ensures forall j :: 0 <= j < |Column(s, k)| ==> 3 * j + k < |s| && Column(s, k)[j] == s[3 * j + k]
  {
    ColumnUpToShape(s, k, |s|);
  }

  /** The column sizes add up to the list's and differ by at most one, the
      earlier columns being the longer. */
  lemma ColumnsBalanced(s: seq<Project>)
    ensures |Column(s, 0)| + |Column(s, 1)| + |Column(s, 2)| == |s|
    ensures |Column(s, 2)| <= |Column(s, 1)| <= |Column(s, 0)| <= |Column(s, 2)| + 1
  {
    ColumnUpToShape(s, 0, |s|);
    ColumnUpToShape(s, 1, |s|);
    ColumnUpToShape(s, 2, |s|);
    ColumnSizes(|s|);
  }

  // ---------------------------------------------------------------------
  // The page

  const LoadError: string := "Ocurrió un error al cargar los proyectos. Por favor, inténtalo de nuevo más tarde."

  datatype PageState = PageState(views: Option<map<string, int>>, isLoading: bool, error: Option<string>)

  /** What renders. `Crashed` stands for the exception from reading the slug
      of a missing featured project. */
  datatype View =
    | Loading
    | ErrorView(message: string)
    | Crashed
    | Grid(featured: Project, tops: seq<Project>, columns: seq<seq<Project>>)

  function Render(st: PageState, all: seq<Project>): View
  {
    var sorted := SortedProjects(all);
    if sorted.None? then Crashed
    else if st.isLoading then Loading
    else if st.error.Some? then ErrorView(st.error.value)
    else
      var featured, top2, top3 := Find(all, FeaturedSlug), Find(all, Top2Slug), Find(all, Top3Slug);
      if featured.None? || top2.None? || top3.None? then Crashed
      else Grid(featured.value, [top2.value, top3.value],
                [Column(sorted.value, 0), Column(sorted.value, 1), Column(sorted.value, 2)])
  }

  /** A failed fetch sets only the error, so the page keeps showing the
      loading view and the error view is never reached from the start. */
  lemma FailureKeepsLoading(all: seq<Project>)
    requires SortedProjects(all).Some?
    ensures var st := PageState(None, true, Some(LoadError));
      Render(st, all) == Loading
    ensures forall msg :: Render(PageState(None, true, msg), all) == Loading
  {
  }

  /** After a successful fetch the grid shows, with the featured projects
      present, and each card reads its count from the documents. */
  lemma SuccessShowsGrid(all: seq<Project>, docs: seq<ViewDoc>)
    requires Find(all, FeaturedSlug).Some? && Find(all, Top2Slug).Some? && Find(all, Top3Slug).Some?
    ensures Render(PageState(Some(ViewsData(docs)), false, None), all).Grid?
    ensures Render(PageState(Some(ViewsData(docs)), false, None), all).featured.slug == FeaturedSlug
  {
    SortedContents(all);
  }

  class ProjectsPageComponent {
    var views: Option<map<string, int>>
    var isLoading: bool
    var error: Option<string>

    function State(): PageState
      reads this
    {
      PageState(views, isLoading, error)
    }

    constructor ()
      ensures State() == PageState(None, true, None)
    {
      views, isLoading, error := None, true, None;
    }

    /** The fetch returned the documents. */
    method FetchSucceeded(docs: seq<ViewDoc>)
      modifies this
      ensures State() == PageState(Some(ViewsData(docs)), false, old(error))
    {
      var viewsData := BuildViews(docs);
      views := Some(viewsData);
      isLoading := false;
    }

    /** The fetch threw: only the error is set. */
    method FetchFailed()
      modifies this
      ensures State() == old(State()).(error := Some(LoadError))
    {
      error := Some(LoadError);
    }
  }
}
