/** The repository view counter (`ViewCounter.tsx`): reading the visitor's
    `uniqueId` cookie, choosing or creating the id, the `hasTracked` /
    `views` / `error` transitions around the tracking request, and what is
    displayed. The request, `uuidv4` and `Intl.NumberFormat` are foreign:
    the fresh id and the request's outcome are parameters, and the display
    keeps the count unformatted. */
module ViewCounter {
  import opened Wrappers
  import opened Strings

  const CookieName: string := "uniqueId="

  const TrackingError: string := "Couldn't update view count."

  /** The index of the first row that starts with `prefix`. */
  function FirstWithPrefix(rows: seq<string>, prefix: string): (k: Option<nat>)
    ensures k.Some? ==> k.value < |rows| && StartsWith(rows[k.value], prefix)
    ensures forall j :: 0 <= j < |rows| && (k.None? || j < k.value) ==> !StartsWith(rows[j], prefix)
  {
    if rows == [] then None
    else if StartsWith(rows[0], prefix) then Some(0)
    else
      var rest := FirstWithPrefix(rows[1..], prefix);
      if rest.None? then None else Some(rest.value + 1)
  }

  /** The pieces of a `uniqueId=` row: the name, then the value text. */
  lemma CookieRowPieces(row: string)
    requires StartsWith(row, CookieName)
    ensures |Split(row, "=")| >= 2
    ensures Split(row, "=")[1] == Split(row[|CookieName|..], "=")[0]
  {
    var n := |CookieName| - 1;
    assert row[..|CookieName|] == CookieName;
    assert OccursAt(row, "=", n) by { assert row[n..n + 1] == "="; }
    forall j | 0 <= j < n ensures !OccursAt(row, "=", j) {
      assert row[j..j + 1] == [row[j]];
      assert row[j] == CookieName[j];
    }
    IndexOfIsFirst(row, "=");
    var i := IndexOf(row, "=");
    assert i == n;
    assert Split(row, "=") == [row[..i]] + Split(row[i + 1..], "=");
  }

  /** `document.cookie.split('; ').find(row => row.startsWith('uniqueId='))
      ?.split('=')[1]`: the text between the first and the second `=` of the
      first such row. */
  function CookieUniqueId(jar: string): (id: Option<string>)
    ensures id.Some? ==> '=' !in id.value
  {
    var rows := Split(jar, "; ");
    var k := FirstWithPrefix(rows, CookieName);
    if k.None? then None
    else
      CookieRowPieces(rows[k.value]);
      SplitPiecesAvoidSeparator(rows[k.value], '=');
      Some(Split(rows[k.value], "=")[1])
  }

  /** A cookie jar whose first `uniqueId=` pair holds an id without `=` gives
      that id back. */
  lemma {:induction false} ReadsBackStoredId(pairs: seq<string>, k: nat, id: string)
    requires k < |pairs| && pairs[k] == CookieName + id
    requires '=' !in id
    requires forall j :: 0 <= j < |pairs| ==> ';' !in pairs[j]
    requires forall j :: 0 <= j < k ==> !StartsWith(pairs[j], CookieName)
    ensures CookieUniqueId(Join(pairs, "; ")) == Some(id)
  {
    SplitJoin(pairs, "; ");
    var rows := Split(Join(pairs, "; "), "; ");
    assert rows == pairs;
    assert StartsWith(pairs[k], CookieName) by {
      assert pairs[k][..|CookieName|] == CookieName;
    }
    assert FirstWithPrefix(rows, CookieName) == Some(k);
    CookieRowPieces(pairs[k]);
    assert pairs[k][|CookieName|..] == id;
    IndexOfChar(id, '=');
    assert Split(id, "=") == [id];
  }

  /** The attributes of the cookie written for a new id: a one-year
      lifetime (365 × 24 × 60 × 60 seconds), the whole site, same-site
      requests only, HTTPS only. */
  const CookieAttributes: seq<string> := ["max-age=31536000", "path=/", "SameSite=Strict", "Secure"]

  /** The cookie the component writes for a new id:
      `uniqueId=<id>; max-age=31536000; path=/; SameSite=Strict; Secure`. */
  function CookieAssignment(id: string): string
  {
    Join([CookieName + id] + CookieAttributes, "; ")
  }

  /** The id to send and the cookie to write, if any: a missing or empty id is
      replaced by the fresh one, which is then stored for a year. */
  function ChooseId(found: Option<string>, freshId: string): (string, Option<string>)
  {
    if found.None? || found.value == "" then (freshId, Some(CookieAssignment(freshId)))
    else (found.value, None)
  }

  /** Read as a list of `; `-separated pairs, the assignment starts with the
      id's pair and then its one-year lifetime. */
  lemma CookieAssignmentPairs(id: string)
    requires ';' !in id
    ensures Split(CookieAssignment(id), "; ") == [CookieName + id] + CookieAttributes
  {
    var pairs := [CookieName + id] + CookieAttributes;
    assert ';' !in CookieName + id;
    assert forall j :: 0 <= j < |CookieAttributes| ==> ';' !in CookieAttributes[j];
    assert forall j :: 0 <= j < |pairs| ==> "; "[0] !in pairs[j] by {
      forall j | 0 <= j < |pairs| ensures "; "[0] !in pairs[j] {
        if j > 0 {
          assert pairs[j] == CookieAttributes[j - 1];
        }
      }
    }
    SplitJoin(pairs, "; ");
  }

  /** The id written is the id sent, and the cookie stores it under
      `uniqueId` with a one-year lifetime. */
  lemma FreshIdIsStored(found: Option<string>, freshId: string)
    ensures var (id, write) := ChooseId(found, freshId);
      (write.Some? <==> found.None? || found.value == "")
      && (write.Some? ==> id == freshId)
      && (write.Some? && ';' !in freshId ==>
            Split(write.value, "; ")[0] == CookieName + freshId
            && Split(write.value, "; ")[1] == "max-age=31536000")
      && (write.None? ==> found == Some(id))
  {
    if ';' !in freshId {
      CookieAssignmentPairs(freshId);
    }
  }

  // ---------------------------------------------------------------------
  // The component

  /** State and the cookie assignments made so far. */
  datatype ViewState = ViewState(views: int, hasTracked: bool, error: Option<string>, cookieWrites: seq<string>)

  /** What the component posts: the slug in the path and the id in the body. */
  datatype TrackRequest = TrackRequest(slug: string, uniqueId: string)

  function Initial(initialViews: int): ViewState
  {
    ViewState(initialViews, false, None, [])
  }

  /** The effect's guard; `trackView` defaults to false. */
  predicate ShouldTrack(trackView: Option<bool>, hasTracked: bool, slug: string)
  {
    trackView.GetOr(false) && !hasTracked && slug != ""
  }

  /** `trackViewOnClient` up to the request. */
  function Start(s: ViewState, trackView: Option<bool>, slug: string, jar: string, freshId: string)
    : (ViewState, Option<TrackRequest>)
  {
    if !ShouldTrack(trackView, s.hasTracked, slug) then (s, None)
    else
      var (id, write) := ChooseId(CookieUniqueId(jar), freshId);
      (s.(error := None, hasTracked := true,
          cookieWrites := s.cookieWrites + (if write.Some? then [write.value] else [])),
       Some(TrackRequest(slug, id)))
  }

  /** The request settled: `Some(views)` from a successful response, `None`
      for any failure. */
  function Finish(s: ViewState, outcome: Option<int>): ViewState
  {
    match outcome
    case Some(v) => s.(views := v)
    case None => s.(error := Some(TrackingError), hasTracked := false)
  }

  /** What is shown: a dash on error, the count otherwise. */
  datatype Display = Dash | Count(views: int)

  function DisplayFor(s: ViewState): (d: Display)
    ensures d == Dash <==> s.error.Some?
  {
    if s.error.Some? then Dash else Count(s.views)
  }

  /** A successful round counts once: the view total is the server's, no
      error shows, and the guard keeps the effect from tracking again. */
  lemma SuccessTracksOnce(s: ViewState, trackView: Option<bool>, slug: string, jar: string, freshId: string, v: int)
    requires Start(s, trackView, slug, jar, freshId).1.Some?
    ensures var t := Finish(Start(s, trackView, slug, jar, freshId).0, Some(v));
      t.views == v && DisplayFor(t) == Count(v) && t.hasTracked
      && Start(t, trackView, slug, jar, freshId) == (t, None)
  {
  }

  /** A failed round keeps the old count, shows the dash, and re-arms the
      guard so the effect may try again. */
  lemma FailureAllowsRetry(s: ViewState, trackView: Option<bool>, slug: string, jar: string, freshId: string)
    requires Start(s, trackView, slug, jar, freshId).1.Some?
    ensures var t := Finish(Start(s, trackView, slug, jar, freshId).0, None);
      t.views == s.views && DisplayFor(t) == Dash && ShouldTrack(trackView, t.hasTracked, slug)
  {
  }

  /** Nothing happens without `trackView`, after tracking, or for an empty
      slug. */
  lemma StartGuard(s: ViewState, trackView: Option<bool>, slug: string, jar: string, freshId: string)
    ensures Start(s, trackView, slug, jar, freshId).1.Some?
      <==> trackView == Some(true) && !s.hasTracked && slug != ""
    ensures Start(s, trackView, slug, jar, freshId).1.None? ==> Start(s, trackView, slug, jar, freshId).0 == s
  {
  }

  class ViewCounterComponent {
    var views: int
    var hasTracked: bool
    var error: Option<string>
    var cookieWrites: seq<string>

    function State(): ViewState
      reads this
    {
      ViewState(views, hasTracked, error, cookieWrites)
    }

    constructor (initialViews: int)
      ensures State() == Initial(initialViews)
    {
      views, hasTracked, error, cookieWrites := initialViews, false, None, [];
    }

    method StartTracking(trackView: Option<bool>, slug: string, jar: string, freshId: string)
      returns (request: Option<TrackRequest>)
      modifies this
      ensures (State(), request) == Start(old(State()), trackView, slug, jar, freshId)
    {
      if !(trackView.GetOr(false) && !hasTracked && slug != "") {
        return None;
      }
      error := None;
      var uniqueId := CookieUniqueId(jar);
      var id: string;
      if uniqueId.None? || uniqueId.value == "" {
        id := freshId;
        cookieWrites := cookieWrites + [CookieAssignment(freshId)];
        assert ChooseId(uniqueId, freshId) == (freshId, Some(CookieAssignment(freshId)));
      } else {
        id := uniqueId.value;
        assert ChooseId(uniqueId, freshId) == (id, None);
        assert cookieWrites == old(cookieWrites) + [];
      }
      hasTracked := true;
      request := Some(TrackRequest(slug, id));
    }

    method FinishTracking(outcome: Option<int>)
      modifies this
      ensures State() == Finish(old(State()), outcome)
    {
      if outcome.Some? {
        views := outcome.value;
      } else {
        error := Some(TrackingError);
        hasTracked := false;
      }
    }
  }
}
