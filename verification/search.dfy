/** Substring search and removal with JavaScript's first-occurrence semantics. */
module Strings {
  import opened Optional

  /** pat occurs in s starting at index i. */
  ghost predicate OccursAt(s: string, pat: string, i: int) {
    0 <= i && i + |pat| <= |s| && s[i..i + |pat|] == pat
  }

  function IndexFrom(s: string, pat: string, k: nat): (r: Option<nat>)
    requires k <= |s|
    ensures r.Some? ==> k <= r.value && OccursAt(s, pat, r.value)
    ensures r.Some? ==> forall j :: k <= j < r.value ==> !OccursAt(s, pat, j)
    ensures r.None? <==> forall j :: k <= j ==> !OccursAt(s, pat, j)
    decreases |s| - k
  {
    if k + |pat| > |s| then None
    else if s[k..k + |pat|] == pat then assert OccursAt(s, pat, k); Some(k)
    else IndexFrom(s, pat, k + 1)
  }

  /** The index of the first occurrence of pat in s, like `s.indexOf(pat)`. */
  function IndexOf(s: string, pat: string): (r: Option<nat>)
    ensures r.Some? ==> OccursAt(s, pat, r.value) && forall j :: 0 <= j < r.value ==> !OccursAt(s, pat, j)
    ensures r.None? <==> forall j :: 0 <= j ==> !OccursAt(s, pat, j)
  {
    IndexFrom(s, pat, 0)
  }

  /** `s.replace(pat, "")`: the first occurrence of pat is cut out; s is
      returned as it was when pat does not occur. */
  function RemoveFirst(s: string, pat: string): string {
    match IndexOf(s, pat)
    case None => s
    case Some(i) => s[..i] + s[i + |pat|..]
  }

  /** Putting the pattern back where it was cut out gives the original string,
      and the result is shorter by exactly the pattern. */
  lemma RemoveFirstInverse(s: string, pat: string)
    ensures IndexOf(s, pat).None? ==> RemoveFirst(s, pat) == s
    ensures IndexOf(s, pat).Some? ==>
      var i := IndexOf(s, pat).value;
      && RemoveFirst(s, pat)[..i] + pat + RemoveFirst(s, pat)[i..] == s
      && |RemoveFirst(s, pat)| == |s| - |pat|
  {
  }

  /** Removing the empty string changes nothing: it occurs at index 0. */
  lemma RemoveEmpty(s: string)
    ensures RemoveFirst(s, "") == s
  {
  }
}

/**
 The search box of the header: the typed query, the results dropdown and the
 router pushes it makes. The 300 ms debounce and the file search itself are
 not modelled: the debounced query and the documents the search returned are
 supplied by the caller.
 */
module Search {
  import opened Optional
  import opened Strings

  datatype FileDoc = FileDoc(id: string, fileType: string, name: string)

  datatype SearchBox = SearchBox(query: string, results: seq<FileDoc>, open: bool, pushed: seq<string>)

  const QueryParam: string := "?query="

  function Initial(): (s: SearchBox)
    ensures s.query == "" && s.results == [] && !s.open && s.pushed == []
  {
    SearchBox("", [], false, [])
  }

  /** The listing page a file type is shown on: video and audio share the media
      page, every other type has a page named by its plural. */
  function PageSegment(fileType: string): (r: string)
    ensures fileType == "video" || fileType == "audio" ==> r == "media"
    ensures fileType != "video" && fileType != "audio" ==> r == fileType + "s"
  {
    if fileType == "video" || fileType == "audio" then "media" else fileType + "s"
  }

  /** The route a clicked result leads to, carrying the current query as it
      was typed (it is not URL-encoded). */
  function ResultRoute(fileType: string, query: string): string {
    "/" + PageSegment(fileType) + QueryParam + query
  }

  /** Reads a route of the form "/<segment>?query=<query>" back into its
      segment and query, splitting at the first '?'. */
  function ParseRoute(route: string): Option<(string, string)> {
    if |route| == 0 || route[0] != '/' then None
    else
      match IndexOf(route, "?")
      case None => None
      case Some(i) =>
        var rest := route[i..];
        if |rest| >= |QueryParam| && rest[..|QueryParam|] == QueryParam
        then Some((route[1..i], rest[|QueryParam|..]))
        else None
  }

  /** The route of a result names the page for its type and the query
      unchanged, as long as the type holds no '?'. */
  lemma RouteRoundTrip(fileType: string, query: string)
    requires '?' !in fileType
    ensures ParseRoute(ResultRoute(fileType, query)) == Some((PageSegment(fileType), query))
  {
    var seg := PageSegment(fileType);
    assert '?' !in seg by {
      if seg != "media" {
        assert seg == fileType + "s";
        forall k | 0 <= k < |seg| ensures seg[k] != '?' {
          if k < |fileType| { assert seg[k] == fileType[k]; }
        }
      }
    }
    var route := ResultRoute(fileType, query);
    var n := 1 + |seg|;
    assert route == ("/" + seg) + (QueryParam + query);
    assert route[..n] == "/" + seg;
    assert route[n..] == QueryParam + query;
    assert OccursAt(route, "?", n) by {
      assert route[n..n + 1] == route[n..][..1];
    }
    forall j | 0 <= j < n ensures !OccursAt(route, "?", j) {
      assert route[j] == ("/" + seg)[j];
      if j > 0 { assert route[j] == seg[j - 1]; }
      assert route[j..j + 1] == [route[j]];
    }
    var i := IndexOf(route, "?").value;
    assert i == n;
    assert route[1..n] == seg;
  }

  /** The effect run when the debounced query changes. An empty query clears
      and closes the dropdown without searching and pushes the current path
      with the search-parameter string cut out of it. Otherwise the documents
      the search returned become the results and the dropdown opens; a search
      that failed (`fetched` is None) leaves everything as it was. */
  function OnDebouncedQuery(s: SearchBox, debounced: string, path: string, params: string,
                            fetched: Option<seq<FileDoc>>): (r: SearchBox)
    ensures r.query == s.query
    ensures |debounced| == 0 ==>
      r.results == [] && !r.open && r.pushed == s.pushed + [RemoveFirst(path, params)]
    ensures |debounced| > 0 && fetched.Some? ==>
      r.results == fetched.value && r.open && r.pushed == s.pushed
    ensures |debounced| > 0 && fetched.None? ==> r == s
  {
    if |debounced| == 0 then
      s.(results := [], open := false, pushed := s.pushed + [RemoveFirst(path, params)])
    else
      match fetched
      case None => s
      case Some(docs) => s.(results := docs, open := true)
  }

  /** The effect run when the URL's `query` parameter changes: a missing or
      empty parameter resets the typed query, anything else leaves it. */
  function OnSearchParam(s: SearchBox, param: Option<string>): (r: SearchBox)
    ensures param.GetOr("") == "" ==> r == s.(query := "")
    ensures param.GetOr("") != "" ==> r == s
  {
    var searchQuery := param.GetOr("");
    if searchQuery == "" then s.(query := "") else s
  }

  /** Clicking a result: the dropdown closes and empties, and the router goes
      to the result's listing page with the typed query. */
  function ClickItem(s: SearchBox, file: FileDoc): (r: SearchBox)
    ensures !r.open && r.results == [] && r.query == s.query
    ensures r.pushed == s.pushed + [ResultRoute(file.fileType, s.query)]
  {
    s.(open := false, results := [], pushed := s.pushed + [ResultRoute(file.fileType, s.query)])
  }

  /** The route a click pushes reads back as the page for the file's type and
      the query currently typed, not the debounced one. */
  lemma ClickRouteCarriesQuery(s: SearchBox, file: FileDoc)
    requires '?' !in file.fileType
    ensures var r := ClickItem(s, file);
            ParseRoute(r.pushed[|r.pushed| - 1]) == Some((PageSegment(file.fileType), s.query))
  {
    RouteRoundTrip(file.fileType, s.query);
  }

  /** Media files of either kind lead to the same page, whatever the query. */
  lemma MediaTypesShareRoute(query: string)
    ensures ResultRoute("video", query) == ResultRoute("audio", query) == "/media?query=" + query
  {
  }

  /** With no search parameter in the URL, the effect leaves a path without one
      unchanged (an empty parameter string is removed at index 0). */
  lemma EmptyQueryKeepsBarePath(s: SearchBox, path: string, fetched: Option<seq<FileDoc>>)
    ensures var r := OnDebouncedQuery(s, "", path, "", fetched);
            r.pushed == s.pushed + [path] && !r.open && r.results == []
  {
    RemoveEmpty(path);
  }
}
