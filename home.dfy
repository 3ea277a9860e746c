/**
 * The `Home` page's view state: the address bar (path and query) and the React
 * `urlState`, changed by `updateUrl` and by the browser's back/forward navigation.
 */
module Page {
  import opened Wrappers
  import opened JsText
  import opened Catalog
  import opened UrlCodec
  import opened Resolver
  import opened Filtering
  import opened Selection

  /** Lines 299-313 of `updateUrl`: overlay the patch, then clear the conflicting fields. */
  method MergeState(currentState: UrlState, newState: Patch) returns (mergedState: UrlState)
    ensures mergedState == Resolve(currentState, newState)
  {
    mergedState := Overlay(currentState, newState);
    if newState.appId.Null? {
      mergedState := mergedState.(dev := None);
    }
    if DevSetTo(newState.dev) {
      mergedState := mergedState.(tab := AllApps);
      mergedState := mergedState.(appId := NoId);
      mergedState := mergedState.(search := "");
    }
    if Truthy(newState.tab) || Truthy(newState.search) {
      mergedState := mergedState.(appId := NoId);
    }
  }

  /** Lines 316-320 of `updateUrl`: `set` each key whose value is truthy, in order. */
  method BuildParams(mergedState: UrlState) returns (newParams: Query)
    ensures newParams == Encode(mergedState)
  {
    ghost var qt: Query := if mergedState.tab != "" && mergedState.tab != Featured then [("tab", mergedState.tab)] else [];
    ghost var qs: Query := if mergedState.search != "" then [("search", mergedState.search)] else [];
    ghost var qa: Query := if AppIdTruthy(mergedState.appId) then [("appId", IntToString(mergedState.appId.n))] else [];

    newParams := [];
    if mergedState.tab != "" && mergedState.tab != Featured {
      SetAbsentKeyAppends(newParams, "tab", mergedState.tab);
      newParams := SetParam(newParams, "tab", mergedState.tab);
    }
    assert newParams == qt;
    if mergedState.search != "" {
      SetAbsentKeyAppends(newParams, "search", mergedState.search);
      newParams := SetParam(newParams, "search", mergedState.search);
    }
    assert newParams == qt + qs;
    if AppIdTruthy(mergedState.appId) {
      SetAbsentKeyAppends(newParams, "appId", IntToString(mergedState.appId.n));
      newParams := SetParam(newParams, "appId", IntToString(mergedState.appId.n));
    }
    assert newParams == qt + qs + qa;
    if DevTruthy(mergedState.dev) {
      SetAbsentKeyAppends(newParams, "dev", mergedState.dev.value);
      newParams := SetParam(newParams, "dev", mergedState.dev.value);
    }
  }

  class Home {
    /** `window.location.pathname`, which the page never changes. */
    const pathname: string
    /** `window.location.search`, as `URLSearchParams` reads it. */
    var query: Query
    /** The address of the current history entry. */
    var href: string
    /** `urlState`. */
    var state: UrlState
    /** `apps`: empty until the list has loaded. */
    var apps: seq<App>

    /** The address bar reads back exactly the state the page holds. */
    predicate Synced()
      reads this
    {
      Canonical(state) && state == Decode(query)
    }

    /** Mounting in the browser: `useState([])` and `useState(getUrlState())`. */
    constructor (pathname: string, query: Query)
      ensures this.pathname == pathname && this.query == query
      ensures href == Href(pathname, query)
      ensures state == Decode(query) && apps == []
    {
      this.pathname := pathname;
      this.query := query;
      href := Href(pathname, query);
      state := GetUrlState(Some(query));
      apps := [];
    }

    /**
     * `updateUrl(newState)`: merge the patch into the state read from the address bar,
     * resolve the conflicts, write the minimal query, push it and keep the merged state.
     */
    method UpdateUrl(newState: Patch)
      modifies this
      ensures state == Resolve(Decode(old(query)), newState)
      ensures query == Encode(state)
      ensures href == Href(pathname, query)
      ensures apps == old(apps)
    {
      var currentState := GetUrlState(Some(query));
      var mergedState := MergeState(currentState, newState);
      var newParams := BuildParams(mergedState);
      var newUrl := Href(pathname, newParams);
      query, state, href := newParams, mergedState, newUrl;
      assert query == newParams && state == mergedState && href == newUrl;
    }

    /**
     * One of the page's own patches. From a synced state with arguments the page can
     * send, the address bar and the state stay in step.
     */
    method Dispatch(i: Intent)
      requires Synced() && UiArgs(i)
      modifies this
      ensures Synced()
      ensures state == Apply(old(state), i)
      ensures query == Encode(state) && href == Href(pathname, query)
      ensures apps == old(apps)
    {
      UpdateUrl(PatchOf(i));
      ApplyThenReload(old(state), i);
    }

    /** `handleDeveloperClick`: show the developer's apps, on All Apps, with no search and no app. */
    method HandleDeveloperClick(developer: string)
      modifies this
      ensures state == Apply(Decode(old(query)), DeveloperClick(developer))
      ensures developer != "" ==> state == UrlState(AllApps, "", NoId, Some(developer))
      ensures query == Encode(state) && href == Href(pathname, query)
      ensures apps == old(apps)
    {
      ghost var before := Decode(query);
      UpdateUrl(PatchOf(DeveloperClick(developer)));
      if developer != "" {
        DeveloperClickResets(before, developer);
      }
    }

    /** The `popstate` listener: the browser has moved to the entry with query `q`; read it. */
    method PopState(q: Query)
      modifies this
      ensures query == q && href == Href(pathname, q)
      ensures state == Decode(q)
      ensures apps == old(apps)
    {
      query := q;
      href := Href(pathname, q);
      state := GetUrlState(Some(q));
    }

    /** `setApps(data)` once the list has loaded. */
    method AppsLoaded(data: seq<App>)
      modifies this
      ensures apps == data
      ensures state == old(state) && query == old(query) && href == old(href)
    {
      apps := data;
    }

    /** `filteredApps`: the loaded apps the current state lists, in their order. */
    function FilteredApps(): (r: seq<App>)
      reads this
      ensures IsSubsequence(r, apps)
    {
      VisibleIsSubsequence(apps, state);
      Visible(apps, state)
    }

    /** `selectedApp`: the first loaded app carrying the selected id, if any. */
    function Selected(): (r: Option<App>)
      reads this
      ensures r.Some? ==> r.value in apps && state.appId == Id(r.value.id)
    {
      SelectedApp(apps, state.appId)
    }
  }
}
