/**
 * `updateUrl`'s state rules: a partial patch is laid over the state read from the
 * address bar, then three conflict rules run in order. Also the six patches the page
 * sends, as named intents.
 */
module Resolver {
  import opened Wrappers
  import opened Catalog
  import opened UrlCodec

  /** A patch field: left out (`undefined`), explicitly `null`, or a value. */
  datatype Field<T> = Absent | Null | Value(v: T)

  /** `Partial<typeof urlState>`: `tab` and `search` are strings, `appId` and `dev` may be null. */
  datatype Patch = Patch(tab: Option<string>, search: Option<string>, appId: Field<int>, dev: Field<string>)

  /** `if (newState.x)` on a string field of the patch. */
  predicate Truthy(x: Option<string>) {
    x.Some? && x.value != ""
  }

  /** `if (newState.dev)`. */
  predicate DevSetTo(x: Field<string>) {
    x.Value? && x.v != ""
  }

  /** `{ ...currentState, ...newState }`: every field the patch holds replaces the current one. */
  function Overlay(current: UrlState, p: Patch): (m: UrlState)
    ensures p.tab.None? ==> m.tab == current.tab
    ensures p.search.None? ==> m.search == current.search
    ensures p.appId.Absent? ==> m.appId == current.appId
    ensures p.dev.Absent? ==> m.dev == current.dev
    ensures p.tab.Some? ==> m.tab == p.tab.value
    ensures p.search.Some? ==> m.search == p.search.value
    ensures p.appId.Null? ==> m.appId == NoId
    ensures p.appId.Value? ==> m.appId == Id(p.appId.v)
    ensures p.dev.Null? ==> m.dev.None?
    ensures p.dev.Value? ==> m.dev == Some(p.dev.v)
  {
    UrlState(
      p.tab.GetOr(current.tab),
      p.search.GetOr(current.search),
      match p.appId
      case Absent => current.appId
      case Null => NoId
      case Value(n) => Id(n),
      match p.dev
      case Absent => current.dev
      case Null => None
      case Value(d) => Some(d))
  }

  /**
   * The merged state of `updateUrl`: the overlay, then (1) an explicit `appId: null`
   * clears `dev`, (2) a truthy `dev` forces All Apps and clears `appId` and `search`,
   * (3) a truthy `tab` or `search` clears `appId`.
   */
  function Resolve(current: UrlState, p: Patch): (r: UrlState)
    ensures p.appId.Null? ==> r.dev.None? && r.appId == NoId
    ensures DevSetTo(p.dev) ==> r.tab == AllApps && r.search == "" && r.appId == NoId
    ensures Truthy(p.tab) || Truthy(p.search) ==> r.appId == NoId
    ensures p == Patch(None, None, Absent, Absent) ==> r == current
  {
    var merged := Overlay(current, p);
    var merged := if p.appId.Null? then merged.(dev := None) else merged;
    var merged := if DevSetTo(p.dev) then merged.(tab := AllApps, appId := NoId, search := "") else merged;
    if Truthy(p.tab) || Truthy(p.search) then merged.(appId := NoId) else merged
  }

  /** The patches the page sends. */
  datatype Intent =
    | DeveloperClick(developer: string)   // a developer name in the details view
    | SearchTyping(text: string)          // the search box
    | TabClick(tab: string)               // a tab of the tab bar
    | ClearDeveloper                      // "Clear Developer Filter"
    | SelectApp(id: int)                  // an app card
    | Back                                // the details view's back button

  function PatchOf(i: Intent): Patch {
    match i
    case DeveloperClick(d) => Patch(None, None, Absent, Value(d))
    case SearchTyping(text) => Patch(None, Some(text), Absent, Null)
    case TabClick(t) => Patch(Some(t), Some(""), Absent, Null)
    case ClearDeveloper => Patch(Some(AllApps), None, Absent, Null)
    case SelectApp(id) => Patch(None, None, Value(id), Absent)
    case Back => Patch(None, None, Null, Absent)
  }

  function Apply(s: UrlState, i: Intent): UrlState {
    Resolve(s, PatchOf(i))
  }

  /** A developer click on a non-empty name gives the same state whatever came before. */
  lemma DeveloperClickResets(s: UrlState, developer: string)
    requires developer != ""
    ensures Apply(s, DeveloperClick(developer)) == UrlState(AllApps, "", NoId, Some(developer))
  {
  }

  /** A click on an empty developer name only stores the (falsy) name. */
  lemma DeveloperClickEmptyName(s: UrlState)
    ensures Apply(s, DeveloperClick("")) == s.(dev := Some(""))
  {
  }

  /** Typing in the search box stores the text and always drops the developer; non-empty text also drops the app. */
  lemma SearchTypingClearsDeveloper(s: UrlState, text: string)
    ensures Apply(s, SearchTyping(text))
         == s.(search := text, dev := None, appId := if text != "" then NoId else s.appId)
  {
  }

  /** A tab click shows that tab alone: no search, no app, no developer. */
  lemma TabClickShowsTab(s: UrlState, tab: string)
    requires tab != ""
    ensures Apply(s, TabClick(tab)) == UrlState(tab, "", NoId, None)
  {
  }

  /** Clearing the developer lands on All Apps and keeps the search. */
  lemma ClearDeveloperShowsAllApps(s: UrlState)
    ensures Apply(s, ClearDeveloper) == s.(tab := AllApps, appId := NoId, dev := None)
  {
  }

  /** Selecting an app changes only the selected id: search and developer stay. */
  lemma SelectAppChangesOnlyId(s: UrlState, id: int)
    ensures Apply(s, SelectApp(id)) == s.(appId := Id(id))
  {
  }

  /** Back clears the app and the developer and keeps tab and search. */
  lemma BackClearsAppAndDeveloper(s: UrlState)
    ensures Apply(s, Back) == s.(appId := NoId, dev := None)
  {
  }

  /**
   * The arguments the address bar can carry faithfully: a tab of the tab bar, a non-empty
   * developer, a non-zero id. The page itself can also send an empty developer or id 0,
   * when the loaded list holds such an app; see the two lemmas below.
   */
  predicate UiArgs(i: Intent) {
    match i
    case DeveloperClick(d) => d != ""
    case TabClick(t) => t in Tabs
    case SelectApp(id) => id != 0
    case _ => true
  }

  /** Every intent the page can send keeps the state one the address bar represents faithfully. */
  lemma ApplyKeepsCanonical(s: UrlState, i: Intent)
    requires Canonical(s) && UiArgs(i)
    ensures Canonical(Apply(s, i))
  {
    match i
    case DeveloperClick(d) => DeveloperClickResets(s, d);
    case SearchTyping(text) => SearchTypingClearsDeveloper(s, text);
    case TabClick(t) => TabClickShowsTab(s, t);
    case ClearDeveloper => ClearDeveloperShowsAllApps(s);
    case SelectApp(id) => SelectAppChangesOnlyId(s, id);
    case Back => BackClearsAppAndDeveloper(s);
  }

  /** A developer filter and a search text do not narrow the view together. */
  predicate ModesExclusive(s: UrlState) {
    !(DevTruthy(s.dev) && s.search != "")
  }

  /**
   * Every intent but SelectApp makes the developer filter and the search exclusive, and
   * SelectApp keeps whatever held before.
   */
  lemma ApplyMakesModesExclusive(s: UrlState, i: Intent)
    requires !i.SelectApp? || ModesExclusive(s)
    ensures ModesExclusive(Apply(s, i))
  {
    match i
    case DeveloperClick(d) =>
      if d == "" { DeveloperClickEmptyName(s); } else { DeveloperClickResets(s, d); }
    case SearchTyping(text) => SearchTypingClearsDeveloper(s, text);
    case TabClick(t) =>
    case ClearDeveloper => ClearDeveloperShowsAllApps(s);
    case SelectApp(id) => SelectAppChangesOnlyId(s, id);
    case Back => BackClearsAppAndDeveloper(s);
  }

  /**
   * After any intent the page can send from a faithfully represented state, the address
   * bar reads back exactly the state the page holds.
   */
  lemma ApplyThenReload(s: UrlState, i: Intent)
    requires Canonical(s) && UiArgs(i)
    ensures Decode(Encode(Apply(s, i))) == Apply(s, i)
  {
    ApplyKeepsCanonical(s, i);
    RoundTrip(Apply(s, i));
  }

  /** Selecting an app with id 0 leaves a state the address bar cannot carry: 0 is falsy. */
  lemma SelectZeroIsLostOnReload(s: UrlState)
    requires Canonical(s)
    ensures Apply(s, SelectApp(0)).appId == Id(0)
    ensures Decode(Encode(Apply(s, SelectApp(0)))) != Apply(s, SelectApp(0))
  {
    SelectAppChangesOnlyId(s, 0);
    ZeroIdIsNotWritten(Apply(s, SelectApp(0)));
  }

  /** A click on an empty developer name stores `""`, which the address bar reads back as null. */
  lemma EmptyDeveloperIsLostOnReload(s: UrlState)
    requires Canonical(s)
    ensures Apply(s, DeveloperClick("")).dev == Some("")
    ensures Decode(Encode(Apply(s, DeveloperClick("")))) != Apply(s, DeveloperClick(""))
  {
    DeveloperClickEmptyName(s);
    DecodeEncode(Apply(s, DeveloperClick("")));
  }
}
